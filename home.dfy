/** The Home page: five featured daily challenges and the page's own copy of the
    progress, loaded from storage on mount and written back on each "Mark as Done". */
module HomePage {
  import opened Storage
  import opened Completion
  import JsText
  import Json

  datatype DailyChallenge = DailyChallenge(id: string, title: string, points: nat)

  const DailyChallenges: seq<DailyChallenge> := [
    DailyChallenge("recycle", "Recycle 1 item today", 10),
    DailyChallenge("bike", "Use a bicycle instead of car", 15),
    DailyChallenge("water", "Use a reusable water bottle", 8),
    DailyChallenge("energy", "Turn off lights when leaving room", 5),
    DailyChallenge("compost", "Start composting organic waste", 12)
  ]

  /** A featured challenge's button is disabled, and shows "Done", exactly when its id is
      recorded; that is exactly when clicking it would change nothing. */
  lemma DoneButtonDisabledIffInert(p: Progress, c: DailyChallenge)
    ensures c.id in p.completed <==> Complete(p, c.id, c.points) == p
  {
    if c.id !in p.completed {
      assert |Complete(p, c.id, c.points).completed| == |p.completed| + 1;
    }
  }

  class Home {
    var points: nat
    var completedChallenges: seq<string>
    const storage: LocalStorage

    /** The page's state right after `useState`, before its mount effect runs. */
    constructor (storage: LocalStorage)
      ensures points == 0 && completedChallenges == []
      ensures this.storage == storage
    {
      points := 0;
      completedChallenges := [];
      this.storage := storage;
    }

    function Snapshot(): Progress
      reads this
    {
      Progress(points, completedChallenges)
    }

    /** The mount effect: each truthy stored entry replaces the page's value. */
    method Mount()
      requires WellFormed(storage.items)
      modifies this
      ensures points == LoadPoints(storage.items, old(points))
      ensures completedChallenges == LoadCompleted(storage.items, old(completedChallenges))
    {
      var savedPoints := storage.GetItem(PointsKey);
      var savedCompleted := storage.GetItem(CompletedKey);
      if Truthy(savedPoints) {
        points := JsText.ParseInt(savedPoints.value).value as nat;
      }
      if Truthy(savedCompleted) {
        completedChallenges := Json.Parse(savedCompleted.value).value;
      }
    }

    /** The "Mark as Done" button. A recorded id changes nothing, in the page or in
        storage; a new one updates the page by `Complete` and writes both entries,
        after which storage mirrors the page. */
    method MarkChallengeDone(challengeId: string, challengePoints: nat)
      modifies this, storage
      ensures Snapshot() == Complete(old(Snapshot()), challengeId, challengePoints)
      ensures storage.items == if challengeId in old(completedChallenges) then old(storage.items)
                               else WriteProgress(old(storage.items), points, completedChallenges)
      ensures challengeId !in old(completedChallenges) ==> Mirrors(storage.items, Snapshot())
      ensures old(Mirrors(storage.items, Snapshot())) ==> Mirrors(storage.items, Snapshot())
    {
      if challengeId in completedChallenges {
        return;
      }
      var newPoints := points + challengePoints;
      var newCompleted := completedChallenges + [challengeId];
      points := newPoints;
      completedChallenges := newCompleted;
      storage.SetItem(PointsKey, JsText.NumberToString(newPoints));
      storage.SetItem(CompletedKey, Json.Stringify(newCompleted));
      WriteMirrors(old(storage.items), Snapshot());
    }
  }
}
