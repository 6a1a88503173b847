/** The progress that the Home and Challenges pages both keep: the points total
    and the ids of the completed challenges in completion order. Both pages
    complete a challenge by the same rule; it is stated here once, and each page's
    method is proved to follow it. */
module Completion {
  import opened Seqs
  import opened Storage

  datatype Progress = Progress(points: nat, completed: seq<string>)

  /** What `useState(0)` and `useState([])` give a page before its mount effect. */
  const Initial := Progress(0, [])

  /** Completing `id` worth `challengePoints`: nothing happens when `id` is
      already recorded; otherwise the points are added and `id` is appended. */
  function Complete(p: Progress, id: string, challengePoints: nat): (r: Progress)
    ensures id in r.completed
    ensures p.completed <= r.completed && |r.completed| <= |p.completed| + 1
    ensures p.points <= r.points
    ensures NoDup(p.completed) ==> NoDup(r.completed)
  {
    if id in p.completed then p
    else
      assert NoDup(p.completed) ==> NoDup(p.completed + [id]) by {
        if NoDup(p.completed) { NoDupAppend(p.completed, id); }
      }
      Progress(p.points + challengePoints, p.completed + [id])
  }

  /** Completing an id that is already recorded changes nothing. */
  lemma CompleteRecordedIsNoOp(p: Progress, id: string, challengePoints: nat)
    requires id in p.completed
    ensures Complete(p, id, challengePoints) == p
  {
  }

  /** A new id adds exactly its points and goes to the end, earlier entries kept in order. */
  lemma CompleteNewAppends(p: Progress, id: string, challengePoints: nat)
    requires id !in p.completed
    ensures Complete(p, id, challengePoints).points == p.points + challengePoints
    ensures Complete(p, id, challengePoints).completed == p.completed + [id]
  {
  }

  /** Completing the same id twice is completing it once, whatever points the second call offers. */
  lemma CompleteIdempotent(p: Progress, id: string, first: nat, second: nat)
    ensures Complete(Complete(p, id, first), id, second) == Complete(p, id, first)
  {
  }

  /** The state that a fresh page would show after mounting on `items`. */
  function Loaded(items: map<string, string>): Progress
    requires WellFormed(items)
  {
    Progress(LoadPoints(items, Initial.points), LoadCompleted(items, Initial.completed))
  }

  /** Storage mirrors `p`: any page that mounts now sees exactly `p`. */
  predicate Mirrors(items: map<string, string>, p: Progress)
  {
    WellFormed(items) && Loaded(items) == p
  }

  /** With neither entry stored, a page starts from zero points and no completions. */
  lemma LoadedFromEmpty(items: map<string, string>)
    requires PointsKey !in items && CompletedKey !in items
    ensures WellFormed(items) && Loaded(items) == Initial
  {
  }

  /** The two writes of a completion leave storage mirroring the new state. */
  lemma WriteMirrors(items: map<string, string>, p: Progress)
    ensures Mirrors(WriteProgress(items, p.points, p.completed), p)
  {
    LoadAfterWrite(items, p.points, p.completed, Initial.points, Initial.completed);
  }

  /** A sequence of completion clicks, each with the points its button offered. */
  type Step = (string, nat)

  function Ids(steps: seq<Step>): (ids: seq<string>)
    ensures |ids| == |steps| && forall i :: 0 <= i < |steps| ==> ids[i] == steps[i].0
  {
    seq(|steps|, i requires 0 <= i < |steps| => steps[i].0)
  }

  /** The state after the clicks in `steps`, starting from `Initial`. */
  function Replay(steps: seq<Step>): Progress
    decreases |steps|
  {
    if steps == [] then Initial
    else
      var last := steps[|steps| - 1];
      Complete(Replay(steps[..|steps| - 1]), last.0, last.1)
  }

  /** Whatever the clicks, the completion history is the clicked ids without
      repeats, in the order each was first clicked. */
  lemma {:induction false} ReplayCompletedIsDistinct(steps: seq<Step>)
    ensures Replay(steps).completed == Distinct(Ids(steps))
    ensures NoDup(Replay(steps).completed)
    decreases |steps|
  {
    DistinctElements(Ids(steps));
    if steps != [] {
      var init := steps[..|steps| - 1];
      ReplayCompletedIsDistinct(init);
      assert Ids(steps)[..|steps| - 1] == Ids(init);
    }
  }

  /** The storage after the clicks in `steps`, starting from `items`: a click on a
      recorded id writes nothing, a click on a new one writes both entries of the new
      state, as both pages' completion buttons do. */
  function StoredAfter(items: map<string, string>, steps: seq<Step>): map<string, string>
    decreases |steps|
  {
    if steps == [] then items
    else
      var init, last := steps[..|steps| - 1], steps[|steps| - 1];
      var before := StoredAfter(items, init);
      var p := Replay(init);
      if last.0 in p.completed then before
      else
        var q := Complete(p, last.0, last.1);
        WriteProgress(before, q.points, q.completed)
  }

  /** Storage that starts out mirroring the initial state mirrors the replayed state
      after every sequence of clicks. */
  lemma {:induction false} StoredAfterMirrorsReplay(items: map<string, string>, steps: seq<Step>)
    requires Mirrors(items, Initial)
    ensures Mirrors(StoredAfter(items, steps), Replay(steps))
    decreases |steps|
  {
    if steps != [] {
      var init, last := steps[..|steps| - 1], steps[|steps| - 1];
      StoredAfterMirrorsReplay(items, init);
      var p := Replay(init);
      if last.0 !in p.completed {
        WriteMirrors(StoredAfter(items, init), Complete(p, last.0, last.1));
      }
    }
  }
}
