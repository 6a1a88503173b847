/** The Profile page: the display name, the badges earned from the progress that
    the other pages store, the details and point sum of the completed challenges,
    and the hint for the next badge. */
module ProfilePage {
  import opened Seqs
  import opened JsText
  import opened Storage
  import Json

  /** What a badge counts: completed challenges (no `type` in the catalog) or points. */
  datatype BadgeKind = ChallengeCount | PointTotal

  datatype Badge = Badge(id: string, name: string, description: string, requirement: nat, kind: BadgeKind)

  const Badges: seq<Badge> := [
    Badge("starter", "Eco Beginner", "Complete your first challenge", 1, ChallengeCount),
    Badge("enthusiast", "Green Enthusiast", "Complete 5 challenges", 5, ChallengeCount),
    Badge("warrior", "Eco Warrior", "Complete 10 challenges", 10, ChallengeCount),
    Badge("hero", "Eco Hero", "Complete 15 challenges", 15, ChallengeCount),
    Badge("champion", "Planet Champion", "Complete 20 challenges", 20, ChallengeCount),
    Badge("points50", "Point Collector", "Earn 50 points", 50, PointTotal),
    Badge("points100", "Point Master", "Earn 100 points", 100, PointTotal),
    Badge("points200", "Point Legend", "Earn 200 points", 200, PointTotal)
  ]

  /** The Profile page's own catalog: every challenge the other pages offer. */
  datatype ChallengeInfo = ChallengeInfo(id: string, title: string, points: nat)

  const AllChallenges: seq<ChallengeInfo> := [
    ChallengeInfo("recycle", "Recycle 1 item today", 10),
    ChallengeInfo("bike", "Use a bicycle instead of car", 15),
    ChallengeInfo("water", "Use a reusable water bottle", 8),
    ChallengeInfo("energy", "Turn off lights when leaving room", 5),
    ChallengeInfo("compost", "Start composting organic waste", 12),
    ChallengeInfo("recycle-daily", "Daily Recycling Hero", 15),
    ChallengeInfo("bike-commute", "Eco-Friendly Commute", 20),
    ChallengeInfo("water-bottle", "Plastic-Free Hydration", 10),
    ChallengeInfo("lights-off", "Energy Saver", 8),
    ChallengeInfo("composting", "Composting Champion", 25),
    ChallengeInfo("meatless-meal", "Plant-Based Power", 12),
    ChallengeInfo("short-shower", "Water Conservation", 10),
    ChallengeInfo("local-shopping", "Local Hero", 18),
    ChallengeInfo("reusable-bags", "Bag It Right", 8),
    ChallengeInfo("tree-planting", "Tree Planter", 30)
  ]

  const DefaultUsername := "Eco Friend"
  const UnknownTitle := "Unknown Challenge"

  // ---------------------------------------------------------------- badges

  /** The progress value a badge is measured against. */
  function BadgeProgress(b: Badge, points: nat, count: nat): nat
  {
    if b.kind == PointTotal then points else count
  }

  predicate Earned(b: Badge, points: nat, count: nat)
  {
    BadgeProgress(b, points, count) >= b.requirement
  }

  /** `getEarnedBadges`, for `count` completed challenges. */
  function EarnedBadges(badges: seq<Badge>, points: nat, count: nat): seq<Badge>
  {
    Filter(badges, (b: Badge) => Earned(b, points, count))
  }

  /** The earned badges are the catalog's badges that meet their threshold, in catalog order. */
  lemma EarnedBadgesSpec(badges: seq<Badge>, points: nat, count: nat)
    ensures var r := EarnedBadges(badges, points, count);
      && IsSubsequence(r, badges)
      && (forall b :: b in r <==> b in badges && Earned(b, points, count))
      && (forall b :: multiset(r)[b] == if Earned(b, points, count) then multiset(badges)[b] else 0)
  {
    FilterIsSubsequence(badges, (b: Badge) => Earned(b, points, count));
    FilterMultiset(badges, (b: Badge) => Earned(b, points, count));
  }

  /** More points and more completions never lose a badge. */
  lemma EarnedBadgesMonotone(badges: seq<Badge>, points: nat, count: nat, points': nat, count': nat)
    requires points <= points' && count <= count'
    ensures IsSubsequence(EarnedBadges(badges, points, count), EarnedBadges(badges, points', count'))
  {
    FilterMonotone(badges, (b: Badge) => Earned(b, points, count), (b: Badge) => Earned(b, points', count'));
  }

  // ---------------------------------------------------------------- next badge

  /** One step of `getNextBadge`'s reduce, as written: both gaps are measured against
      the progress value of the candidate `badge`'s kind. */
  function NextBadgeStep(points: nat, count: nat, closest: Badge, badge: Badge): Badge
  {
    var requirement: int := BadgeProgress(badge, points, count);
    var badgeGap := badge.requirement - requirement;
    var closestGap := closest.requirement - requirement;
    if badgeGap > 0 && badgeGap < closestGap then badge else closest
  }

  /** The badges that are not in the earned list, in catalog order. */
  function Unearned(badges: seq<Badge>, points: nat, count: nat): seq<Badge>
  {
    var earned := EarnedBadges(badges, points, count);
    Filter(badges, (b: Badge) => b !in earned)
  }

  /** `getNextBadge`: `None` for `null`. */
  function NextBadge(badges: seq<Badge>, points: nat, count: nat): Option<Badge>
  {
    var unearned := Unearned(badges, points, count);
    if |unearned| == 0 then None
    else Some(Reduce(unearned[0], unearned[1..], (closest, badge) => NextBadgeStep(points, count, closest, badge)))
  }

  /** Not being in the earned list is not meeting the threshold. */
  lemma UnearnedSpec(badges: seq<Badge>, points: nat, count: nat)
    ensures Unearned(badges, points, count) == Filter(badges, (b: Badge) => !Earned(b, points, count))
    ensures forall b :: b in Unearned(badges, points, count) <==> b in badges && !Earned(b, points, count)
  {
    var earned := EarnedBadges(badges, points, count);
    EarnedBadgesSpec(badges, points, count);
    FilterAgree(badges, (b: Badge) => b !in earned, (b: Badge) => !Earned(b, points, count));
  }

  /** As written, the reduce picks the first unearned badge with the smallest requirement:
      for an unearned candidate the first test always holds and the second compares the
      two requirements. */
  lemma {:induction false} NextBadgeIsLeftmostMinRequirement(badges: seq<Badge>, points: nat, count: nat)
    ensures var u := Unearned(badges, points, count);
      NextBadge(badges, points, count) ==
        if u == [] then None else Some(LeftmostMin(u, (b: Badge) => b.requirement as int))
  {
    var u := Unearned(badges, points, count);
    UnearnedSpec(badges, points, count);
    if u != [] {
      var f := (closest, badge) => NextBadgeStep(points, count, closest, badge);
      var key := (b: Badge) => b.requirement as int;
      assert u == [u[0]] + u[1..];
      forall a, b | a in [u[0]] + u[1..] && b in u[1..]
        ensures f(a, b) == if key(b) < key(a) then b else a
      {
        assert b in u;
      }
      ReduceIsLeftmostMin(u[0], u[1..], f, key);
    }
  }

  /** `getNextBadge` is `null` exactly when every badge is earned; otherwise it is an
      unearned badge whose requirement is the smallest among the unearned badges, and
      every unearned badge listed before it has a larger requirement. */
  lemma NextBadgeSpec(badges: seq<Badge>, points: nat, count: nat)
    ensures NextBadge(badges, points, count).None? <==> forall b :: b in badges ==> Earned(b, points, count)
    ensures NextBadge(badges, points, count).Some? ==>
      var r := NextBadge(badges, points, count).value;
      var u := Unearned(badges, points, count);
      && r in badges && !Earned(r, points, count)
      && (forall b :: b in badges && !Earned(b, points, count) ==> r.requirement <= b.requirement)
      && exists k :: 0 <= k < |u| && u[k] == r && forall j :: 0 <= j < k ==> u[j].requirement > r.requirement
  {
    var u := Unearned(badges, points, count);
    UnearnedSpec(badges, points, count);
    NextBadgeIsLeftmostMinRequirement(badges, points, count);
    if u != [] {
      LeftmostMinSpec(u, (b: Badge) => b.requirement as int);
    } else {
      assert forall b :: b in badges ==> Earned(b, points, count);
    }
  }

  /** The catalog lists its badges by increasing requirement. */
  lemma BadgesAscending()
    ensures forall i, j :: 0 <= i < j < |Badges| ==> Badges[i].requirement < Badges[j].requirement
  {
  }

  /** With this catalog the hint is always the first unearned badge in catalog order. */
  lemma NextBadgeIsFirstUnearned(points: nat, count: nat)
    ensures NextBadge(Badges, points, count) == FirstWhere(Badges, (b: Badge) => !Earned(b, points, count))
  {
    var notEarned := (b: Badge) => !Earned(b, points, count);
    var key := (b: Badge) => b.requirement as int;
    var u := Unearned(Badges, points, count);
    UnearnedSpec(Badges, points, count);
    NextBadgeIsLeftmostMinRequirement(Badges, points, count);
    FilterHead(Badges, notEarned);
    if u != [] {
      BadgesAscending();
      FilterHeadMinimal(Badges, notEarned, key);
      LeftmostMinOfMinimalHead(u, key);
    }
  }

  /** With five to nine completions the hint as written is "Eco Warrior" (10 challenges),
      whatever the points: even at 99 points, one short of "Point Master". */
  lemma NextBadgeWithFiveToNineCompletions(points: nat, count: nat)
    requires 5 <= count < 10
    ensures NextBadge(Badges, points, count) == Some(Badges[2])
  {
    FirstUnearnedWithFiveToNineCompletions(points, count);
    NextBadgeIsFirstUnearned(points, count);
  }

  lemma FirstUnearnedWithFiveToNineCompletions(points: nat, count: nat)
    requires 5 <= count < 10
    ensures FirstWhere(Badges, (b: Badge) => !Earned(b, points, count)) == Some(Badges[2])
  {
    var notEarned := (b: Badge) => !Earned(b, points, count);
    assert !notEarned(Badges[0]) && !notEarned(Badges[1]) && notEarned(Badges[2]);
    FirstWhereAt(Badges, notEarned, 2);
  }

  /** The gap a badge still has to close. */
  function Gap(b: Badge, points: nat, count: nat): int
  {
    b.requirement - BadgeProgress(b, points, count)
  }

  /** The reduce step with each gap measured against its own badge's progress. */
  function NextBadgeByGapStep(points: nat, count: nat, closest: Badge, badge: Badge): Badge
  {
    var badgeGap := Gap(badge, points, count);
    var closestGap := Gap(closest, points, count);
    if badgeGap > 0 && badgeGap < closestGap then badge else closest
  }

  /** The hint as evidently intended: the unearned badge closest to being earned. */
  function NextBadgeByGap(badges: seq<Badge>, points: nat, count: nat): Option<Badge>
  {
    var unearned := Unearned(badges, points, count);
    if |unearned| == 0 then None
    else Some(Reduce(unearned[0], unearned[1..], (closest, badge) => NextBadgeByGapStep(points, count, closest, badge)))
  }

  /** The corrected hint is `null` exactly when every badge is earned; otherwise it is an
      unearned badge with the smallest positive gap, and every unearned badge listed
      before it has a larger gap (ties go to the earlier badge). */
  lemma {:induction false} NextBadgeByGapSpec(badges: seq<Badge>, points: nat, count: nat)
    ensures NextBadgeByGap(badges, points, count).None? <==> forall b :: b in badges ==> Earned(b, points, count)
    ensures NextBadgeByGap(badges, points, count).Some? ==>
      var r := NextBadgeByGap(badges, points, count).value;
      var u := Unearned(badges, points, count);
      && r in badges && !Earned(r, points, count) && Gap(r, points, count) > 0
      && (forall b :: b in badges && !Earned(b, points, count) ==> Gap(r, points, count) <= Gap(b, points, count))
      && exists k :: 0 <= k < |u| && u[k] == r &&
           forall j :: 0 <= j < k ==> Gap(u[j], points, count) > Gap(r, points, count)
  {
    var u := Unearned(badges, points, count);
    UnearnedSpec(badges, points, count);
    if u != [] {
      var f := (closest, badge) => NextBadgeByGapStep(points, count, closest, badge);
      var key := (b: Badge) => Gap(b, points, count);
      assert u == [u[0]] + u[1..];
      forall a, b | a in [u[0]] + u[1..] && b in u[1..]
        ensures f(a, b) == if key(b) < key(a) then b else a
      {
        assert b in u;
      }
      ReduceIsLeftmostMin(u[0], u[1..], f, key);
      LeftmostMinSpec(u, key);
    } else {
      assert forall b :: b in badges ==> Earned(b, points, count);
    }
  }

  /** At five completions and 99 points the corrected hint is "Point Master" (gap 1),
      where the code as written shows "Eco Warrior" (gap 5). */
  lemma NextBadgeByGapAt99Points()
    ensures NextBadgeByGap(Badges, 99, 5) == Some(Badges[6])
    ensures NextBadge(Badges, 99, 5) == Some(Badges[2])
    ensures Gap(Badges[6], 99, 5) == 1 && Gap(Badges[2], 99, 5) == 5
  {
    NextBadgeWithFiveToNineCompletions(99, 5);
    CorrectedHintNearPointMaster(99, 5);
  }

  /** With five to nine completions and between 50 and 99 points, the corrected hint is
      "Point Master" as soon as it is strictly closer than "Eco Warrior". */
  lemma CorrectedHintNearPointMaster(points: nat, count: nat)
    requires 5 <= count < 10 && 50 <= points < 100 && 100 - points < 10 - count
    ensures NextBadgeByGap(Badges, points, count) == Some(Badges[6])
  {
    assert Badges[6] in Badges && !Earned(Badges[6], points, count);
    NextBadgeByGapBeats(Badges, points, count, Badges[6]);
    var r := NextBadgeByGap(Badges, points, count).value;
    var k :| 0 <= k < |Badges| && Badges[k] == r;
    OnlyPointMasterThatClose(points, count, k);
  }

  /** The corrected hint is unearned and no farther away than any unearned badge `b`. */
  lemma NextBadgeByGapBeats(badges: seq<Badge>, points: nat, count: nat, b: Badge)
    requires b in badges && !Earned(b, points, count)
    ensures NextBadgeByGap(badges, points, count).Some?
    ensures var r := NextBadgeByGap(badges, points, count).value;
      r in badges && !Earned(r, points, count) && Gap(r, points, count) <= Gap(b, points, count)
  {
    NextBadgeByGapSpec(badges, points, count);
  }

  lemma OnlyPointMasterThatClose(points: nat, count: nat, k: nat)
    requires 5 <= count < 10 && 50 <= points < 100 && 100 - points < 10 - count
    requires k < |Badges| && !Earned(Badges[k], points, count)
    requires Gap(Badges[k], points, count) <= Gap(Badges[6], points, count)
    ensures k == 6
  {
  }

  // ---------------------------------------------------------------- completed details

  /** `ALL_CHALLENGES.find(c => c.id === id)`. */
  function FindChallenge(catalog: seq<ChallengeInfo>, id: string): (r: Option<ChallengeInfo>)
    ensures r.None? <==> forall i :: 0 <= i < |catalog| ==> catalog[i].id != id
    ensures r.Some? ==> exists k :: 0 <= k < |catalog| && catalog[k] == r.value && r.value.id == id &&
                                    forall j :: 0 <= j < k ==> catalog[j].id != id
  {
    FirstWhere(catalog, (c: ChallengeInfo) => c.id == id)
  }

  /** The catalog entry for `id`, or the "Unknown Challenge" placeholder worth 0 points. */
  function ChallengeDetail(catalog: seq<ChallengeInfo>, id: string): (c: ChallengeInfo)
    ensures c.id == id
    ensures (exists i :: 0 <= i < |catalog| && catalog[i].id == id) ==> c in catalog
    ensures (forall i :: 0 <= i < |catalog| ==> catalog[i].id != id) ==> c == ChallengeInfo(id, UnknownTitle, 0)
  {
    match FindChallenge(catalog, id)
    case Some(c) => c
    case None => ChallengeInfo(id, UnknownTitle, 0)
  }

  /** `getCompletedChallengeDetails`: one entry per completed id, in the same order. */
  function CompletedChallengeDetails(catalog: seq<ChallengeInfo>, completed: seq<string>): (details: seq<ChallengeInfo>)
    ensures |details| == |completed|
    ensures forall i :: 0 <= i < |completed| ==> details[i] == ChallengeDetail(catalog, completed[i])
    ensures forall i :: 0 <= i < |completed| ==> details[i].id == completed[i]
  {
    seq(|completed|, i requires 0 <= i < |completed| => ChallengeDetail(catalog, completed[i]))
  }

  /** `details.reduce((sum, c) => sum + c.points, 0)`, summed left to right. */
  function TotalPoints(details: seq<ChallengeInfo>): nat
    decreases |details|
  {
    if details == [] then 0 else TotalPoints(details[..|details| - 1]) + details[|details| - 1].points
  }

  lemma {:induction false} TotalPointsAppend(a: seq<ChallengeInfo>, b: seq<ChallengeInfo>)
    ensures TotalPoints(a + b) == TotalPoints(a) + TotalPoints(b)
    decreases |b|
  {
    if b == [] {
      assert a + b == a;
    } else {
      var init := b[..|b| - 1];
      TotalPointsAppend(a, init);
      assert (a + b)[..|a + b| - 1] == a + init;
    }
  }

  /** `totalPointsFromChallenges`. */
  function TotalPointsFromChallenges(catalog: seq<ChallengeInfo>, completed: seq<string>): nat
  {
    TotalPoints(CompletedChallengeDetails(catalog, completed))
  }

  /** One more completed id adds the points of its catalog entry, and nothing when the
      catalog does not know it. */
  lemma TotalPointsFromChallengesAppend(catalog: seq<ChallengeInfo>, completed: seq<string>, id: string)
    ensures TotalPointsFromChallenges(catalog, completed + [id]) ==
            TotalPointsFromChallenges(catalog, completed) + ChallengeDetail(catalog, id).points
    ensures (forall i :: 0 <= i < |catalog| ==> catalog[i].id != id) ==>
            TotalPointsFromChallenges(catalog, completed + [id]) == TotalPointsFromChallenges(catalog, completed)
  {
    var d := CompletedChallengeDetails(catalog, completed + [id]);
    assert d[..|d| - 1] == CompletedChallengeDetails(catalog, completed);
  }

  // ---------------------------------------------------------------- username

  /** The name the mount effect shows: the stored one when truthy, else "Eco Friend". */
  function LoadUsername(items: map<string, string>): (name: string)
    ensures name != []
    ensures Truthy(Get(items, UsernameKey)) ==> name == items[UsernameKey]
    ensures !Truthy(Get(items, UsernameKey)) ==> name == DefaultUsername
  {
    if Truthy(Get(items, UsernameKey)) then items[UsernameKey] else DefaultUsername
  }

  /** A saved name is the one a later mount shows. */
  lemma LoadUsernameAfterSave(items: map<string, string>, temp: string)
    requires Trim(temp) != []
    ensures LoadUsername(items[UsernameKey := Trim(temp)]) == Trim(temp)
  {
  }

  class Profile {
    var username: string
    var points: nat
    var completedChallenges: seq<string>
    var isEditingUsername: bool
    var tempUsername: string
    const storage: LocalStorage

    /** The page's state right after `useState`, before its mount effect runs. */
    constructor (storage: LocalStorage)
      ensures username == "" && points == 0 && completedChallenges == []
      ensures !isEditingUsername && tempUsername == ""
      ensures this.storage == storage
    {
      username := "";
      points := 0;
      completedChallenges := [];
      isEditingUsername := false;
      tempUsername := "";
      this.storage := storage;
    }

    /** The mount effect: the stored name or "Eco Friend", and each truthy progress entry. */
    method Mount()
      requires WellFormed(storage.items)
      modifies this
      ensures username == LoadUsername(storage.items)
      ensures points == LoadPoints(storage.items, old(points))
      ensures completedChallenges == LoadCompleted(storage.items, old(completedChallenges))
      ensures isEditingUsername == old(isEditingUsername) && tempUsername == old(tempUsername)
    {
      var savedUsername := storage.GetItem(UsernameKey);
      var savedPoints := storage.GetItem(PointsKey);
      var savedCompleted := storage.GetItem(CompletedKey);
      if Truthy(savedUsername) {
        username := savedUsername.value;
      } else {
        username := DefaultUsername;
      }
      if Truthy(savedPoints) {
        points := ParseInt(savedPoints.value).value as nat;
      }
      if Truthy(savedCompleted) {
        completedChallenges := Json.Parse(savedCompleted.value).value;
      }
    }

    /** The pencil button: editing starts from the current name. */
    method StartEditing()
      modifies this
      ensures isEditingUsername && tempUsername == username
      ensures username == old(username) && points == old(points) && completedChallenges == old(completedChallenges)
    {
      isEditingUsername := true;
      tempUsername := username;
    }

    /** Typing in the name field. */
    method SetTempUsername(value: string)
      modifies this
      ensures tempUsername == value
      ensures username == old(username) && isEditingUsername == old(isEditingUsername)
      ensures points == old(points) && completedChallenges == old(completedChallenges)
    {
      tempUsername := value;
    }

    /** The Cancel button: editing ends and the typed name is dropped. */
    method CancelEditing()
      modifies this
      ensures !isEditingUsername && tempUsername == ""
      ensures username == old(username) && points == old(points) && completedChallenges == old(completedChallenges)
    {
      isEditingUsername := false;
      tempUsername := "";
    }

    /** The Save button. A blank name changes nothing; otherwise the trimmed name becomes
        the name, in the page and in storage, and editing ends. */
    method SaveUsername()
      modifies this, storage
      ensures Trim(old(tempUsername)) == [] ==>
        && username == old(username) && tempUsername == old(tempUsername)
        && isEditingUsername == old(isEditingUsername) && storage.items == old(storage.items)
      ensures Trim(old(tempUsername)) != [] ==>
        && username == Trim(old(tempUsername)) && !isEditingUsername && tempUsername == ""
        && storage.items == old(storage.items)[UsernameKey := username]
        && LoadUsername(storage.items) == username
      ensures points == old(points) && completedChallenges == old(completedChallenges)
    {
      var trimmed := Trim(tempUsername);
      if trimmed != [] {
        username := trimmed;
        storage.SetItem(UsernameKey, trimmed);
        isEditingUsername := false;
        tempUsername := "";
      }
    }

    /** The badges the page lists. */
    function ShownEarnedBadges(): seq<Badge>
      reads this
    {
      EarnedBadges(Badges, points, |completedChallenges|)
    }

    /** The "Next Badge" panel. */
    function ShownNextBadge(): Option<Badge>
      reads this
    {
      NextBadge(Badges, points, |completedChallenges|)
    }

    /** The "Points from Challenges" figure. */
    function ShownTotalPointsFromChallenges(): nat
      reads this
    {
      TotalPointsFromChallenges(AllChallenges, completedChallenges)
    }
  }
}
