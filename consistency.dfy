/** The three pages keep separate challenge catalogs. The Profile page's catalog
    lists every challenge that the Home and Challenges pages offer, with the same
    title and points, so the points total that those pages store always equals the
    Profile page's "Points from Challenges" figure. */
module CatalogConsistency {
  import opened Completion
  import Storage
  import HomePage
  import ChallengesPage
  import ProfilePage

  /** No id appears twice in the Profile catalog. */
  lemma ProfileIdsDistinct()
    ensures forall i, j :: 0 <= i < j < |ProfilePage.AllChallenges| ==>
      ProfilePage.AllChallenges[i].id != ProfilePage.AllChallenges[j].id
  {
  }

  /** The Profile catalog starts with the five featured challenges of the Home page. */
  lemma HomeCatalogInProfile()
    ensures forall i :: 0 <= i < |HomePage.DailyChallenges| ==>
      var c := HomePage.DailyChallenges[i];
      ProfilePage.AllChallenges[i] == ProfilePage.ChallengeInfo(c.id, c.title, c.points)
  {
  }

  /** ... and continues with the ten challenges of the Challenges page. */
  lemma ChallengesCatalogInProfile()
    ensures forall i :: 0 <= i < |ChallengesPage.AllChallenges| ==>
      var c := ChallengesPage.AllChallenges[i];
      ProfilePage.AllChallenges[|HomePage.DailyChallenges| + i] == ProfilePage.ChallengeInfo(c.id, c.title, c.points)
  {
  }

  /** In a catalog without repeated ids, each entry is the one found for its id. */
  lemma DetailOfEntry(catalog: seq<ProfilePage.ChallengeInfo>, k: nat)
    requires k < |catalog|
    requires forall i, j :: 0 <= i < j < |catalog| ==> catalog[i].id != catalog[j].id
    ensures ProfilePage.ChallengeDetail(catalog, catalog[k].id) == catalog[k]
  {
    var r := ProfilePage.FindChallenge(catalog, catalog[k].id);
    assert r.Some?;
  }

  /** A completion click that one of the two pages offers: a button's id and points. */
  predicate Offered(step: Step)
  {
    || (exists c :: c in HomePage.DailyChallenges && step == (c.id, c.points))
    || (exists c :: c in ChallengesPage.AllChallenges && step == (c.id, c.points))
  }

  /** Each entry of the Profile catalog is the one found for its id. */
  lemma ProfileDetailOf(k: nat)
    requires k < |ProfilePage.AllChallenges|
    ensures ProfilePage.ChallengeDetail(ProfilePage.AllChallenges, ProfilePage.AllChallenges[k].id) ==
            ProfilePage.AllChallenges[k]
  {
    ProfileIdsDistinct();
    DetailOfEntry(ProfilePage.AllChallenges, k);
  }

  lemma HomeOfferResolves(c: HomePage.DailyChallenge)
    requires c in HomePage.DailyChallenges
    ensures ProfilePage.ChallengeDetail(ProfilePage.AllChallenges, c.id) == ProfilePage.ChallengeInfo(c.id, c.title, c.points)
  {
    var i :| 0 <= i < |HomePage.DailyChallenges| && HomePage.DailyChallenges[i] == c;
    HomeCatalogInProfile();
    ProfileDetailOf(i);
  }

  lemma ChallengesOfferResolves(c: ChallengesPage.Challenge)
    requires c in ChallengesPage.AllChallenges
    ensures ProfilePage.ChallengeDetail(ProfilePage.AllChallenges, c.id) == ProfilePage.ChallengeInfo(c.id, c.title, c.points)
  {
    var i :| 0 <= i < |ChallengesPage.AllChallenges| && ChallengesPage.AllChallenges[i] == c;
    ChallengesCatalogInProfile();
    ProfileDetailOf(|HomePage.DailyChallenges| + i);
  }

  /** Every offered click resolves, in the Profile catalog, to an entry with its points. */
  lemma OfferedResolves(step: Step)
    requires Offered(step)
    ensures ProfilePage.ChallengeDetail(ProfilePage.AllChallenges, step.0).points == step.1
  {
    if c :| c in HomePage.DailyChallenges && step == (c.id, c.points) {
      HomeOfferResolves(c);
    } else {
      var c :| c in ChallengesPage.AllChallenges && step == (c.id, c.points);
      ChallengesOfferResolves(c);
    }
  }

  /** For any catalog that prices every click as its button did, the points reached by
      the clicks equal the catalog's sum over the completed ids. */
  lemma {:induction false} ReplayPointsAgree(catalog: seq<ProfilePage.ChallengeInfo>, steps: seq<Step>)
    requires forall i :: 0 <= i < |steps| ==> ProfilePage.ChallengeDetail(catalog, steps[i].0).points == steps[i].1
    ensures Replay(steps).points == ProfilePage.TotalPointsFromChallenges(catalog, Replay(steps).completed)
    decreases |steps|
  {
    if steps != [] {
      var init, last := steps[..|steps| - 1], steps[|steps| - 1];
      ReplayPointsAgree(catalog, init);
      var p := Replay(init);
      if last.0 !in p.completed {
        ProfilePage.TotalPointsFromChallengesAppend(catalog, p.completed, last.0);
      }
    }
  }

  /** Starting from empty storage, whatever buttons of the Home and Challenges pages are
      clicked, the stored points equal the Profile page's "Points from Challenges". */
  lemma {:induction false} StoredPointsMatchProfile(steps: seq<Step>)
    requires forall i :: 0 <= i < |steps| ==> Offered(steps[i])
    ensures Replay(steps).points ==
            ProfilePage.TotalPointsFromChallenges(ProfilePage.AllChallenges, Replay(steps).completed)
  {
    OfferedStepsArePriced(steps);
    ReplayPointsAgree(ProfilePage.AllChallenges, steps);
  }

  /** The same fact read from storage: starting with neither entry stored, after any
      clicks on offered buttons the stored points and the stored list, as a page mounts
      them, agree with the Profile page's "Points from Challenges". */
  lemma StoredEntriesMatchProfile(items: map<string, string>, steps: seq<Step>)
    requires Storage.PointsKey !in items && Storage.CompletedKey !in items
    requires forall i :: 0 <= i < |steps| ==> Offered(steps[i])
    ensures var w := StoredAfter(items, steps);
      && Storage.WellFormed(w)
      && Storage.LoadPoints(w, 0) ==
         ProfilePage.TotalPointsFromChallenges(ProfilePage.AllChallenges, Storage.LoadCompleted(w, []))
  {
    LoadedFromEmpty(items);
    StoredAfterMirrorsReplay(items, steps);
    StoredPointsMatchProfile(steps);
  }

  lemma {:induction false} OfferedStepsArePriced(steps: seq<Step>)
    requires forall i :: 0 <= i < |steps| ==> Offered(steps[i])
    ensures forall i :: 0 <= i < |steps| ==>
      ProfilePage.ChallengeDetail(ProfilePage.AllChallenges, steps[i].0).points == steps[i].1
  {
    forall i | 0 <= i < |steps|
      ensures ProfilePage.ChallengeDetail(ProfilePage.AllChallenges, steps[i].0).points == steps[i].1
    {
      OfferedResolves(steps[i]);
    }
  }
}
