/** The Challenges page: the full challenge catalog, the category filter, the
    capped progress bar and the page's own copy of the progress, which it loads
    from storage on mount and updates and writes back on each completion. */
module ChallengesPage {
  import opened Seqs
  import opened Storage
  import opened Completion
  import JsText
  import Json

  datatype Difficulty = Easy | Medium | Hard

  datatype Challenge = Challenge(id: string, title: string, description: string, points: nat,
                                 difficulty: Difficulty, category: string)

  const AllChallenges: seq<Challenge> := [
    Challenge("recycle-daily", "Daily Recycling Hero",
              "Recycle at least 3 items today (plastic, paper, or glass)", 15, Easy, "Waste"),
    Challenge("bike-commute", "Eco-Friendly Commute",
              "Use bike, walk, or public transport instead of driving", 20, Medium, "Transportation"),
    Challenge("water-bottle", "Plastic-Free Hydration",
              "Use only reusable water bottles for the entire day", 10, Easy, "Lifestyle"),
    Challenge("lights-off", "Energy Saver",
              "Turn off all lights when leaving rooms throughout the day", 8, Easy, "Energy"),
    Challenge("composting", "Composting Champion",
              "Start or maintain a compost bin with organic waste", 25, Hard, "Waste"),
    Challenge("meatless-meal", "Plant-Based Power",
              "Eat at least one plant-based meal today", 12, Easy, "Food"),
    Challenge("short-shower", "Water Conservation",
              "Take a shower under 5 minutes", 10, Medium, "Water"),
    Challenge("local-shopping", "Local Hero",
              "Buy groceries from local farmers market or store", 18, Medium, "Community"),
    Challenge("reusable-bags", "Bag It Right",
              "Use reusable bags for all shopping today", 8, Easy, "Lifestyle"),
    Challenge("tree-planting", "Tree Planter",
              "Plant a tree or support a tree-planting organization", 30, Hard, "Environment")
  ]

  /** The category button that shows every challenge. */
  const AllCategory := "All"

  /** The points total at which the progress bar is full. */
  const MaxPoints: nat := 200

  /** `catalog.map(c => c.category)`. */
  function CategoryNames(catalog: seq<Challenge>): (names: seq<string>)
    ensures |names| == |catalog| && forall i :: 0 <= i < |catalog| ==> names[i] == catalog[i].category
  {
    seq(|catalog|, i requires 0 <= i < |catalog| => catalog[i].category)
  }

  /** The category buttons: `['All', ...new Set(catalog.map(c => c.category))]`. */
  function Categories(catalog: seq<Challenge>): seq<string>
  {
    [AllCategory] + Distinct(CategoryNames(catalog))
  }

  /** The buttons are "All" and then every category of the catalog exactly once, in
      the order in which the categories first appear in the catalog. */
  lemma CategoriesSpec(catalog: seq<Challenge>)
    ensures var r := Categories(catalog);
      && |r| >= 1 && r[0] == AllCategory
      && NoDup(r[1..])
      && (forall i :: 0 <= i < |catalog| ==> catalog[i].category in r[1..])
      && (forall c :: c in r[1..] ==> c in CategoryNames(catalog))
      && (forall i, j :: 1 <= i < j < |r| ==>
            FirstIndex(CategoryNames(catalog), r[i]) < FirstIndex(CategoryNames(catalog), r[j]))
  {
    var names := CategoryNames(catalog);
    var r := Categories(catalog);
    assert r[1..] == Distinct(names);
    DistinctElements(names);
    DistinctOrder(names);
    forall i | 0 <= i < |catalog| ensures catalog[i].category in r[1..] {
      assert names[i] in names;
    }
  }

  /** For this catalog the buttons are the eight categories after "All". */
  lemma CatalogCategories()
    ensures Categories(AllChallenges) ==
      ["All", "Waste", "Transportation", "Lifestyle", "Energy", "Food", "Water", "Community", "Environment"]
  {
    CatalogCategoryNames();
    DistinctOfCatalogCategoryNames();
  }

  lemma CatalogCategoryNames()
    ensures CategoryNames(AllChallenges) ==
      ["Waste", "Transportation", "Lifestyle", "Energy", "Waste", "Food", "Water",
       "Community", "Lifestyle", "Environment"]
  {
  }

  /** Distinct grows one element at a time; the walk is cut in three to stay small. */
  lemma DistinctOfFirstFourCategories()
    ensures Distinct(["Waste", "Transportation", "Lifestyle", "Energy"]) == ["Waste", "Transportation", "Lifestyle", "Energy"]
  {
    var n: seq<string> := [];
    DistinctSnoc(n, "Waste");          n := n + ["Waste"];
    assert Distinct(n) == ["Waste"];
    DistinctSnoc(n, "Transportation"); n := n + ["Transportation"];
    assert Distinct(n) == ["Waste", "Transportation"];
    DistinctSnoc(n, "Lifestyle");      n := n + ["Lifestyle"];
    assert Distinct(n) == ["Waste", "Transportation", "Lifestyle"];
    DistinctSnoc(n, "Energy");         n := n + ["Energy"];
    assert n == ["Waste", "Transportation", "Lifestyle", "Energy"];
  }
  lemma DistinctOfFirstSevenCategories()
    ensures Distinct(["Waste", "Transportation", "Lifestyle", "Energy", "Waste", "Food", "Water"]) == ["Waste", "Transportation", "Lifestyle", "Energy", "Food", "Water"]
  {
    var n: seq<string> := ["Waste", "Transportation", "Lifestyle", "Energy"];
    DistinctOfFirstFourCategories();
    DistinctSnoc(n, "Waste");          n := n + ["Waste"];
    assert Distinct(n) == ["Waste", "Transportation", "Lifestyle", "Energy"];
    DistinctSnoc(n, "Food");           n := n + ["Food"];
    assert Distinct(n) == ["Waste", "Transportation", "Lifestyle", "Energy", "Food"];
    DistinctSnoc(n, "Water");          n := n + ["Water"];
    assert n == ["Waste", "Transportation", "Lifestyle", "Energy", "Waste", "Food", "Water"];
  }
  lemma DistinctOfCatalogCategoryNames()
    ensures Distinct(["Waste", "Transportation", "Lifestyle", "Energy", "Waste", "Food", "Water",
                      "Community", "Lifestyle", "Environment"]) ==
      ["Waste", "Transportation", "Lifestyle", "Energy", "Food", "Water", "Community", "Environment"]
  {
    var n: seq<string> := ["Waste", "Transportation", "Lifestyle", "Energy", "Waste", "Food", "Water"];
    DistinctOfFirstSevenCategories();
    DistinctSnoc(n, "Community");      n := n + ["Community"];
    assert Distinct(n) == ["Waste", "Transportation", "Lifestyle", "Energy", "Food", "Water", "Community"];
    DistinctSnoc(n, "Lifestyle");      n := n + ["Lifestyle"];
    assert Distinct(n) == ["Waste", "Transportation", "Lifestyle", "Energy", "Food", "Water", "Community"];
    DistinctSnoc(n, "Environment");    n := n + ["Environment"];
    assert n == ["Waste", "Transportation", "Lifestyle", "Energy", "Waste", "Food", "Water",
                 "Community", "Lifestyle", "Environment"];
  }

  /** The challenges shown for the selected category button. */
  function FilteredChallenges(catalog: seq<Challenge>, selected: string): seq<Challenge>
  {
    if selected == AllCategory then catalog else Filter(catalog, (c: Challenge) => c.category == selected)
  }

  /** "All" shows the whole catalog; any other category shows exactly the challenges of
      that category, each as often as in the catalog, in catalog order. */
  lemma FilteredChallengesSpec(catalog: seq<Challenge>, selected: string)
    ensures selected == AllCategory ==> FilteredChallenges(catalog, selected) == catalog
    ensures selected != AllCategory ==>
      var r := FilteredChallenges(catalog, selected);
      && (forall c :: c in r <==> c in catalog && c.category == selected)
      && (forall c :: multiset(r)[c] == if c.category == selected then multiset(catalog)[c] else 0)
      && IsSubsequence(r, catalog)
  {
    if selected != AllCategory {
      FilterIsSubsequence(catalog, (c: Challenge) => c.category == selected);
      FilterMultiset(catalog, (c: Challenge) => c.category == selected);
    }
  }

  /** `Math.min((points / maxPoints) * 100, 100)`, over the reals. */
  function ProgressPercentage(points: nat): (pct: real)
    ensures 0.0 <= pct <= 100.0
    ensures pct == 100.0 <==> points >= MaxPoints
    ensures points < MaxPoints ==> pct * 2.0 == points as real
  {
    var ratio := points as real / MaxPoints as real * 100.0;
    if ratio < 100.0 then ratio else 100.0
  }

  /** More points never shrink the bar. */
  lemma ProgressPercentageMonotone(p: nat, q: nat)
    requires p <= q
    ensures ProgressPercentage(p) <= ProgressPercentage(q)
  {
  }

  class Challenges {
    var points: nat
    var completedChallenges: seq<string>
    var selectedCategory: string
    const storage: LocalStorage

    /** The page's state right after `useState`, before its mount effect runs. */
    constructor (storage: LocalStorage)
      ensures points == 0 && completedChallenges == [] && selectedCategory == AllCategory
      ensures this.storage == storage
    {
      points := 0;
      completedChallenges := [];
      selectedCategory := AllCategory;
      this.storage := storage;
    }

    function Snapshot(): Progress
      reads this
    {
      Progress(points, completedChallenges)
    }

    /** The mount effect: each truthy stored entry replaces the page's value. */
    method Mount()
      requires WellFormed(storage.items)
      modifies this
      ensures points == LoadPoints(storage.items, old(points))
      ensures completedChallenges == LoadCompleted(storage.items, old(completedChallenges))
      ensures selectedCategory == old(selectedCategory)
    {
      var savedPoints := storage.GetItem(PointsKey);
      var savedCompleted := storage.GetItem(CompletedKey);
      if Truthy(savedPoints) {
        points := JsText.ParseInt(savedPoints.value).value as nat;
      }
      if Truthy(savedCompleted) {
        completedChallenges := Json.Parse(savedCompleted.value).value;
      }
    }

    /** The "Complete Challenge" button. A recorded id changes nothing, in the page or in
        storage; a new one updates the page by `Complete` and writes both entries, after
        which storage mirrors the page. */
    method CompleteChallenge(challengeId: string, challengePoints: nat)
      modifies this, storage
      ensures Snapshot() == Complete(old(Snapshot()), challengeId, challengePoints)
      ensures storage.items == if challengeId in old(completedChallenges) then old(storage.items)
                               else WriteProgress(old(storage.items), points, completedChallenges)
      ensures selectedCategory == old(selectedCategory)
      ensures challengeId !in old(completedChallenges) ==> Mirrors(storage.items, Snapshot())
      ensures old(Mirrors(storage.items, Snapshot())) ==> Mirrors(storage.items, Snapshot())
    {
      if challengeId in completedChallenges {
        return;
      }
      var newPoints := points + challengePoints;
      var newCompleted := completedChallenges + [challengeId];
      points := newPoints;
      completedChallenges := newCompleted;
      storage.SetItem(PointsKey, JsText.NumberToString(newPoints));
      storage.SetItem(CompletedKey, Json.Stringify(newCompleted));
      WriteMirrors(old(storage.items), Snapshot());
    }

    /** A category button. */
    method SelectCategory(category: string)
      modifies this
      ensures selectedCategory == category && Snapshot() == old(Snapshot())
    {
      selectedCategory := category;
    }
  }
}
