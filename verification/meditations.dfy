/** The guided meditations page: the fixed catalogue, its category list, and
    `filterAndSort`, which filters by category and search text and then moves
    recommended sessions to the top. */
module Meditations {

  import opened Wrappers
  import opened Seqs
  import opened Text

  datatype Category = StressRelief | Sleep | Focus | Gratitude | SelfCompassion

  function CategoryName(c: Category): string {
    match c
    case StressRelief => "Stress Relief"
    case Sleep => "Sleep"
    case Focus => "Focus"
    case Gratitude => "Gratitude"
    case SelfCompassion => "Self-Compassion"
  }

  /** A guided session. `duration` is in minutes; `isRecommended` is optional
      on a catalogue entry and counts as set only when it is `true`. */
  datatype Meditation = Meditation(
    id: string, title: string, description: string, duration: nat, category: Category,
    audioSrc: string, imageHint: string, isRecommended: Option<bool>)

  /** `allMeditations`: no entry sets `isRecommended`. */
  const Catalogue: seq<Meditation> := [
    Meditation("stress-1", "Calm Amidst Chaos", "Find your center even when things feel overwhelming.",
      10, StressRelief, "https://www.soundhelix.com/examples/mp3/SoundHelix-Song-1.mp3", "calm water", None),
    Meditation("sleep-1", "Deep Slumber Journey", "Drift off into a peaceful and restorative sleep.",
      15, Sleep, "https://www.soundhelix.com/examples/mp3/SoundHelix-Song-2.mp3", "night sky stars", None),
    Meditation("focus-1", "Laser Sharp Concentration", "Enhance your focus and productivity for the task ahead.",
      5, Focus, "https://www.soundhelix.com/examples/mp3/SoundHelix-Song-3.mp3", "focused light", None),
    Meditation("gratitude-1", "Heart full of Thanks", "Cultivate a sense of gratitude for the blessings in your life.",
      8, Gratitude, "https://www.soundhelix.com/examples/mp3/SoundHelix-Song-4.mp3", "sunrise warmth", None),
    Meditation("self-compassion-1", "Kindness Within", "Treat yourself with the same kindness you offer others.",
      12, SelfCompassion, "https://www.soundhelix.com/examples/mp3/SoundHelix-Song-5.mp3", "gentle flower", None),
    Meditation("stress-2", "Release Tension", "Let go of physical and mental stress.",
      7, StressRelief, "https://www.soundhelix.com/examples/mp3/SoundHelix-Song-6.mp3", "flowing river", None)
  ]

  const AllCategories: string := "All"

  function CatalogueCategories(): (r: seq<Category>)
    ensures |r| == |Catalogue|
    ensures forall i :: 0 <= i < |r| ==> r[i] == Catalogue[i].category
  {
    seq(|Catalogue|, i requires 0 <= i < |Catalogue| => Catalogue[i].category)
  }

  /** `categories`: "All" followed by the de-duplicated category names. */
  function Categories(): (r: seq<string>)
    ensures |r| >= 1 && r[0] == AllCategories
    ensures Distinct(r[1..])
    ensures forall c :: c in r[1..] ==> exists i :: 0 <= i < |Catalogue| && CategoryName(Catalogue[i].category) == c
  {
    var names := MapSeq(CatalogueCategories(), CategoryName);
    var r := [AllCategories] + Dedup(names);
    assert r[1..] == Dedup(names);
    r
  }

  /** Different categories have different names. */
  lemma CategoryNameInjective(a: Category, b: Category)
    requires a != b
    ensures CategoryName(a) != CategoryName(b)
  {
    var x, y := CategoryName(a), CategoryName(b);
    if |x| == |y| {
      assert {a, b} == {Sleep, Focus};
      assert x[0] != y[0];
    }
  }

  /** The category list is "All" then every category of the catalogue exactly
      once, in order of first appearance. */
  lemma CategoriesInOrder()
    ensures Categories() == ["All", "Stress Relief", "Sleep", "Focus", "Gratitude", "Self-Compassion"]
    ensures Distinct(Categories()[1..])
  {
    CategoriesUnfold();
    CategoryNamesDeduped();
    CategoryListLiteral();
  }

  lemma CategoryListLiteral()
    ensures [AllCategories] + ["Stress Relief", "Sleep", "Focus", "Gratitude", "Self-Compassion"]
      == ["All", "Stress Relief", "Sleep", "Focus", "Gratitude", "Self-Compassion"]
  {
  }

  lemma CategoriesUnfold()
    ensures Categories() == [AllCategories] + Dedup(MapSeq(CatalogueCategories(), CategoryName))
  {
  }

  /** The catalogue's category names without repeats, in order of first appearance. */
  lemma CategoryNamesDeduped()
    ensures Dedup(MapSeq(CatalogueCategories(), CategoryName))
      == ["Stress Relief", "Sleep", "Focus", "Gratitude", "Self-Compassion"]
  {
    CategoryNamesInjective();
    DedupMap(CatalogueCategories(), CategoryName);
    DedupCatalogueCategories();
    CategoryNamesInOrder();
  }

  lemma CategoryNamesInjective()
    ensures forall x, y :: x != y ==> CategoryName(x) != CategoryName(y)
  {
    forall x: Category, y: Category | x != y
      ensures CategoryName(x) != CategoryName(y)
    {
      CategoryNameInjective(x, y);
    }
  }

  lemma CategoryNamesInOrder()
    ensures MapSeq([StressRelief, Sleep, Focus, Gratitude, SelfCompassion], CategoryName)
      == ["Stress Relief", "Sleep", "Focus", "Gratitude", "Self-Compassion"]
  {
  }

  lemma DedupCatalogueCategories()
    ensures Dedup(CatalogueCategories()) == [StressRelief, Sleep, Focus, Gratitude, SelfCompassion]
  {
    assert CatalogueCategories() == [StressRelief, Sleep, Focus, Gratitude, SelfCompassion, StressRelief];
    DedupCategoryLiteral();
  }

  lemma DedupCategoryLiteral()
    ensures Dedup([StressRelief, Sleep, Focus, Gratitude, SelfCompassion, StressRelief])
      == [StressRelief, Sleep, Focus, Gratitude, SelfCompassion]
  {
    var s5 := [StressRelief, Sleep, Focus, Gratitude, SelfCompassion];
    assert Distinct(s5) by {
      forall i, j | 0 <= i < j < |s5|
        ensures s5[i] != s5[j]
      {
        CategoryNameInjective(s5[i], s5[j]);
      }
    }
    DedupOfDistinct(s5);
    assert StressRelief == s5[0];
    DedupSnoc(s5, StressRelief);
    assert s5 + [StressRelief] == [StressRelief, Sleep, Focus, Gratitude, SelfCompassion, StressRelief];
  }

  /** `isRecommended` as a truth value: an absent flag counts as false. */
  predicate Recommended(m: Meditation) {
    m.isRecommended == Some(true)
  }

  function IsRecommended(): Meditation -> bool {
    (m: Meditation) => Recommended(m)
  }

  function IsNotRecommended(): Meditation -> bool {
    (m: Meditation) => !Recommended(m)
  }

  function InCategory(category: string): Meditation -> bool {
    (m: Meditation) => CategoryName(m.category) == category
  }

  function MentionsTerm(term: string): Meditation -> bool {
    (m: Meditation) => Contains(ToLower(m.title), ToLower(term)) || Contains(ToLower(m.description), ToLower(term))
  }

  /** The two filters of `filterAndSort`; "All" and the empty term filter nothing. */
  function Filtered(ms: seq<Meditation>, term: string, category: string): (r: seq<Meditation>)
    ensures |r| <= |ms|
    ensures forall i :: 0 <= i < |r| ==> r[i] in ms
  {
    var byCategory := if category != AllCategories then Filter(ms, InCategory(category)) else ms;
    FilterMembers(ms, InCategory(category));
    FilterMembers(byCategory, MentionsTerm(term));
    var r := if term != [] then Filter(byCategory, MentionsTerm(term)) else byCategory;
    assert forall i :: 0 <= i < |r| ==> r[i] in r;
    r
  }

  /** The condition the two filters impose together. */
  ghost predicate Kept(m: Meditation, term: string, category: string) {
    && (category == AllCategories || CategoryName(m.category) == category)
    && (term == [] || Occurs(ToLower(m.title), ToLower(term)) || Occurs(ToLower(m.description), ToLower(term)))
  }

  function Keeps(term: string, category: string): Meditation -> bool {
    (m: Meditation) =>
      && (category == AllCategories || InCategory(category)(m))
      && (term == [] || MentionsTerm(term)(m))
  }

  lemma KeepsIsKept(m: Meditation, term: string, category: string)
    ensures Keeps(term, category)(m) <==> Kept(m, term, category)
  {
    assert InCategory(category)(m) <==> CategoryName(m.category) == category;
    assert MentionsTerm(term)(m) <==>
      Contains(ToLower(m.title), ToLower(term)) || Contains(ToLower(m.description), ToLower(term));
    ContainsIff(ToLower(m.title), ToLower(term));
    ContainsIff(ToLower(m.description), ToLower(term));
  }

  /** The two filters in a row are one filter. */
  lemma FilteredAsOne(ms: seq<Meditation>, term: string, category: string)
    ensures Filtered(ms, term, category) == Filter(ms, Keeps(term, category))
  {
    var byCategory := if category != AllCategories then Filter(ms, InCategory(category)) else ms;
    var always := (m: Meditation) => true;
    var byTerm := if term != [] then MentionsTerm(term) else always;
    var byCat := if category != AllCategories then InCategory(category) else always;
    FilterAll(ms, always);
    FilterAll(byCategory, always);
    assert byCategory == Filter(ms, byCat);
    assert Filtered(ms, term, category) == Filter(byCategory, byTerm);
    FilterFilter(ms, byCat, byTerm, Keeps(term, category));
  }

  /** A session survives the filters exactly when it is in the chosen category
      (any, for "All") and, for a non-empty term, its lowered title or
      description contains the lowered term; survivors keep their order. */
  lemma FilteredExact(ms: seq<Meditation>, term: string, category: string)
    ensures forall m :: m in Filtered(ms, term, category) <==> m in ms && Kept(m, term, category)
    ensures Subseq(Filtered(ms, term, category), ms)
    ensures forall m ::
      multiset(Filtered(ms, term, category))[m] == if Kept(m, term, category) then multiset(ms)[m] else 0
  {
    FilteredAsOne(ms, term, category);
    FilterCount(ms, Keeps(term, category));
    FilterIsSubseq(ms, Keeps(term, category));
    FilteredMembers(ms, term, category);
    forall m: Meditation
      ensures Keeps(term, category)(m) <==> Kept(m, term, category)
    {
      KeepsIsKept(m, term, category);
    }
  }

  /** Membership alone: a session survives exactly when it passes both tests. */
  lemma FilteredMembers(ms: seq<Meditation>, term: string, category: string)
    ensures forall m :: m in Filtered(ms, term, category) <==> m in ms && Kept(m, term, category)
  {
    FilteredAsOne(ms, term, category);
    FilterMembers(ms, Keeps(term, category));
    forall m: Meditation
      ensures Keeps(term, category)(m) <==> Kept(m, term, category)
    {
      KeepsIsKept(m, term, category);
    }
  }

  /** The stable sort on "recommended first": recommended sessions, then the
      rest, each group in its filtered order. */
  function RecommendedFirst(ms: seq<Meditation>): (r: seq<Meditation>)
    ensures forall i, j :: 0 <= i < j < |r| && Recommended(r[j]) ==> Recommended(r[i])
    ensures multiset(r) == multiset(ms)
  {
    var top := Filter(ms, IsRecommended());
    var rest := Filter(ms, IsNotRecommended());
    FilterMultiset(ms, IsRecommended(), IsNotRecommended());
    FilterMembers(ms, IsRecommended());
    FilterMembers(ms, IsNotRecommended());
    assert forall i :: 0 <= i < |top| ==> top[i] in top;
    assert forall i :: 0 <= i < |rest| ==> rest[i] in rest;
    top + rest
  }

  /** `filterAndSort`. */
  function FilterAndSort(ms: seq<Meditation>, term: string, category: string): (r: seq<Meditation>)
    ensures forall i, j :: 0 <= i < j < |r| && Recommended(r[j]) ==> Recommended(r[i])
    ensures multiset(r) == multiset(Filtered(ms, term, category))
  {
    RecommendedFirst(Filtered(ms, term, category))
  }

  /** The sort is stable: within each group the filtered order is kept. */
  lemma RecommendedFirstStable(ms: seq<Meditation>)
    ensures Filter(RecommendedFirst(ms), IsRecommended()) == Filter(ms, IsRecommended())
    ensures Filter(RecommendedFirst(ms), IsNotRecommended()) == Filter(ms, IsNotRecommended())
  {
    var top := Filter(ms, IsRecommended());
    var rest := Filter(ms, IsNotRecommended());
    FilterMembers(ms, IsRecommended());
    FilterMembers(ms, IsNotRecommended());
    GroupKept(top, rest, IsRecommended(), IsNotRecommended());
    GroupKept(rest, top, IsNotRecommended(), IsRecommended());
    FilterConcat(top, rest, IsNotRecommended());
  }

  /** Filtering `a + b` on `p`, where `p` holds on all of `a` and on none of
      `b`, gives `a` back. */
  lemma GroupKept(a: seq<Meditation>, b: seq<Meditation>, p: Meditation -> bool, q: Meditation -> bool)
    requires forall x :: x in a ==> p(x)
    requires forall x :: x in b ==> q(x)
    requires forall x :: q(x) ==> !p(x)
    ensures Filter(a + b, p) == a
    ensures Filter(b + a, p) == a
  {
    FilterConcat(a, b, p);
    FilterConcat(b, a, p);
    FilterAll(a, p);
    FilterNone(b, p);
  }

  /** Running `filterAndSort` again with the same term and category changes nothing. */
  lemma FilterAndSortIdempotent(ms: seq<Meditation>, term: string, category: string)
    ensures FilterAndSort(FilterAndSort(ms, term, category), term, category) == FilterAndSort(ms, term, category)
  {
    var once := FilterAndSort(ms, term, category);
    FilteredMembers(ms, term, category);
    assert forall m :: m in once ==> m in Filtered(ms, term, category) by {
      forall m | m in once
        ensures m in Filtered(ms, term, category)
      {
        assert m in multiset(once);
      }
    }
    if category != AllCategories {
      FilterAll(once, InCategory(category));
    }
    if term != [] {
      forall m | m in once
        ensures MentionsTerm(term)(m)
      {
        ContainsIff(ToLower(m.title), ToLower(term));
        ContainsIff(ToLower(m.description), ToLower(term));
      }
      FilterAll(once, MentionsTerm(term));
    }
    assert Filtered(once, term, category) == once;
    var f := Filtered(ms, term, category);
    RecommendedFirstStable(f);
    var top := Filter(f, IsRecommended());
    var rest := Filter(f, IsNotRecommended());
    assert RecommendedFirst(once) == Filter(once, IsRecommended()) + Filter(once, IsNotRecommended());
  }

  /** The base list built on every search or category change:
      `isRecommended: m.isRecommended || false`. */
  function BaseCatalogue(): (r: seq<Meditation>)
    ensures |r| == |Catalogue|
  {
    seq(|Catalogue|, i requires 0 <= i < |Catalogue| =>
      var m := Catalogue[i];
      m.(isRecommended := Some(Recommended(m))))
  }

  /** No catalogue entry sets the flag, so every base item is explicitly not
      recommended and the sort leaves the filtered order as it is. */
  lemma BaseCatalogueUnsorted(term: string, category: string)
    ensures forall i :: 0 <= i < |BaseCatalogue()| ==>
      BaseCatalogue()[i] == Catalogue[i].(isRecommended := Some(false))
    ensures FilterAndSort(BaseCatalogue(), term, category) == Filtered(BaseCatalogue(), term, category)
  {
    BaseCatalogueFlags();
    var f := Filtered(BaseCatalogue(), term, category);
    forall m | m in f
      ensures !Recommended(m)
    {
      var i :| 0 <= i < |f| && f[i] == m;
    }
    FilterNone(f, IsRecommended());
    FilterAll(f, IsNotRecommended());
  }

  /** Every base item is its catalogue entry, explicitly not recommended. */
  lemma BaseCatalogueFlags()
    ensures forall i :: 0 <= i < |BaseCatalogue()| ==>
      BaseCatalogue()[i] == Catalogue[i].(isRecommended := Some(false))
    ensures forall m :: m in BaseCatalogue() ==> !Recommended(m)
  {
    assert forall i :: 0 <= i < |Catalogue| ==> Catalogue[i].isRecommended == None;
  }

  /** The placeholder recommendation effect: the first and third catalogue
      entries are flagged as recommended. */
  function SimulatedRecommendations(): (r: seq<Meditation>)
    ensures |r| == |Catalogue|
  {
    var ids := [Catalogue[0].id, Catalogue[2].id];
    seq(|Catalogue|, i requires 0 <= i < |Catalogue| =>
      var m := Catalogue[i];
      m.(isRecommended := Some(m.id in ids)))
  }

  /** The catalogue ids are distinct, so exactly the first and third entries
      carry a recommended id. */
  lemma RecommendedIds()
    ensures forall i :: 0 <= i < |Catalogue| ==>
      (Catalogue[i].id in [Catalogue[0].id, Catalogue[2].id] <==> i == 0 || i == 2)
  {
    var ids := seq(|Catalogue|, i requires 0 <= i < |Catalogue| => Catalogue[i].id);
    assert ids == ["stress-1", "sleep-1", "focus-1", "gratitude-1", "self-compassion-1", "stress-2"];
    assert ids[0][1] == 't' && ids[2][0] == 'f';
    assert ids[1][1] == 'l' && ids[3][0] == 'g' && ids[4][1] == 'e' && ids[5][7] == '2' && ids[0][7] == '1';
  }

  /** With no filter, the two recommended sessions come first and the other
      four follow in catalogue order. */
  lemma SimulatedRecommendationsOrder()
    ensures var r := FilterAndSort(SimulatedRecommendations(), [], AllCategories);
      |r| == 6 &&
      r[0].id == "stress-1" && r[1].id == "focus-1" && r[2].id == "sleep-1" &&
      r[3].id == "gratitude-1" && r[4].id == "self-compassion-1" && r[5].id == "stress-2"
  {
    var s := SimulatedRecommendations();
    var ids := SimulatedIds();
    assert Filtered(s, [], AllCategories) == s;
    SimulatedGroups();
    var r := FilterAndSort(s, [], AllCategories);
    assert r == [s[0], s[2]] + [s[1], s[3], s[4], s[5]];
    assert r[0].id == ids[0] && r[1].id == ids[2] && r[2].id == ids[1];
    assert r[3].id == ids[3] && r[4].id == ids[4] && r[5].id == ids[5];
  }

  /** The ids of the flagged list, in order. */
  lemma SimulatedIds() returns (ids: seq<string>)
    ensures ids == ["stress-1", "sleep-1", "focus-1", "gratitude-1", "self-compassion-1", "stress-2"]
    ensures |SimulatedRecommendations()| == 6
    ensures forall i :: 0 <= i < 6 ==> SimulatedRecommendations()[i].id == ids[i]
  {
    ids := seq(|Catalogue|, i requires 0 <= i < |Catalogue| => Catalogue[i].id);
  }

  lemma SimulatedGroups()
    ensures var s := SimulatedRecommendations();
      && Filter(s, IsRecommended()) == [s[0], s[2]]
      && Filter(s, IsNotRecommended()) == [s[1], s[3], s[4], s[5]]
  {
    var s := SimulatedRecommendations();
    SimulatedFlags();
    var p, q := IsRecommended(), IsNotRecommended();
    assert p(s[0]) && !p(s[1]) && p(s[2]) && !p(s[3]) && !p(s[4]) && !p(s[5]);
    assert !q(s[0]) && q(s[1]) && !q(s[2]) && q(s[3]) && q(s[4]) && q(s[5]);
    PickFirstAndThird(s, p);
    DropFirstAndThird(s, q);
  }

  lemma PickFirstAndThird<T>(s: seq<T>, p: T -> bool)
    requires |s| == 6
    requires p(s[0]) && !p(s[1]) && p(s[2]) && !p(s[3]) && !p(s[4]) && !p(s[5])
    ensures Filter(s, p) == [s[0], s[2]]
  {
    assert s[5..][1..] == [] && s[4..][1..] == s[5..] && s[3..][1..] == s[4..];
    assert s[2..][1..] == s[3..] && s[1..][1..] == s[2..];
    FilterCons(s[5..], p);
    FilterCons(s[4..], p);
    FilterCons(s[3..], p);
    FilterCons(s[2..], p);
    FilterCons(s[1..], p);
    FilterCons(s, p);
  }

  lemma DropFirstAndThird<T>(s: seq<T>, q: T -> bool)
    requires |s| == 6
    requires !q(s[0]) && q(s[1]) && !q(s[2]) && q(s[3]) && q(s[4]) && q(s[5])
    ensures Filter(s, q) == [s[1], s[3], s[4], s[5]]
  {
    assert s[5..][1..] == [];
    FilterCons(s[5..], q);
    assert Filter(s[5..], q) == [s[5]];
    assert s[4..][1..] == s[5..];
    FilterCons(s[4..], q);
    assert Filter(s[4..], q) == [s[4], s[5]];
    assert s[3..][1..] == s[4..];
    FilterCons(s[3..], q);
    assert Filter(s[3..], q) == [s[3], s[4], s[5]];
    assert s[2..][1..] == s[3..];
    FilterCons(s[2..], q);
    assert s[1..][1..] == s[2..];
    FilterCons(s[1..], q);
    assert Filter(s[1..], q) == [s[1], s[3], s[4], s[5]];
    FilterCons(s, q);
  }

  lemma SimulatedFlags()
    ensures var s := SimulatedRecommendations();
      Recommended(s[0]) && !Recommended(s[1]) && Recommended(s[2]) &&
      !Recommended(s[3]) && !Recommended(s[4]) && !Recommended(s[5])
  {
    RecommendedIds();
  }
}
