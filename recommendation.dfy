/** `getSmartSkillRecommendations` of src/components/TimeCalculator.tsx: from
    an hour budget `h` and a list of skills, a few picks per hour tier, then
    some language skills, then every other affordable skill by closeness to
    the budget. `Recommend` states the result as a function;
    `GetSmartSkillRecommendations` computes it with the loops of the source. */
module Recommendation {
  import opened Prelude
  import opened Sorting
  import opened Types
  import opened Catalog

  /** The three hour tiers: quick wins, achievable, stretch. */
  datatype Tier = QuickWin | Achievable | Stretch

  /** How many categories of a tier contribute a pick. */
  function Cap(t: Tier): nat {
    match t
    case QuickWin => 3
    case Achievable => 4
    case Stretch => 2
  }

  /** The hour bounds of the tiers: at most `0.3h`; above `0.3h` up to `h`;
      above `h` up to `1.5h`. */
  predicate InTier(t: Tier, h: real, hours: real) {
    match t
    case QuickWin => hours <= h * 0.3
    case Achievable => h * 0.3 < hours <= h
    case Stretch => h < hours <= h * 1.5
  }

  function TierFilter(t: Tier, h: real): Skill -> bool {
    (s: Skill) => InTier(t, h, s.hoursRequired)
  }

  function NotInCategory(c: string): Skill -> bool {
    (s: Skill) => s.category != c
  }

  function Hours(): Skill -> real {
    (s: Skill) => s.hoursRequired
  }

  /** `Math.abs(s.hours_required - target)`. */
  function DistanceTo(target: real): Skill -> real {
    (s: Skill) => Abs(s.hoursRequired - target)
  }

  /** What a tier's group sort orders by: the hours for quick wins and
      stretch, the distance to `0.7h` for achievable. */
  function PickKey(t: Tier, h: real): Skill -> real {
    if t == Achievable then DistanceTo(h * 0.7) else Hours()
  }

  /** The comparator `(a, b) => key(a) - key(b)`. */
  function ByKey(key: Skill -> real): (Skill, Skill) -> bool {
    OrderBy(key, RealLe)
  }

  lemma ByKeyIsTotalPreorder(key: Skill -> real)
    ensures TotalPreorder(ByKey(key))
  {
    RealLeIsTotalPreorder();
    OrderByIsTotalPreorder(key, RealLe);
  }

  /** The head of a group after its sort by `key`, when the group is not
      empty; nothing otherwise. */
  function Pick(members: seq<Skill>, c: string, key: Skill -> real): (r: seq<Skill>)
    ensures |r| <= 1
    ensures forall x :: x in r ==> x in members && x.category == c
  {
    var group := SkillsByCategory(members, c);
    if |group| == 0 then []
    else
      var sorted := Sort(group, ByKey(key));
      assert sorted[0] in group by {
        assert sorted[0] in multiset(sorted);
      }
      [sorted[0]]
  }

  /** `x` is the first element of `group` with the least `key`: what the
      stable sort puts first. */
  ghost predicate IsBestOf(group: seq<Skill>, key: Skill -> real, x: Skill) {
    exists j ::
      && 0 <= j < |group| && group[j] == x
      && (forall k :: 0 <= k < |group| ==> key(x) <= key(group[k]))
      && (forall k :: 0 <= k < j ==> key(x) < key(group[k]))
  }

  /** A category that occurs in `members` yields exactly one pick, the best
      of its group. */
  lemma PickIsBest(members: seq<Skill>, c: string, key: Skill -> real)
    requires c in CategoriesOf(members)
    ensures |Pick(members, c, key)| == 1
    ensures Pick(members, c, key)[0].category == c
    ensures IsBestOf(SkillsByCategory(members, c), key, Pick(members, c, key)[0])
  {
    var group := SkillsByCategory(members, c);
    var s :| s in members && s.category == c;
    assert s in group;
    var le := ByKey(key);
    ByKeyIsTotalPreorder(key);
    SortHead(group, le);
    var j :| FirstMinimum(group, le, j) && Sort(group, le)[0] == group[j];
    var x := group[j];
    assert Pick(members, c, key) == [x];
    assert x.category == c by {
      assert x in group;
    }
    FirstMinimumIsBest(group, key, j);
  }

  /** A group has at most one best element. */
  lemma BestUnique(group: seq<Skill>, key: Skill -> real, x: Skill, y: Skill)
    requires IsBestOf(group, key, x) && IsBestOf(group, key, y)
    ensures x == y
  {
    var i :| && 0 <= i < |group| && group[i] == x
             && (forall k :: 0 <= k < |group| ==> key(x) <= key(group[k]))
             && (forall k :: 0 <= k < i ==> key(x) < key(group[k]));
    var j :| && 0 <= j < |group| && group[j] == y
             && (forall k :: 0 <= k < |group| ==> key(y) <= key(group[k]))
             && (forall k :: 0 <= k < j ==> key(y) < key(group[k]));
    assert key(x) <= key(y) && key(y) <= key(x);
    assert i < j ==> key(y) < key(x);
    assert j < i ==> key(x) < key(y);
  }

  /** A first minimum under the comparator of `key` is a best element. */
  lemma FirstMinimumIsBest(group: seq<Skill>, key: Skill -> real, j: int)
    requires FirstMinimum(group, ByKey(key), j)
    ensures IsBestOf(group, key, group[j])
  {
    var le := ByKey(key);
    var x := group[j];
    assert forall a, b :: le(a, b) == RealLe(key(a), key(b));
    forall k | 0 <= k < |group| ensures key(x) <= key(group[k]) {
      assert le(x, group[k]);
    }
    forall k | 0 <= k < j ensures key(x) < key(group[k]) {
      assert !le(group[k], x);
    }
  }

  /** One pick for each category of `cats` in turn: the body of one of the
      three `for` loops, before the duplicate check. */
  function Bests(members: seq<Skill>, cats: seq<string>, key: Skill -> real): (r: seq<Skill>)
    ensures |r| <= |cats|
    ensures forall x :: x in r ==> x in members && x.category in cats
  {
    if |cats| == 0 then []
    else
      var init := cats[..|cats| - 1];
      assert forall c :: c in init ==> c in cats;
      Bests(members, init, key) + Pick(members, cats[|cats| - 1], key)
  }

  /** One more category: its pick, if any, goes last. */
  lemma BestsSnoc(members: seq<Skill>, cats: seq<string>, c: string, key: Skill -> real)
    ensures Bests(members, cats + [c], key) == Bests(members, cats, key) + Pick(members, c, key)
  {
    assert (cats + [c])[..|cats|] == cats;
  }

  /** When every category occurs in `members`, the `i`-th pick is the best
      skill of the `i`-th category. */
  lemma {:induction false} BestsSpec(members: seq<Skill>, cats: seq<string>, key: Skill -> real)
    requires forall c :: c in cats ==> c in CategoriesOf(members)
    ensures |Bests(members, cats, key)| == |cats|
    ensures forall i :: 0 <= i < |cats| ==>
      && Bests(members, cats, key)[i].category == cats[i]
      && IsBestOf(SkillsByCategory(members, cats[i]), key, Bests(members, cats, key)[i])
  {
    if |cats| > 0 {
      var init := cats[..|cats| - 1];
      var c := cats[|cats| - 1];
      assert forall c' :: c' in init ==> c' in cats;
      BestsSpec(members, init, key);
      PickIsBest(members, c, key);
      var b := Bests(members, init, key);
      var r := Bests(members, cats, key);
      var p := Pick(members, c, key);
      assert r == b + p;
      assert |b| == |init| && |p| == 1;
      assert r[|init|] == p[0];
      forall i | 0 <= i < |cats|
        ensures r[i].category == cats[i] && IsBestOf(SkillsByCategory(members, cats[i]), key, r[i])
      {
        if i < |init| {
          assert r[i] == b[i] && cats[i] == init[i];
        } else {
          assert i == |init|;
        }
      }
    }
  }

  /** `recommendations.push(p)` for each pick `p` in turn; with `dedupe`, a
      pick whose id is already among the recommendations is skipped. */
  function AddPicks(acc: seq<Skill>, picks: seq<Skill>, dedupe: bool): (r: seq<Skill>)
    ensures acc <= r
    ensures forall x :: x in r ==> x in acc || x in picks
    ensures !dedupe ==> r == acc + picks
  {
    if |picks| == 0 then acc
    else
      var init := picks[..|picks| - 1];
      var p := picks[|picks| - 1];
      assert picks == init + [p];
      var a := AddPicks(acc, init, dedupe);
      if dedupe && HasId(a, p.id) then a else a + [p]
  }

  /** Pushing one more pick. */
  lemma AddPicksSnoc(acc: seq<Skill>, picks: seq<Skill>, p: Skill, dedupe: bool)
    ensures AddPicks(acc, picks + [p], dedupe) ==
      if dedupe && HasId(AddPicks(acc, picks, dedupe), p.id) then AddPicks(acc, picks, dedupe)
      else AddPicks(acc, picks, dedupe) + [p]
  {
    assert (picks + [p])[..|picks|] == picks;
  }

  /** With the duplicate check, picks never repeat an element. */
  lemma {:induction false} AddPicksDistinct(acc: seq<Skill>, picks: seq<Skill>)
    requires Distinct(acc)
    ensures Distinct(AddPicks(acc, picks, true))
  {
    if |picks| > 0 {
      var init := picks[..|picks| - 1];
      var p := picks[|picks| - 1];
      AddPicksDistinct(acc, init);
      var a := AddPicks(acc, init, true);
      if !HasId(a, p.id) {
        assert p !in a;
        DistinctAppend(a, [p]);
      }
    }
  }

  /** When no pick shares an id with an earlier one or with `acc`, the
      duplicate check skips nothing. */
  lemma {:induction false} AddPicksKeepsAll(acc: seq<Skill>, picks: seq<Skill>, dedupe: bool)
    requires UniqueIds(picks)
    requires forall p :: p in picks ==> !HasId(acc, p.id)
    ensures AddPicks(acc, picks, dedupe) == acc + picks
  {
    if |picks| > 0 {
      var init := picks[..|picks| - 1];
      var p := picks[|picks| - 1];
      UniqueIdsSplit(picks);
      AddPicksKeepsAll(acc, init, dedupe);
      AddPicksKeepsLast(acc, init, p, dedupe);
      assert picks == init + [p];
    }
  }

  /** A last pick whose id is new is pushed. */
  lemma AddPicksKeepsLast(acc: seq<Skill>, init: seq<Skill>, p: Skill, dedupe: bool)
    requires AddPicks(acc, init, dedupe) == acc + init
    requires !HasId(acc, p.id) && forall q :: q in init ==> q.id != p.id
    ensures AddPicks(acc, init + [p], dedupe) == acc + (init + [p])
  {
    HasIdAppend(acc, init, p.id);
    AddPicksSnoc(acc, init, p, dedupe);
    assert (acc + init) + [p] == acc + (init + [p]);
  }

  /** Dropping the last of picks with unique ids leaves unique ids, none of
      them the id of the last. */
  lemma UniqueIdsSplit(picks: seq<Skill>)
    requires UniqueIds(picks) && |picks| > 0
    ensures UniqueIds(picks[..|picks| - 1])
    ensures forall q :: q in picks[..|picks| - 1] ==> q in picks && q.id != picks[|picks| - 1].id
  {
  }

  /** An id occurs in a concatenation exactly when it occurs in one part. */
  lemma HasIdAppend(xs: seq<Skill>, ys: seq<Skill>, id: string)
    ensures HasId(xs + ys, id) <==> HasId(xs, id) || HasId(ys, id)
  {
    if HasId(xs + ys, id) {
      var r :| r in xs + ys && r.id == id;
    }
    if HasId(ys, id) {
      var r :| r in ys && r.id == id;
      assert r in xs + ys;
    }
  }

  /** The skills of tier `t` among `others`. */
  function TierMembers(t: Tier, h: real, others: seq<Skill>): (r: seq<Skill>)
    ensures forall s :: s in r <==> s in others && InTier(t, h, s.hoursRequired)
  {
    Filter(others, TierFilter(t, h))
  }

  /** The categories a tier loop visits: `Object.keys(groups)` up to the
      loop bound. They are distinct categories of the tier's members, the
      earliest-appearing ones first, at most `Cap(t)` of them, and all of
      them when the cap is not reached. */
  function TierCategories(t: Tier, h: real, others: seq<Skill>): (cats: seq<string>)
    ensures Distinct(cats)
    ensures |cats| <= Cap(t)
    ensures cats <= CategoriesOf(TierMembers(t, h, others))
    ensures forall c :: c in cats ==> exists s :: s in TierMembers(t, h, others) && s.category == c
    ensures |cats| < Cap(t) ==> forall s :: s in TierMembers(t, h, others) ==> s.category in cats
  {
    var all := CategoriesOf(TierMembers(t, h, others));
    var n := Min(Cap(t), |all|);
    DistinctPrefix(all, n);
    PrefixElements(all, n);
    assert n < Cap(t) ==> all[..n] == all;
    all[..n]
  }

  /** The picks of tier `t`, before the duplicate check. */
  function TierBests(t: Tier, h: real, others: seq<Skill>): (r: seq<Skill>)
    ensures forall x :: x in r ==> x in others && InTier(t, h, x.hoursRequired)
  {
    Bests(TierMembers(t, h, others), TierCategories(t, h, others), PickKey(t, h))
  }

  /** The picks of one tier: at most `Cap(t)` of them, from distinct
      categories taken in order of first appearance in the tier, each the
      first skill of its category with the least key (the hours, or the
      distance to `0.7h` for achievable). */
  lemma TierBestsSpec(t: Tier, h: real, others: seq<Skill>)
    ensures |TierBests(t, h, others)| == Min(Cap(t), |CategoriesOf(TierMembers(t, h, others))|)
    ensures forall i :: 0 <= i < |TierBests(t, h, others)| ==>
      TierBests(t, h, others)[i].category == CategoriesOf(TierMembers(t, h, others))[i]
    ensures forall i :: 0 <= i < |TierBests(t, h, others)| ==>
      IsBestOf(SkillsByCategory(TierMembers(t, h, others), TierBests(t, h, others)[i].category),
               PickKey(t, h), TierBests(t, h, others)[i])
  {
    var members := TierMembers(t, h, others);
    BestsOfFirstCategories(members, Min(Cap(t), |CategoriesOf(members)|), PickKey(t, h));
  }

  /** The picks for the first `n` categories of `members`. */
  lemma BestsOfFirstCategories(members: seq<Skill>, n: nat, key: Skill -> real)
    requires n <= |CategoriesOf(members)|
    ensures |Bests(members, CategoriesOf(members)[..n], key)| == n
    ensures forall i :: 0 <= i < n ==>
      Bests(members, CategoriesOf(members)[..n], key)[i].category == CategoriesOf(members)[i]
    ensures forall i :: 0 <= i < n ==>
      IsBestOf(SkillsByCategory(members, Bests(members, CategoriesOf(members)[..n], key)[i].category),
               key, Bests(members, CategoriesOf(members)[..n], key)[i])
  {
    PrefixElements(CategoriesOf(members), n);
    BestsSpec(members, CategoriesOf(members)[..n], key);
  }

  /** The picks of one tier are pairwise distinct, their categories being
      distinct. */
  lemma TierBestsDistinct(t: Tier, h: real, others: seq<Skill>)
    ensures Distinct(TierBests(t, h, others))
  {
    var r := TierBests(t, h, others);
    var all := CategoriesOf(TierMembers(t, h, others));
    TierBestsSpec(t, h, others);
    forall i, j | 0 <= i < j < |r| ensures r[i] != r[j] {
      assert r[i].category == all[i] && r[j].category == all[j];
    }
  }

  /** The three tier loops one after the other; the quick-win loop has no
      duplicate check. */
  function TierPicks(h: real, others: seq<Skill>): (r: seq<Skill>)
    ensures forall x :: x in r ==>
      (&& x in others
       && (InTier(QuickWin, h, x.hoursRequired) || InTier(Achievable, h, x.hoursRequired) || InTier(Stretch, h, x.hoursRequired)))
  {
    var quick := AddPicks([], TierBests(QuickWin, h, others), false);
    var achievable := AddPicks(quick, TierBests(Achievable, h, others), true);
    AddPicks(achievable, TierBests(Stretch, h, others), true)
  }

  function NonLanguages(all: seq<Skill>): seq<Skill> {
    Filter(all, NotInCategory(LANGUAGES))
  }

  /** `Math.floor(h / 300)`. */
  function LanguageQuota(h: real): int {
    (h / 300.0).Floor
  }

  /** `languageSkills.slice(0, Math.floor(h / 300))`: the first language
      skills, one per 300 hours of a non-negative budget. */
  function SelectedLanguages(h: real, all: seq<Skill>): (r: seq<Skill>)
    ensures forall x :: x in r ==> x in all && x.category == LANGUAGES
    ensures h >= 0.0 ==> r == SkillsByCategory(all, LANGUAGES)[..Min(LanguageQuota(h), |SkillsByCategory(all, LANGUAGES)|)]
  {
    var langs := SkillsByCategory(all, LANGUAGES);
    var r := SliceTo(langs, LanguageQuota(h));
    assert forall x :: x in r ==> x in langs;
    r
  }

  function NotChosen(chosen: seq<Skill>): Skill -> bool {
    (s: Skill) => !HasId(chosen, s.id)
  }

  function WithinBudget(h: real): Skill -> bool {
    (s: Skill) => s.hoursRequired <= h
  }

  /** The skills the tail is made of: those of `others`, in their order,
      whose id is not chosen yet and whose hours fit the budget. */
  function TailCandidates(h: real, others: seq<Skill>, chosen: seq<Skill>): (r: seq<Skill>)
    ensures forall s :: s in r <==> s in others && !HasId(chosen, s.id) && s.hoursRequired <= h
  {
    Filter(Filter(others, NotChosen(chosen)), WithinBudget(h))
  }

  /** `remaining`: the tail candidates sorted by the distance of their hours
      to `h`. */
  function Tail(h: real, others: seq<Skill>, chosen: seq<Skill>): (r: seq<Skill>)
    ensures forall s :: s in r <==> s in others && !HasId(chosen, s.id) && s.hoursRequired <= h
  {
    var candidates := TailCandidates(h, others, chosen);
    var r := Sort(candidates, ByKey(DistanceTo(h)));
    SortSameElements(candidates, ByKey(DistanceTo(h)));
    r
  }

  /** The tier picks followed by the selected language skills. */
  function Chosen(h: real, all: seq<Skill>): seq<Skill> {
    TierPicks(h, NonLanguages(all)) + SelectedLanguages(h, all)
  }

  /** The recommendation list for budget `h`: every recommendation is one
      of the given skills. */
  function Recommend(h: real, all: seq<Skill>): (r: seq<Skill>)
    ensures forall s :: s in r ==> s in all
  {
    if h == 0.0 then []
    else
      var chosen := Chosen(h, all);
      assert forall s :: s in NonLanguages(all) ==> s in all;
      assert forall s :: s in chosen ==> s in all;
      chosen + Tail(h, NonLanguages(all), chosen)
  }

  /** A zero budget recommends nothing, whatever the skills. */
  lemma ZeroBudgetEmpty(all: seq<Skill>)
    ensures Recommend(0.0, all) == []
  {
  }

  /** No tier pick and no tail skill is a language skill. */
  lemma PartsOutsideLanguages(h: real, all: seq<Skill>)
    ensures forall s :: s in TierPicks(h, NonLanguages(all)) ==> s.category != LANGUAGES
    ensures forall s :: s in Tail(h, NonLanguages(all), Chosen(h, all)) ==> s.category != LANGUAGES
  {
  }

  /** The result is the tier picks, then the selected language skills, then
      the tail. */
  lemma RecommendParts(h: real, all: seq<Skill>)
    requires h != 0.0
    ensures Recommend(h, all) ==
      TierPicks(h, NonLanguages(all)) + SelectedLanguages(h, all) + Tail(h, NonLanguages(all), Chosen(h, all))
  {
  }

  /** The language skills of the result are the selected ones, and sit as
      one block between the tier picks and the tail, which hold none. */
  lemma LanguageBlock(h: real, all: seq<Skill>)
    requires h != 0.0
    ensures Recommend(h, all)[|TierPicks(h, NonLanguages(all))|..|Chosen(h, all)|] == SelectedLanguages(h, all)
    ensures forall i :: 0 <= i < |TierPicks(h, NonLanguages(all))| ==> Recommend(h, all)[i].category != LANGUAGES
    ensures forall i :: |Chosen(h, all)| <= i < |Recommend(h, all)| ==> Recommend(h, all)[i].category != LANGUAGES
  {
    var picks := TierPicks(h, NonLanguages(all));
    var langs := SelectedLanguages(h, all);
    var tail := Tail(h, NonLanguages(all), Chosen(h, all));
    RecommendParts(h, all);
    PartsOutsideLanguages(h, all);
    BlockOf(picks, langs, tail, LANGUAGES);
  }

  /** When the outer parts of a concatenation hold nothing of category `c`,
      the middle part sits in its own positions and the outer positions hold
      nothing of category `c`. */
  lemma BlockOf(picks: seq<Skill>, langs: seq<Skill>, tail: seq<Skill>, c: string)
    requires forall s :: s in picks ==> s.category != c
    requires forall s :: s in tail ==> s.category != c
    ensures (picks + langs + tail)[|picks|..|picks + langs|] == langs
    ensures forall i :: 0 <= i < |picks| ==> (picks + langs + tail)[i].category != c
    ensures forall i :: |picks + langs| <= i < |picks + langs + tail| ==> (picks + langs + tail)[i].category != c
  {
    var r := picks + langs + tail;
    forall i | 0 <= i < |picks| ensures r[i].category != c {
      assert r[i] == picks[i];
    }
    forall i | |picks + langs| <= i < |r| ensures r[i].category != c {
      assert r[i] == tail[i - |picks| - |langs|];
    }
  }

  /** The language skills of the result are exactly the selected ones; for
      a non-negative budget there are `min(floor(h/300), |languages|)` of
      them, the first ones in catalog order. */
  lemma LanguageCount(h: real, all: seq<Skill>)
    ensures SkillsByCategory(Recommend(h, all), LANGUAGES) == SelectedLanguages(h, all)
    ensures h >= 0.0 ==>
      |SkillsByCategory(Recommend(h, all), LANGUAGES)| == Min(LanguageQuota(h), |SkillsByCategory(all, LANGUAGES)|)
  {
    if h == 0.0 {
      assert LanguageQuota(h) == 0;
      assert SelectedLanguages(h, all) == [];
    } else {
      RecommendParts(h, all);
      PartsOutsideLanguages(h, all);
      OnlyMiddleInCategory(TierPicks(h, NonLanguages(all)), SelectedLanguages(h, all),
                           Tail(h, NonLanguages(all), Chosen(h, all)), LANGUAGES);
    }
  }

  /** When only the middle part of a concatenation is in category `c`,
      filtering by `c` gives the middle part. */
  lemma OnlyMiddleInCategory(picks: seq<Skill>, middle: seq<Skill>, tail: seq<Skill>, c: string)
    requires forall s :: s in picks ==> s.category != c
    requires forall s :: s in middle ==> s.category == c
    requires forall s :: s in tail ==> s.category != c
    ensures SkillsByCategory(picks + middle + tail, c) == middle
  {
    FilterAppend(picks + middle, tail, InCategory(c));
    FilterAppend(picks, middle, InCategory(c));
    FilterNone(picks, InCategory(c));
    FilterNone(tail, InCategory(c));
    FilterAll(middle, InCategory(c));
    assert [] + middle + [] == middle;
  }

  /** For a positive budget a number of hours lies in at most one tier, and
      in one exactly when it is at most `1.5h`. */
  lemma TiersDisjoint(h: real, hours: real)
    requires h > 0.0
    ensures forall t1, t2 :: InTier(t1, h, hours) && InTier(t2, h, hours) ==> t1 == t2
    ensures hours <= h * 1.5 <==>
      InTier(QuickWin, h, hours) || InTier(Achievable, h, hours) || InTier(Stretch, h, hours)
  {
  }

  /** For a non-negative budget, no recommended non-language skill needs
      more than `1.5h` hours, and none of the tail more than `h`. */
  lemma WithinStretchBound(h: real, all: seq<Skill>)
    requires h >= 0.0
    ensures forall s :: s in Recommend(h, all) && s.category != LANGUAGES ==> s.hoursRequired <= h * 1.5
    ensures forall s :: s in Tail(h, NonLanguages(all), Chosen(h, all)) ==> s.hoursRequired <= h
  {
    if h != 0.0 {
      var picks := TierPicks(h, NonLanguages(all));
      var langs := SelectedLanguages(h, all);
      var tail := Tail(h, NonLanguages(all), Chosen(h, all));
      RecommendParts(h, all);
      TierPicksWithinStretch(h, NonLanguages(all));
      assert forall s :: s in tail ==> s.hoursRequired <= h * 1.5;
      assert forall s :: s in langs ==> s.category == LANGUAGES;
      InThreeParts(picks, langs, tail);
    }
  }

  /** Every tier pick of a positive budget takes at most `1.5h`. */
  lemma TierPicksWithinStretch(h: real, others: seq<Skill>)
    requires h > 0.0
    ensures forall s :: s in TierPicks(h, others) ==> s.hoursRequired <= h * 1.5
  {
    forall s | s in TierPicks(h, others) ensures s.hoursRequired <= h * 1.5 {
      TiersDisjoint(h, s.hoursRequired);
    }
  }

  /** An element of a concatenation of three parts is in one of them. */
  lemma InThreeParts(a: seq<Skill>, b: seq<Skill>, c: seq<Skill>)
    ensures forall s :: s in a + b + c ==> s in a || s in b || s in c
  {
  }

  /** The tail is ordered by the distance of its hours to `h`, keeps the
      catalog order among equal distances, and is a permutation of the
      unselected affordable non-language skills. */
  lemma TailOrder(h: real, all: seq<Skill>, y: Skill)
    ensures SortedBy(Tail(h, NonLanguages(all), Chosen(h, all)), ByKey(DistanceTo(h)))
    ensures
      var le := ByKey(DistanceTo(h));
      Filter(Tail(h, NonLanguages(all), Chosen(h, all)), EquivalentTo(le, y))
        == Filter(TailCandidates(h, NonLanguages(all), Chosen(h, all)), EquivalentTo(le, y))
    ensures multiset(Tail(h, NonLanguages(all), Chosen(h, all)))
         == multiset(TailCandidates(h, NonLanguages(all), Chosen(h, all)))
  {
    var le := ByKey(DistanceTo(h));
    var candidates := TailCandidates(h, NonLanguages(all), Chosen(h, all));
    ByKeyIsTotalPreorder(DistanceTo(h));
    SortSorted(candidates, le);
    SortStable(candidates, le, y);
  }

  /** Distinct input gives distinct recommendations. */
  lemma RecommendDistinct(h: real, all: seq<Skill>)
    requires Distinct(all)
    ensures Distinct(Recommend(h, all))
  {
    if h != 0.0 {
      var others := NonLanguages(all);
      FilterDistinct(all, NotInCategory(LANGUAGES));
      FilterDistinct(all, InCategory(LANGUAGES));
      TierBestsDistinct(QuickWin, h, others);
      var quick := AddPicks([], TierBests(QuickWin, h, others), false);
      var achievable := AddPicks(quick, TierBests(Achievable, h, others), true);
      AddPicksDistinct(quick, TierBests(Achievable, h, others));
      AddPicksDistinct(achievable, TierBests(Stretch, h, others));
      var picks := TierPicks(h, others);
      var langs := SelectedLanguages(h, all);
      DistinctPrefix(SkillsByCategory(all, LANGUAGES), |langs|);
      assert forall s :: s in picks ==> s !in langs;
      DistinctAppend(picks, langs);
      var chosen := Chosen(h, all);
      var candidates := TailCandidates(h, others, chosen);
      FilterDistinct(others, NotChosen(chosen));
      FilterDistinct(Filter(others, NotChosen(chosen)), WithinBudget(h));
      SortDistinct(candidates, ByKey(DistanceTo(h)));
      var tail := Tail(h, others, chosen);
      assert forall s :: s in chosen ==> s !in tail;
      DistinctAppend(chosen, tail);
    }
  }

  /** With unique ids, no two positions of `all` hold the same skill. */
  lemma UniqueIdsDistinct(all: seq<Skill>)
    requires UniqueIds(all)
    ensures Distinct(all)
  {
  }

  /** With unique ids, a skill of `all` is determined by its id. */
  lemma SameIdSameSkill(all: seq<Skill>, x: Skill, y: Skill)
    requires UniqueIds(all) && x in all && y in all && x.id == y.id
    ensures x == y
  {
    var p :| 0 <= p < |all| && all[p] == x;
    var q :| 0 <= q < |all| && all[q] == y;
    assert !(p < q) && !(q < p);
  }

  /** Distinct skills drawn from a list with unique ids have unique ids. */
  lemma DistinctSubsetUniqueIds(r: seq<Skill>, all: seq<Skill>)
    requires UniqueIds(all) && Distinct(r)
    requires forall x :: x in r ==> x in all
    ensures UniqueIds(r)
  {
    forall i, j | 0 <= i < j < |r| ensures r[i].id != r[j].id {
      if r[i].id == r[j].id {
        SameIdSameSkill(all, r[i], r[j]);
      }
    }
  }

  /** If the input ids are unique, so are the recommended ones. */
  lemma RecommendUniqueIds(h: real, all: seq<Skill>)
    requires UniqueIds(all)
    ensures UniqueIds(Recommend(h, all))
  {
    UniqueIdsDistinct(all);
    RecommendDistinct(h, all);
    DistinctSubsetUniqueIds(Recommend(h, all), all);
  }

  /** With unique ids, two lists of skills of `all` that share no skill
      share no id. */
  lemma NoSharedId(q: seq<Skill>, a: seq<Skill>, all: seq<Skill>)
    requires UniqueIds(all)
    requires forall x :: x in q ==> x in all
    requires forall p :: p in a ==> p in all && p !in q
    ensures forall p :: p in a ==> !HasId(q, p.id)
  {
    forall p | p in a ensures !HasId(q, p.id) {
      if HasId(q, p.id) {
        var x: Skill :| x in q && x.id == p.id;
        SameIdSameSkill(all, x, p);
      }
    }
  }

  /** The picks of a tier, as skills of `all` with unique ids. */
  lemma TierBestsUniqueIds(t: Tier, h: real, all: seq<Skill>)
    requires UniqueIds(all)
    ensures UniqueIds(TierBests(t, h, NonLanguages(all)))
    ensures forall x :: x in TierBests(t, h, NonLanguages(all)) ==> x in all
  {
    TierBestsDistinct(t, h, NonLanguages(all));
    DistinctSubsetUniqueIds(TierBests(t, h, NonLanguages(all)), all);
  }

  /** With unique input ids and a positive budget the duplicate checks never
      skip a pick, the tiers being disjoint. */
  lemma DedupeNeverFires(h: real, all: seq<Skill>)
    requires UniqueIds(all) && h > 0.0
    ensures TierPicks(h, NonLanguages(all)) ==
      TierBests(QuickWin, h, NonLanguages(all)) + TierBests(Achievable, h, NonLanguages(all))
        + TierBests(Stretch, h, NonLanguages(all))
  {
    var others := NonLanguages(all);
    var q := TierBests(QuickWin, h, others);
    var a := TierBests(Achievable, h, others);
    var s := TierBests(Stretch, h, others);
    TierBestsUniqueIds(QuickWin, h, all);
    TierBestsUniqueIds(Achievable, h, all);
    TierBestsUniqueIds(Stretch, h, all);
    NoSharedId(q, a, all);
    AddPicksKeepsAll(q, a, true);
    NoSharedId(q + a, s, all);
    AddPicksKeepsAll(q + a, s, true);
    var quick := AddPicks([], q, false);
    assert quick == q by {
      assert [] + q == q;
    }
    assert TierPicks(h, others) == AddPicks(AddPicks(quick, a, true), s, true);
  }

  /** `keys` lists the categories of `prefix` in order of first appearance,
      and `groups` maps each of them to its skills. */
  ghost predicate Grouped(prefix: seq<Skill>, keys: seq<string>, groups: map<string, seq<Skill>>) {
    && keys == CategoriesOf(prefix)
    && (forall c :: c in groups <==> c in keys)
    && (forall c :: c in groups ==> groups[c] == SkillsByCategory(prefix, c))
  }

  /** `groupByCategory`: the categories in order of first appearance (the
      order of `Object.keys`), and for each the skills of that category in
      their order. */
  method GroupByCategory(skills: seq<Skill>) returns (keys: seq<string>, groups: map<string, seq<Skill>>)
    ensures keys == CategoriesOf(skills)
    ensures forall c :: c in groups <==> c in keys
    ensures forall c :: c in groups ==> groups[c] == SkillsByCategory(skills, c)
  {
    keys := [];
    groups := map[];
    var i := 0;
    while i < |skills|
      invariant 0 <= i <= |skills|
      invariant Grouped(skills[..i], keys, groups)
    {
      var skill := skills[i];
      assert skills[..i + 1] == skills[..i] + [skill];
      if skill.category !in groups {
        GroupStepNew(skills[..i], skill, keys, groups);
        groups := groups[skill.category := []];
        keys := keys + [skill.category];
      } else {
        GroupStepOld(skills[..i], skill, keys, groups);
      }
      groups := groups[skill.category := groups[skill.category] + [skill]];
      i := i + 1;
    }
    assert skills[..i] == skills;
  }

  /** Pushing one skill onto the group of its category. */
  lemma GroupSnoc(prefix: seq<Skill>, skill: Skill, d: string)
    ensures d == skill.category ==> SkillsByCategory(prefix + [skill], d) == SkillsByCategory(prefix, d) + [skill]
    ensures d != skill.category ==> SkillsByCategory(prefix + [skill], d) == SkillsByCategory(prefix, d)
  {
    FilterSnoc(prefix, skill, InCategory(d));
  }

  /** A step of `groupByCategory` for a category it has seen: the skill is
      pushed onto that category's group. */
  lemma GroupStepOld(prefix: seq<Skill>, skill: Skill, keys: seq<string>, groups: map<string, seq<Skill>>)
    requires Grouped(prefix, keys, groups) && skill.category in groups
    ensures Grouped(prefix + [skill], keys, groups[skill.category := groups[skill.category] + [skill]])
  {
    KeysKept(prefix, skill, keys, groups);
    PushedOld(prefix, skill, keys, groups);
  }

  lemma KeysKept(prefix: seq<Skill>, skill: Skill, keys: seq<string>, groups: map<string, seq<Skill>>)
    requires Grouped(prefix, keys, groups) && skill.category in groups
    ensures keys == CategoriesOf(prefix + [skill])
  {
    CategoriesSnoc(prefix, skill);
  }

  lemma PushedOld(prefix: seq<Skill>, skill: Skill, keys: seq<string>, groups: map<string, seq<Skill>>)
    requires Grouped(prefix, keys, groups) && skill.category in groups
    ensures forall d :: d in groups[skill.category := groups[skill.category] + [skill]] <==> d in keys
    ensures forall d :: d in groups[skill.category := groups[skill.category] + [skill]] ==>
      groups[skill.category := groups[skill.category] + [skill]][d] == SkillsByCategory(prefix + [skill], d)
  {
    GroupsAfterPush(prefix, skill, groups, groups[skill.category]);
  }

  /** A step of `groupByCategory` for a new category: it becomes the last key,
      and its group holds the skill alone. */
  lemma GroupStepNew(prefix: seq<Skill>, skill: Skill, keys: seq<string>, groups: map<string, seq<Skill>>)
    requires Grouped(prefix, keys, groups) && skill.category !in groups
    ensures Grouped(prefix + [skill], keys + [skill.category], groups[skill.category := [] + [skill]])
  {
    KeysExtended(prefix, skill, keys, groups);
    PushedNew(prefix, skill, keys, groups);
  }

  lemma KeysExtended(prefix: seq<Skill>, skill: Skill, keys: seq<string>, groups: map<string, seq<Skill>>)
    requires Grouped(prefix, keys, groups) && skill.category !in groups
    ensures keys + [skill.category] == CategoriesOf(prefix + [skill])
  {
    CategoriesSnoc(prefix, skill);
  }

  lemma PushedNew(prefix: seq<Skill>, skill: Skill, keys: seq<string>, groups: map<string, seq<Skill>>)
    requires Grouped(prefix, keys, groups) && skill.category !in groups
    ensures forall d :: d in groups[skill.category := [] + [skill]] <==> d in keys + [skill.category]
    ensures forall d :: d in groups[skill.category := [] + [skill]] ==>
      groups[skill.category := [] + [skill]][d] == SkillsByCategory(prefix + [skill], d)
  {
    FilterNone(prefix, InCategory(skill.category));
    GroupsAfterPush(prefix, skill, groups, []);
  }

  /** Pushing a skill onto `group`, the skills of its category so far, keeps
      every group equal to the skills of its category. */
  lemma GroupsAfterPush(prefix: seq<Skill>, skill: Skill, groups: map<string, seq<Skill>>, group: seq<Skill>)
    requires forall d :: d in groups ==> groups[d] == SkillsByCategory(prefix, d)
    requires group == SkillsByCategory(prefix, skill.category)
    ensures forall d :: d in groups[skill.category := group + [skill]] ==>
      groups[skill.category := group + [skill]][d] == SkillsByCategory(prefix + [skill], d)
  {
    forall d | d in groups[skill.category := group + [skill]]
      ensures groups[skill.category := group + [skill]][d] == SkillsByCategory(prefix + [skill], d)
    {
      GroupSnoc(prefix, skill, d);
    }
  }

  /** One of the three `for` loops: the first `cap` categories of `members`,
      each group sorted by `key`, its head pushed (unless `dedupe` and its id
      is already recommended). */
  method PushTierPicks(recs: seq<Skill>, members: seq<Skill>, cap: nat, key: Skill -> real, dedupe: bool)
    returns (out: seq<Skill>)
    ensures out == AddPicks(recs, Bests(members, CategoriesOf(members)[..Min(cap, |CategoriesOf(members)|)], key), dedupe)
  {
    var keys, groups := GroupByCategory(members);
    out := PushGroups(recs, members, keys, groups, Min(cap, |keys|), key, dedupe);
  }

  /** The loop of `PushTierPicks` over the first `n` keys of a grouping of
      `members`. */
  method PushGroups(recs: seq<Skill>, members: seq<Skill>, keys: seq<string>, groups: map<string, seq<Skill>>,
                    n: nat, key: Skill -> real, dedupe: bool) returns (out: seq<Skill>)
    requires n <= |keys|
    requires forall c :: c in groups <==> c in keys
    requires forall c :: c in groups ==> groups[c] == SkillsByCategory(members, c)
    ensures out == PushedSoFar(recs, members, keys, n, key, dedupe)
  {
    out := recs;
    var i := 0;
    while i < n
      invariant 0 <= i <= n
      invariant out == PushedSoFar(recs, members, keys, i, key, dedupe)
    {
      var category := keys[i];
      ghost var before := out;
      out := PushHead(out, groups[category], key, dedupe);
      PushStep(recs, members, keys, i, key, dedupe, before, groups[category], out);
      i := i + 1;
    }
  }

  /** The body of a tier loop: sort the group by `key` and push its head,
      which is the best element of the group; nothing is pushed when the
      group is empty or (with `dedupe`) that id is already recommended. */
  method PushHead(recs: seq<Skill>, group: seq<Skill>, key: Skill -> real, dedupe: bool) returns (out: seq<Skill>)
    ensures |group| == 0 ==> out == recs
    ensures |group| > 0 ==> exists x ::
      && IsBestOf(group, key, x)
      && out == if dedupe && HasId(recs, x.id) then recs else recs + [x]
  {
    var categorySkills := Sort(group, ByKey(key));
    out := recs;
    if |categorySkills| > 0 && (!dedupe || !HasId(recs, categorySkills[0].id)) {
      out := out + [categorySkills[0]];
    }
    if |group| > 0 {
      ByKeyIsTotalPreorder(key);
      SortHead(group, ByKey(key));
      ghost var j :| FirstMinimum(group, ByKey(key), j) && categorySkills[0] == group[j];
      FirstMinimumIsBest(group, key, j);
    }
  }

  /** What the first `i` turns of a tier loop have pushed. */
  function PushedSoFar(recs: seq<Skill>, members: seq<Skill>, keys: seq<string>, i: nat, key: Skill -> real,
                       dedupe: bool): seq<Skill>
    requires i <= |keys|
  {
    AddPicks(recs, Bests(members, keys[..i], key), dedupe)
  }

  /** One turn of a tier loop: handling the `i`-th category extends the
      picks so far by that category's pick. */
  lemma PushStep(recs: seq<Skill>, members: seq<Skill>, keys: seq<string>, i: nat, key: Skill -> real,
                 dedupe: bool, out: seq<Skill>, group: seq<Skill>, next: seq<Skill>)
    requires i < |keys|
    requires out == PushedSoFar(recs, members, keys, i, key, dedupe)
    requires group == SkillsByCategory(members, keys[i])
    requires |group| == 0 ==> next == out
    requires |group| > 0 ==> exists x ::
      && IsBestOf(group, key, x)
      && next == if dedupe && HasId(out, x.id) then out else out + [x]
    ensures next == PushedSoFar(recs, members, keys, i + 1, key, dedupe)
  {
    var before := Bests(members, keys[..i], key);
    BestsTake(members, keys, i, key);
    if |group| > 0 {
      var x :| && IsBestOf(group, key, x)
               && next == if dedupe && HasId(out, x.id) then out else out + [x];
      assert group[0] in group;
      PickIsBest(members, keys[i], key);
      BestUnique(group, key, x, Pick(members, keys[i], key)[0]);
      assert Pick(members, keys[i], key) == [x];
      AddPicksSnoc(recs, before, x, dedupe);
    } else {
      assert Pick(members, keys[i], key) == [];
      assert before + [] == before;
    }
  }

  lemma BestsTake(members: seq<Skill>, keys: seq<string>, i: nat, key: Skill -> real)
    requires i < |keys|
    ensures Bests(members, keys[..i + 1], key) == Bests(members, keys[..i], key) + Pick(members, keys[i], key)
  {
    assert keys[..i + 1] == keys[..i] + [keys[i]];
    BestsSnoc(members, keys[..i], keys[i], key);
  }

  /** The picks of a tier, written out as a tier loop computes them. */
  lemma TierBestsUnfold(t: Tier, h: real, others: seq<Skill>)
    ensures TierBests(t, h, others) ==
      Bests(Filter(others, TierFilter(t, h)),
            CategoriesOf(Filter(others, TierFilter(t, h)))[..Min(Cap(t), |CategoriesOf(Filter(others, TierFilter(t, h)))|)],
            PickKey(t, h))
  {
  }

  /** `getSmartSkillRecommendations(h, allSkills)`. */
  method GetSmartSkillRecommendations(h: real, allSkills: seq<Skill>) returns (recs: seq<Skill>)
    ensures recs == Recommend(h, allSkills)
  {
    if h == 0.0 {
      return [];
    }
    var languageSkills := SkillsByCategory(allSkills, LANGUAGES);
    var nonLanguageSkills := Filter(allSkills, NotInCategory(LANGUAGES));
    var selectedLanguages := SliceTo(languageSkills, LanguageQuota(h));
    var quickWins := Filter(nonLanguageSkills, TierFilter(QuickWin, h));
    var achievable := Filter(nonLanguageSkills, TierFilter(Achievable, h));
    var stretch := Filter(nonLanguageSkills, TierFilter(Stretch, h));
    recs := PushTierPicks([], quickWins, 3, Hours(), false);
    TierBestsUnfold(QuickWin, h, nonLanguageSkills);
    recs := PushTierPicks(recs, achievable, 4, DistanceTo(h * 0.7), true);
    TierBestsUnfold(Achievable, h, nonLanguageSkills);
    recs := PushTierPicks(recs, stretch, 2, Hours(), true);
    TierBestsUnfold(Stretch, h, nonLanguageSkills);
    assert recs == TierPicks(h, nonLanguageSkills);
    recs := recs + selectedLanguages;
    assert recs == Chosen(h, allSkills);
    var remaining := Sort(Filter(Filter(nonLanguageSkills, NotChosen(recs)), WithinBudget(h)), ByKey(DistanceTo(h)));
    recs := recs + remaining;
  }
}
