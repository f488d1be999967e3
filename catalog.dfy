/** The catalog queries of src/data/index.ts. The catalog `allSkillsData` is
    built from three data files that are not part of this model, so every
    query takes the catalog as a parameter. The filtering queries keep every
    occurrence of a matching record, as `Filter` does; for a catalog without
    repeated records (`FilterDistinct`), their membership and subsequence
    contracts determine the result. */
module Catalog {
  import opened Prelude
  import opened Sorting
  import opened Text
  import opened Types

  /** `allSkillsData`: the three data lists one after another. */
  function AllSkillsData(base: seq<Skill>, extended: seq<Skill>, advanced: seq<Skill>): (all: seq<Skill>)
    ensures |all| == |base| + |extended| + |advanced|
    ensures all[..|base|] == base
    ensures all[|base|..|base| + |extended|] == extended
    ensures all[|base| + |extended|..] == advanced
  {
    base + extended + advanced
  }

  /** `getAllSkillsByCategory`. */
  function SkillsByCategory(catalog: seq<Skill>, category: string): (r: seq<Skill>)
    ensures forall s :: s in r <==> s in catalog && s.category == category
    ensures IsSubsequence(r, catalog)
  {
    FilterIsSubsequence(catalog, InCategory(category));
    Filter(catalog, InCategory(category))
  }

  function HasDifficulty(d: Difficulty): Skill -> bool {
    (s: Skill) => s.difficultyLevel == d
  }

  /** `getAllSkillsByDifficulty`. */
  function SkillsByDifficulty(catalog: seq<Skill>, difficulty: Difficulty): (r: seq<Skill>)
    ensures forall s :: s in r <==> s in catalog && s.difficultyLevel == difficulty
    ensures IsSubsequence(r, catalog)
  {
    FilterIsSubsequence(catalog, HasDifficulty(difficulty));
    Filter(catalog, HasDifficulty(difficulty))
  }

  function InHourRange(minHours: real, maxHours: real): Skill -> bool {
    (s: Skill) => minHours <= s.hoursRequired <= maxHours
  }

  /** `getAllSkillsByTimeRange`: both bounds are inclusive. */
  function SkillsByTimeRange(catalog: seq<Skill>, minHours: real, maxHours: real): (r: seq<Skill>)
    ensures forall s :: s in r <==> s in catalog && minHours <= s.hoursRequired <= maxHours
    ensures IsSubsequence(r, catalog)
    ensures minHours > maxHours ==> r == []
  {
    FilterIsSubsequence(catalog, InHourRange(minHours, maxHours));
    var r := Filter(catalog, InHourRange(minHours, maxHours));
    assert minHours > maxHours ==> forall s :: s !in r;
    r
  }

  /** `getAllCategories`: the distinct categories, sorted by the default
      string order and so strictly increasing. */
  function AllCategories(catalog: seq<Skill>): (r: seq<string>)
    ensures forall i, j :: 0 <= i < j < |r| ==> StrLe(r[i], r[j]) && r[i] != r[j]
    ensures forall c :: c in r <==> exists s :: s in catalog && s.category == c
  {
    var distinct := CategoriesOf(catalog);
    var r := Sort(distinct, StrLe);
    StrLeIsTotalPreorder();
    SortSorted(distinct, StrLe);
    SortDistinct(distinct, StrLe);
    SortSameElements(distinct, StrLe);
    r
  }

  /** `getSkillsCountByCategory`: one entry per category, holding the number
      of skills in it. */
  method SkillsCountByCategory(catalog: seq<Skill>) returns (counts: map<string, nat>)
    ensures forall c :: c in counts <==> exists s :: s in catalog && s.category == c
    ensures forall c :: c in counts ==> counts[c] == CountIn(catalog, c)
    ensures forall c :: c in counts ==> counts[c] >= 1
  {
    var categories := AllCategories(catalog);
    counts := map[];
    var i := 0;
    while i < |categories|
      invariant 0 <= i <= |categories|
      invariant CountedUpTo(catalog, categories, i, counts)
    {
      var category := categories[i];
      assert category in categories;
      var n := |SkillsByCategory(catalog, category)|;
      CategoryCountPositive(catalog, category);
      CountsStep(catalog, categories, i, counts, n);
      counts := counts[category := n];
      i := i + 1;
    }
    assert categories[..i] == categories;
  }

  /** `counts` holds the count of each of the first `i` categories, and of
      no other. */
  ghost predicate CountedUpTo(catalog: seq<Skill>, categories: seq<string>, i: nat, counts: map<string, nat>)
    requires i <= |categories|
  {
    && (forall c :: c in counts <==> c in categories[..i])
    && (forall c :: c in counts ==> counts[c] == CountIn(catalog, c) >= 1)
  }

  /** Counting the `i`-th category. */
  lemma CountsStep(catalog: seq<Skill>, categories: seq<string>, i: nat, counts: map<string, nat>, n: nat)
    requires i < |categories| && n == CountIn(catalog, categories[i]) >= 1
    requires CountedUpTo(catalog, categories, i, counts)
    ensures CountedUpTo(catalog, categories, i + 1, counts[categories[i] := n])
  {
    CountsDomain(categories, i, counts);
    CountsValues(catalog, counts, categories[i], n);
  }

  lemma CountsValues(catalog: seq<Skill>, counts: map<string, nat>, category: string, n: nat)
    requires forall c :: c in counts ==> counts[c] == CountIn(catalog, c) >= 1
    requires n == CountIn(catalog, category) >= 1
    ensures forall c :: c in counts[category := n] ==> counts[category := n][c] == CountIn(catalog, c) >= 1
  {
  }

  lemma CountsDomain(categories: seq<string>, i: nat, counts: map<string, nat>)
    requires i < |categories|
    requires forall c :: c in counts <==> c in categories[..i]
    ensures forall c :: c in categories[..i + 1] <==> c in counts || c == categories[i]
  {
    assert categories[..i + 1] == categories[..i] + [categories[i]];
  }

  /** A category present in the catalog has a positive count. */
  lemma CategoryCountPositive(catalog: seq<Skill>, c: string)
    requires exists s :: s in catalog && s.category == c
    ensures |SkillsByCategory(catalog, c)| == CountIn(catalog, c) >= 1
  {
    var s :| s in catalog && s.category == c;
    assert s in SkillsByCategory(catalog, c);
  }

  /** `getTotalSkillsCount`: the number of skills, which is also the sum of
      the per-category counts of `getSkillsCountByCategory`. */
  function TotalSkillsCount(catalog: seq<Skill>): (n: nat)
    ensures n == SumOfCounts(catalog, AllCategories(catalog))
  {
    var cats := AllCategories(catalog);
    assert Distinct(cats);
    SumOfCountsCovers(catalog, cats);
    |catalog|
  }

  /** The search predicate of `searchSkills` for an already lower-cased query:
      name, description or one of the learning outcomes, never the category. */
  function SearchMatches(query: string): Skill -> bool {
    (s: Skill) =>
      || Contains(LowerStr(s.name), query)
      || Contains(LowerStr(s.description), query)
      || exists o | o in s.learningOutcomes :: Contains(LowerStr(o), query)
  }

  /** `searchSkills`: case-insensitive substring search. */
  function SearchSkills(catalog: seq<Skill>, query: string): (r: seq<Skill>)
    ensures forall s :: s in r <==>
      (&& s in catalog
       && (|| Contains(LowerStr(s.name), LowerStr(query))
           || Contains(LowerStr(s.description), LowerStr(query))
           || exists o | o in s.learningOutcomes :: Contains(LowerStr(o), LowerStr(query))))
    ensures IsSubsequence(r, catalog)
  {
    FilterIsSubsequence(catalog, SearchMatches(LowerStr(query)));
    Filter(catalog, SearchMatches(LowerStr(query)))
  }

  /** The empty query finds the whole catalog. */
  lemma SearchEmptyQuery(catalog: seq<Skill>)
    ensures SearchSkills(catalog, "") == catalog
  {
    forall s | s in catalog ensures SearchMatches(LowerStr(""))(s) {
      assert Contains(LowerStr(s.name), LowerStr(""));
    }
    FilterAll(catalog, SearchMatches(LowerStr("")));
  }

  /** Searching ignores the case of the query. */
  lemma SearchIgnoresCase(catalog: seq<Skill>, query: string)
    ensures SearchSkills(catalog, LowerStr(query)) == SearchSkills(catalog, query)
  {
    LowerStrIdempotent(query);
  }
}
