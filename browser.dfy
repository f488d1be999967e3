/** The catalog browser of src/components/SkillsBrowser.tsx: the filter by
    category and search query, the per-category counts on the category
    buttons, and the selector state with its reset action. */
module SkillsBrowser {
  import opened Prelude
  import opened Text
  import opened Types
  import opened Catalog

  /** The selector value that shows every category, `'Все'`. */
  const ALL: string := "Все"

  /** The predicate of `filteredSkills`: the category matches (or every
      category is selected), and the query is empty or occurs, ignoring case,
      in the name, the description or the category. */
  function MatchesFilter(category: string, query: string): Skill -> bool {
    (s: Skill) =>
      && (category == ALL || s.category == category)
      && (|| query == ""
          || Contains(LowerStr(s.name), LowerStr(query))
          || Contains(LowerStr(s.description), LowerStr(query))
          || Contains(LowerStr(s.category), LowerStr(query)))
  }

  /** `filteredSkills`: the skills that pass the filter, in their order. */
  function FilteredSkills(skills: seq<Skill>, category: string, query: string): (r: seq<Skill>)
    ensures forall s :: s in r <==>
      (&& s in skills
       && (category == ALL || s.category == category)
       && (|| query == ""
           || Contains(LowerStr(s.name), LowerStr(query))
           || Contains(LowerStr(s.description), LowerStr(query))
           || Contains(LowerStr(s.category), LowerStr(query))))
    ensures IsSubsequence(r, skills)
  {
    FilterIsSubsequence(skills, MatchesFilter(category, query));
    Filter(skills, MatchesFilter(category, query))
  }

  /** Every category and the empty query show the skills unchanged. */
  lemma ShowAllIsIdentity(skills: seq<Skill>)
    ensures FilteredSkills(skills, ALL, "") == skills
  {
    FilterAll(skills, MatchesFilter(ALL, ""));
  }

  /** Filtering the filtered list again changes nothing. */
  lemma FilteredIdempotent(skills: seq<Skill>, category: string, query: string)
    ensures FilteredSkills(FilteredSkills(skills, category, query), category, query)
         == FilteredSkills(skills, category, query)
  {
    FilterIdempotent(skills, MatchesFilter(category, query));
  }

  /** Selecting one category shows the part of the every-category result (for
      the same query) that lies in that category, in the same order. */
  lemma CategoryWithinAll(skills: seq<Skill>, category: string, query: string)
    ensures FilteredSkills(skills, category, query)
         == FilteredSkills(FilteredSkills(skills, ALL, query), category, query)
    ensures IsSubsequence(FilteredSkills(skills, category, query), FilteredSkills(skills, ALL, query))
  {
    FilterNarrower(skills, MatchesFilter(category, query), MatchesFilter(ALL, query));
    FilterIsSubsequence(FilteredSkills(skills, ALL, query), MatchesFilter(category, query));
  }

  /** With the empty query, a category button shows what
      `getAllSkillsByCategory` returns for it. */
  lemma CategoryButtonIsCategoryQuery(skills: seq<Skill>, category: string)
    requires category != ALL
    ensures FilteredSkills(skills, category, "") == SkillsByCategory(skills, category)
  {
    FilterSame(skills, MatchesFilter(category, ""), InCategory(category));
  }

  /** Two predicates that agree give the same filter. */
  lemma {:induction false} FilterSame(xs: seq<Skill>, p: Skill -> bool, q: Skill -> bool)
    requires forall s :: p(s) == q(s)
    ensures Filter(xs, p) == Filter(xs, q)
  {
    if |xs| > 0 {
      FilterSame(xs[1..], p, q);
    }
  }

  /** `categoryStats`: scanning the skills once, one entry per category
      present, holding the number of skills in it. */
  method CategoryStats(skills: seq<Skill>) returns (stats: map<string, nat>)
    ensures forall c :: c in stats <==> c in CategoriesOf(skills)
    ensures forall c :: c in stats ==> stats[c] == CountIn(skills, c) >= 1
  {
    stats := map[];
    var i := 0;
    while i < |skills|
      invariant 0 <= i <= |skills|
      invariant Counted(skills[..i], stats)
    {
      var s := skills[i];
      StatsStep(skills, i, stats);
      stats := Bumped(stats, s.category);
      i := i + 1;
    }
    assert skills[..i] == skills;
  }

  /** `stats` holds the count of each category present in `prefix`. */
  ghost predicate Counted(prefix: seq<Skill>, stats: map<string, nat>) {
    && (forall c :: c in stats <==> c in CategoriesOf(prefix))
    && (forall c :: c in stats ==> stats[c] == CountIn(prefix, c) >= 1)
  }

  /** `stats[c] = (stats[c] || 0) + 1`. */
  function Bumped(stats: map<string, nat>, c: string): map<string, nat> {
    stats[c := (if c in stats then stats[c] else 0) + 1]
  }

  /** Counting the skill at position `i`. */
  lemma StatsStep(skills: seq<Skill>, i: nat, stats: map<string, nat>)
    requires i < |skills| && Counted(skills[..i], stats)
    ensures Counted(skills[..i + 1], Bumped(stats, skills[i].category))
  {
    StatsDomain(skills, i, stats);
    StatsCounts(skills, i, stats);
  }

  lemma StatsDomain(skills: seq<Skill>, i: nat, stats: map<string, nat>)
    requires i < |skills|
    requires forall c :: c in stats <==> c in CategoriesOf(skills[..i])
    ensures forall c :: c in Bumped(stats, skills[i].category) <==> c in CategoriesOf(skills[..i + 1])
  {
    assert skills[..i + 1] == skills[..i] + [skills[i]];
    CategoriesSnoc(skills[..i], skills[i]);
  }

  lemma StatsCounts(skills: seq<Skill>, i: nat, stats: map<string, nat>)
    requires i < |skills| && Counted(skills[..i], stats)
    ensures forall c :: c in Bumped(stats, skills[i].category) ==>
      Bumped(stats, skills[i].category)[c] == CountIn(skills[..i + 1], c) >= 1
  {
    var prefix, s := skills[..i], skills[i];
    assert skills[..i + 1] == prefix + [s];
    var bumped := Bumped(stats, s.category);
    forall c | c in bumped ensures bumped[c] == CountIn(prefix + [s], c) >= 1 {
      CountSnoc(prefix, s, c);
      if c == s.category && c !in stats {
        CountAbsent(prefix, c);
      }
    }
  }

  /** `CATEGORIES`: the every-category button, then the sorted catalog
      categories. */
  function CategoryButtons(catalog: seq<Skill>): (r: seq<string>)
    ensures |r| >= 1 && r[0] == ALL
    ensures forall c :: c in r <==> c == ALL || exists s :: s in catalog && s.category == c
    ensures forall i, j :: 1 <= i < j < |r| ==> StrLe(r[i], r[j]) && r[i] != r[j]
    ensures (forall s :: s in catalog ==> s.category != ALL) ==> Distinct(r)
  {
    var cats := AllCategories(catalog);
    var r := [ALL] + cats;
    assert forall c :: c in r <==> c == ALL || c in cats;
    ButtonsDistinct(catalog);
    r
  }

  lemma ButtonsDistinct(catalog: seq<Skill>)
    ensures (forall s :: s in catalog ==> s.category != ALL) ==> Distinct([ALL] + AllCategories(catalog))
  {
    var cats := AllCategories(catalog);
    assert Distinct(cats);
    if forall s :: s in catalog ==> s.category != ALL {
      assert ALL !in cats;
      DistinctAppend([ALL], cats);
    }
  }

  /** The selector state of the browser. */
  class Browser {
    var selectedCategory: string
    var searchQuery: string

    /** Every category and the empty query. */
    constructor ()
      ensures selectedCategory == ALL && searchQuery == ""
    {
      selectedCategory := ALL;
      searchQuery := "";
    }

    /** The skills the browser shows. */
    function Shown(skills: seq<Skill>): seq<Skill>
      reads this
    {
      FilteredSkills(skills, selectedCategory, searchQuery)
    }

    /** A click on a category button. */
    method SelectCategory(category: string)
      modifies this
      ensures selectedCategory == category && searchQuery == old(searchQuery)
    {
      selectedCategory := category;
    }

    /** Typing in the search field, or the clear button with `""`. */
    method SetQuery(query: string)
      modifies this
      ensures searchQuery == query && selectedCategory == old(selectedCategory)
    {
      searchQuery := query;
    }

    /** The reset button: the empty query and every category, so that every
        skill is shown again. */
    method ResetFilters()
      modifies this
      ensures selectedCategory == ALL && searchQuery == ""
      ensures forall skills :: Shown(skills) == skills
    {
      searchQuery := "";
      selectedCategory := ALL;
      forall skills ensures Shown(skills) == skills {
        ShowAllIsIdentity(skills);
      }
    }
  }
}
