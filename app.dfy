/** The catalog load of src/App.tsx: the skills sorted by category on a copy
    of the catalog, and the loading flag that is cleared whether or not the
    sort succeeded. The locale order of `localeCompare` is a parameter
    `collate`, the relation `localeCompare(a, b) <= 0`. */
module App {
  import opened Prelude
  import opened Sorting
  import opened Types

  function Category(): Skill -> string {
    (s: Skill) => s.category
  }

  /** The comparator `(a, b) => a.category.localeCompare(b.category)`. */
  function ByCategory(collate: (string, string) -> bool): (Skill, Skill) -> bool {
    OrderBy(Category(), collate)
  }

  /** `[...allSkillsData].sort(...)`: the sequence is a value, so the
      catalog itself is left as it was. */
  function SortedCatalog(catalog: seq<Skill>, collate: (string, string) -> bool): (r: seq<Skill>)
    ensures |r| == |catalog|
    ensures multiset(r) == multiset(catalog)
  {
    Sort(catalog, ByCategory(collate))
  }

  /** Under a locale order, the sorted skills are in order of category. */
  lemma SortedByCategory(catalog: seq<Skill>, collate: (string, string) -> bool)
    requires TotalPreorder(collate)
    ensures forall i, j :: 0 <= i < j < |catalog| ==>
      collate(SortedCatalog(catalog, collate)[i].category, SortedCatalog(catalog, collate)[j].category)
  {
    OrderByIsTotalPreorder(Category(), collate);
    SortSorted(catalog, ByCategory(collate));
    var r := SortedCatalog(catalog, collate);
    forall i, j | 0 <= i < j < |catalog| ensures collate(r[i].category, r[j].category) {
      assert ByCategory(collate)(r[i], r[j]);
    }
  }

  /** The skills whose category the locale order ties with the category of
      `y`. */
  function SameCategoryAs(collate: (string, string) -> bool, y: Skill): Skill -> bool {
    EquivalentTo(ByCategory(collate), y)
  }

  /** The sort is stable: the skills of any one category (up to the locale
      order) keep their catalog order. */
  lemma SortedCatalogStable(catalog: seq<Skill>, collate: (string, string) -> bool, y: Skill)
    requires TotalPreorder(collate)
    ensures Filter(SortedCatalog(catalog, collate), SameCategoryAs(collate, y))
         == Filter(catalog, SameCategoryAs(collate, y))
  {
    OrderByIsTotalPreorder(Category(), collate);
    SortStable(catalog, ByCategory(collate), y);
  }

  /** The state of `App`: the skills shown and whether they are still
      loading. */
  class AppState {
    var skills: seq<Skill>
    var loading: bool

    /** `useState([])` and `useState(true)`. */
    constructor ()
      ensures skills == [] && loading
    {
      skills := [];
      loading := true;
    }

    /** `loadSkills`: on success the sorted copy becomes the skills; when the
        sort throws (`sortThrows`) they stay as they were; either way the
        loading flag is cleared. */
    method LoadSkills(catalog: seq<Skill>, collate: (string, string) -> bool, sortThrows: bool)
      modifies this
      ensures !loading
      ensures skills == if sortThrows then old(skills) else SortedCatalog(catalog, collate)
    {
      if !sortThrows {
        var sortedSkills := SortedCatalog(catalog, collate);
        skills := sortedSkills;
      }
      loading := false;
    }
  }

  /** A fresh state loaded once: not loading, and either the sorted catalog
      or, on the error path, no skills. */
  method LoadOnce(catalog: seq<Skill>, collate: (string, string) -> bool, sortThrows: bool) returns (skills: seq<Skill>, loading: bool)
    ensures !loading
    ensures sortThrows ==> skills == []
    ensures !sortThrows ==> multiset(skills) == multiset(catalog)
  {
    var app := new AppState();
    app.LoadSkills(catalog, collate, sortThrows);
    skills, loading := app.skills, app.loading;
  }
}
