/** The skill record of src/lib/types.ts, and the per-category views of a list
    of skills that several components compute. */
module Types {
  import opened Prelude

  /** `'Начинающий' | 'Средний' | 'Продвинутый'`. */
  datatype Difficulty = Beginner | Intermediate | Advanced

  /** A catalog entry. Hours are exact rationals. */
  datatype Skill = Skill(
    id: string,
    name: string,
    description: string,
    category: string,
    hoursRequired: real,
    difficultyLevel: Difficulty,
    learningOutcomes: seq<string>,
    resourcesNeeded: seq<string>,
    icon: string,
    createdAt: string)

  /** The languages category, `'Языки'`. */
  const LANGUAGES: string := "Языки"

  function InCategory(c: string): Skill -> bool {
    (s: Skill) => s.category == c
  }

  /** Some skill of `xs` has id `id`: `xs.find(r => r.id === id)` is defined. */
  predicate HasId(xs: seq<Skill>, id: string) {
    exists r | r in xs :: r.id == id
  }

  /** No two positions of `xs` hold the same id. */
  ghost predicate UniqueIds(xs: seq<Skill>) {
    forall i, j :: 0 <= i < j < |xs| ==> xs[i].id != xs[j].id
  }

  /** The distinct categories of `xs` in order of first appearance: the order
      of `new Set(xs.map(s => s.category))`, and of the keys of an object
      filled by scanning `xs`. */
  function CategoriesOf(xs: seq<Skill>): (cats: seq<string>)
    ensures Distinct(cats)
    ensures forall c :: c in cats <==> exists s :: s in xs && s.category == c
  {
    if |xs| == 0 then []
    else
      var cs := CategoriesOf(xs[..|xs| - 1]);
      var c := xs[|xs| - 1].category;
      assert xs == xs[..|xs| - 1] + [xs[|xs| - 1]];
      if c in cs then cs else cs + [c]
  }

  /** One more skill adds its category at the end, unless it is present. */
  lemma CategoriesSnoc(xs: seq<Skill>, x: Skill)
    ensures CategoriesOf(xs + [x]) ==
      if x.category in CategoriesOf(xs) then CategoriesOf(xs) else CategoriesOf(xs) + [x.category]
  {
    assert (xs + [x])[..|xs|] == xs;
  }

  /** Every occurrence of category `b` in `xs` comes after some occurrence of
      category `a`. */
  ghost predicate AppearsBefore(xs: seq<Skill>, a: string, b: string) {
    forall q :: 0 <= q < |xs| && xs[q].category == b ==>
      exists p :: 0 <= p < q && xs[p].category == a
  }

  /** `CategoriesOf` lists the categories by their first appearance. */
  lemma {:induction false} CategoriesInFirstAppearanceOrder(xs: seq<Skill>)
    ensures forall i, j :: 0 <= i < j < |CategoriesOf(xs)| ==>
      AppearsBefore(xs, CategoriesOf(xs)[i], CategoriesOf(xs)[j])
  {
    if |xs| > 0 {
      var xs', x := xs[..|xs| - 1], xs[|xs| - 1];
      assert xs == xs' + [x];
      var cs := CategoriesOf(xs');
      var cats := CategoriesOf(xs);
      CategoriesInFirstAppearanceOrder(xs');
      CategoriesSnoc(xs', x);
      forall i, j | 0 <= i < j < |cats| ensures AppearsBefore(xs, cats[i], cats[j]) {
        if j < |cs| {
          assert cats[i] == cs[i] && cats[j] == cs[j];
          AppearsBeforeExtend(xs', x, cs[i], cs[j]);
        } else {
          assert cats[i] == cs[i] && cats[j] == x.category;
          AppearsBeforeNew(xs', x, cs[i]);
        }
      }
    }
  }

  /** An order of appearance between two present categories survives one
      more skill. */
  lemma AppearsBeforeExtend(xs: seq<Skill>, x: Skill, a: string, b: string)
    requires AppearsBefore(xs, a, b) && b in CategoriesOf(xs)
    ensures AppearsBefore(xs + [x], a, b)
  {
    var ys := xs + [x];
    forall q | 0 <= q < |ys| && ys[q].category == b
      ensures exists p :: 0 <= p < q && ys[p].category == a
    {
      if q < |xs| {
        assert xs[q].category == b;
        var p :| 0 <= p < q && xs[p].category == a;
        assert ys[p] == xs[p];
      } else {
        var s :| s in xs && s.category == b;
        var q' :| 0 <= q' < |xs| && xs[q'] == s;
        var p :| 0 <= p < q' && xs[p].category == a;
        assert ys[p] == xs[p];
      }
    }
  }

  /** No position holds a category that is not present. */
  lemma CategoryAbsent(xs: seq<Skill>, c: string)
    requires c !in CategoriesOf(xs)
    ensures forall k :: 0 <= k < |xs| ==> xs[k].category != c
  {
    forall k | 0 <= k < |xs| ensures xs[k].category != c {
      assert xs[k] in xs;
    }
  }

  /** A category that first appears with the last skill comes after every
      category present before it. */
  lemma AppearsBeforeNew(xs: seq<Skill>, x: Skill, a: string)
    requires a in CategoriesOf(xs) && x.category !in CategoriesOf(xs)
    ensures AppearsBefore(xs + [x], a, x.category)
  {
    var ys := xs + [x];
    CategoryAbsent(xs, x.category);
    var s :| s in xs && s.category == a;
    var p :| 0 <= p < |xs| && xs[p] == s;
    forall q | 0 <= q < |ys| && ys[q].category == x.category
      ensures exists p :: 0 <= p < q && ys[p].category == a
    {
      assert ys[p] == s;
    }
  }

  /** The number of skills of `xs` in category `c`. */
  function CountIn(xs: seq<Skill>, c: string): nat {
    |Filter(xs, InCategory(c))|
  }

  /** One more skill adds one to the count of its own category only. */
  lemma CountSnoc(xs: seq<Skill>, x: Skill, c: string)
    ensures CountIn(xs + [x], c) == CountIn(xs, c) + (if x.category == c then 1 else 0)
  {
    FilterSnoc(xs, x, InCategory(c));
  }

  /** A category that is not present has no skills. */
  lemma CountAbsent(xs: seq<Skill>, c: string)
    requires c !in CategoriesOf(xs)
    ensures CountIn(xs, c) == 0
  {
    FilterNone(xs, InCategory(c));
  }

  /** The counts of `xs` in each category of `cats`, added up. */
  function SumOfCounts(xs: seq<Skill>, cats: seq<string>): nat {
    if |cats| == 0 then 0 else CountIn(xs, cats[0]) + SumOfCounts(xs, cats[1..])
  }

  lemma {:induction false} SumOfCountsCons(x: Skill, rest: seq<Skill>, cats: seq<string>)
    requires Distinct(cats)
    ensures SumOfCounts([x] + rest, cats) ==
      (if x.category in cats then 1 else 0) + SumOfCounts(rest, cats)
  {
    if |cats| > 0 {
      assert Distinct(cats[1..]) by {
        forall i, j | 0 <= i < j < |cats[1..]| ensures cats[1..][i] != cats[1..][j] {
          assert cats[1..][i] == cats[i + 1] && cats[1..][j] == cats[j + 1];
        }
      }
      SumOfCountsCons(x, rest, cats[1..]);
      FilterAppend([x], rest, InCategory(cats[0]));
      FilterSingleton(x, InCategory(cats[0]));
      if x.category == cats[0] {
        assert x.category !in cats[1..] by {
          forall k | 0 <= k < |cats[1..]| ensures cats[1..][k] != cats[0] {
            assert cats[1..][k] == cats[k + 1];
          }
        }
      }
      assert cats == [cats[0]] + cats[1..];
    }
  }

  /** Counting every category of a list of distinct categories that covers
      all of `xs` counts every skill once. */
  lemma {:induction false} SumOfCountsCovers(xs: seq<Skill>, cats: seq<string>)
    requires Distinct(cats)
    requires forall s :: s in xs ==> s.category in cats
    ensures SumOfCounts(xs, cats) == |xs|
  {
    if |xs| > 0 {
      assert xs[0] in xs;
      assert xs == [xs[0]] + xs[1..];
      SumOfCountsCovers(xs[1..], cats);
      SumOfCountsCons(xs[0], xs[1..], cats);
    } else {
      SumOfCountsEmpty(cats);
    }
  }

  lemma {:induction false} SumOfCountsEmpty(cats: seq<string>)
    ensures SumOfCounts([], cats) == 0
  {
    if |cats| > 0 {
      SumOfCountsEmpty(cats[1..]);
    }
  }

  /** Summed over the categories of `xs`, the per-category counts add up to
      the number of skills. */
  lemma CategoryCountsSum(xs: seq<Skill>)
    ensures SumOfCounts(xs, CategoriesOf(xs)) == |xs|
  {
    SumOfCountsCovers(xs, CategoriesOf(xs));
  }
}
