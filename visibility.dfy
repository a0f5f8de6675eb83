/** The visibility rule the GPU filter props stand for, as the CPU predicate `isVisible` of
    src/data/__tests__/filterCorrectness.test.js states it: a point is drawn when its value lies in
    the inclusive range and its category is one of the selected ids. */
module Visibility {
  import opened Config
  import opened Points

  /** `{ min, max, categories }`. */
  datatype FilterSpec = FilterSpec(min: int, max: int, categories: seq<string>)

  predicate IsVisible(p: Point, f: FilterSpec) {
    f.min <= p.value && p.value <= f.max && p.category in f.categories
  }

  /** `points.filter((p) => isVisible(p, filters))`. */
  function VisibleOf(ps: seq<Point>, f: FilterSpec): (vs: seq<Point>)
    ensures |vs| <= |ps|
    ensures forall k :: 0 <= k < |vs| ==> IsVisible(vs[k], f)
  {
    if ps == [] then []
    else
      var rest := VisibleOf(ps[..|ps| - 1], f);
      var last := ps[|ps| - 1];
      if IsVisible(last, f) then rest + [last] else rest
  }

  /** `.map((p) => p.id)`. */
  function Ids(ps: seq<Point>): (ids: seq<string>)
    ensures |ids| == |ps|
    ensures forall k :: 0 <= k < |ps| ==> ids[k] == ps[k].id
  {
    if ps == [] then [] else Ids(ps[..|ps| - 1]) + [ps[|ps| - 1].id]
  }

  /** `idx` picks `vs` out of `ps` at strictly increasing positions: `vs` is `ps` with some
      elements left out and the rest in their original order. */
  predicate Embedding(vs: seq<Point>, ps: seq<Point>, idx: seq<nat>) {
    && |idx| == |vs|
    && (forall k :: 0 <= k < |idx| ==> idx[k] < |ps| && ps[idx[k]] == vs[k])
    && (forall j, k :: 0 <= j < k < |idx| ==> idx[j] < idx[k])
  }

  /** The positions `filter` keeps, in order. */
  function VisibleIndices(ps: seq<Point>, f: FilterSpec): (idx: seq<nat>)
    ensures forall k :: 0 <= k < |idx| ==> idx[k] < |ps|
  {
    if ps == [] then []
    else
      var rest := VisibleIndices(ps[..|ps| - 1], f);
      if IsVisible(ps[|ps| - 1], f) then rest + [|ps| - 1] else rest
  }

  /** What `filter` keeps is an order-preserving subsequence of its input, and it keeps the
      position of every visible point. */
  lemma {:induction false} VisibleIsOrderedSubsequence(ps: seq<Point>, f: FilterSpec)
    ensures Embedding(VisibleOf(ps, f), ps, VisibleIndices(ps, f))
    ensures forall i :: 0 <= i < |ps| && IsVisible(ps[i], f) ==> i in VisibleIndices(ps, f)
  {
    if ps != [] {
      var front := ps[..|ps| - 1];
      VisibleIsOrderedSubsequence(front, f);
      EmbeddingSnoc(VisibleOf(front, f), front, VisibleIndices(front, f), ps[|ps| - 1], IsVisible(ps[|ps| - 1], f));
      assert front + [ps[|ps| - 1]] == ps;
    }
  }

  /** Appending one point to the input, and to the output exactly when it is kept, extends an
      embedding. */
  lemma EmbeddingSnoc(vs: seq<Point>, ps: seq<Point>, idx: seq<nat>, p: Point, keep: bool)
    requires Embedding(vs, ps, idx)
    ensures keep ==> Embedding(vs + [p], ps + [p], idx + [|ps|])
    ensures !keep ==> Embedding(vs, ps + [p], idx)
  {
  }

  /** Filtering is idempotent: what is visible stays visible, all of it. */
  lemma {:induction false} VisibleIdempotent(ps: seq<Point>, f: FilterSpec)
    ensures VisibleOf(VisibleOf(ps, f), f) == VisibleOf(ps, f)
  {
    VisibleOfAllVisible(VisibleOf(ps, f), f);
  }

  /** A sequence of visible points is kept whole. */
  lemma {:induction false} VisibleOfAllVisible(ps: seq<Point>, f: FilterSpec)
    requires forall k :: 0 <= k < |ps| ==> IsVisible(ps[k], f)
    ensures VisibleOf(ps, f) == ps
  {
    if ps != [] {
      VisibleOfAllVisible(ps[..|ps| - 1], f);
    }
  }

  /** What `filter` returns, as a set of points: exactly the input points whose value lies
      within the inclusive bounds and whose category is selected. */
  lemma VisibleExactly(ps: seq<Point>, f: FilterSpec)
    ensures forall p :: p in VisibleOf(ps, f) <==>
      p in ps && f.min <= p.value <= f.max && p.category in f.categories
  {
    VisibleIsOrderedSubsequence(ps, f);
    var vs, idx := VisibleOf(ps, f), VisibleIndices(ps, f);
    forall p | p in vs
      ensures p in ps && IsVisible(p, f)
    {
      var k :| 0 <= k < |vs| && vs[k] == p;
      assert ps[idx[k]] == p;
    }
    forall p | p in ps && IsVisible(p, f)
      ensures p in vs
    {
      var i :| 0 <= i < |ps| && ps[i] == p;
      var k :| 0 <= k < |idx| && idx[k] == i;
      assert vs[k] == p;
    }
  }

  /** A test record: only id, value and category matter to the predicate. */
  function TestPoint(id: string, value: int, category: string): Point {
    Point(id, Position(0.0, 0.0), value, category)
  }

  /** 'includes only points matching both filters'. */
  lemma BothFiltersScenario()
    ensures var ids := CategoryIds(CATEGORIES);
      var points := [TestPoint("1", 10, ids[0]), TestPoint("2", 50, ids[1]), TestPoint("3", 90, ids[0])];
      Ids(VisibleOf(points, FilterSpec(20, 80, [ids[1]]))) == ["2"]
  {
    var ids := CategoryIds(CATEGORIES);
    assert ids[0] == "alpha" && ids[1] == "beta";
    var points := [TestPoint("1", 10, ids[0]), TestPoint("2", 50, ids[1]), TestPoint("3", 90, ids[0])];
    var f := FilterSpec(20, 80, [ids[1]]);
    assert !IsVisible(points[2], f) && IsVisible(points[1], f) && !IsVisible(points[0], f);
    assert points[..2][..1] == points[..1] && points[..1][..0] == [];
    assert VisibleOf(points[..1], f) == [];
    assert VisibleOf(points[..2], f) == [points[1]];
    assert VisibleOf(points, f) == [points[1]];
  }

  /** 'inclusive boundaries for min/max'. */
  lemma InclusiveBoundsScenario()
    ensures var c := CATEGORIES[0].id;
      var points := [TestPoint("1", 10, c), TestPoint("2", 20, c), TestPoint("3", 9, c), TestPoint("4", 21, c)];
      Ids(VisibleOf(points, FilterSpec(10, 20, [c]))) == ["1", "2"]
  {
    var c := CATEGORIES[0].id;
    var points := [TestPoint("1", 10, c), TestPoint("2", 20, c), TestPoint("3", 9, c), TestPoint("4", 21, c)];
    var f := FilterSpec(10, 20, [c]);
    assert IsVisible(points[0], f) && IsVisible(points[1], f) && !IsVisible(points[2], f) && !IsVisible(points[3], f);
    assert points[..1] == [points[0]] && points[..2] == [points[0], points[1]];
    assert points[..3] == [points[0], points[1], points[2]];
    assert points[..3][..2] == points[..2] && points[..2][..1] == points[..1];
    assert VisibleOf(points[..2], f) == points[..2];
    assert VisibleOf(points[..3], f) == points[..2];
  }

  /** 'supports multiple categories': a category outside the selection is excluded although its
      value is in range. */
  lemma MultipleCategoriesScenario()
    ensures var ids := CategoryIds(CATEGORIES);
      var points := [TestPoint("1", 10, ids[0]), TestPoint("2", 50, ids[1]), TestPoint("3", 90, "other")];
      Ids(VisibleOf(points, FilterSpec(0, 100, [ids[0], ids[1]]))) == ["1", "2"]
  {
    var ids := CategoryIds(CATEGORIES);
    assert ids[0] == "alpha" && ids[1] == "beta";
    var points := [TestPoint("1", 10, ids[0]), TestPoint("2", 50, ids[1]), TestPoint("3", 90, "other")];
    var f := FilterSpec(0, 100, [ids[0], ids[1]]);
    assert IsVisible(points[0], f) && IsVisible(points[1], f) && !IsVisible(points[2], f);
    assert points[..2][..1] == points[..1] && points[..1][..0] == [];
    assert VisibleOf(points[..1], f) == [points[0]];
    assert VisibleOf(points[..2], f) == [points[0], points[1]];
    assert VisibleOf(points, f) == [points[0], points[1]];
  }
}
