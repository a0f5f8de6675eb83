/** `expandPoints` of src/data/pointsExpansion.js: amplifies a normalized seed set into
    `targetCount` points by cycling over the seeds, jittering each position and drifting each
    value with one mulberry32 stream, and records the `[min, max]` of the resulting values. */
module Expansion {
  import opened Wrappers
  import opened JsRuntime
  import opened JsNumber
  import opened Config
  import opened Points
  import opened Mulberry

  /** The `targetCount` option: something `Number.isFinite` rejects (including a missing option),
      or a finite number. */
  datatype TargetCount = NonFiniteCount | FiniteCount(x: real)

  datatype ExpandError =
    | SeedNotAnArray          // 'seedPoints must be an array'
    | TargetCountNotPositive  // 'targetCount must be positive'
    | InvalidArrayLength      // `new Array(targetCount)` throws RangeError: not an integer, or 2^32 or more
    | EmptySeed               // `seedPoints[0 % 0]` is undefined and reading its `position` throws

  /** The expanded array together with what the source attaches to it as `meta.valueDomain`. */
  datatype PointCollection = PointCollection(items: seq<Point>, valueDomain: (int, int))

  /** A number or one of the infinities the running minimum and maximum start from. */
  datatype Extended = NegInfinity | Finite(n: int) | PosInfinity

  /** `Math.min(m, v)`. */
  function MinWith(m: Extended, v: int): Extended {
    match m
    case NegInfinity => NegInfinity
    case Finite(k) => Finite(if v < k then v else k)
    case PosInfinity => Finite(v)
  }

  /** `Math.max(m, v)`. */
  function MaxWith(m: Extended, v: int): Extended {
    match m
    case NegInfinity => Finite(v)
    case Finite(k) => Finite(if v > k then v else k)
    case PosInfinity => PosInfinity
  }

  /** The generator state `mulberry32(POINT_EXPANSION_RNG_SEED)` starts from. */
  const EXPANSION_SEED: bv32 := ToUint32(POINT_EXPANSION_RNG_SEED)

  /** `(rng() - 0.5) * POINT_EXPANSION_JITTER_SPAN_DEGREES`: less than half the span either way. */
  function Jitter(n: bv32): (j: real)
    ensures -POINT_EXPANSION_JITTER_MAX_ABS_DEGREES <= j < POINT_EXPANSION_JITTER_MAX_ABS_DEGREES
  {
    var centered := Unit(n) - 0.5;
    JitterScale(centered);
    centered * POINT_EXPANSION_JITTER_SPAN_DEGREES
  }

  lemma JitterScale(centered: real)
    requires -0.5 <= centered < 0.5
    ensures -POINT_EXPANSION_JITTER_MAX_ABS_DEGREES <= centered * POINT_EXPANSION_JITTER_SPAN_DEGREES
    ensures centered * POINT_EXPANSION_JITTER_SPAN_DEGREES < POINT_EXPANSION_JITTER_MAX_ABS_DEGREES
  {
  }

  /** `Math.round((rng() * 2 - 1) * POINT_EXPANSION_VALUE_DRIFT_MAX_ABS)`: an integer in [-14, 14]. */
  function Drift(n: bv32): (d: int)
    ensures -(POINT_EXPANSION_VALUE_DRIFT_MAX_ABS as int) <= d <= POINT_EXPANSION_VALUE_DRIFT_MAX_ABS as int
  {
    Round((Unit(n) * 2.0 - 1.0) * POINT_EXPANSION_VALUE_DRIFT_MAX_ABS as real)
  }

  /** The point built at output index i from its base point and the three numerators drawn for it,
      in the order longitude, latitude, drift. */
  function ExpandedPoint(base: Point, i: nat, lngDraw: bv32, latDraw: bv32, driftDraw: bv32): Point {
    var lng := ClampReal(base.position.lng + Jitter(lngDraw), MIN_LONGITUDE, MAX_LONGITUDE);
    var lat := ClampReal(base.position.lat + Jitter(latDraw), MIN_LATITUDE, MAX_LATITUDE);
    var value := ClampInt(base.value + Drift(driftDraw), VALUE_MIN, VALUE_MAX);
    Point(base.id + "_" + Decimal(i), Position(lng, lat), value, base.category)
  }

  /** Output point i of a run whose generator starts in state `stream`: base
      `seeds[i % |seeds|]` and draws 3i, 3i+1 and 3i+2. */
  function ExpandedAt(stream: bv32, seeds: seq<Point>, i: nat): Point
    requires |seeds| > 0
  {
    ExpandedPoint(Cycle(seeds, i), i, Draw(stream, 3 * i), Draw(stream, 3 * i + 1), Draw(stream, 3 * i + 2))
  }

  /** The first n output points. */
  function ExpandedItems(stream: bv32, seeds: seq<Point>, n: nat): (items: seq<Point>)
    requires |seeds| > 0
    ensures |items| == n
  {
    if n == 0 then [] else ExpandedItems(stream, seeds, n - 1) + [ExpandedAt(stream, seeds, n - 1)]
  }

  lemma {:induction false} ExpandedItemsAt(stream: bv32, seeds: seq<Point>, n: nat)
    requires |seeds| > 0
    ensures forall k :: 0 <= k < n ==> ExpandedItems(stream, seeds, n)[k] == ExpandedAt(stream, seeds, k)
  {
    if n > 0 {
      ExpandedItemsAt(stream, seeds, n - 1);
    }
  }

  /** The smallest value of a non-empty run of points. */
  function MinValue(ps: seq<Point>): (m: int)
    requires |ps| > 0
    ensures forall k :: 0 <= k < |ps| ==> m <= ps[k].value
    ensures exists k :: 0 <= k < |ps| && ps[k].value == m
  {
    if |ps| == 1 then ps[0].value
    else
      var rest := MinValue(ps[..|ps| - 1]);
      var last := ps[|ps| - 1].value;
      if last < rest then last else rest
  }

  /** The largest value of a non-empty run of points. */
  function MaxValue(ps: seq<Point>): (m: int)
    requires |ps| > 0
    ensures forall k :: 0 <= k < |ps| ==> ps[k].value <= m
    ensures exists k :: 0 <= k < |ps| && ps[k].value == m
  {
    if |ps| == 1 then ps[0].value
    else
      var rest := MaxValue(ps[..|ps| - 1]);
      var last := ps[|ps| - 1].value;
      if last > rest then last else rest
  }

  /** `Math.min` folded over the values from `Infinity`, as the loop does. */
  function MinFold(ps: seq<Point>): Extended {
    if ps == [] then PosInfinity else MinWith(MinFold(ps[..|ps| - 1]), ps[|ps| - 1].value)
  }

  /** `Math.max` folded over the values from `-Infinity`. */
  function MaxFold(ps: seq<Point>): Extended {
    if ps == [] then NegInfinity else MaxWith(MaxFold(ps[..|ps| - 1]), ps[|ps| - 1].value)
  }

  lemma MinMaxFoldSnoc(ps: seq<Point>, p: Point)
    ensures MinFold(ps + [p]) == MinWith(MinFold(ps), p.value)
    ensures MaxFold(ps + [p]) == MaxWith(MaxFold(ps), p.value)
  {
    assert (ps + [p])[..|ps|] == ps;
  }

  /** Once a value has been seen the running minimum is finite and is the smallest value. */
  lemma {:induction false} MinFoldIsMinValue(ps: seq<Point>)
    requires |ps| > 0
    ensures MinFold(ps) == Finite(MinValue(ps))
  {
    if |ps| > 1 {
      MinFoldIsMinValue(ps[..|ps| - 1]);
    }
  }

  /** Once a value has been seen the running maximum is finite and is the largest value. */
  lemma {:induction false} MaxFoldIsMaxValue(ps: seq<Point>)
    requires |ps| > 0
    ensures MaxFold(ps) == Finite(MaxValue(ps))
  {
    if |ps| > 1 {
      MaxFoldIsMaxValue(ps[..|ps| - 1]);
    }
  }

  /** What `new Array(x)` accepts: an integer below 2^32. */
  predicate IsArrayLength(x: real) {
    x.Floor as real == x && x < 4294967296.0
  }

  /** What `expandPoints(seedPoints, { targetCount })` returns or throws. */
  function Expand(seedPoints: JsArray<Point>, targetCount: TargetCount): Result<PointCollection, ExpandError> {
    if seedPoints.NotAnArray? then Err(SeedNotAnArray)
    else if targetCount.NonFiniteCount? || targetCount.x <= 0.0 then Err(TargetCountNotPositive)
    else if !IsArrayLength(targetCount.x) then Err(InvalidArrayLength)
    else if |seedPoints.elements| == 0 then Err(EmptySeed)
    else
      var items := ExpandedItems(EXPANSION_SEED, seedPoints.elements, targetCount.x.Floor);
      Ok(PointCollection(items, (MinValue(items), MaxValue(items))))
  }

  lemma ExpandedAtOf(stream: bv32, seeds: seq<Point>, i: nat, base: Point, lngDraw: bv32, latDraw: bv32, driftDraw: bv32)
    requires |seeds| > 0 && base == Cycle(seeds, i)
    requires lngDraw == Draw(stream, 3 * i) && latDraw == Draw(stream, 3 * i + 1) && driftDraw == Draw(stream, 3 * i + 2)
    ensures ExpandedPoint(base, i, lngDraw, latDraw, driftDraw) == ExpandedAt(stream, seeds, i)
  {
  }

  /** One iteration of the source's loop body: the base point, then the longitude, latitude and
      drift draws, in that order, and the point they make. */
  method NextPoint(rng: Mulberry32, seeds: seq<Point>, i: nat) returns (p: Point)
    requires |seeds| > 0
    requires rng.Valid() && rng.calls == 3 * i
    modifies rng
    ensures rng.Valid() && rng.calls == 3 * (i + 1)
    ensures p == ExpandedAt(rng.seed, seeds, i)
  {
    var base := seeds[i % |seeds|];
    CycleIsModulo(seeds, i);
    var lngDraw := rng.Next();
    var latDraw := rng.Next();
    var driftDraw := rng.Next();
    p := ExpandedPoint(base, i, lngDraw, latDraw, driftDraw);
    ExpandedAtOf(rng.seed, seeds, i, base, lngDraw, latDraw, driftDraw);
  }

  /** The source's argument checks, then its loop and `meta.valueDomain`. */
  method ExpandPoints(seedPoints: JsArray<Point>, targetCount: TargetCount) returns (r: Result<PointCollection, ExpandError>)
    ensures r == Expand(seedPoints, targetCount)
  {
    if seedPoints.NotAnArray? {
      return Err(SeedNotAnArray);
    }
    if targetCount.NonFiniteCount? || targetCount.x <= 0.0 {
      return Err(TargetCountNotPositive);
    }
    if !IsArrayLength(targetCount.x) {
      return Err(InvalidArrayLength);
    }
    var seeds := seedPoints.elements;
    if |seeds| == 0 {
      // The first iteration reads `seedPoints[0 % 0]`, which is undefined, and throws.
      return Err(EmptySeed);
    }
    var n: nat := targetCount.x.Floor;
    var items, minValue, maxValue := FillPoints(seeds, n);
    MinFoldIsMinValue(items);
    MaxFoldIsMaxValue(items);
    return Ok(PointCollection(items, (minValue.n, maxValue.n)));
  }

  /** The source's loop: one generator seeded with POINT_EXPANSION_RNG_SEED, three draws per point,
      and the running minimum and maximum of the values. */
  method FillPoints(seeds: seq<Point>, n: nat) returns (out: seq<Point>, minValue: Extended, maxValue: Extended)
    requires |seeds| > 0
    ensures out == ExpandedItems(EXPANSION_SEED, seeds, n)
    ensures minValue == MinFold(out) && maxValue == MaxFold(out)
  {
    var rng := new Mulberry32(POINT_EXPANSION_RNG_SEED);
    out, minValue, maxValue := [], PosInfinity, NegInfinity;
    var i := 0;
    while i < n
      invariant 0 <= i <= n
      invariant rng.Valid() && rng.seed == EXPANSION_SEED && rng.calls == 3 * i
      invariant out == ExpandedItems(rng.seed, seeds, i)
      invariant minValue == MinFold(out) && maxValue == MaxFold(out)
    {
      var point := NextPoint(rng, seeds, i);
      MinMaxFoldSnoc(out, point);
      minValue := MinWith(minValue, point.value);
      maxValue := MaxWith(maxValue, point.value);
      out := out + [point];
      i := i + 1;
    }
  }

  /** Every expanded point keeps its base's category, carries its index in its id, stays on the
      map and in the value range, and moves from its base by at most half the jitter span per
      coordinate and at most the drift bound in value. */
  lemma ExpandedPointSpec(base: Point, i: nat, lngDraw: bv32, latDraw: bv32, driftDraw: bv32)
    ensures var p := ExpandedPoint(base, i, lngDraw, latDraw, driftDraw);
      && p.id == base.id + "_" + Decimal(i)
      && p.category == base.category
      && MIN_LONGITUDE <= p.position.lng <= MAX_LONGITUDE
      && MIN_LATITUDE <= p.position.lat <= MAX_LATITUDE
      && VALUE_MIN <= p.value <= VALUE_MAX
      && (MIN_LONGITUDE <= base.position.lng <= MAX_LONGITUDE ==>
            Abs(p.position.lng - base.position.lng) <= POINT_EXPANSION_JITTER_MAX_ABS_DEGREES)
      && (MIN_LATITUDE <= base.position.lat <= MAX_LATITUDE ==>
            Abs(p.position.lat - base.position.lat) <= POINT_EXPANSION_JITTER_MAX_ABS_DEGREES)
      && (VALUE_MIN <= base.value <= VALUE_MAX ==>
            -(POINT_EXPANSION_VALUE_DRIFT_MAX_ABS as int) <= p.value - base.value <= POINT_EXPANSION_VALUE_DRIFT_MAX_ABS as int)
  {
    var jLng, jLat := Jitter(lngDraw), Jitter(latDraw);
    if MIN_LONGITUDE <= base.position.lng <= MAX_LONGITUDE {
      ClampRealMovesCloser(base.position.lng + jLng, MIN_LONGITUDE, MAX_LONGITUDE, base.position.lng);
    }
    if MIN_LATITUDE <= base.position.lat <= MAX_LATITUDE {
      ClampRealMovesCloser(base.position.lat + jLat, MIN_LATITUDE, MAX_LATITUDE, base.position.lat);
    }
  }

  /** Two different output indices never produce the same id, whatever the seeds' ids are. */
  lemma ExpandedIdsDistinct(stream: bv32, seeds: seq<Point>, i: nat, j: nat)
    requires |seeds| > 0 && i != j
    ensures ExpandedAt(stream, seeds, i).id != ExpandedAt(stream, seeds, j).id
  {
    var bi, bj := Cycle(seeds, i), Cycle(seeds, j);
    if bi.id + "_" + Decimal(i) == bj.id + "_" + Decimal(j) {
      ToRadixNoUnderscore(i, 10);
      ToRadixNoUnderscore(j, 10);
      SplitAtLastUnderscore(bi.id, Decimal(i), bj.id, Decimal(j));
      ToRadixInjective(i, j, 10);
    }
  }

  /** The outcome of `expandPoints`: which inputs throw which error, and on success the length,
      every point, and a value domain that bounds every value and is attained at both ends. */
  lemma ExpandOutcome(seedPoints: JsArray<Point>, targetCount: TargetCount)
    ensures Expand(seedPoints, targetCount).Ok? <==>
      && seedPoints.Elements? && |seedPoints.elements| > 0
      && targetCount.FiniteCount? && targetCount.x > 0.0 && IsArrayLength(targetCount.x)
    ensures seedPoints.NotAnArray? ==> Expand(seedPoints, targetCount) == Err(SeedNotAnArray)
    ensures seedPoints.Elements? && (targetCount.NonFiniteCount? || targetCount.x <= 0.0) ==>
      Expand(seedPoints, targetCount) == Err(TargetCountNotPositive)
    ensures seedPoints.Elements? && targetCount.FiniteCount? && targetCount.x > 0.0 && !IsArrayLength(targetCount.x) ==>
      Expand(seedPoints, targetCount) == Err(InvalidArrayLength)
    ensures (seedPoints.Elements? && |seedPoints.elements| == 0
      && targetCount.FiniteCount? && targetCount.x > 0.0 && IsArrayLength(targetCount.x)) ==>
      Expand(seedPoints, targetCount) == Err(EmptySeed)
    ensures Expand(seedPoints, targetCount).Ok? ==>
      var c := Expand(seedPoints, targetCount).value;
      && |c.items| == targetCount.x.Floor
      && (forall k :: 0 <= k < |c.items| ==> c.items[k] == ExpandedAt(EXPANSION_SEED, seedPoints.elements, k))
      && VALUE_MIN <= c.valueDomain.0 <= c.valueDomain.1 <= VALUE_MAX
      && (forall k :: 0 <= k < |c.items| ==> c.valueDomain.0 <= c.items[k].value <= c.valueDomain.1)
      && (exists k :: 0 <= k < |c.items| && c.items[k].value == c.valueDomain.0)
      && (exists k :: 0 <= k < |c.items| && c.items[k].value == c.valueDomain.1)
  {
    if Expand(seedPoints, targetCount).Ok? {
      var seeds, n := seedPoints.elements, targetCount.x.Floor;
      var items := ExpandedItems(EXPANSION_SEED, seeds, n);
      ExpandedItemsAt(EXPANSION_SEED, seeds, n);
      forall k | 0 <= k < n
        ensures VALUE_MIN <= items[k].value <= VALUE_MAX
      {
        var b := Cycle(seeds, k);
        ExpandedPointSpec(b, k, Draw(EXPANSION_SEED, 3 * k), Draw(EXPANSION_SEED, 3 * k + 1), Draw(EXPANSION_SEED, 3 * k + 2));
      }
    }
  }

  /** All ids of one expansion are pairwise distinct. */
  lemma ExpandIdsUnique(seedPoints: JsArray<Point>, targetCount: TargetCount, i: nat, j: nat)
    requires Expand(seedPoints, targetCount).Ok?
    requires i < j < |Expand(seedPoints, targetCount).value.items|
    ensures Expand(seedPoints, targetCount).value.items[i].id != Expand(seedPoints, targetCount).value.items[j].id
  {
    ExpandOutcome(seedPoints, targetCount);
    ExpandedIdsDistinct(EXPANSION_SEED, seedPoints.elements, i, j);
  }
}
