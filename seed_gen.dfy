/** The record loop of scripts/generate-seed-points.mjs: one mulberry32 stream seeded with
    20260122 yields three draws per record (longitude, latitude, value) around a fixed centre, and
    some fields are then deleted by index so that the normalizer has something to derive. The
    records are the raw records the normalizer reads back. */
module SeedGenerator {
  import opened Wrappers
  import opened JsNumber
  import opened Config
  import opened Points
  import opened Mulberry
  import opened Normalize

  const GENERATOR_RNG_SEED: int := 20260122
  const CENTER_LNG: real := -122.45
  const CENTER_LAT: real := 37.78

  /** The generator state `mulberry32(20260122)` starts from. */
  const GENERATOR_STREAM: bv32 := ToUint32(GENERATOR_RNG_SEED)

  datatype GenerateError =
    | MissingCategory(index: nat)  // 'CATEGORIES must contain at least one item'

  /** `CATEGORIES[i % CATEGORIES.length]?.id` is truthy: the registry is not empty and the id it
      picks for record i is a non-empty string. */
  predicate CategoryUsable(categories: seq<Category>, i: nat) {
    |categories| > 0 && Cycle(categories, i).id != ""
  }

  /** `Number(x.toFixed(COORDINATED_DECIMAL_DIGITS))` clamped to [lo, hi]. */
  function Coordinate(x: real, lo: real, hi: real): real
    requires lo <= hi
  {
    ClampReal(FixedValue(x, COORDINATED_DECIMAL_DIGITS), lo, hi)
  }

  /** `Math.round(rng() * (VALUE_MAX - VALUE_MIN) + VALUE_MIN)`. */
  function DrawnValue(n: bv32): int {
    Round(Unit(n) * (VALUE_MAX - VALUE_MIN) as real + VALUE_MIN as real)
  }

  lemma DrawnValueInRange(n: bv32)
    ensures VALUE_MIN <= DrawnValue(n) <= VALUE_MAX
  {
    var u := Unit(n);
    assert (VALUE_MAX - VALUE_MIN) as real == 100.0 && VALUE_MIN as real == 0.0;
    assert 0.0 <= u * 100.0 < 100.0;
  }

  /** `[lng, lat]` around the centre: a jitter of less than half the spread either way, written
      with six decimals and clamped to the map bounds. */
  function SeedPosition(lngDraw: bv32, latDraw: bv32): RawPosition {
    var lng := Coordinate(CENTER_LNG + (Unit(lngDraw) - 0.5) * LONGITUDE_JITTER, MIN_LONGITUDE, MAX_LONGITUDE);
    var lat := Coordinate(CENTER_LAT + (Unit(latDraw) - 0.5) * LATITUDE_JITTER, MIN_LATITUDE, MAX_LATITUDE);
    PositionArray([lng, lat])
  }

  /** Record i as it is pushed: every field present, then `id` deleted when 7 divides i,
      `category` when 9 does and `value` when 11 does. */
  function SeedRecord(i: nat, categoryId: string, lngDraw: bv32, latDraw: bv32, valueDraw: bv32): RawRecord {
    Record(SeedPosition(lngDraw, latDraw), SeedValue(i, valueDraw), SeedCategory(i, categoryId), SeedId(i))
  }

  /** i is a multiple of d. */
  predicate MultipleOf(i: nat, d: nat)
    requires d > 0
    decreases i
  {
    if i < d then i == 0 else MultipleOf(i - d, d)
  }

  lemma {:induction false} MultipleOfIsModulo(i: nat, d: nat)
    requires d > 0
    ensures MultipleOf(i, d) <==> i % d == 0
    decreases i
  {
    if i >= d {
      MultipleOfIsModulo(i - d, d);
      ModuloStep(i, d);
    }
  }

  /** `seed_<i>`, deleted when 7 divides i. */
  function SeedId(i: nat): Option<string> {
    if MultipleOf(i, 7) then None else Some("seed_" + Decimal(i))
  }

  /** The registry id, deleted when 9 divides i. */
  function SeedCategory(i: nat, categoryId: string): Option<string> {
    if MultipleOf(i, 9) then None else Some(categoryId)
  }

  /** The drawn value, deleted when 11 divides i. */
  function SeedValue(i: nat, valueDraw: bv32): RawValue {
    if MultipleOf(i, 11) then ValueAbsent else ValueFinite(DrawnValue(valueDraw) as real)
  }

  /** Record i of a run whose generator starts in state `stream`: draws 3i, 3i+1 and 3i+2. */
  function GeneratedAt(stream: bv32, categories: seq<Category>, i: nat): RawRecord
    requires |categories| > 0
  {
    SeedRecord(i, Cycle(categories, i).id, Draw(stream, 3 * i), Draw(stream, 3 * i + 1), Draw(stream, 3 * i + 2))
  }

  /** The first index below n whose category lookup fails, if any. */
  function FirstMissing(categories: seq<Category>, n: nat): (j: Option<nat>)
    ensures j.Some? ==> j.value < n && !CategoryUsable(categories, j.value)
    ensures j.Some? ==> forall i :: 0 <= i < j.value ==> CategoryUsable(categories, i)
    ensures j.None? <==> forall i :: 0 <= i < n ==> CategoryUsable(categories, i)
  {
    if n == 0 then None
    else
      var prefix := FirstMissing(categories, n - 1);
      if prefix.Some? then prefix
      else if !CategoryUsable(categories, n - 1) then Some(n - 1)
      else None
  }

  /** The first n records, in index order. */
  function Records(stream: bv32, categories: seq<Category>, n: nat): (rs: seq<RawRecord>)
    requires |categories| > 0
    ensures |rs| == n
  {
    seq(n, k requires 0 <= k => GeneratedAt(stream, categories, k))
  }

  /** The record of index n extends the first n records to the first n + 1. */
  lemma RecordsSnoc(stream: bv32, categories: seq<Category>, n: nat, point: RawRecord)
    requires |categories| > 0 && point == GeneratedAt(stream, categories, n)
    ensures Records(stream, categories, n) + [point] == Records(stream, categories, n + 1)
  {
  }

  /** The first n iterations: the records in index order, or the error of the first index whose
      category lookup fails. */
  function Generated(stream: bv32, categories: seq<Category>, n: nat): Result<seq<RawRecord>, GenerateError> {
    match FirstMissing(categories, n)
    case Some(j) => Err(MissingCategory(j))
    case None => if n == 0 then Ok([]) else Ok(Records(stream, categories, n))
  }

  /** What the loop of `main` produces before the file is written. */
  function Generate(categories: seq<Category>): Result<seq<RawRecord>, GenerateError> {
    Generated(GENERATOR_STREAM, categories, SEED_POINT_COUNT)
  }

  /** Once index i fails with every earlier one usable, every run past i fails at i. */
  lemma {:induction false} FirstMissingPersists(categories: seq<Category>, i: nat, n: nat)
    requires i < n && FirstMissing(categories, i + 1) == Some(i)
    ensures FirstMissing(categories, n) == Some(i)
    decreases n
  {
    if n > i + 1 {
      FirstMissingPersists(categories, i, n - 1);
    }
  }

  /** The loop of `main`, run with the record count it is given. */
  method GenerateSeedPoints(categories: seq<Category>) returns (r: Result<seq<RawRecord>, GenerateError>)
    ensures r == Generate(categories)
  {
    r := GenerateRecords(GENERATOR_RNG_SEED, categories, SEED_POINT_COUNT);
  }

  /** For every index below `count`: the category check, the three draws, the record and its
      deletions, the push. */
  method GenerateRecords(seed: int, categories: seq<Category>, count: nat) returns (r: Result<seq<RawRecord>, GenerateError>)
    ensures r == Generated(ToUint32(seed), categories, count)
  {
    var rng := new Mulberry32(seed);
    var points: seq<RawRecord> := [];
    var i := 0;
    while i < count
      invariant 0 <= i <= count
      invariant rng.Valid() && rng.seed == ToUint32(seed) && rng.calls == 3 * i
      invariant FirstMissing(categories, i).None?
      invariant i > 0 ==> |categories| > 0 && points == Records(rng.seed, categories, i)
      invariant i == 0 ==> points == []
    {
      if |categories| > 0 {
        CycleIsModulo(categories, i);
      }
      if |categories| == 0 || categories[i % |categories|].id == "" {
        FirstMissingPersists(categories, i, count);
        return Err(MissingCategory(i));
      }
      points := PushNextRecord(rng, categories, i, points);
      i := i + 1;
    }
    return Ok(points);
  }

  lemma GeneratedAtOf(stream: bv32, categories: seq<Category>, i: nat, categoryId: string, lngDraw: bv32, latDraw: bv32, valueDraw: bv32)
    requires |categories| > 0 && categoryId == Cycle(categories, i).id
    requires lngDraw == Draw(stream, 3 * i) && latDraw == Draw(stream, 3 * i + 1) && valueDraw == Draw(stream, 3 * i + 2)
    ensures SeedRecord(i, categoryId, lngDraw, latDraw, valueDraw) == GeneratedAt(stream, categories, i)
  {
  }

  /** One iteration after the category check: longitude, latitude and value drawn in that order,
      the record built with every field, then the deletions. */
  method NextRecord(rng: Mulberry32, categories: seq<Category>, i: nat) returns (point: RawRecord)
    requires |categories| > 0 && categories[i % |categories|].id != ""
    requires rng.Valid() && rng.calls == 3 * i
    modifies rng
    ensures rng.Valid() && rng.calls == 3 * (i + 1)
    ensures point == GeneratedAt(rng.seed, categories, i)
  {
    var categoryId := categories[i % |categories|].id;
    CycleIsModulo(categories, i);
    var lngDraw := rng.Next();
    var latDraw := rng.Next();
    var valueDraw := rng.Next();
    point := BuildRecord(i, categoryId, lngDraw, latDraw, valueDraw);
    GeneratedAtOf(rng.seed, categories, i, categoryId, lngDraw, latDraw, valueDraw);
  }

  /** One iteration after the category check, ending with `points.push(point)`. */
  method PushNextRecord(rng: Mulberry32, categories: seq<Category>, i: nat, points: seq<RawRecord>) returns (next: seq<RawRecord>)
    requires |categories| > 0 && categories[i % |categories|].id != ""
    requires rng.Valid() && rng.calls == 3 * i && points == Records(rng.seed, categories, i)
    modifies rng
    ensures rng.Valid() && rng.calls == 3 * (i + 1)
    ensures next == Records(rng.seed, categories, i + 1)
  {
    var point := NextRecord(rng, categories, i);
    RecordsSnoc(rng.seed, categories, i, point);
    next := points + [point];
  }

  /** The object literal of the loop body with every field present, then the three `delete`
      statements. */
  method BuildRecord(i: nat, categoryId: string, lngDraw: bv32, latDraw: bv32, valueDraw: bv32) returns (point: RawRecord)
    ensures point == SeedRecord(i, categoryId, lngDraw, latDraw, valueDraw)
  {
    MultipleOfIsModulo(i, 7);
    MultipleOfIsModulo(i, 9);
    MultipleOfIsModulo(i, 11);
    point := Record(SeedPosition(lngDraw, latDraw), ValueFinite(DrawnValue(valueDraw) as real), Some(categoryId), Some("seed_" + Decimal(i)));
    if i % 7 == 0 {
      point := point.(id := None);
    }
    if i % 9 == 0 {
      point := point.(category := None);
    }
    if i % 11 == 0 {
      point := point.(value := ValueAbsent);
    }
  }

  /** Position of a record: two coordinates, each inside the map bounds. */
  lemma SeedPositionInBounds(lngDraw: bv32, latDraw: bv32)
    ensures var p := SeedPosition(lngDraw, latDraw);
      && p.PositionArray? && |p.coords| == 2
      && MIN_LONGITUDE <= p.coords[0] <= MAX_LONGITUDE
      && MIN_LATITUDE <= p.coords[1] <= MAX_LATITUDE
  {
  }

  /** The deletions: the id `seed_<i>` is present exactly when 7 does not divide i, the registry
      id exactly when 9 does not, and the drawn value, an integer in [VALUE_MIN, VALUE_MAX],
      exactly when 11 does not. */
  lemma SeedFieldsSpec(i: nat, categoryId: string, valueDraw: bv32)
    ensures (SeedId(i).None? <==> i % 7 == 0) && (SeedId(i).Some? ==> SeedId(i).value == "seed_" + Decimal(i))
    ensures (SeedCategory(i, categoryId).None? <==> i % 9 == 0)
    ensures SeedCategory(i, categoryId).Some? ==> SeedCategory(i, categoryId).value == categoryId
    ensures SeedValue(i, valueDraw).ValueAbsent? <==> i % 11 == 0
    ensures !SeedValue(i, valueDraw).ValueAbsent? ==>
      && SeedValue(i, valueDraw) == ValueFinite(DrawnValue(valueDraw) as real)
      && VALUE_MIN <= DrawnValue(valueDraw) <= VALUE_MAX
  {
    MultipleOfIsModulo(i, 7);
    MultipleOfIsModulo(i, 9);
    MultipleOfIsModulo(i, 11);
    DrawnValueInRange(valueDraw);
  }

  /** A generated record always passes the normalizer, against any non-empty registry: the drawn
      position is kept, and the id, category and value the record still carries come through
      unchanged, the value needing no clamping. */
  lemma SeedRecordNormalizes(i: nat, categoryId: string, lngDraw: bv32, latDraw: bv32, valueDraw: bv32, registry: seq<Category>)
    requires |registry| > 0
    ensures var r := NormalizeRecord(SeedRecord(i, categoryId, lngDraw, latDraw, valueDraw), i, registry);
      && r.Ok?
      && SeedPosition(lngDraw, latDraw) == PositionArray([r.value.position.lng, r.value.position.lat])
      && (i % 7 != 0 ==> r.value.id == "seed_" + Decimal(i))
      && (i % 9 != 0 ==> r.value.category == categoryId)
      && (i % 11 != 0 ==> r.value.value == DrawnValue(valueDraw))
  {
    var raw := SeedRecord(i, categoryId, lngDraw, latDraw, valueDraw);
    SeedPositionInBounds(lngDraw, latDraw);
    SeedFieldsSpec(i, categoryId, valueDraw);
    NormalizeRecordSpec(raw, i, registry);
    var p := NormalizeRecord(raw, i, registry).value;
    assert raw.position == PositionArray([p.position.lng, p.position.lat]);
    if i % 11 != 0 {
      InRangeValueKept(raw, i, registry, DrawnValue(valueDraw));
    }
  }

  /** A run fails exactly when some index's category lookup fails, and then with the first such
      index; a successful run has one record per index, record k being `GeneratedAt(.., k)`. */
  lemma GeneratedOutcome(stream: bv32, categories: seq<Category>, n: nat)
    ensures Generated(stream, categories, n).Ok? <==> forall i :: 0 <= i < n ==> CategoryUsable(categories, i)
    ensures Generated(stream, categories, n).Ok? ==>
      var rs := Generated(stream, categories, n).value;
      |rs| == n && forall k :: 0 <= k < n ==> rs[k] == GeneratedAt(stream, categories, k)
    ensures Generated(stream, categories, n).Err? ==>
      var j := Generated(stream, categories, n).error.index;
      && j < n && !CategoryUsable(categories, j)
      && forall i :: 0 <= i < j ==> CategoryUsable(categories, i)
  {
    if n > 0 && FirstMissing(categories, n).None? {
      assert CategoryUsable(categories, 0);
    }
  }

  /** With the shipped registry every category lookup succeeds, so a run of any length completes
      and every category it writes is a registry id. */
  lemma RegistryRunCompletes(stream: bv32, n: nat)
    ensures Generated(stream, CATEGORIES, n).Ok? && |Generated(stream, CATEGORIES, n).value| == n
    ensures forall k :: 0 <= k < n ==>
      var r := Generated(stream, CATEGORIES, n).value[k];
      r.category.Some? ==> r.category.value in CategoryIds(CATEGORIES)
  {
    CategoriesWellFormed();
    var ids := CategoryIds(CATEGORIES);
    forall i: nat | 0 <= i < n
      ensures CategoryUsable(CATEGORIES, i) && Cycle(CATEGORIES, i).id in ids
    {
      CycleIsModulo(CATEGORIES, i);
      assert ids[i % 5] == CATEGORIES[i % 5].id;
    }
    GeneratedOutcome(stream, CATEGORIES, n);
    var rs := Generated(stream, CATEGORIES, n).value;
    forall k | 0 <= k < n
      ensures rs[k].category.Some? ==> rs[k].category.value in ids
    {
      SeedFieldsSpec(k, Cycle(CATEGORIES, k).id, Draw(stream, 3 * k + 2));
    }
  }

  /** An empty registry fails at the very first record, whatever the stream. */
  lemma EmptyRegistryFails(stream: bv32, n: nat)
    requires n > 0
    ensures Generated(stream, [], n) == Err(MissingCategory(0))
  {
    assert !CategoryUsable([], 0);
    GeneratedOutcome(stream, [], n);
  }

  /** A successful run normalizes without error against any non-empty registry, record k keeping
      its drawn position and the id, category and value it carries. */
  lemma GeneratedRecordsNormalize(stream: bv32, categories: seq<Category>, n: nat, registry: seq<Category>)
    requires Generated(stream, categories, n).Ok? && |registry| > 0
    ensures NormalizeItems(Generated(stream, categories, n).value, registry).Ok?
    ensures var ps := NormalizeItems(Generated(stream, categories, n).value, registry).value;
      |ps| == n && forall k :: 0 <= k < n ==> NormalizeRecord(GeneratedAt(stream, categories, k), k, registry) == Ok(ps[k])
  {
    var rs := Generated(stream, categories, n).value;
    GeneratedOutcome(stream, categories, n);
    forall k | 0 <= k < n
      ensures NormalizeRecord(rs[k], k, registry).Ok?
    {
      SeedRecordNormalizes(k, Cycle(categories, k).id, Draw(stream, 3 * k), Draw(stream, 3 * k + 1), Draw(stream, 3 * k + 2), registry);
    }
    NormalizeItemsOkIff(rs, registry);
    NormalizeItemsOk(rs, registry);
  }
}
