/** `normalizeSeedPoints` of src/data/normalizePoints.js: validates raw seed records and completes
    the fields they lack from a hash of the position. */
module Normalize {
  import opened Wrappers
  import opened JsRuntime
  import opened JsNumber
  import opened Config
  import opened Points
  import opened StableHash

  /** What the `position` field of a raw record holds. */
  datatype RawPosition = PositionAbsent | PositionNotArray | PositionArray(coords: seq<real>)

  /** What the `value` field holds: nothing, something `Number.isFinite` rejects, or a finite number. */
  datatype RawValue = ValueAbsent | ValueNotFinite | ValueFinite(x: real)

  /** A raw seed record. `Hole` is a null or undefined array element; `category` and `id` are
      `None` when the field is absent or holds anything other than a string. */
  datatype RawRecord =
    | Hole
    | Record(position: RawPosition, value: RawValue, category: Option<string>, id: Option<string>)

  /** `{}`, what `raw[i] ?? {}` substitutes for a hole. */
  const EMPTY_RECORD: RawRecord := Record(PositionAbsent, ValueAbsent, None, None)

  datatype NormalizeError =
    | InputNotAnArray                 // 'seed points must be an array'
    | InvalidPosition(index: nat)     // 'seed point ${i} missing valid position'
    | CategoryLookupFailed(index: nat) // `categories[h % 0]` is undefined and reading `.id` throws

  /** `raw[i] ?? {}`. */
  function Filled(raw: RawRecord): RawRecord {
    if raw.Hole? then EMPTY_RECORD else raw
  }

  /** `Array.isArray(item.position) && item.position.length === 2`. */
  predicate HasValidPosition(item: RawRecord) {
    item.Record? && item.position.PositionArray? && |item.position.coords| == 2
  }

  /** `${lng.toFixed(6)},${lat.toFixed(6)}`: the anchor every derived field is hashed from. */
  function SeedKey(p: Position): string {
    ToFixed(p.lng, 6) + "," + ToFixed(p.lat, 6)
  }

  /** A seed key is plain ASCII: two `toFixed` strings around a comma. */
  lemma SeedKeyAscii(p: Position)
    ensures IsAscii(SeedKey(p))
    ensures IsAscii(SeedKey(p) + "|cat") && IsAscii(SeedKey(p) + "|id")
  {
    ToFixedAscii(p.lng, 6);
    ToFixedAscii(p.lat, 6);
    KeysAscii(ToFixed(p.lng, 6), ToFixed(p.lat, 6));
  }

  lemma KeysAscii(lng: string, lat: string)
    requires IsAscii(lng) && IsAscii(lat)
    ensures IsAscii(lng + "," + lat)
    ensures IsAscii(lng + "," + lat + "|cat") && IsAscii(lng + "," + lat + "|id")
  {
    AsciiConcat(lng, ",");
    AsciiConcat(lng + ",", lat);
    AsciiConcat(lng + "," + lat, "|cat");
    AsciiConcat(lng + "," + lat, "|id");
  }

  lemma ToFixedAscii(x: real, f: nat)
    requires f <= 100
    ensures IsAscii(ToFixed(x, f))
  {
    var s := ToFixed(x, f);
    ToFixedChars(x, f);
    forall k | 0 <= k < |s| ensures (s[k] as int) < 128 {
      assert IsFixedChar(s[k]);
    }
  }

  lemma AsciiConcat(a: string, b: string)
    requires IsAscii(a) && IsAscii(b)
    ensures IsAscii(a + b)
  {
    forall k | 0 <= k < |a + b| ensures ((a + b)[k] as int) < 128 {
      if k < |a| { assert (a + b)[k] == a[k]; } else { assert (a + b)[k] == b[k - |a|]; }
    }
  }

  /** The three hashes the derived fields come from, of the seed key and of the seed key with
      "|cat" or "|id" appended, are all 32-bit FNV-1a of the keys' octets. */
  lemma SeedKeyHashesAreFnv1a(p: Position)
    ensures IsAscii(SeedKey(p)) && Hash(SeedKey(p)) == Fnv1a32(AsciiOctets(SeedKey(p)))
    ensures IsAscii(SeedKey(p) + "|cat") && Hash(SeedKey(p) + "|cat") == Fnv1a32(AsciiOctets(SeedKey(p) + "|cat"))
    ensures IsAscii(SeedKey(p) + "|id") && Hash(SeedKey(p) + "|id") == Fnv1a32(AsciiOctets(SeedKey(p) + "|id"))
  {
    SeedKeyAscii(p);
    HashIsFnv1aOnAscii(SeedKey(p));
    HashIsFnv1aOnAscii(SeedKey(p) + "|cat");
    HashIsFnv1aOnAscii(SeedKey(p) + "|id");
  }

  /** `deriveValue`: an in-range value picked by the hash of the seed key. */
  function DeriveValue(seedKey: string): (v: int)
    ensures VALUE_MIN <= v <= VALUE_MAX
  {
    VALUE_MIN + (Hash(seedKey) as int) % (VALUE_MAX - VALUE_MIN + 1)
  }

  /** `deriveCategory`: a registry id picked by the hash of `seedKey + "|cat"`. */
  function DeriveCategory(seedKey: string, categories: seq<Category>): (c: string)
    requires |categories| > 0
    ensures c in CategoryIds(categories)
  {
    categories[(Hash(seedKey + "|cat") as int) % |categories|].id
  }

  /** `deriveId`: `pt_<index>_<lower-case hex of the hash of seedKey + "|id">`. */
  function DeriveId(seedKey: string, index: nat): (id: string)
    ensures |id| > 3 && id[..3] == "pt_"
  {
    "pt_" + Decimal(index) + "_" + Hex(Hash(seedKey + "|id") as int)
  }

  /** `pt_<i>_<h1>` and `pt_<j>_<h2>` differ when i and j do, whatever h1 and h2 are. */
  lemma PtIdsDistinct(i: nat, h1: string, j: nat, h2: string)
    requires i != j
    ensures "pt_" + Decimal(i) + "_" + h1 != "pt_" + Decimal(j) + "_" + h2
  {
    var s1, s2 := "pt_" + Decimal(i) + "_" + h1, "pt_" + Decimal(j) + "_" + h2;
    if s1 == s2 {
      assert s1[3..] == Decimal(i) + "_" + h1;
      assert s2[3..] == Decimal(j) + "_" + h2;
      ToRadixNoUnderscore(i, 10);
      ToRadixNoUnderscore(j, 10);
      SplitAtFirstUnderscore(Decimal(i), h1, Decimal(j), h2);
      ToRadixInjective(i, j, 10);
    }
  }

  /** Derived ids of records at different indices differ, whatever their positions. */
  lemma DerivedIdsDistinct(key1: string, i: nat, key2: string, j: nat)
    requires i != j
    ensures DeriveId(key1, i) != DeriveId(key2, j)
  {
    PtIdsDistinct(i, Hex(Hash(key1 + "|id") as int), j, Hex(Hash(key2 + "|id") as int));
  }

  /** The point a record with a valid position becomes: the position copied, the value rounded
      and clamped (derived first when not finite), and category and id kept or derived. */
  function CompletePoint(item: RawRecord, index: nat, categories: seq<Category>): Point
    requires HasValidPosition(item)
    requires item.category.Some? || |categories| > 0
  {
    var lng, lat := item.position.coords[0], item.position.coords[1];
    var seedKey := SeedKey(Position(lng, lat));
    var value := if item.value.ValueFinite? then item.value.x else DeriveValue(seedKey) as real;
    var category := if item.category.Some? then item.category.value else DeriveCategory(seedKey, categories);
    var id := if item.id.Some? then item.id.value else DeriveId(seedKey, index);
    Point(id, Position(lng, lat), ClampInt(Round(value), VALUE_MIN, VALUE_MAX), category)
  }

  /** One iteration of the loop: the record at `index` after `raw[i] ?? {}`, or the error that
      aborts the whole call. Deriving the value cannot fail, so the two checks can be made before
      anything is derived. */
  function NormalizeRecord(raw: RawRecord, index: nat, categories: seq<Category>): Result<Point, NormalizeError> {
    var item := Filled(raw);
    if !HasValidPosition(item) then Err(InvalidPosition(index))
    else if item.category.None? && |categories| == 0 then Err(CategoryLookupFailed(index))
    else Ok(CompletePoint(item, index, categories))
  }

  /** The per-record contract: a record fails exactly when its position is not a two-element array
      (or, when a category must be derived, the registry is empty); otherwise the position is
      copied, the value is a rounded and clamped copy of a finite value or is derived from the
      position, and a string category or id is kept verbatim while a missing one is derived. */
  lemma NormalizeRecordSpec(raw: RawRecord, index: nat, categories: seq<Category>)
    ensures var r := NormalizeRecord(raw, index, categories);
      && (!HasValidPosition(Filled(raw)) ==> r == Err(InvalidPosition(index)))
      && (HasValidPosition(Filled(raw)) && raw.category.None? && |categories| == 0 ==>
            r == Err(CategoryLookupFailed(index)))
      && (HasValidPosition(Filled(raw)) && (raw.category.Some? || |categories| > 0) ==> r.Ok?)
      && (r.Ok? ==>
            var p := r.value;
            var pos := Position(raw.position.coords[0], raw.position.coords[1]);
            && p.position == pos
            && VALUE_MIN <= p.value <= VALUE_MAX
            && (raw.value.ValueFinite? ==> p.value == ClampInt(Round(raw.value.x), VALUE_MIN, VALUE_MAX))
            && (!raw.value.ValueFinite? ==> p.value == DeriveValue(SeedKey(pos)))
            && (raw.category.Some? ==> p.category == raw.category.value)
            && (raw.category.None? ==> p.category == DeriveCategory(SeedKey(pos), categories))
            && (raw.id.Some? ==> p.id == raw.id.value)
            && (raw.id.None? ==> p.id == DeriveId(SeedKey(pos), index)))
  {
    if HasValidPosition(Filled(raw)) && (raw.category.Some? || |categories| > 0) {
      assert Filled(raw) == raw;
      CompletePointSpec(raw, index, categories);
    }
  }

  lemma CompletePointSpec(item: RawRecord, index: nat, categories: seq<Category>)
    requires HasValidPosition(item)
    requires item.category.Some? || |categories| > 0
    ensures var p := CompletePoint(item, index, categories);
      var pos := Position(item.position.coords[0], item.position.coords[1]);
      && p.position == pos
      && VALUE_MIN <= p.value <= VALUE_MAX
      && (item.value.ValueFinite? ==> p.value == ClampInt(Round(item.value.x), VALUE_MIN, VALUE_MAX))
      && (!item.value.ValueFinite? ==> p.value == DeriveValue(SeedKey(pos)))
      && (item.category.Some? ==> p.category == item.category.value)
      && (item.category.None? ==> p.category == DeriveCategory(SeedKey(pos), categories))
      && (item.id.Some? ==> p.id == item.id.value)
      && (item.id.None? ==> p.id == DeriveId(SeedKey(pos), index))
  {
    var pos := Position(item.position.coords[0], item.position.coords[1]);
    if !item.value.ValueFinite? {
      var v := DeriveValue(SeedKey(pos));
      assert Round(v as real) == v;
    }
  }

  /** What iteration i of the loop yields or throws. */
  function RecordResults(items: seq<RawRecord>, categories: seq<Category>): (rs: seq<Result<Point, NormalizeError>>)
    ensures |rs| == |items|
  {
    seq(|items|, i requires 0 <= i < |items| => NormalizeRecord(items[i], i, categories))
  }

  /** The records normalized in order; the first failing record aborts with its error. */
  function NormalizeItems(items: seq<RawRecord>, categories: seq<Category>): Result<seq<Point>, NormalizeError> {
    Collect(RecordResults(items, categories))
  }

  /** The loop over a prefix of the records is the first iterations of the loop over all. */
  lemma RecordResultsPrefix(items: seq<RawRecord>, i: nat, categories: seq<Category>)
    requires i <= |items|
    ensures RecordResults(items[..i], categories) == RecordResults(items, categories)[..i]
  {
    assert forall k :: 0 <= k < i ==> items[..i][k] == items[k];
  }

  /** What `normalizeSeedPoints(raw, { categories })` returns or throws. */
  function Normalize(raw: JsArray<RawRecord>, categories: seq<Category>): Result<seq<Point>, NormalizeError> {
    match raw
    case NotAnArray => Err(InputNotAnArray)
    case Elements(items) => NormalizeItems(items, categories)
  }

  /** Normalization succeeds exactly when every record does. */
  lemma NormalizeItemsOkIff(items: seq<RawRecord>, categories: seq<Category>)
    ensures NormalizeItems(items, categories).Ok? <==>
              forall i :: 0 <= i < |items| ==> NormalizeRecord(items[i], i, categories).Ok?
  {
    var rs := RecordResults(items, categories);
    CollectOkIff(rs);
    assert forall i :: 0 <= i < |items| ==> rs[i] == NormalizeRecord(items[i], i, categories);
  }

  /** A successful call keeps the input's length and order: record i becomes
      `NormalizeRecord(items[i], i, categories)`. */
  lemma NormalizeItemsOk(items: seq<RawRecord>, categories: seq<Category>)
    requires NormalizeItems(items, categories).Ok?
    ensures var ps := NormalizeItems(items, categories).value;
            |ps| == |items| &&
            forall i :: 0 <= i < |items| ==> NormalizeRecord(items[i], i, categories) == Ok(ps[i])
  {
    var rs := RecordResults(items, categories);
    CollectOk(rs);
    assert forall i :: 0 <= i < |items| ==> rs[i] == NormalizeRecord(items[i], i, categories);
  }

  /** A failing call reports the first failing record: its index is in range, that record fails
      with exactly this error, and every record before it succeeds. */
  lemma NormalizeItemsErr(items: seq<RawRecord>, categories: seq<Category>)
    requires NormalizeItems(items, categories).Err?
    ensures var e := NormalizeItems(items, categories).error;
            && !e.InputNotAnArray?
            && e.index < |items|
            && NormalizeRecord(items[e.index], e.index, categories) == Err(e)
            && forall j :: 0 <= j < e.index ==> NormalizeRecord(items[j], j, categories).Ok?
  {
    var rs := RecordResults(items, categories);
    CollectErr(rs);
    var i :| 0 <= i < |rs| && rs[i] == Err(Collect(rs).error) && forall j :: 0 <= j < i ==> rs[j].Ok?;
    assert NormalizeRecord(items[i], i, categories).error.index == i;
    assert forall j :: 0 <= j < i ==> rs[j] == NormalizeRecord(items[j], j, categories);
  }

  /** `out[i]` depends only on `raw[i]`, `i` and the registry: two successful calls agree at every
      index where their inputs agree. */
  lemma NormalizeIsElementwise(items1: seq<RawRecord>, items2: seq<RawRecord>, categories: seq<Category>, i: nat)
    requires NormalizeItems(items1, categories).Ok? && NormalizeItems(items2, categories).Ok?
    requires i < |items1| && i < |items2| && items1[i] == items2[i]
    ensures i < |NormalizeItems(items1, categories).value| && i < |NormalizeItems(items2, categories).value|
    ensures NormalizeItems(items1, categories).value[i] == NormalizeItems(items2, categories).value[i]
  {
    NormalizeItemsOk(items1, categories);
    NormalizeItemsOk(items2, categories);
  }

  /** Every normalized point has an in-range value and, when the registry is consulted, a registry
      category. */
  lemma NormalizedPointsInRange(items: seq<RawRecord>, categories: seq<Category>)
    requires NormalizeItems(items, categories).Ok?
    ensures var ps := NormalizeItems(items, categories).value;
            |ps| == |items| &&
            forall i :: 0 <= i < |ps| ==>
              && VALUE_MIN <= ps[i].value <= VALUE_MAX
              && (Filled(items[i]).category.None? ==> ps[i].category in CategoryIds(categories))
  {
    NormalizeItemsOk(items, categories);
    var ps := NormalizeItems(items, categories).value;
    forall i | 0 <= i < |ps|
      ensures VALUE_MIN <= ps[i].value <= VALUE_MAX
      ensures Filled(items[i]).category.None? ==> ps[i].category in CategoryIds(categories)
    {
      NormalizeRecordSpec(items[i], i, categories);
    }
  }

  /** A finite value that is already an in-range integer survives normalization unchanged. */
  lemma InRangeValueKept(raw: RawRecord, index: nat, categories: seq<Category>, v: int)
    requires NormalizeRecord(raw, index, categories).Ok?
    requires raw.value == ValueFinite(v as real) && VALUE_MIN <= v <= VALUE_MAX
    ensures NormalizeRecord(raw, index, categories).value.value == v
  {
    NormalizeRecordSpec(raw, index, categories);
  }

  /** Two records with the same position, one carrying `value: 10` and one without a value: the
      first keeps 10, the second gets the value derived from the position alone, whatever its
      index and other fields. */
  lemma ExplicitAndDerivedValue(pos: Position, i: nat, j: nat, categories: seq<Category>, cat: Option<string>, id: Option<string>)
    requires |categories| > 0
    ensures var explicit := NormalizeRecord(Record(PositionArray([pos.lng, pos.lat]), ValueFinite(10.0), cat, id), i, categories);
            var derived := NormalizeRecord(Record(PositionArray([pos.lng, pos.lat]), ValueAbsent, cat, id), j, categories);
            && explicit.Ok? && explicit.value.value == 10
            && derived.Ok? && derived.value.value == DeriveValue(SeedKey(pos))
  {
    NormalizeRecordSpec(Record(PositionArray([pos.lng, pos.lat]), ValueFinite(10.0), cat, id), i, categories);
    NormalizeRecordSpec(Record(PositionArray([pos.lng, pos.lat]), ValueAbsent, cat, id), j, categories);
  }

  /** The first failing record decides the outcome of the whole call. */
  lemma NormalizeItemsFailsAt(items: seq<RawRecord>, i: nat, categories: seq<Category>)
    requires i < |items|
    requires NormalizeItems(items[..i], categories).Ok?
    requires NormalizeRecord(items[i], i, categories).Err?
    ensures NormalizeItems(items, categories) == Err(NormalizeRecord(items[i], i, categories).error)
  {
    var rs := RecordResults(items, categories);
    RecordResultsPrefix(items, i, categories);
    CollectOkIff(rs[..i]);
    assert forall j :: 0 <= j < i ==> rs[..i][j] == rs[j];
    CollectErrAt(rs, i);
  }

  /** One more successful record extends a successful prefix by one point. */
  lemma NormalizeItemsSnoc(items: seq<RawRecord>, i: nat, categories: seq<Category>, ps: seq<Point>, p: Point)
    requires i < |items|
    requires NormalizeItems(items[..i], categories) == Ok(ps)
    requires NormalizeRecord(items[i], i, categories) == Ok(p)
    ensures NormalizeItems(items[..i + 1], categories) == Ok(ps + [p])
  {
    var rs := RecordResults(items, categories);
    RecordResultsPrefix(items, i, categories);
    RecordResultsPrefix(items, i + 1, categories);
    CollectSnoc(rs, i, ps, p);
  }

  /** The source's loop filling a preallocated `out` array index by index. */
  method NormalizeSeedPoints(raw: JsArray<RawRecord>, categories: seq<Category>) returns (r: Result<seq<Point>, NormalizeError>)
    ensures r == Normalize(raw, categories)
  {
    if raw.NotAnArray? {
      return Err(InputNotAnArray);
    }
    var items := raw.elements;
    var out := new Point[|items|];
    var i := 0;
    while i < |items|
      invariant 0 <= i <= |items|
      invariant NormalizeItems(items[..i], categories) == Ok(out[..i])
    {
      var item := Filled(items[i]);
      if !HasValidPosition(item) {
        NormalizeItemsFailsAt(items, i, categories);
        return Err(InvalidPosition(i));
      }
      var lng, lat := item.position.coords[0], item.position.coords[1];
      var seedKey := SeedKey(Position(lng, lat));
      var value := if item.value.ValueFinite? then item.value.x else DeriveValue(seedKey) as real;
      if item.category.None? && |categories| == 0 {
        NormalizeItemsFailsAt(items, i, categories);
        return Err(CategoryLookupFailed(i));
      }
      var category := if item.category.Some? then item.category.value else DeriveCategory(seedKey, categories);
      var id := if item.id.Some? then item.id.value else DeriveId(seedKey, i);
      var point := Point(id, Position(lng, lat), ClampInt(Round(value), VALUE_MIN, VALUE_MAX), category);
      assert NormalizeRecord(items[i], i, categories) == Ok(point) by {
        assert CompletePoint(item, i, categories) == point;
      }
      NormalizeItemsSnoc(items, i, categories, out[..i], point);
      out[i] := point;
      assert out[..i + 1] == out[..i] + [point];
      i := i + 1;
    }
    assert items[..i] == items && out[..] == out[..i];
    return Ok(out[..]);
  }
}
