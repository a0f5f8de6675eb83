# Mass-points explorer: the data-preparation core in Dafny

The repository renders a large set of map points on the GPU. It builds that set on the CPU
through a short deterministic pipeline, and this project models that pipeline:

- **The seed generator.** `scripts/generate-seed-points.mjs` draws 500 raw seed records
  around a fixed centre from a mulberry32 stream seeded with 20260122. It then deletes the id,
  category or value of some records by index.
- **The normalizer.** `normalizeSeedPoints` in `src/data/normalizePoints.js` checks each raw
  record's position. It derives any missing value, category or id from a 32-bit FNV-1a hash
  of a position key, then rounds and clamps the value.
- **The expander.** `expandPoints` in `src/data/pointsExpansion.js` cycles over the normalized
  seeds up to `targetCount` points. A second mulberry32 stream (seed 1337) jitters each
  position and drifts each value. The expander also records the `[min, max]` value domain.
- **The loader.** `loadAndPreparePoints` chains normalize and expand. The fetch is a parameter.
- **The filter applicator.** `applyLayerFilters` in `src/filters/applyLayerFilters.js` hands a
  layer handle a new value range and a copy of the selected category ids through one
  `setProps` call.
- **The visibility rule.** The CPU predicate `isVisible` in the filter-correctness tests gives
  those two props their meaning.

Modules, one per file: `Wrappers` (Option, Result, and `Collect` for a loop that stops at
its first throw) and `JsRuntime` (arrays as they arrive, UTF-16 code units). `JsNumber` holds
`Math.round`, clamp, base-10/base-16 integer strings, `toFixed` and `Number` of a decimal
string. `Config` holds the constants and the category registry; `Points` holds the point
record. Then one module per pipeline stage: `StableHash`, `Mulberry`, `Normalize`,
`Expansion`, `SeedGenerator`, `Loader`, `Visibility`, `Filters`.

The modelling form follows the code:
- Loops become methods with loop invariants. Each such method is proved equal to a function
  that specifies it. Those methods are `StableHash32`, `NormalizeSeedPoints`, `FillPoints` (the
  loop of `expandPoints`, which `ExpandPoints` wraps with the argument checks and the value
  domain) and `GenerateRecords`.
- The mulberry32 closure becomes the class `Mulberry32`, whose state `a` is a `bv32` field.
- The layer handle becomes the class `Layer`, with array fields for its props.
- Every error the code throws on the inputs the model can express becomes an `Err` value; the
  inputs it cannot express are listed under "Left out". A loop that stops at its first throw is
  `Wrappers.Collect` over the results of its iterations.

All 32-bit arithmetic (`Math.imul`, `| 0`, `>>> 0`, `>>>`) is `bv32` arithmetic. The output
of the generator is its numerator `N`, with value `N / 2^32`. Positions and jitter are reals.

Three behaviours of the code are worth stating plainly:
- `applyLayerFilters` allocates two new arrays on every call, `[valueMin, valueMax]` and
  `selectedCategoryIds.slice()`, so every call hands the layer fresh references.
- `normalizeSeedPoints` checks only that `position` is an array of length two. It does not
  check that the coordinates are finite.
- `expandPoints` does not check for an empty seed array. Its first iteration reads
  `seedPoints[0 % 0]`, which is `undefined`, and reading `.position` from it throws a
  TypeError. The model returns the error `EmptySeed`.

## Model

| member | source | states |
|---|---|---|
| Config.CategoryIds | src/layers/createPointsLayer.js:14 | the ids of a registry, one per entry, in registry order |
| Config.CategoriesWellFormed | src/config/categories.js:2-8 | the shipped registry has five entries with non-empty, pairwise distinct ids |
| JsRuntime.CodeUnits | src/data/normalizePoints.js:6-7 | a string has at least as many UTF-16 code units as characters |
| JsRuntime.AsciiCodeUnits | src/data/normalizePoints.js:6-7 | on an all-ASCII string there is one code unit per character, equal to its code |
| JsNumber.Round | src/data/normalizePoints.js:64 | `Math.round(x)` is within half a unit of x, a tie going up |
| JsNumber.ClampInt | src/data/normalizePoints.js:13-15 | `clamp` lands in [lo, hi], leaves values inside unchanged, and maps values below lo to lo and above hi to hi |
| JsNumber.ClampReal | src/data/pointsExpansion.js:26-28 | the same four properties as ClampInt, on reals |
| JsNumber.ClampRealMovesCloser | src/data/pointsExpansion.js:49-50 | clamping never moves a coordinate further from any point of the interval |
| JsNumber.RadixRoundTrip | src/data/normalizePoints.js:29 | reading back the digits `toString(radix)` writes gives the number again |
| JsNumber.ToRadixInjective | src/data/pointsExpansion.js:62 | different numbers are written as different digit strings |
| JsNumber.ToRadixNoUnderscore | src/data/pointsExpansion.js:62 | the digits of a number contain no `_` |
| JsNumber.CycleIsModulo | src/data/pointsExpansion.js:43 | going round a non-empty sequence i steps lands on element `i % length` |
| JsNumber.FixedUnits | scripts/generate-seed-points.mjs:43 | the integer `toFixed(f)` writes is within half a unit of the magnitude times 10^f |
| JsNumber.ToFixedShape | src/data/normalizePoints.js:49 | `toFixed(f)` has a minus sign exactly for negative numbers, a decimal point f places from the end, and digits after it |
| JsNumber.FixedValue | scripts/generate-seed-points.mjs:43 | `Number(x.toFixed(f))` is within half of 10^-f of x |
| JsNumber.FixedValueParses | scripts/generate-seed-points.mjs:43 | reading back the string `toFixed(f)` writes, as `Number` reads a decimal string, gives FixedValue |
| StableHash.StableHash32 | src/data/normalizePoints.js:3-11 | the loop returns Hash(s), the fold of XOR-then-multiply over all code units, starting from 0x811c9dc5 |
| StableHash.HashIsFnv1aOnAscii | src/data/normalizePoints.js:3-11 | on an all-ASCII string the hash equals FNV-1a of its octets, as in section 2 of draft-eastlake-fnv |
| StableHash.HashTestVectors | src/data/normalizePoints.js:5-10 | the empty string hashes to 0x811c9dc5 and "a" to 0xe40c292c, FNV-1a's published values |
| Mulberry.StateAfterClosedForm | src/data/pointsExpansion.js:18-19 | after k calls the state is `seed + k * 0x6d2b79f5` modulo 2^32 |
| Mulberry.DrawIsTemperedState | src/data/pointsExpansion.js:19-22 | output k is the tempering of the state after k + 1 advances |
| Mulberry.Unit | src/data/pointsExpansion.js:22 | every output `N / 4294967296` lies in [0, 1) |
| Mulberry.Mulberry32.constructor | src/data/pointsExpansion.js:15-16 | the state starts at `seed >>> 0`, with no calls made |
| Mulberry.Mulberry32.Next | src/data/pointsExpansion.js:17-23 | call number k returns the numerator of output k of the stream, and advances the state by one step |
| Normalize.DeriveValue | src/data/normalizePoints.js:17-20 | a derived value is in [VALUE_MIN, VALUE_MAX] before any clamping |
| Normalize.DeriveCategory | src/data/normalizePoints.js:22-25 | a derived category is one of the registry's ids |
| Normalize.DeriveId | src/data/normalizePoints.js:27-30 | a derived id starts with `pt_` |
| Normalize.DerivedIdsDistinct | src/data/normalizePoints.js:27-30 | derived ids of records at different indices differ, whatever their positions |
| Normalize.SeedKeyAscii | src/data/normalizePoints.js:49 | every seed key, and each key with the category or id suffix appended, is plain ASCII |
| Normalize.SeedKeyHashesAreFnv1a | src/data/normalizePoints.js:17-30 | the three hashes the derived value, category and id come from are 32-bit FNV-1a of their keys' octets |
| Normalize.NormalizeRecordSpec | src/data/normalizePoints.js:38-66 | a record whose coordinates are numbers fails exactly when its position is not a two-element array, or when its category must be derived from an empty registry; otherwise the position is copied, the value is a rounded and clamped finite value or is derived, and a present category or id is kept verbatim while a missing one is derived |
| Normalize.NormalizeItemsOkIff | src/data/normalizePoints.js:37-67 | the call succeeds exactly when every record does |
| Normalize.NormalizeItemsOk | src/data/normalizePoints.js:35-66 | a successful call keeps the length and order: point i is record i normalized at index i |
| Normalize.NormalizeItemsErr | src/data/normalizePoints.js:44-46 | a failing call reports the first failing record, with its index; every record before it succeeds, so no partial output escapes |
| Normalize.NormalizeIsElementwise | src/data/normalizePoints.js:61-66 | point i depends only on record i, i and the registry |
| Normalize.NormalizedPointsInRange | src/data/normalizePoints.js:64 | every output value is an integer in [VALUE_MIN, VALUE_MAX], and a derived category is a registry id |
| Normalize.InRangeValueKept | src/data/normalizePoints.js:51-64 | a finite value that is already an in-range integer survives unchanged |
| Normalize.ExplicitAndDerivedValue | src/data/__tests__/normalizePoints.test.js:12-28 | a record with `value: 10` keeps 10, and one without a value gets the value derived from its position alone |
| Normalize.NormalizeItemsFailsAt | src/data/normalizePoints.js:44-46 | the first failing record decides the outcome of the whole call |
| Normalize.NormalizeSeedPoints | src/data/normalizePoints.js:32-70 | the loop filling `out` returns exactly Normalize(raw, categories), including the non-array error |
| Expansion.Jitter | src/data/pointsExpansion.js:46-47 | a jitter `(rng() - 0.5) * 0.05` lies in [-0.025, 0.025) |
| Expansion.Drift | src/data/pointsExpansion.js:53-55 | a drift is an integer in [-14, 14] |
| Expansion.ExpandedItemsAt | src/data/pointsExpansion.js:42-43 | point k of the expansion is built from seed `k % length` and draws 3k, 3k+1 and 3k+2 |
| Expansion.MinValue | src/data/pointsExpansion.js:58 | the minimum is at most every value and is attained |
| Expansion.MaxValue | src/data/pointsExpansion.js:59 | the maximum is at least every value and is attained |
| Expansion.MinFoldIsMinValue | src/data/pointsExpansion.js:39-58 | the running `Math.min` from Infinity ends at the minimum of a non-empty set of values |
| Expansion.MaxFoldIsMaxValue | src/data/pointsExpansion.js:40-59 | the running `Math.max` from -Infinity ends at the maximum of a non-empty set of values |
| Expansion.NextPoint | src/data/pointsExpansion.js:43-66 | one iteration reads base `i % length`, draws longitude, latitude and drift in that order, and yields point i of the stream |
| Expansion.FillPoints | src/data/pointsExpansion.js:37-67 | the loop yields the first n expanded points of the stream seeded with 1337, plus their running minimum and maximum |
| Expansion.ExpandPoints | src/data/pointsExpansion.js:30-71 | the argument checks, loop and `meta.valueDomain` return exactly Expand(seedPoints, targetCount) |
| Expansion.ExpandedPointSpec | src/data/pointsExpansion.js:46-66 | each point's id is `base.id + "_" + i` and its category is the base's; its coordinates are within the map bounds, and within 0.025 degrees of an in-bounds base; its value is in range, and within 14 of an in-range base value |
| Expansion.ExpandedIdsDistinct | src/data/pointsExpansion.js:62 | points at different indices get different ids, whatever their bases' ids |
| Expansion.ExpandOutcome | src/data/pointsExpansion.js:30-71 | it succeeds exactly for an array with a non-empty seed and a positive count valid as an array length; a non-array throws the array error, a non-finite or non-positive count the count error, a count `new Array` rejects the RangeError, and an empty seed the TypeError; a success has exactly that many points, point k is built from seed `k % length`, and the value domain lies in [VALUE_MIN, VALUE_MAX], bounds every value and is attained at both ends |
| Expansion.ExpandIdsUnique | src/data/pointsExpansion.js:61-66 | all ids of one expansion are pairwise distinct |
| SeedGenerator.DrawnValueInRange | scripts/generate-seed-points.mjs:55-58 | a drawn value `Math.round(rng() * 100 + 0)` is in [VALUE_MIN, VALUE_MAX] |
| SeedGenerator.MultipleOfIsModulo | scripts/generate-seed-points.mjs:63-65 | "d divides i", as the deletion rules use it, is `i % d == 0` |
| SeedGenerator.FirstMissing | scripts/generate-seed-points.mjs:33-35 | the first index whose category lookup fails, if any: every earlier lookup succeeds, and none fails exactly when there is no such index |
| SeedGenerator.FirstMissingPersists | scripts/generate-seed-points.mjs:32-35 | once index i is the first failing lookup, every longer run also fails first at i |
| SeedGenerator.RecordsSnoc | scripts/generate-seed-points.mjs:67 | pushing record n onto the first n records gives the first n + 1 |
| SeedGenerator.GenerateSeedPoints | scripts/generate-seed-points.mjs:26-68 | the loop of `main`, run for SEED_POINT_COUNT records, returns exactly Generate(categories) |
| SeedGenerator.GenerateRecords | scripts/generate-seed-points.mjs:27-68 | one generator seeded once, three draws per record, and records pushed in index order; the first failing category lookup aborts the run |
| SeedGenerator.NextRecord | scripts/generate-seed-points.mjs:33-65 | one iteration draws longitude, latitude and value in that order, even when the value is later deleted, and yields record i of the stream |
| SeedGenerator.PushNextRecord | scripts/generate-seed-points.mjs:37-67 | one iteration extends the first i records to the first i + 1 |
| SeedGenerator.BuildRecord | scripts/generate-seed-points.mjs:40-65 | the object literal with every field, then the three `delete` statements, give SeedRecord |
| SeedGenerator.SeedPositionInBounds | scripts/generate-seed-points.mjs:41-52 | a record's position has two coordinates, clamped into the longitude and latitude bounds |
| SeedGenerator.SeedFieldsSpec | scripts/generate-seed-points.mjs:54-65 | the id `seed_<i>` is absent exactly when `i % 7 == 0`, the category exactly when `i % 9 == 0`, and the value exactly when `i % 11 == 0`; a present value is the drawn one, in range |
| SeedGenerator.SeedRecordNormalizes | scripts/generate-seed-points.mjs:41-65 | every generated record passes the normalizer's position check; the normalizer keeps the drawn position, and every id, category and value the record carries |
| SeedGenerator.GeneratedOutcome | scripts/generate-seed-points.mjs:32-68 | a run succeeds exactly when every category lookup does, and then has one record per index in index order; otherwise it fails at the first failing index |
| SeedGenerator.RegistryRunCompletes | scripts/generate-seed-points.mjs:32-59 | with the shipped registry every run completes, with the requested number of records, and every category written is a registry id |
| SeedGenerator.EmptyRegistryFails | scripts/generate-seed-points.mjs:33-35 | an empty registry fails at the first record |
| SeedGenerator.GeneratedRecordsNormalize | src/data/normalizePoints.js:37-67 | a completed run normalizes without error against any non-empty registry, one point per record, point k being record k normalized |
| Loader.PreparedPoints | src/data/loadAndPreparePoints.js:4-21 | a load succeeds exactly when the response is ok, every record normalizes, the seed is non-empty and the count is a valid positive array length; it then yields that many points, with a value domain in [VALUE_MIN, VALUE_MAX] that bounds every value |
| Loader.GeneratedFileLoads | src/data/loadAndPreparePoints.js:12-20 | a file from a completed generator run, served with an ok response, loads against the shipped registry into exactly TARGET_POINT_COUNT points |
| Visibility.VisibleOf | src/data/__tests__/filterCorrectness.test.js:27-28 | `filter(isVisible)` returns no more points than it is given, all of them visible |
| Visibility.VisibleIsOrderedSubsequence | src/data/__tests__/filterCorrectness.test.js:27-31 | the visible points are the input with some points left out and the rest in their original order, and every visible point is kept |
| Visibility.VisibleIdempotent | src/data/__tests__/filterCorrectness.test.js:27-28 | filtering twice gives the same result as filtering once |
| Visibility.VisibleExactly | src/data/__tests__/filterCorrectness.test.js:5-28 | a point is in what `filter(isVisible)` returns exactly when it is in the input, `min <= value <= max` and its category is in the selected list |
| Visibility.BothFiltersScenario | src/data/__tests__/filterCorrectness.test.js:14-32 | with range [20, 80] and only the second category, only point "2" survives |
| Visibility.InclusiveBoundsScenario | src/data/__tests__/filterCorrectness.test.js:34-50 | with range [10, 20], values 10 and 20 are visible and 9 and 21 are not |
| Visibility.MultipleCategoriesScenario | src/data/__tests__/filterCorrectness.test.js:52-67 | a category outside the selection is excluded although its value is in range |
| Filters.Layer.constructor | src/layers/createPointsLayer.js:13-38 | a new layer starts with the full value range and every registry id, and has received no updates |
| Filters.Layer.SetProps | src/filters/applyLayerFilters.js:10-14 | `setProps` replaces exactly the two filter props and counts one call |
| Filters.ApplyLayerFilters | src/filters/applyLayerFilters.js:4-15 | a missing layer is left alone; otherwise one `setProps` call gives the layer a fresh `[valueMin, valueMax]` and a fresh array with the selected ids in order, and the filter it stands for is exactly that range and selection; the caller's array, the dataset reference and the dataset's contents do not change |
| Filters.TwoUpdatesScenario | src/data/__tests__/constraints.test.js:12-37 | two updates make two `setProps` calls, and the props are those of the second |
| Filters.StableLayerScenario | src/data/__tests__/constraints.test.js:39-70 | after two updates the layer keeps its dataset array and its contents, and its props are `[20, 80]` and the first registry id |

## Left out

- IEEE-754 doubles. Numbers are mathematical reals and integers, so the exact double results
  of the jitter arithmetic, of `/ 4294967296` and of `Math.round` on large values are not
  reproduced. `Math.round` is `floor(x + 0.5)` on reals.
- JsNumber.ToFixed: `toFixed` writes the digits of the real nearest to x. It does not model
  how a double is turned into a decimal, nor the exponent notation `toFixed` uses from 1e21 up.
- Non-number coordinates. A position's coordinates are reals, so the model cannot express
  `{ position: [null, 0] }` or `["1", "2"]`, for which `lng.toFixed(6)` throws a TypeError
  (src/data/normalizePoints.js:48-49); `Normalize.NormalizeRecordSpec` speaks only of
  records whose coordinates are numbers.
- A missing `selectedCategoryIds`. `Filters.ApplyLayerFilters` takes an array, so the TypeError
  `selectedCategoryIds.slice()` throws when the list is absent is not modelled.
- A response body that is not JSON. `res.json()` can reject; `Loader.Response` always carries
  a parsed body, so that rejection is not modelled.
- NaN, infinities and non-number field values. A record's value is absent, non-finite or a
  finite real; a category or id is a string or missing. Non-string ids and categories count
  as missing, as `typeof` tests make them.
- The network fetch in `loadAndPreparePoints`. Its response is a parameter of
  `Loader.LoadAndPrepare`, and nothing is awaited.
- The file write, console logging, exit code and the unused vitest import of
  `scripts/generate-seed-points.mjs`.
- deck.gl, Mapbox and the GPU filtering itself. `createPointsLayer` contributes only the
  initial props of `Filters.Layer`. The Vue application, the global debugging hook and the
  fetch stubbing of the constraint tests are not modelled.
- Filters.TwoUpdatesScenario: does not model the spies on `Array.prototype.filter` and
  `Array.prototype.map`. Instead, `ApplyLayerFilters` states that the dataset it could have
  filtered is left unchanged.
- Filters.ApplyLayerFilters: `valueMin` and `valueMax` are integers, because filtering only
  ever compares them with integer point values.
- Error types and messages. Each thrown error is a constructor of an error datatype; the
  model does not keep whether it was an Error, a TypeError or a RangeError.
- The output array `new Array(n)` of `expandPoints` is built as a sequence. Its `meta`
  property is the `valueDomain` field of `Expansion.PointCollection`, which
  `loadAndPreparePoints` reassigns without changing it.
- The duplicate `mulberry32` of the generator script is the same `Mulberry.Mulberry32` class,
  since the two copies are textually the same algorithm. Its `clamp` duplicate is
  `JsNumber.ClampReal`.
- Visibility.TestPoint: the test records have no position; the model gives them position
  (0, 0), which the predicate never reads.
- SeedGenerator.GenerateRecords: a registry lookup fails when the registry is empty, and also
  when the id it picks is an empty string. Both are falsy in `if (!categoryId)`, so both
  throw.
