/** `loadAndPreparePoints` of src/data/loadAndPreparePoints.js: the seed file is fetched, then
    normalized and expanded, and the expansion's value domain is handed on with it. The fetch
    itself is not modelled; its response is a parameter. */
module Loader {
  import opened Wrappers
  import opened JsRuntime
  import opened Config
  import opened Points
  import opened Normalize
  import opened Expansion
  import opened SeedGenerator

  /** What the app reads from `fetch('/seed-points.json')`: `res.ok`, `res.status` and the body
      `res.json()` parses to. */
  datatype Response = Response(ok: bool, status: int, body: JsArray<RawRecord>)

  datatype LoadError =
    | FetchFailed(status: int)           // 'Failed to load seed-points.json: ...'
    | NormalizeFailed(normalizeError: NormalizeError)
    | ExpandFailed(expandError: ExpandError)

  /** The response check, `normalizeSeedPoints`, then `expandPoints` on the normalized points. */
  function LoadAndPrepare(res: Response, targetCount: TargetCount, categories: seq<Category>): Result<PointCollection, LoadError> {
    if !res.ok then Err(FetchFailed(res.status))
    else
      match Normalize.Normalize(res.body, categories)
      case Err(e) => Err(NormalizeFailed(e))
      case Ok(ps) =>
        match Expand(Elements(ps), targetCount)
        case Err(e) => Err(ExpandFailed(e))
        case Ok(c) => Ok(c)
  }

  /** A load succeeds exactly when the response is ok, every seed record normalizes, at least one
      record was fetched and the count is a positive array length; it then yields that many points
      and a value domain inside [VALUE_MIN, VALUE_MAX] bounding every value. */
  lemma PreparedPoints(res: Response, targetCount: TargetCount, categories: seq<Category>)
    ensures LoadAndPrepare(res, targetCount, categories).Ok? <==>
      && res.ok && Normalize.Normalize(res.body, categories).Ok? && |res.body.elements| > 0
      && targetCount.FiniteCount? && targetCount.x > 0.0 && IsArrayLength(targetCount.x)
    ensures LoadAndPrepare(res, targetCount, categories).Ok? ==>
      var c := LoadAndPrepare(res, targetCount, categories).value;
      && |c.items| == targetCount.x.Floor
      && VALUE_MIN <= c.valueDomain.0 <= c.valueDomain.1 <= VALUE_MAX
      && (forall k :: 0 <= k < |c.items| ==> c.valueDomain.0 <= c.items[k].value <= c.valueDomain.1)
  {
    if res.ok && res.body.Elements? && Normalize.Normalize(res.body, categories).Ok? {
      NormalizeItemsOk(res.body.elements, categories);
      ExpandOutcome(Elements(Normalize.Normalize(res.body, categories).value), targetCount);
    }
  }

  /** A file written by a completed generator run of at least one record, served with an ok
      response, loads against the shipped registry into exactly TARGET_POINT_COUNT points. */
  lemma GeneratedFileLoads(stream: bv32, n: nat, status: int)
    requires n > 0
    ensures Generated(stream, CATEGORIES, n).Ok?
    ensures var res := Response(true, status, Elements(Generated(stream, CATEGORIES, n).value));
      var r := LoadAndPrepare(res, FiniteCount(TARGET_POINT_COUNT as real), CATEGORIES);
      r.Ok? && |r.value.items| == TARGET_POINT_COUNT
  {
    RegistryRunCompletes(stream, n);
    CategoriesWellFormed();
    var rs := Generated(stream, CATEGORIES, n).value;
    GeneratedRecordsNormalize(stream, CATEGORIES, n, CATEGORIES);
    var res := Response(true, status, Elements(rs));
    var count := FiniteCount(TARGET_POINT_COUNT as real);
    assert IsArrayLength(count.x);
    PreparedPoints(res, count, CATEGORIES);
  }
}
