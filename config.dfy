/** The configuration the pipeline reads: geographic bounds, counts and the value range
    (src/constants/geo.js), the expansion knobs (src/constants/pointsExpansion.js) and the category
    registry (src/config/categories.js). */
module Config {

  const MIN_LONGITUDE: real := -180.0
  const MAX_LONGITUDE: real := 180.0
  const MIN_LATITUDE: real := -85.0
  const MAX_LATITUDE: real := 85.0

  const SEED_POINT_COUNT: nat := 500
  const TARGET_POINT_COUNT: nat := 250000

  const VALUE_MIN: int := 0
  const VALUE_MAX: int := 100

  const COORDINATED_DECIMAL_DIGITS: nat := 6
  /** Peak-to-peak spread of the generated seed positions, in degrees. */
  const LONGITUDE_JITTER: real := 0.8
  const LATITUDE_JITTER: real := 0.6

  const POINT_EXPANSION_RNG_SEED: int := 1337
  /** Full peak-to-peak span of `(rng() - 0.5) * span`, in degrees. */
  const POINT_EXPANSION_JITTER_SPAN_DEGREES: real := 0.05
  const POINT_EXPANSION_JITTER_MAX_ABS_DEGREES: real := POINT_EXPANSION_JITTER_SPAN_DEGREES / 2.0
  /** Largest absolute integer drift of an expanded point's value. */
  const POINT_EXPANSION_VALUE_DRIFT_MAX_ABS: nat := 14

  datatype Color = Color(r: nat, g: nat, b: nat)

  /** One entry of the category registry (`label` is a Dafny keyword, hence `labelText`). */
  datatype Category = Category(id: string, labelText: string, color: Color)

  const CATEGORIES: seq<Category> := [
    Category("alpha", "Alpha", Color(255, 99, 132)),
    Category("beta", "Beta", Color(54, 162, 235)),
    Category("gamma", "Gamma", Color(255, 206, 86)),
    Category("delta", "Delta", Color(75, 192, 192)),
    Category("epsilon", "Epsilon", Color(153, 102, 255))
  ]

  /** The ids of a registry, in registry order. */
  function CategoryIds(categories: seq<Category>): (ids: seq<string>)
    ensures |ids| == |categories|
    ensures forall k :: 0 <= k < |categories| ==> ids[k] == categories[k].id
  {
    if categories == [] then [] else CategoryIds(categories[..|categories| - 1]) + [categories[|categories| - 1].id]
  }

  /** The shipped registry has five entries with distinct, non-empty ids. */
  lemma CategoriesWellFormed()
    ensures |CATEGORIES| == 5
    ensures forall k :: 0 <= k < |CATEGORIES| ==> CATEGORIES[k].id != ""
    ensures forall j, k :: 0 <= j < k < |CATEGORIES| ==> CATEGORIES[j].id != CATEGORIES[k].id
  {
  }
}
