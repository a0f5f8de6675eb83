/** The filter applicator of src/filters/applyLayerFilters.js and the part of the layer handle it
    talks to. An update hands the layer two freshly allocated props, the value range and a copy of
    the selected category ids, through one `setProps` call; it never touches the base dataset. */
module Filters {
  import opened Config
  import opened Points
  import opened Visibility

  /** The layer handle built by `createPointsLayer`, reduced to the base dataset, the two filter
      props and the number of `setProps` calls it has received. */
  class Layer {
    var data: array<Point>
    var filterRange: array<int>
    var filterCategories: array<string>
    var setPropsCalls: nat

    ghost predicate Valid()
      reads this
    {
      filterRange.Length == 2
    }

    /** The filter the current props stand for on the GPU. */
    ghost function Filter(): FilterSpec
      requires Valid()
      reads this, filterRange, filterCategories
    {
      FilterSpec(filterRange[0], filterRange[1], filterCategories[..])
    }

    /** `createPointsLayer({ data, categories })`: the full value range and every registry id. */
    constructor (data: array<Point>, categories: seq<Category>)
      ensures Valid() && this.data == data && setPropsCalls == 0
      ensures filterRange[..] == [VALUE_MIN, VALUE_MAX]
      ensures filterCategories[..] == CategoryIds(categories)
      ensures fresh(filterRange) && fresh(filterCategories)
    {
      this.data := data;
      filterRange := new int[] [VALUE_MIN, VALUE_MAX];
      var ids := CategoryIds(categories);
      filterCategories := new string[|ids|](i requires 0 <= i < |ids| => ids[i]);
      setPropsCalls := 0;
    }

    /** `setProps({ filterRange, filterCategories })`: the two props are replaced by the arrays
        handed over, and nothing else about the layer changes. */
    method SetProps(range: array<int>, categories: array<string>)
      requires range.Length == 2
      modifies this
      ensures Valid() && filterRange == range && filterCategories == categories
      ensures data == old(data) && setPropsCalls == old(setPropsCalls) + 1
    {
      filterRange := range;
      filterCategories := categories;
      setPropsCalls := setPropsCalls + 1;
    }
  }

  /** `applyLayerFilters(layer, { valueMin, valueMax, selectedCategoryIds })`. A missing layer is
      left alone. Otherwise exactly one `setProps` call gives the layer a new two-element range and
      a new array holding the selected ids in order; the caller's array, the dataset reference and
      the dataset's contents stay as they were. `valueMin <= valueMax` is not checked. */
  method ApplyLayerFilters(layer: Layer?, valueMin: int, valueMax: int, selectedCategoryIds: array<string>)
    modifies layer
    ensures selectedCategoryIds[..] == old(selectedCategoryIds[..])
    ensures layer != null ==>
      && layer.Valid()
      && layer.filterRange[..] == [valueMin, valueMax]
      && layer.filterCategories[..] == old(selectedCategoryIds[..])
      && fresh(layer.filterRange) && fresh(layer.filterCategories)
      && layer.setPropsCalls == old(layer.setPropsCalls) + 1
      && layer.data == old(layer.data) && layer.data[..] == old(layer.data[..])
      && layer.Filter() == FilterSpec(valueMin, valueMax, old(selectedCategoryIds[..]))
  {
    if layer == null {
      return;
    }
    var range := new int[] [valueMin, valueMax];
    var categories := new string[selectedCategoryIds.Length](i requires 0 <= i < selectedCategoryIds.Length reads selectedCategoryIds => selectedCategoryIds[i]);
    layer.SetProps(range, categories);
  }

  /** 'does not use Array.prototype.filter/map for filter updates': two updates of one layer make
      two `setProps` calls. */
  method TwoUpdatesScenario() returns (calls: nat, range: seq<int>, categories: seq<string>)
    ensures calls == 2
    ensures range == [20, 30] && categories == [CATEGORIES[0].id, CATEGORIES[1].id]
  {
    var data := new Point[0];
    var layer := new Layer(data, []);
    var first := new string[] [CATEGORIES[0].id];
    ApplyLayerFilters(layer, 10, 20, first);
    var second := new string[] [CATEGORIES[0].id, CATEGORIES[1].id];
    ApplyLayerFilters(layer, 20, 30, second);
    calls, range, categories := layer.setPropsCalls, layer.filterRange[..], layer.filterCategories[..];
  }

  /** 'layer instance remains stable; only lightweight props change': after two updates the layer
      keeps its dataset array and its contents, and its props are those of the last update. */
  method StableLayerScenario() returns (sameData: bool, sameContents: bool, range: seq<int>, categories: seq<string>)
    ensures sameData && sameContents
    ensures range == [20, 80] && categories == [CATEGORIES[0].id]
  {
    var point := Point("1", Position(0.0, 0.0), 10, CATEGORIES[0].id);
    var data := new Point[] [point];
    var layer := new Layer(data, CATEGORIES);
    var ids := CategoryIds(CATEGORIES);
    var all := new string[|ids|](i requires 0 <= i < |ids| => ids[i]);
    ApplyLayerFilters(layer, 0, 100, all);
    var first := new string[] [CATEGORIES[0].id];
    ApplyLayerFilters(layer, 20, 80, first);
    sameData := layer.data == data;
    sameContents := layer.data[..] == [point];
    range, categories := layer.filterRange[..], layer.filterCategories[..];
  }
}
