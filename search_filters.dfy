/** The record updates of components/search/SearchFilters.tsx: toggling one
    boolean filter, setting the bar type, setting the sort key, and the
    options the panel offers. */
module FilterPanel {
  import opened Domain

  /** The bar types offered; '' stands for all types. */
  const BarTypeOptions: seq<string> := ["", "bar", "lounge", "rooftop", "poolside", "restaurant_bar"]

  /** The sort keys offered. */
  const SortOptions: seq<string> := ["distance", "rating", "name"]

  /** `toggleFilter(key)`: the record with field `key` negated. */
  function ToggleFilter(f: Filters, k: FilterKey): (r: Filters)
    ensures Flag(r, k) == !Flag(f, k)
    ensures forall other :: other != k ==> Flag(r, other) == Flag(f, other)
    ensures r.barType == f.barType && r.sortBy == f.sortBy
  {
    f.(openNow := if k == OpenNowKey then !f.openNow else f.openNow,
       happyHour := if k == HappyHourKey then !f.happyHour else f.happyHour,
       servesFood := if k == ServesFoodKey then !f.servesFood else f.servesFood,
       rooftop := if k == RooftopKey then !f.rooftop else f.rooftop,
       liveMusic := if k == LiveMusicKey then !f.liveMusic else f.liveMusic,
       outdoorSeating := if k == OutdoorSeatingKey then !f.outdoorSeating else f.outdoorSeating)
  }

  /** Two records that agree on every toggle, the bar type and the sort
      key are the same record. */
  lemma FiltersByFields(f: Filters, g: Filters)
    requires forall k :: Flag(f, k) == Flag(g, k)
    requires f.barType == g.barType && f.sortBy == g.sortBy
    ensures f == g
  {
    assert Flag(f, OpenNowKey) == Flag(g, OpenNowKey);
    assert Flag(f, HappyHourKey) == Flag(g, HappyHourKey);
    assert Flag(f, ServesFoodKey) == Flag(g, ServesFoodKey);
    assert Flag(f, RooftopKey) == Flag(g, RooftopKey);
    assert Flag(f, LiveMusicKey) == Flag(g, LiveMusicKey);
    assert Flag(f, OutdoorSeatingKey) == Flag(g, OutdoorSeatingKey);
  }

  /** Toggling the same filter twice restores the record. */
  lemma ToggleTwice(f: Filters, k: FilterKey)
    ensures ToggleFilter(ToggleFilter(f, k), k) == f
  {
    FiltersByFields(ToggleFilter(ToggleFilter(f, k), k), f);
  }

  /** Toggles on different filters do not interfere: their order does not
      matter. */
  lemma TogglesCommute(f: Filters, j: FilterKey, k: FilterKey)
    ensures ToggleFilter(ToggleFilter(f, j), k) == ToggleFilter(ToggleFilter(f, k), j)
  {
    FiltersByFields(ToggleFilter(ToggleFilter(f, j), k), ToggleFilter(ToggleFilter(f, k), j));
  }

  /** `updateBarType(barType)`. */
  function UpdateBarType(f: Filters, barType: string): (r: Filters)
    ensures r.barType == barType && r.sortBy == f.sortBy
    ensures forall k :: Flag(r, k) == Flag(f, k)
  {
    f.(barType := barType)
  }

  /** `updateSortBy(sortBy)`. */
  function UpdateSortBy(f: Filters, sortBy: string): (r: Filters)
    ensures r.sortBy == sortBy && r.barType == f.barType
    ensures forall k :: Flag(r, k) == Flag(f, k)
  {
    f.(sortBy := sortBy)
  }

  /** Setting a field to the value it already has changes nothing, and
      setting it twice keeps the last value. */
  lemma UpdatesOverwrite(f: Filters, a: string, b: string)
    ensures UpdateBarType(f, f.barType) == f && UpdateSortBy(f, f.sortBy) == f
    ensures UpdateBarType(UpdateBarType(f, a), b) == UpdateBarType(f, b)
    ensures UpdateSortBy(UpdateSortBy(f, a), b) == UpdateSortBy(f, b)
  {
  }

  /** The panel offers the default bar type and sort key, and each option
      once. */
  lemma DefaultsAreOffered()
    ensures DefaultFilters.barType in BarTypeOptions && DefaultFilters.sortBy in SortOptions
    ensures forall i, j :: 0 <= i < j < |BarTypeOptions| ==> BarTypeOptions[i] != BarTypeOptions[j]
    ensures forall i, j :: 0 <= i < j < |SortOptions| ==> SortOptions[i] != SortOptions[j]
  {
  }
}
