/** The store-owner dashboard: its own sort state, starting at `ratedAt`
    descending and toggled like the shared hook's, and `sortedRaters`, a
    sorted `slice()` of the fetched raters that is absent when the data or
    its raters are. Values are compared as `String(v)`, so a missing value
    reads as `"undefined"` and a null one as `"null"`. */
module StoreOwnerDashboardPage {
  import opened Common
  import opened SortState
  import opened ClientSort

  /** `data?.raters?.slice().sort(...)`. */
  method SortedRaters(raters: Option<array<Row>>, state: Sort) returns (sorted: Option<array<Row>>)
    ensures sorted.Some? <==> raters.Some?
    ensures sorted.Some? ==> fresh(sorted.value)
    ensures sorted.Some? ==> multiset(sorted.value[..]) == multiset(raters.value[..])
    ensures sorted.Some? && SameKind(raters.value[..], state.sortBy) ==>
      forall i, j :: 0 <= i < j < sorted.value.Length ==>
        Compare(sorted.value[i], sorted.value[j], state.sortBy, state.sortOrder, StoreOwnerText) <= 0
  {
    if raters.None? {
      sorted := None;
    } else {
      var copy := SortedCopy(raters.value, state.sortBy, state.sortOrder, StoreOwnerText);
      sorted := Some(copy);
    }
  }

  /** The page's `handleSort` is the shared toggle, starting at `ratedAt`,
      newest first. */
  method NewControl() returns (c: SortControl)
    ensures fresh(c)
    ensures c.State() == STORE_OWNER_DASHBOARD_INITIAL
  {
    c := new SortControl(STORE_OWNER_DASHBOARD_INITIAL.sortBy, STORE_OWNER_DASHBOARD_INITIAL.sortOrder);
  }
}
