/** The owner dashboard (`pages/owner`): its sort state starts at
    `rated_at` descending, and the raters it shows are a sorted copy of the
    fetched `raters`, an absent list read as empty. Missing values compare
    as the empty string. */
module OwnerDashboardPage {
  import opened Common
  import opened SortState
  import opened ClientSort

  /** `[...(data.raters || [])].sort(...)`. */
  method SortedRaters(raters: Option<array<Row>>, state: Sort) returns (sorted: array<Row>)
    ensures fresh(sorted)
    ensures raters.None? ==> sorted.Length == 0
    ensures raters.Some? ==> multiset(sorted[..]) == multiset(raters.value[..])
    ensures raters.Some? && SameKind(raters.value[..], state.sortBy) ==>
      forall i, j :: 0 <= i < j < sorted.Length ==>
        Compare(sorted[i], sorted[j], state.sortBy, state.sortOrder, OwnerText) <= 0
  {
    if raters.None? {
      sorted := new Row[0];
    } else {
      sorted := SortedCopy(raters.value, state.sortBy, state.sortOrder, OwnerText);
    }
  }

  /** The dashboard's control starts at `rated_at`, newest first. */
  method NewControl() returns (c: SortControl)
    ensures fresh(c)
    ensures c.State() == OWNER_DASHBOARD_INITIAL
  {
    c := new SortControl(OWNER_DASHBOARD_INITIAL.sortBy, OWNER_DASHBOARD_INITIAL.sortOrder);
  }
}
