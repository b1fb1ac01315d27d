/** The frontend's sort state: a column and an order, which a click on a
    column header moves on. `useSortFilter` keeps it as hook state and the
    admin and store-owner dashboards keep it in their own state, all with
    the same transition: the same column flips the order, a new column
    starts ascending. */
module SortState {

  const ASC: string := "ASC"
  const DESC: string := "DESC"

  predicate ValidOrder(order: string) {
    order == ASC || order == DESC
  }

  /** `o === 'ASC' ? 'DESC' : 'ASC'`. */
  function Toggle(order: string): (r: string)
    ensures ValidOrder(r)
    ensures r == DESC <==> order == ASC
  {
    if order == ASC then DESC else ASC
  }

  datatype Sort = Sort(sortBy: string, sortOrder: string)

  /** The hook's defaults, `useSortFilter()`. */
  const HOOK_DEFAULT: Sort := Sort("name", ASC)
  /** The initial state of the admin dashboard's user and store tables. */
  const ADMIN_DASHBOARD_INITIAL: Sort := Sort("createdAt", DESC)
  /** The initial state of the store-owner dashboard's rater table. */
  const STORE_OWNER_DASHBOARD_INITIAL: Sort := Sort("ratedAt", DESC)
  /** `useSortFilter('rated_at', 'DESC')` of the owner dashboard. */
  const OWNER_DASHBOARD_INITIAL: Sort := Sort("rated_at", DESC)

  /** The state after a click on column `field`. */
  function Next(s: Sort, field: string): (r: Sort)
    ensures r.sortBy == field
    ensures field == s.sortBy ==> r.sortOrder == Toggle(s.sortOrder)
    ensures field != s.sortBy ==> r.sortOrder == ASC
    ensures ValidOrder(r.sortOrder)
  {
    if field == s.sortBy then Sort(s.sortBy, Toggle(s.sortOrder)) else Sort(field, ASC)
  }

  /** Two clicks on the current column restore the state. */
  lemma SameColumnTwiceRestores(s: Sort)
    requires ValidOrder(s.sortOrder)
    ensures Next(Next(s, s.sortBy), s.sortBy) == s
  {
  }

  /** Two clicks on a new column sort it descending. */
  lemma NewColumnTwiceDescends(s: Sort, field: string)
    requires field != s.sortBy
    ensures Next(Next(s, field), field) == Sort(field, DESC)
  {
  }

  /** The state after a sequence of clicks. */
  function Clicks(s: Sort, fields: seq<string>): Sort
    decreases |fields|
  {
    if fields == [] then s else Clicks(Next(s, fields[0]), fields[1..])
  }

  /** After at least one click the column is the last one clicked and the
      order is ASC or DESC, whatever the initial order was. */
  lemma {:induction false} ClicksEndOnLastColumn(s: Sort, fields: seq<string>)
    requires fields != []
    ensures Clicks(s, fields).sortBy == fields[|fields| - 1]
    ensures ValidOrder(Clicks(s, fields).sortOrder)
    decreases |fields|
  {
    if |fields| > 1 {
      ClicksEndOnLastColumn(Next(s, fields[0]), fields[1..]);
    }
  }

  /** `k` clicks on the current column leave the order as it was when `k` is
      even and flipped when `k` is odd. */
  lemma {:induction false} RepeatedClicksAlternate(s: Sort, k: nat)
    requires ValidOrder(s.sortOrder)
    ensures Clicks(s, seq(k, _ => s.sortBy)) == (if k % 2 == 0 then s else Next(s, s.sortBy))
    decreases k
  {
    if k > 0 {
      var fields := seq(k, _ => s.sortBy);
      var t := Next(s, s.sortBy);
      assert fields[1..] == seq(k - 1, _ => t.sortBy);
      RepeatedClicksAlternate(t, k - 1);
      if k % 2 == 0 {
        SameColumnTwiceRestores(s);
      }
    }
  }

  /** The hook: its state and `handleSort`. */
  class SortControl {
    var sortBy: string
    var sortOrder: string

    function State(): Sort
      reads this
    {
      Sort(sortBy, sortOrder)
    }

    constructor(defaultSort: string, defaultOrder: string)
      ensures State() == Sort(defaultSort, defaultOrder)
    {
      sortBy := defaultSort;
      sortOrder := defaultOrder;
    }

    /** `useSortFilter()` without arguments. */
    constructor Default()
      ensures State() == HOOK_DEFAULT
    {
      sortBy := "name";
      sortOrder := ASC;
    }

    method HandleSort(field: string)
      modifies this
      ensures State() == Next(old(State()), field)
    {
      if sortBy == field {
        sortOrder := if sortOrder == ASC then DESC else ASC;
      } else {
        sortBy := field;
        sortOrder := ASC;
      }
    }
  }
}
