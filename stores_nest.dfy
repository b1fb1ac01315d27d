/** `StoresService` of the Nest server: creating a store, listing stores
    with ILIKE filters and a sort on any store column, each enriched by a
    separate query for its ratings, showing one store, and the owner
    dashboard. The generated uuid, the clock, PostgreSQL's check of uuid
    input (`isUuid`) and what the query builder makes of a sort text that is
    not a column name (`orderRuns`, `rawRows`) are parameters; text filters use the
    empty string for an absent value. */
module NestStores {
  import opened Common
  import opened Text
  import opened Records
  import opened Seqs
  import opened Aggregate
  import opened Ordering
  import opened Db
  import opened StoreViews

  const STORE_NOT_FOUND: string := "Store not found"
  const NO_STORE_FOR_OWNER: string := "No store associated with this owner"

  /** The columns of the store entity. `sortBy` is interpolated into
      `store.<sortBy>` unchecked. A column name orders by that column. Any
      other text (a relation path such as `owner`, a name in another case
      such as `Name`, a raw list such as `name, store.email`) runs or fails
      as the query builder and PostgreSQL make of it, in an order the model
      does not state. */
  const STORE_COLUMNS: set<string> := {"id", "name", "email", "address", "ownerId", "createdAt", "updatedAt"}

  /** `query.sortBy || 'createdAt'`. */
  function SortColumn(sortBy: string): (col: string)
    ensures sortBy == [] ==> col == "createdAt"
    ensures sortBy != [] ==> col == sortBy
  {
    if sortBy == [] then "createdAt" else sortBy
  }

  /** `query.sortOrder || 'DESC'`. */
  function SortDirection(sortOrder: Option<Direction>): (dir: Direction)
    ensures sortOrder.None? ==> dir == Desc
    ensures sortOrder.Some? ==> dir == sortOrder.value
  {
    if sortOrder.None? then Desc else sortOrder.value
  }

  /** The value PostgreSQL orders a store by, for column `col`. */
  function ColumnKey(col: string): Store -> SortKey {
    (s: Store) =>
      if col == "id" then Str(s.id)
      else if col == "email" then Str(s.email)
      else if col == "address" then (if s.address.None? then Null else Str(s.address.value))
      else if col == "ownerId" then (if s.ownerId.None? then Null else Str(s.ownerId.value))
      else if col == "createdAt" then Str(s.createdAt)
      else if col == "updatedAt" then Str(s.updatedAt)
      else Str(s.name)
  }

  /** `create(dto)` then `save`: the DTO's fields as given, with no owner check. */
  method Create(db: Database, name: string, email: string, address: Option<string>, ownerId: Option<Id>,
                newId: Id, now: Timestamp)
    returns (r: Result<Store>)
    requires db.Valid()
    modifies db
    ensures db.Valid()
    ensures db.users == old(db.users) && db.ratings == old(db.ratings)
    ensures var s := Store(newId, name, email, address, ownerId, now, now);
      && (r.Ok? <==> CanInsertStore(db.dialect, old(db.users), old(db.stores), s))
      && (r.Ok? ==> r.value == s && db.stores == old(db.stores)[newId := s])
      && (r.Err? ==> r.error == EngineError() && db.stores == old(db.stores))
  {
    var s := Store(newId, name, email, address, ownerId, now, now);
    var w := db.InsertStore(s);
    if w.Err? {
      return Err(w.error);
    }
    r := Ok(s);
  }

  /** The enrichment of one store: its ratings fetched as a list, their
      `reduce` sum over the list's length (0 for none), the list's length,
      and the viewer's rating or `null`. */
  method Enrich(db: Database, store: Store, userId: string) returns (v: StoreView)
    requires db.Valid()
    ensures v.store == store && Aggregated(db.ratings, v)
    ensures v.userRating == (if userId == [] then NotRated else OwnRating(db.ratings, userId, store.id))
  {
    var rows := db.FindRatingsOfStore(store.id);
    ListedMeanIsStoreAverage(rows, db.ratings, store.id);
    var average := Mean(Values(rows));
    var userRating := NotRated;
    if userId != [] {
      userRating := if (userId, store.id) in db.ratings then Rated(db.ratings[(userId, store.id)].value) else NotRated;
    }
    v := StoreView(store, average, |rows|, userRating);
  }

  /** Each store of the list enriched in turn, in the list's order. */
  method EnrichAll(db: Database, stores: seq<Store>, userId: string) returns (views: seq<StoreView>)
    requires db.Valid()
    ensures Stores(views) == stores
    ensures forall i :: 0 <= i < |views| ==> Aggregated(db.ratings, views[i])
    ensures forall i :: 0 <= i < |views| ==>
      views[i].userRating == (if userId == [] then NotRated else OwnRating(db.ratings, userId, views[i].store.id))
  {
    views := [];
    var i := 0;
    while i < |stores|
      invariant 0 <= i <= |stores| && |views| == i
      invariant forall j :: 0 <= j < i ==> views[j].store == stores[j] && Aggregated(db.ratings, views[j])
      invariant forall j :: 0 <= j < i ==>
        views[j].userRating == (if userId == [] then NotRated else OwnRating(db.ratings, userId, views[j].store.id))
    {
      var v := Enrich(db, stores[i], userId);
      views := views + [v];
      i := i + 1;
    }
    assert Stores(views) == stores;
  }

  /** A listing sorted by a column name never fails, holds each store
      passing the filters once and is in that column's order. Any other sort
      text is raw SQL in the ORDER BY clause: it fails exactly when
      `orderRuns` refuses it, and otherwise PostgreSQL returns `rawRows` of
      the filtered rows, which may be reordered, cut short by a `LIMIT` or
      skipped by an `OFFSET`; the listing keeps those of them that are
      filtered stores. Every listing carries each store's aggregates and the
      viewer's rating. */
  method FindAll(db: Database, name: string, address: string, sortBy: string, sortOrder: Option<Direction>, userId: string,
                 orderRuns: string -> bool, rawRows: (string, seq<Store>) -> seq<Store>)
    returns (r: Result<seq<StoreView>>)
    requires db.Valid() && db.dialect == Postgres
    ensures r.Err? <==> SortColumn(sortBy) !in STORE_COLUMNS && !orderRuns(SortColumn(sortBy))
    ensures r.Err? ==> r.error == QueryError()
    ensures r.Ok? && SortColumn(sortBy) in STORE_COLUMNS ==>
      && multiset(Stores(r.value)) == multiset(Where(db.stores, StoreFilter(name, address)))
      && SortedBy(Stores(r.value), ColumnKey(SortColumn(sortBy)), NullsHigh, SortDirection(sortOrder))
    ensures r.Ok? ==>
      && multiset(Stores(r.value)) <= multiset(Where(db.stores, StoreFilter(name, address)))
      && (forall i :: 0 <= i < |r.value| ==> Aggregated(db.ratings, r.value[i]))
      && (forall i :: 0 <= i < |r.value| ==>
            r.value[i].userRating == (if userId == [] then NotRated else OwnRating(db.ratings, userId, r.value[i].store.id)))
  {
    var col := SortColumn(sortBy);
    if col !in STORE_COLUMNS && !orderRuns(col) {
      return Err(QueryError());
    }
    var rows := db.SelectStores(StoreFilter(name, address));
    var stores;
    if col in STORE_COLUMNS {
      stores := SortRows(rows, ColumnKey(col), NullsHigh, SortDirection(sortOrder));
    } else {
      stores := Kept(rawRows(col, rows), multiset(rows));
    }
    var views := EnrichAll(db, stores, userId);
    r := Ok(views);
  }

  /** The id is compared with a `uuid` column, so a text that is not
      uuid-shaped makes the query fail with 500; an absent uuid gives 404. */
  method FindOne(db: Database, id: Id, userId: string, isUuid: string -> bool) returns (r: Result<StoreView>)
    requires db.Valid() && db.dialect == Postgres
    ensures r.Err? <==> !isUuid(id) || id !in db.stores
    ensures !isUuid(id) ==> r == Err(EngineError())
    ensures isUuid(id) && r.Err? ==> r.error == Error(404, STORE_NOT_FOUND)
    ensures r.Ok? ==> r.value.store == db.stores[id] && Aggregated(db.ratings, r.value)
    ensures r.Ok? ==>
      r.value.userRating == (if userId == [] then NotRated else OwnRating(db.ratings, userId, id))
  {
    if !isUuid(id) {
      return Err(EngineError());
    }
    if id !in db.stores {
      return Err(Error(404, STORE_NOT_FOUND));
    }
    var v := Enrich(db, db.stores[id], userId);
    r := Ok(v);
  }

  /** The dashboard lists the store's raters in the order the ratings were
      fetched; no order is requested. */
  method GetOwnerDashboard(db: Database, ownerId: Id) returns (r: Result<OwnerDashboard>)
    requires db.Valid() && db.dialect == Postgres
    ensures r.Err? <==> forall id | id in db.stores :: db.stores[id].ownerId != Some(ownerId)
    ensures r.Err? ==> r.error == Error(404, NO_STORE_FOR_OWNER)
    ensures r.Ok? ==>
      var d := r.value;
      && d.store.id in db.stores && db.stores[d.store.id] == d.store && d.store.ownerId == Some(ownerId)
      && d.averageRating == StoreAverage(db.ratings, d.store.id)
      && d.totalRatings == |d.raters| == StoreCount(db.ratings, d.store.id)
      && multiset(d.raters) == multiset(RatersOf(db.users, db.ratings, d.store.id))
  {
    var found := db.StoreOwnedBy(ownerId);
    if found.None? {
      return Err(Error(404, NO_STORE_FOR_OWNER));
    }
    var store := found.value;
    var rows := db.FindRatingsOfStore(store.id);
    ListedMeanIsStoreAverage(rows, db.ratings, store.id);
    ListedRaters(rows, db.users, db.ratings, store.id);
    var raters := Map(rows, RaterMap(db.users));
    r := Ok(OwnerDashboard(store, Mean(Values(rows)), |rows|, raters));
  }
}
