/** The Express server's stores service: creating a store, listing stores
    with filters, aggregates, an allow-listed sort and the viewer's own
    rating, showing one store, and the store owner's dashboard. The fresh
    uuid, the clock and JavaScript's `toLowerCase` (`lowerCase`) are
    parameters; text inputs use the empty string for an absent value, as the
    service's truthiness tests do. A listed or dashboard store carries the
    whole row, where the queries select only some of its columns (the
    listing leaves out `updated_at`, the dashboard keeps `id`, `name`,
    `email` and `address`). */
module ExpressStores {
  import opened Common
  import opened Text
  import opened Records
  import opened Seqs
  import opened Aggregate
  import opened Ordering
  import opened Db
  import opened StoreViews

  const OWNER_NOT_STORE_OWNER: string := "Provided owner must have role store_owner"
  const STORE_NOT_FOUND: string := "Store not found"
  const NO_STORE_FOR_OWNER: string := "No store is associated with your account"

  /** The columns a listing may be sorted by. */
  const ALLOWED_SORT: seq<string> := ["name", "email", "address", "created_at", "average_rating"]

  /** The sort column: the requested one when allowed, `name` otherwise. */
  function SortColumn(sortBy: string): (col: string)
    ensures col in ALLOWED_SORT
    ensures sortBy in ALLOWED_SORT ==> col == sortBy
    ensures sortBy !in ALLOWED_SORT ==> col == "name"
  {
    if sortBy in ALLOWED_SORT then sortBy else "name"
  }

  /** Ascending exactly for `'ASC'`, descending for anything else. */
  function SortDirection(sortOrder: string): (dir: Direction)
    ensures dir == Asc <==> sortOrder == "ASC"
  {
    if sortOrder == "ASC" then Asc else Desc
  }

  /** The value SQLite orders a listed row by. `email` is declared
      `COLLATE NOCASE`, so it orders by its ASCII-folded text. */
  function ListingKey(col: string): StoreView -> SortKey {
    (v: StoreView) =>
      if col == "average_rating" then Num(v.averageRating)
      else if col == "email" then Str(ToLower(v.store.email))
      else if col == "address" then (if v.store.address.None? then Null else Str(v.store.address.value))
      else if col == "created_at" then Str(v.store.createdAt)
      else Str(v.store.name)
  }

  function RatedAtKey(x: Rater): SortKey {
    Str(x.ratedAt)
  }

  /** The row `create` inserts: trimmed name, lower-cased email, and NULL
      for an empty address or owner. */
  function NewStore(name: string, email: string, address: string, ownerId: string, newId: Id, now: Timestamp,
                    lowerCase: string -> string): Store {
    Store(newId, Trim(name), lowerCase(email), OrNull(address), OrNull(ownerId), now, now)
  }

  /** The owner check of `create`: no owner, or a user whose role is `store_owner`. */
  predicate OwnerAcceptable(users: map<Id, User>, ownerId: string) {
    ownerId == [] || (ownerId in users && users[ownerId].role == STORE_OWNER)
  }

  /** What `create` stores is normalised: a name without surrounding
      whitespace, an email without ASCII capitals, and NULL exactly for empty
      inputs. An ASCII email is stored as its ASCII folding, which still
      equals the given one under NOCASE. */
  lemma NewStoreNormalised(name: string, email: string, address: string, ownerId: string, newId: Id, now: Timestamp,
                           lowerCase: string -> string)
    requires LowersLikeJavaScript(lowerCase)
    ensures var s := NewStore(name, email, address, ownerId, newId, now, lowerCase);
      && Trim(s.name) == s.name
      && ToLower(s.email) == s.email
      && (IsAscii(email) ==> s.email == ToLower(email) && NocaseEq(s.email, email))
      && (s.address.None? <==> address == [])
      && (s.ownerId.None? <==> ownerId == [])
  {
    var s := NewStore(name, email, address, ownerId, newId, now, lowerCase);
    assert s.name == Trim(name) && s.email == lowerCase(email);
    TrimIdempotent(name);
    if IsAscii(email) {
      NocaseEqOfLower(email);
    }
  }

  method Create(db: Database, name: string, email: string, address: string, ownerId: string, newId: Id, now: Timestamp,
                lowerCase: string -> string)
    returns (r: Result<Store>)
    requires db.Valid()
    modifies db
    ensures db.Valid()
    ensures db.users == old(db.users) && db.ratings == old(db.ratings)
    ensures !OwnerAcceptable(old(db.users), ownerId) ==> r == Err(Error(400, OWNER_NOT_STORE_OWNER))
    ensures OwnerAcceptable(old(db.users), ownerId) ==>
      (r.Ok? <==> CanInsertStore(db.dialect, old(db.users), old(db.stores), NewStore(name, email, address, ownerId, newId, now, lowerCase)))
    ensures OwnerAcceptable(old(db.users), ownerId) && r.Err? ==> r.error == EngineError()
    ensures r.Ok? ==> r.value == NewStore(name, email, address, ownerId, newId, now, lowerCase)
                      && db.stores == old(db.stores)[newId := r.value]
    ensures r.Err? ==> db.stores == old(db.stores)
  {
    if !OwnerAcceptable(db.users, ownerId) {
      return Err(Error(400, OWNER_NOT_STORE_OWNER));
    }
    var s := NewStore(name, email, address, ownerId, newId, now, lowerCase);
    var w := db.InsertStore(s);
    if w.Err? {
      return Err(w.error);
    }
    r := Ok(db.stores[newId]);
  }

  /** Computes the aggregates of each selected store, in order. */
  method AggregateRows(db: Database, rows: seq<Store>) returns (views: seq<StoreView>)
    requires db.Valid()
    ensures Stores(views) == rows
    ensures forall i :: 0 <= i < |views| ==> Aggregated(db.ratings, views[i]) && views[i].userRating == NotRequested
  {
    views := [];
    var i := 0;
    while i < |rows|
      invariant 0 <= i <= |rows| && |views| == i
      invariant forall j :: 0 <= j < i ==> views[j].store == rows[j]
      invariant forall j :: 0 <= j < i ==> Aggregated(db.ratings, views[j]) && views[j].userRating == NotRequested
    {
      var average, count := db.AggregateOf(rows[i].id);
      views := views + [StoreView(rows[i], average, count, NotRequested)];
      i := i + 1;
    }
  }

  /** A permutation of aggregated rows is aggregated row by row. */
  lemma PermutedAggregated(ratings: map<RatingKey, Rating>, xs: seq<StoreView>, ys: seq<StoreView>)
    requires multiset(xs) == multiset(ys)
    requires forall i :: 0 <= i < |ys| ==> Aggregated(ratings, ys[i]) && ys[i].userRating == NotRequested
    ensures forall i :: 0 <= i < |xs| ==> Aggregated(ratings, xs[i]) && xs[i].userRating == NotRequested
  {
    forall i | 0 <= i < |xs|
      ensures Aggregated(ratings, xs[i]) && xs[i].userRating == NotRequested
    {
      assert xs[i] in multiset(ys);
      var j :| 0 <= j < |ys| && ys[j] == xs[i];
    }
  }

  /** Attaches `user_rating` from the viewer's `store_id -> value` object. */
  function WithRating(ratingMap: map<Id, int>): StoreView -> StoreView {
    (v: StoreView) => v.(userRating := if v.store.id in ratingMap then Rated(ratingMap[v.store.id]) else NotRated)
  }

  method FindAll(db: Database, name: string, address: string, sortBy: string, sortOrder: string, userId: string)
    returns (r: seq<StoreView>)
    requires db.Valid()
    ensures multiset(Stores(r)) == multiset(Where(db.stores, StoreFilter(name, address)))
    ensures forall i :: 0 <= i < |r| ==> Aggregated(db.ratings, r[i])
    ensures SortedBy(r, ListingKey(SortColumn(sortBy)), NullsLow, SortDirection(sortOrder))
    ensures forall i :: 0 <= i < |r| ==>
      r[i].userRating == (if userId == [] then NotRequested else OwnRating(db.ratings, userId, r[i].store.id))
  {
    var rows := db.SelectStores(StoreFilter(name, address));
    var views := AggregateRows(db, rows);
    var key := ListingKey(SortColumn(sortBy));
    var sorted := SortRows(views, key, NullsLow, SortDirection(sortOrder));
    MapPermutation(sorted, views, StoreOf);
    PermutedAggregated(db.ratings, sorted, views);
    if userId == [] {
      return sorted;
    }
    var mine := db.FindRatingsOfUser(userId);
    var ratingMap := FromEntries(Map(mine, EntryOf));
    r := Map(sorted, WithRating(ratingMap));
    assert Stores(r) == Stores(sorted);
    forall i | 0 <= i < |r|
      ensures r[i].userRating == OwnRating(db.ratings, userId, r[i].store.id)
    {
      RatingMapIsLookup(mine, db.ratings, userId, r[i].store.id);
    }
    forall i, j | 0 <= i < j < |r|
      ensures Before(key(r[i]), key(r[j]), NullsLow, SortDirection(sortOrder))
    {
      assert key(r[i]) == key(sorted[i]) && key(r[j]) == key(sorted[j]);
    }
  }

  method FindOne(db: Database, id: Id, userId: string) returns (r: Result<StoreView>)
    requires db.Valid()
    ensures id !in db.stores <==> r.Err?
    ensures r.Err? ==> r.error == Error(404, STORE_NOT_FOUND)
    ensures r.Ok? ==> r.value.store == db.stores[id] && Aggregated(db.ratings, r.value)
    ensures r.Ok? ==>
      r.value.userRating == (if userId == [] then NotRequested else OwnRating(db.ratings, userId, id))
  {
    if id !in db.stores {
      return Err(Error(404, STORE_NOT_FOUND));
    }
    var average, count := db.AggregateOf(id);
    var v := StoreView(db.stores[id], average, count, NotRequested);
    if userId != [] {
      v := v.(userRating := if (userId, id) in db.ratings then Rated(db.ratings[(userId, id)].value) else NotRated);
    }
    r := Ok(v);
  }

  method GetOwnerDashboard(db: Database, ownerId: Id) returns (r: Result<OwnerDashboard>)
    requires db.Valid()
    ensures r.Err? <==> forall id | id in db.stores :: db.stores[id].ownerId != Some(ownerId)
    ensures r.Err? ==> r.error == Error(404, NO_STORE_FOR_OWNER)
    ensures r.Ok? ==>
      var d := r.value;
      && d.store.id in db.stores && db.stores[d.store.id] == d.store && d.store.ownerId == Some(ownerId)
      && d.averageRating == StoreAverage(db.ratings, d.store.id)
      && d.totalRatings == StoreCount(db.ratings, d.store.id) == |d.raters|
      && multiset(d.raters) == multiset(RatersOf(db.users, db.ratings, d.store.id))
      && SortedBy(d.raters, RatedAtKey, NullsLow, Desc)
  {
    var found := db.StoreOwnedBy(ownerId);
    if found.None? {
      return Err(Error(404, NO_STORE_FOR_OWNER));
    }
    var store := found.value;
    var average, count := db.AggregateOf(store.id);
    var rows := db.FindRatingsOfStore(store.id);
    ListedRaters(rows, db.users, db.ratings, store.id);
    var raters := SortRows(Map(rows, RaterMap(db.users)), RatedAtKey, NullsLow, Desc);
    r := Ok(OwnerDashboard(store, average, count, raters));
  }
}
