/** The Express server's users service: the admin's filtered and sorted user
    listing, one user with the store a store owner owns, and the dashboard
    counts. Text filters use the empty string for an absent value, as the
    service's truthiness tests do. */
module ExpressUsers {
  import opened Common
  import opened Text
  import opened Records
  import opened Seqs
  import opened Aggregate
  import opened Ordering
  import opened Db
  import opened UserViews

  const USER_NOT_FOUND: string := "User not found"

  /** The columns a listing may be sorted by. */
  const ALLOWED_SORT: seq<string> := ["name", "email", "address", "role", "created_at"]

  /** The sort column: the requested one when allowed, `created_at` otherwise. */
  function SortColumn(sortBy: string): (col: string)
    ensures col in ALLOWED_SORT
    ensures sortBy in ALLOWED_SORT ==> col == sortBy
    ensures sortBy !in ALLOWED_SORT ==> col == "created_at"
  {
    if sortBy in ALLOWED_SORT then sortBy else "created_at"
  }

  /** Ascending exactly for `'ASC'`, descending for anything else. */
  function SortDirection(sortOrder: string): (dir: Direction)
    ensures dir == Asc <==> sortOrder == "ASC"
  {
    if sortOrder == "ASC" then Asc else Desc
  }

  /** The value SQLite orders a user by. `email` is declared `COLLATE
      NOCASE`, so it orders by its ASCII-folded text. */
  function UserKey(col: string): User -> SortKey {
    (u: User) =>
      if col == "name" then Str(u.name)
      else if col == "email" then Str(ToLower(u.email))
      else if col == "address" then (if u.address.None? then Null else Str(u.address.value))
      else if col == "role" then Str(u.role)
      else Str(u.createdAt)
  }

  /** The listing selects the users matching every given filter (LIKE is
      ASCII case-insensitive), orders them by the sort column with NULLs
      first, and hands out each without its password and `updated_at`.
      `rows` names the ordered full rows the result is projected from. */
  method FindAll(db: Database, name: string, email: string, address: string, role: string,
                 sortBy: string, sortOrder: string)
    returns (r: seq<UserView>, rows: seq<User>)
    requires db.Valid() && db.dialect == Sqlite
    ensures multiset(rows) == multiset(Where(db.users, UserFilter(Sqlite, name, email, address, role)))
    ensures SortedBy(rows, UserKey(SortColumn(sortBy)), NullsLow, SortDirection(sortOrder))
    ensures r == Map(rows, ViewOf)
  {
    var selected := db.SelectUsers(UserFilter(Sqlite, name, email, address, role));
    var sorted := SortRows(selected, UserKey(SortColumn(sortBy)), NullsLow, SortDirection(sortOrder));
    rows := sorted;
    r := Map(sorted, ViewOf);
  }

  /** `{ id, name, average_rating, total_ratings }` of an owner's store. */
  datatype OwnedStore = OwnedStore(id: Id, name: string, averageRating: real, totalRatings: nat)

  /** A listed user, with `store` attached for a store owner who owns one. */
  datatype UserDetail = UserDetail(user: UserView, store: Option<OwnedStore>)

  /** 404 for an unknown id; a store owner who owns a store gets that
      store's name and aggregates, every other user is handed out alone. */
  method FindOne(db: Database, id: Id) returns (r: Result<UserDetail>)
    requires db.Valid()
    ensures r.Err? <==> id !in db.users
    ensures r.Err? ==> r.error == Error(404, USER_NOT_FOUND)
    ensures r.Ok? ==> r.value.user == ViewOf(db.users[id])
    ensures r.Ok? ==>
      (r.value.store.Some? <==>
         db.users[id].role == STORE_OWNER && exists sid | sid in db.stores :: db.stores[sid].ownerId == Some(id))
    ensures r.Ok? && r.value.store.Some? ==>
      var s := r.value.store.value;
      && s.id in db.stores && db.stores[s.id].ownerId == Some(id) && db.stores[s.id].name == s.name
      && s.averageRating == StoreAverage(db.ratings, s.id)
      && s.totalRatings == StoreCount(db.ratings, s.id)
  {
    if id !in db.users {
      return Err(Error(404, USER_NOT_FOUND));
    }
    var detail := UserDetail(ViewOf(db.users[id]), None);
    if db.users[id].role == STORE_OWNER {
      var found := db.StoreOwnedBy(id);
      if found.Some? {
        var average, count := db.AggregateOf(found.value.id);
        detail := detail.(store := Some(OwnedStore(found.value.id, found.value.name, average, count)));
      }
    }
    r := Ok(detail);
  }

  /** `COUNT(*)` of each table. */
  method GetDashboardStats(db: Database) returns (s: Stats)
    requires db.Valid()
    ensures s.totalUsers == |db.users| && s.totalStores == |db.stores| && s.totalRatings == |db.ratings|
    ensures s.totalRatings == CountsOver(db.ratings, db.stores.Keys)
  {
    s := DashboardStats(db);
  }
}
