/** `UsersService` of the Nest server: the admin's user listing with LIKE
    filters and a sort on any user column, one user with a store owner's
    store rating, and the dashboard counts. Text filters use the empty
    string for an absent value; PostgreSQL's check of uuid input is the
    parameter `isUuid`. */
module NestUsers {
  import opened Common
  import opened Text
  import opened Records
  import opened Seqs
  import opened Aggregate
  import opened Ordering
  import opened Db
  import opened UserViews

  const USER_NOT_FOUND: string := "User not found"

  /** The columns of the user entity; ordering by any other name fails. */
  const USER_COLUMNS: set<string> := {"id", "name", "email", "password", "address", "role", "createdAt", "updatedAt"}

  /** `query.sortBy || 'createdAt'`. */
  function SortColumn(sortBy: string): (col: string)
    ensures sortBy == [] ==> col == "createdAt"
    ensures sortBy != [] ==> col == sortBy
  {
    if sortBy == [] then "createdAt" else sortBy
  }

  /** `query.sortOrder || 'DESC'`. */
  function SortDirection(sortOrder: Option<Direction>): (dir: Direction)
    ensures sortOrder.None? ==> dir == Desc
    ensures sortOrder.Some? ==> dir == sortOrder.value
  {
    if sortOrder.None? then Desc else sortOrder.value
  }

  /** The labels of the `UserRole` enumeration in declaration order. */
  const ROLE_DECLARATION: seq<string> := [ADMIN, USER, STORE_OWNER]

  /** The position of a role label in the enumeration's declaration:
      PostgreSQL orders an enum column by it, not by the label's text. */
  function RoleRank(role: string): real {
    if role == ADMIN then 0.0 else if role == USER then 1.0 else 2.0
  }

  /** For role labels, the rank order is the declaration order. */
  lemma RoleRankIsDeclarationOrder(i: int, j: int)
    requires 0 <= i < |ROLE_DECLARATION| && 0 <= j < |ROLE_DECLARATION|
    ensures RoleRank(ROLE_DECLARATION[i]) <= RoleRank(ROLE_DECLARATION[j]) <==> i <= j
  {
  }

  /** Ascending by role, a `user` row comes before a `store_owner` row,
      although "store_owner" precedes "user" as text. */
  lemma UserRoleSortsBeforeStoreOwner(u1: User, u2: User)
    requires u1.role == USER && u2.role == STORE_OWNER
    ensures SortedBy([u1, u2], ColumnKey("role"), NullsHigh, Asc)
    ensures !SortedBy([u2, u1], ColumnKey("role"), NullsHigh, Asc)
    ensures LexLe(u2.role, u1.role) && !LexLe(u1.role, u2.role)
  {
    assert ColumnKey("role")(u1) == Num(1.0) && ColumnKey("role")(u2) == Num(2.0);
    var swapped := [u2, u1];
    assert !Before(ColumnKey("role")(swapped[0]), ColumnKey("role")(swapped[1]), NullsHigh, Asc);
  }

  /** The value PostgreSQL orders a user by, for column `col`. */
  function ColumnKey(col: string): User -> SortKey {
    (u: User) =>
      if col == "id" then Str(u.id)
      else if col == "email" then Str(u.email)
      else if col == "password" then Str(u.password)
      else if col == "address" then (if u.address.None? then Null else Str(u.address.value))
      else if col == "role" then Num(RoleRank(u.role))
      else if col == "createdAt" then Str(u.createdAt)
      else if col == "updatedAt" then Str(u.updatedAt)
      else Str(u.name)
  }

  /** The query fails when it orders by a name that is not a column, or
      compares the `role` enumeration with a text that is not one of its
      labels. */
  predicate QueryFails(role: string, sortBy: string) {
    SortColumn(sortBy) !in USER_COLUMNS || (role != [] && !IsRoleName(role))
  }

  /** The listing selects the users matching every given filter (LIKE is
      case-sensitive), orders them by the column with NULLs last when
      ascending, and selects the six public columns. `rows` names the
      ordered full rows the result is projected from. */
  method FindAll(db: Database, name: string, email: string, address: string, role: string,
                 sortBy: string, sortOrder: Option<Direction>)
    returns (r: Result<seq<UserView>>, ghost rows: seq<User>)
    requires db.Valid() && db.dialect == Postgres
    ensures r.Err? <==> QueryFails(role, sortBy)
    ensures r.Err? ==> r.error == QueryError()
    ensures r.Ok? ==>
      && multiset(rows) == multiset(Where(db.users, UserFilter(Postgres, name, email, address, role)))
      && SortedBy(rows, ColumnKey(SortColumn(sortBy)), NullsHigh, SortDirection(sortOrder))
      && r.value == Map(rows, ViewOf)
  {
    if QueryFails(role, sortBy) {
      return Err(QueryError()), [];
    }
    var selected := db.SelectUsers(UserFilter(Postgres, name, email, address, role));
    var sorted := SortRows(selected, ColumnKey(SortColumn(sortBy)), NullsHigh, SortDirection(sortOrder));
    rows := sorted;
    r := Ok(Map(sorted, ViewOf));
  }

  /** `{ ...user, storeRating, storeId }`. */
  datatype StoreRating = StoreRating(storeId: Id, storeRating: real)

  datatype UserDetail = UserDetail(user: UserView, store: Option<StoreRating>)

  /** 500 for an id that is not uuid-shaped (the `uuid` column refuses the
      comparison), 404 for an absent one; a store owner who owns a store
      gets the mean of that store's ratings (0 for none) and its id. */
  method FindOne(db: Database, id: Id, isUuid: string -> bool) returns (r: Result<UserDetail>)
    requires db.Valid() && db.dialect == Postgres
    ensures r.Err? <==> !isUuid(id) || id !in db.users
    ensures !isUuid(id) ==> r == Err(EngineError())
    ensures isUuid(id) && r.Err? ==> r.error == Error(404, USER_NOT_FOUND)
    ensures r.Ok? ==> r.value.user == ViewOf(db.users[id])
    ensures r.Ok? ==>
      (r.value.store.Some? <==>
         db.users[id].role == STORE_OWNER && exists sid | sid in db.stores :: db.stores[sid].ownerId == Some(id))
    ensures r.Ok? && r.value.store.Some? ==>
      var s := r.value.store.value;
      && s.storeId in db.stores && db.stores[s.storeId].ownerId == Some(id)
      && s.storeRating == StoreAverage(db.ratings, s.storeId)
  {
    if !isUuid(id) {
      return Err(EngineError());
    }
    if id !in db.users {
      return Err(Error(404, USER_NOT_FOUND));
    }
    var detail := UserDetail(ViewOf(db.users[id]), None);
    if db.users[id].role == STORE_OWNER {
      var found := db.StoreOwnedBy(id);
      if found.Some? {
        var rows := db.FindRatingsOfStore(found.value.id);
        ListedMeanIsStoreAverage(rows, db.ratings, found.value.id);
        detail := detail.(store := Some(StoreRating(found.value.id, Mean(Values(rows)))));
      }
    }
    r := Ok(detail);
  }

  /** `count()` of each repository. */
  method GetDashboardStats(db: Database) returns (s: Stats)
    requires db.Valid()
    ensures s.totalUsers == |db.users| && s.totalStores == |db.stores| && s.totalRatings == |db.ratings|
    ensures s.totalRatings == CountsOver(db.ratings, db.stores.Keys)
  {
    s := DashboardStats(db);
  }
}
