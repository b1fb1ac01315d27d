/** The three tables and the constraints the database engine enforces on
    them. The Express server keeps them in SQLite under the schema of
    `config/db.js`; the Nest server keeps them in PostgreSQL under the
    schema TypeORM derives from the entities. The engine is the part of
    the system that refuses a write breaking a constraint, so the schema is
    the invariant `Valid` of the `Database` class, and every write goes
    through one of the engine operations below, which either apply the write
    or fail with an internal error and change nothing. */
module Db {
  import opened Common
  import opened Text
  import opened Records
  import opened Aggregate

  /** Which engine, and so which schema, holds the tables. */
  datatype Dialect = Sqlite | Postgres

  /** Two emails collide under the UNIQUE constraint on `email`, and match
      under `WHERE email = ?`: ASCII case-insensitively under SQLite's
      `COLLATE NOCASE`, exactly in PostgreSQL. */
  predicate SameEmail(d: Dialect, a: string, b: string) {
    if d == Sqlite then NocaseEq(a, b) else a == b
  }

  lemma SameEmailSymmetric(d: Dialect, a: string, b: string)
    ensures SameEmail(d, a, b) <==> SameEmail(d, b, a)
  {
  }

  lemma SameEmailTransitive(d: Dialect, a: string, b: string, c: string)
    requires SameEmail(d, a, b) && SameEmail(d, b, c)
    ensures SameEmail(d, a, c)
  {
  }

  /** A nullable text value fits a `varchar(n)` column. */
  predicate FitsVarchar(s: Option<string>, n: nat) {
    s.None? || |s.value| <= n
  }

  /** The message of the error the engine raises when a write breaks a
      constraint; neither server gives it a status, so it is answered with 500. */
  const CONSTRAINT_FAILED: string := "constraint failed"

  function EngineError(): Error {
    Error(INTERNAL_ERROR, CONSTRAINT_FAILED)
  }

  /** The message of the error a query that names no column of its table
      raises; it is answered with 500. */
  const QUERY_FAILED: string := "query failed"

  function QueryError(): Error {
    Error(INTERNAL_ERROR, QUERY_FAILED)
  }

  /** The user entity's column types: the role enumeration, `varchar(60)`
      name and `varchar(400)` address. */
  predicate UserFitsEntity(u: User) {
    IsRoleName(u.role) && |u.name| <= 60 && FitsVarchar(u.address, 400)
  }

  /** The store entity's `varchar(60)` name and `varchar(400)` address. */
  predicate StoreFitsEntity(s: Store) {
    |s.name| <= 60 && FitsVarchar(s.address, 400)
  }

  predicate UsersOk(d: Dialect, users: map<Id, User>) {
    && (forall id | id in users :: users[id].id == id)
    && (forall a, b | a in users && b in users && a != b :: !SameEmail(d, users[a].email, users[b].email))
    && (d == Postgres ==> forall id | id in users :: UserFitsEntity(users[id]))
  }

  predicate StoresOk(d: Dialect, users: map<Id, User>, stores: map<Id, Store>) {
    && (forall id | id in stores :: stores[id].id == id)
    && (forall a, b | a in stores && b in stores && a != b :: !SameEmail(d, stores[a].email, stores[b].email))
    && (forall id | id in stores && stores[id].ownerId.Some? :: stores[id].ownerId.value in users)
    // the one-to-one `owner` relation makes `ownerId` UNIQUE (NULLs excepted)
    && (d == Postgres ==> forall a, b | a in stores && b in stores && a != b && stores[a].ownerId.Some? ::
          stores[a].ownerId != stores[b].ownerId)
    && (d == Postgres ==> forall id | id in stores :: StoreFitsEntity(stores[id]))
  }

  predicate RatingsOk(d: Dialect, users: map<Id, User>, stores: map<Id, Store>, ratings: map<RatingKey, Rating>) {
    && KeyedByPair(ratings)
    && (forall k | k in ratings :: k.0 in users && k.1 in stores)
    && (forall a, b | a in ratings && b in ratings && a != b :: ratings[a].id != ratings[b].id)
    // `CHECK(value BETWEEN 1 AND 5)` exists in the SQLite schema only
    && (d == Sqlite ==> forall k | k in ratings :: 1 <= ratings[k].value <= 5)
  }

  /** Every constraint of the schema: primary keys, UNIQUE columns, foreign
      keys and CHECKs. */
  predicate Schema(d: Dialect, users: map<Id, User>, stores: map<Id, Store>, ratings: map<RatingKey, Rating>) {
    UsersOk(d, users) && StoresOk(d, users, stores) && RatingsOk(d, users, stores, ratings)
  }

  /** `INSERT INTO users` succeeds: a new primary key, an email no stored
      email collides with, and values the columns accept. */
  predicate CanInsertUser(d: Dialect, users: map<Id, User>, u: User) {
    && u.id !in users
    && (forall id | id in users :: !SameEmail(d, users[id].email, u.email))
    && (d == Postgres ==> UserFitsEntity(u))
  }

  predicate CanInsertStore(d: Dialect, users: map<Id, User>, stores: map<Id, Store>, s: Store) {
    && s.id !in stores
    && (forall id | id in stores :: !SameEmail(d, stores[id].email, s.email))
    && (s.ownerId.Some? ==> s.ownerId.value in users)
    && (d == Postgres ==> s.ownerId.Some? ==> forall id | id in stores :: stores[id].ownerId != s.ownerId)
    && (d == Postgres ==> StoreFitsEntity(s))
  }

  predicate CanInsertRating(d: Dialect, users: map<Id, User>, stores: map<Id, Store>,
                            ratings: map<RatingKey, Rating>, r: Rating) {
    && KeyOf(r) !in ratings
    && (forall k | k in ratings :: ratings[k].id != r.id)
    && r.userId in users && r.storeId in stores
    && (d == Sqlite ==> 1 <= r.value <= 5)
  }

  /** `UPDATE ratings SET value = ?, updated_at = ? WHERE id = ?`: every row
      with that id takes the new value and timestamp. */
  function UpdatedById(ratings: map<RatingKey, Rating>, id: Id, value: int, now: Timestamp): (r: map<RatingKey, Rating>)
    ensures r.Keys == ratings.Keys
    ensures forall k | k in ratings :: r[k] == (if ratings[k].id == id then ratings[k].(value := value, updatedAt := now) else ratings[k])
  {
    map k | k in ratings :: if ratings[k].id == id then ratings[k].(value := value, updatedAt := now) else ratings[k]
  }

  /** The UPDATE passes the CHECK: no row with that id, or a value in 1..5. */
  predicate CanUpdateRating(d: Dialect, ratings: map<RatingKey, Rating>, id: Id, value: int) {
    d == Sqlite ==> forall k | k in ratings && ratings[k].id == id :: 1 <= value <= 5
  }

  /** `UPDATE users SET password = ?, updated_at = ? WHERE id = ?`. */
  function PasswordSet(users: map<Id, User>, id: Id, hash: string, now: Timestamp): map<Id, User> {
    if id in users then users[id := users[id].(password := hash, updatedAt := now)] else users
  }

  /** The rows of a table that satisfy `p`. */
  function Where<V>(table: map<Id, V>, p: V -> bool): set<V> {
    set id | id in table && p(table[id]) :: table[id]
  }

  /** No two keys of the table hold the same row. */
  predicate Injective<V(==)>(table: map<Id, V>) {
    forall a, b | a in table && b in table && a != b :: table[a] != table[b]
  }

  lemma WhereGrow<V>(table: map<Id, V>, p: V -> bool, todo: set<Id>, id: Id)
    requires Injective(table) && todo <= table.Keys && id in todo
    ensures table[id] !in Where(table - todo, p)
    ensures Where(table - (todo - {id}), p) == Where(table - todo, p) + (if p(table[id]) then {table[id]} else {})
  {
    var before := table - todo;
    var after := table - (todo - {id});
    forall x | x in Where(before, p)
      ensures x in Where(after, p)
    {
      var y :| y in before && p(before[y]) && before[y] == x;
      assert y in after && after[y] == x;
    }
    if p(table[id]) {
      assert id in after && after[id] == table[id];
    }
    forall x | x in Where(after, p)
      ensures x in Where(before, p) || (p(table[id]) && x == table[id])
    {
      var y :| y in after && p(after[y]) && after[y] == x;
      if y != id {
        assert y in before;
      }
    }
  }

  /** A scan `SELECT * FROM table WHERE p`: every matching row exactly once,
      in whatever order the engine produces them. */
  method SelectWhere<V(==)>(table: map<Id, V>, p: V -> bool) returns (rows: seq<V>)
    requires Injective(table)
    ensures multiset(rows) == multiset(Where(table, p))
  {
    rows := [];
    var todo := table.Keys;
    while todo != {}
      invariant todo <= table.Keys
      invariant multiset(rows) == multiset(Where(table - todo, p))
      decreases todo
    {
      var id :| id in todo;
      WhereGrow(table, p, todo, id);
      if p(table[id]) {
        rows := rows + [table[id]];
      }
      todo := todo - {id};
    }
    assert table - todo == table;
  }

  /** Appending a row of the table not yet listed extends a listing. */
  lemma ListsSnoc(rows: seq<Rating>, ratings: map<RatingKey, Rating>, done: set<RatingKey>, k: RatingKey)
    requires KeyedByPair(ratings) && k in ratings && k !in done
    requires Lists(rows, ratings, done)
    ensures Lists(rows + [ratings[k]], ratings, done + {k})
  {
    var rows' := rows + [ratings[k]];
    forall k' | k' in done + {k}
      ensures exists i :: 0 <= i < |rows'| && KeyOf(rows'[i]) == k'
    {
      if k' == k {
        assert KeyOf(rows'[|rows|]) == k';
      } else {
        var i :| 0 <= i < |rows| && KeyOf(rows[i]) == k';
        assert KeyOf(rows'[i]) == k';
      }
    }
  }

  /** The ratings given by user `uid`. */
  function UserKeys(ratings: map<RatingKey, Rating>, uid: Id): set<RatingKey> {
    set k | k in ratings && k.0 == uid
  }

  /** Reads the rows `ks` of the ratings table one by one. */
  method ListRatings(ratings: map<RatingKey, Rating>, ks: set<RatingKey>) returns (rows: seq<Rating>)
    requires KeyedByPair(ratings) && ks <= ratings.Keys
    ensures Lists(rows, ratings, ks)
  {
    rows := [];
    var todo := ks;
    ghost var done: set<RatingKey> := {};
    while todo != {}
      invariant todo !! done && todo + done == ks
      invariant Lists(rows, ratings, done)
      decreases todo
    {
      var k :| k in todo;
      ListsSnoc(rows, ratings, done, k);
      rows := rows + [ratings[k]];
      todo := todo - {k};
      done := done + {k};
    }
  }

  class Database {
    const dialect: Dialect
    var users: map<Id, User>
    var stores: map<Id, Store>
    var ratings: map<RatingKey, Rating>

    ghost predicate Valid()
      reads this
    {
      Schema(dialect, users, stores, ratings)
    }

    /** An empty database of the given engine. */
    constructor (d: Dialect)
      ensures dialect == d && users == map[] && stores == map[] && ratings == map[]
      ensures Valid()
    {
      dialect := d;
      users := map[];
      stores := map[];
      ratings := map[];
    }

    method InsertUser(u: User) returns (r: Result<()>)
      requires Valid()
      modifies this
      ensures Valid()
      ensures r.Ok? <==> CanInsertUser(dialect, old(users), u)
      ensures users == (if r.Ok? then old(users)[u.id := u] else old(users))
      ensures r.Err? ==> r.error == EngineError()
      ensures stores == old(stores) && ratings == old(ratings)
    {
      if CanInsertUser(dialect, users, u) {
        users := users[u.id := u];
        r := Ok(());
      } else {
        r := Err(EngineError());
      }
    }

    method InsertStore(s: Store) returns (r: Result<()>)
      requires Valid()
      modifies this
      ensures Valid()
      ensures r.Ok? <==> CanInsertStore(dialect, old(users), old(stores), s)
      ensures stores == (if r.Ok? then old(stores)[s.id := s] else old(stores))
      ensures r.Err? ==> r.error == EngineError()
      ensures users == old(users) && ratings == old(ratings)
    {
      if CanInsertStore(dialect, users, stores, s) {
        stores := stores[s.id := s];
        r := Ok(());
      } else {
        r := Err(EngineError());
      }
    }

    method InsertRating(x: Rating) returns (r: Result<()>)
      requires Valid()
      modifies this
      ensures Valid()
      ensures r.Ok? <==> CanInsertRating(dialect, old(users), old(stores), old(ratings), x)
      ensures ratings == (if r.Ok? then old(ratings)[KeyOf(x) := x] else old(ratings))
      ensures r.Err? ==> r.error == EngineError()
      ensures users == old(users) && stores == old(stores)
    {
      if CanInsertRating(dialect, users, stores, ratings, x) {
        ratings := ratings[KeyOf(x) := x];
        r := Ok(());
      } else {
        r := Err(EngineError());
      }
    }

    method UpdateRatingById(id: Id, value: int, now: Timestamp) returns (r: Result<()>)
      requires Valid()
      modifies this
      ensures Valid()
      ensures r.Ok? <==> CanUpdateRating(dialect, old(ratings), id, value)
      ensures ratings == (if r.Ok? then UpdatedById(old(ratings), id, value, now) else old(ratings))
      ensures r.Err? ==> r.error == EngineError()
      ensures users == old(users) && stores == old(stores)
    {
      if CanUpdateRating(dialect, ratings, id, value) {
        ratings := UpdatedById(ratings, id, value, now);
        r := Ok(());
      } else {
        r := Err(EngineError());
      }
    }

    method UpdatePasswordById(id: Id, hash: string, now: Timestamp)
      requires Valid()
      modifies this
      ensures Valid()
      ensures users == PasswordSet(old(users), id, hash, now)
      ensures stores == old(stores) && ratings == old(ratings)
    {
      users := PasswordSet(users, id, hash, now);
    }

    /** `SELECT * FROM users WHERE email = ?`: the user whose email matches
      under the column's collation, if any. */
    method FindUserByEmail(email: string) returns (u: Option<User>)
      requires Valid()
      ensures u.Some? ==> u.value.id in users && users[u.value.id] == u.value && SameEmail(dialect, u.value.email, email)
      ensures u.None? <==> forall id | id in users :: !SameEmail(dialect, users[id].email, email)
    {
      if exists id | id in users :: SameEmail(dialect, users[id].email, email) {
        var id :| id in users && SameEmail(dialect, users[id].email, email);
        u := Some(users[id]);
      } else {
        u := None;
      }
    }

    /** At most one user matches an email lookup, so the lookup is determined. */
    lemma EmailLookupUnique(email: string, a: Id, b: Id)
      requires Valid()
      requires a in users && SameEmail(dialect, users[a].email, email)
      requires b in users && SameEmail(dialect, users[b].email, email)
      ensures a == b
    {
      if a != b {
        SameEmailSymmetric(dialect, users[b].email, email);
        SameEmailTransitive(dialect, users[a].email, email, users[b].email);
        assert false;
      }
    }

    /** `SELECT * FROM stores WHERE owner_id = ?`: some store of that owner, if any. */
    method StoreOwnedBy(ownerId: Id) returns (s: Option<Store>)
      requires Valid()
      ensures s.Some? ==> s.value.id in stores && stores[s.value.id] == s.value && s.value.ownerId == Some(ownerId)
      ensures s.None? <==> forall id | id in stores :: stores[id].ownerId != Some(ownerId)
    {
      if exists id | id in stores :: stores[id].ownerId == Some(ownerId) {
        var id :| id in stores && stores[id].ownerId == Some(ownerId);
        s := Some(stores[id]);
      } else {
        s := None;
      }
    }

    /** In PostgreSQL an owner has at most one store, so the lookup is determined. */
    lemma OwnedStoreUnique(ownerId: Id, a: Id, b: Id)
      requires Valid() && dialect == Postgres
      requires a in stores && stores[a].ownerId == Some(ownerId)
      requires b in stores && stores[b].ownerId == Some(ownerId)
      ensures a == b
    {
    }

    /** `SELECT * FROM users WHERE p`. */
    method SelectUsers(p: User -> bool) returns (rows: seq<User>)
      requires Valid()
      ensures multiset(rows) == multiset(Where(users, p))
    {
      rows := SelectWhere(users, p);
    }

    /** `SELECT * FROM stores WHERE p`. */
    method SelectStores(p: Store -> bool) returns (rows: seq<Store>)
      requires Valid()
      ensures multiset(rows) == multiset(Where(stores, p))
    {
      rows := SelectWhere(stores, p);
    }

    /** `SELECT * FROM ratings WHERE store_id = ?`: each rating of the store once. */
    method FindRatingsOfStore(sid: Id) returns (rows: seq<Rating>)
      requires Valid()
      ensures Lists(rows, ratings, StoreKeys(ratings, sid))
    {
      rows := ListRatings(ratings, StoreKeys(ratings, sid));
    }

    /** `SELECT * FROM ratings WHERE user_id = ?`: each rating by the user once. */
    method FindRatingsOfUser(uid: Id) returns (rows: seq<Rating>)
      requires Valid()
      ensures Lists(rows, ratings, UserKeys(ratings, uid))
    {
      rows := ListRatings(ratings, UserKeys(ratings, uid));
    }

    /** `COALESCE(AVG(value), 0)` and `COUNT(*)` over the store's ratings. */
    method AggregateOf(sid: Id) returns (average: real, count: nat)
      requires Valid()
      ensures average == StoreAverage(ratings, sid) && count == StoreCount(ratings, sid)
    {
      var rows := FindRatingsOfStore(sid);
      ListedMeanIsStoreAverage(rows, ratings, sid);
      average := Mean(Values(rows));
      count := |rows|;
    }
  }
}
