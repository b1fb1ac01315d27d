/** `AuthService` of the Nest server: registration, sign-in, password
    change, admin-created accounts and the seeding of the default admin,
    over the PostgreSQL schema. The DTO's fields are taken as given; the
    hash of the password, the generated uuid and the clock are parameters. */
module NestAuth {
  import opened Common
  import opened Records
  import opened Db
  import opened Accounts

  const INVALID_CREDENTIALS: string := "Invalid credentials"

  /** The entity `create({ ...dto, password: hashed, role })` builds and
      `save` inserts. */
  function NewUser(name: string, email: string, address: Option<string>, role: string, hash: string,
                   newId: Id, now: Timestamp): User {
    User(newId, name, email, hash, address, role, now, now)
  }

  /** `dto.role`, or the column default `user` when the DTO has none. */
  function RoleOrDefault(role: Option<string>): string {
    if role.None? then USER else role.value
  }

  /** The shared body of `register` and `createUser`: Conflict when a user
      has exactly this email; otherwise the insert, which then fails only on a
      reused id or a value the entity's columns reject; the saved entity is
      handed out without its password. */
  method InsertNewUser(db: Database, name: string, email: string, address: Option<string>, role: string,
                       hash: string, newId: Id, now: Timestamp)
    returns (r: Result<SafeUser>)
    requires db.Valid() && db.dialect == Postgres
    modifies db
    ensures db.Valid()
    ensures db.stores == old(db.stores) && db.ratings == old(db.ratings)
    ensures EmailTaken(Postgres, old(db.users), email) ==> r == Err(Error(409, EMAIL_IN_USE))
    ensures !EmailTaken(Postgres, old(db.users), email) ==>
      (r.Ok? <==> newId !in old(db.users) && IsRoleName(role) && |name| <= 60 && FitsVarchar(address, 400))
    ensures !EmailTaken(Postgres, old(db.users), email) && r.Err? ==> r.error == EngineError()
    ensures r.Ok? ==> var u := NewUser(name, email, address, role, hash, newId, now);
      db.users == old(db.users)[newId := u] && r.value == WithoutPassword(u)
    ensures r.Err? ==> db.users == old(db.users)
  {
    var taken := db.FindUserByEmail(email);
    if taken.Some? {
      return Err(Error(409, EMAIL_IN_USE));
    }
    var u := NewUser(name, email, address, role, hash, newId, now);
    var w := db.InsertUser(u);
    if w.Err? {
      return Err(w.error);
    }
    r := Ok(WithoutPassword(u));
  }

  /** Self-registration forces the role `user`. */
  method Register(db: Database, name: string, email: string, address: Option<string>, hash: string,
                  newId: Id, now: Timestamp)
    returns (r: Result<SafeUser>)
    requires db.Valid() && db.dialect == Postgres
    modifies db
    ensures db.Valid()
    ensures db.stores == old(db.stores) && db.ratings == old(db.ratings)
    ensures EmailTaken(Postgres, old(db.users), email) ==> r == Err(Error(409, EMAIL_IN_USE))
    ensures !EmailTaken(Postgres, old(db.users), email) ==>
      (r.Ok? <==> newId !in old(db.users) && |name| <= 60 && FitsVarchar(address, 400))
    ensures !EmailTaken(Postgres, old(db.users), email) && r.Err? ==> r.error == EngineError()
    ensures r.Ok? ==> var u := NewUser(name, email, address, USER, hash, newId, now);
      db.users == old(db.users)[newId := u] && r.value == WithoutPassword(u) && r.value.role == USER
    ensures r.Err? ==> db.users == old(db.users)
  {
    r := InsertNewUser(db, name, email, address, USER, hash, newId, now);
  }

  /** An admin-created account keeps the DTO's role; a role outside the
      enumeration is refused by the column. */
  method CreateUser(db: Database, name: string, email: string, address: Option<string>, role: Option<string>,
                    hash: string, newId: Id, now: Timestamp)
    returns (r: Result<SafeUser>)
    requires db.Valid() && db.dialect == Postgres
    modifies db
    ensures db.Valid()
    ensures db.stores == old(db.stores) && db.ratings == old(db.ratings)
    ensures EmailTaken(Postgres, old(db.users), email) ==> r == Err(Error(409, EMAIL_IN_USE))
    ensures !EmailTaken(Postgres, old(db.users), email) ==>
      (r.Ok? <==> newId !in old(db.users) && IsRoleName(RoleOrDefault(role)) && |name| <= 60 && FitsVarchar(address, 400))
    ensures !EmailTaken(Postgres, old(db.users), email) && r.Err? ==> r.error == EngineError()
    ensures r.Ok? ==> var u := NewUser(name, email, address, RoleOrDefault(role), hash, newId, now);
      db.users == old(db.users)[newId := u] && r.value == WithoutPassword(u)
    ensures r.Ok? ==> r.value.role == (if role.None? then USER else role.value)
    ensures r.Err? ==> db.users == old(db.users)
  {
    r := InsertNewUser(db, name, email, address, RoleOrDefault(role), hash, newId, now);
  }

  /** One message for an unknown email and for a wrong password; on success
      the session of the user with exactly that email. */
  method Login(db: Database, email: string, password: string,
               compare: (string, string) -> bool, sign: Claims -> string)
    returns (r: Result<Session>)
    requires db.Valid() && db.dialect == Postgres
    ensures r.Ok? <==> Authenticates(Postgres, db.users, email, password, compare)
    ensures r.Err? ==> r.error == Error(401, INVALID_CREDENTIALS)
    ensures r.Ok? ==> exists id | id in db.users ::
      db.users[id].email == email && r.value == SessionOf(db.users[id], sign)
  {
    var found := db.FindUserByEmail(email);
    if found.None? {
      return Err(Error(401, INVALID_CREDENTIALS));
    }
    var u := found.value;
    AuthenticatesIff(Postgres, db.users, u, email, password, compare);
    if !compare(password, u.password) {
      return Err(Error(401, INVALID_CREDENTIALS));
    }
    r := Ok(SessionOf(u, sign));
  }

  /** `update(userId, { password })`: the row with that id, if any, takes
      the hash, and the update-date column the current time. */
  method UpdatePassword(db: Database, userId: Id, hash: string, now: Timestamp) returns (message: string)
    requires db.Valid()
    modifies db
    ensures db.Valid()
    ensures db.users == PasswordSet(old(db.users), userId, hash, now)
    ensures db.stores == old(db.stores) && db.ratings == old(db.ratings)
    ensures message == PASSWORD_UPDATED
  {
    db.UpdatePasswordById(userId, hash, now);
    message := PASSWORD_UPDATED;
  }

  /** Saves the default admin unless a user already has its email. */
  method SeedAdmin(db: Database, hash: string, newId: Id, now: Timestamp) returns (r: Result<()>)
    requires db.Valid()
    modifies db
    ensures db.Valid()
    ensures db.users == Seeded(db.dialect, old(db.users), hash, newId, now)
    ensures db.stores == old(db.stores) && db.ratings == old(db.ratings)
    ensures r.Err? <==> !EmailTaken(db.dialect, old(db.users), ADMIN_EMAIL)
                        && !CanInsertUser(db.dialect, old(db.users), AdminUser(hash, newId, now))
    ensures r.Err? ==> r.error == EngineError()
  {
    var existing := db.FindUserByEmail(ADMIN_EMAIL);
    if existing.Some? {
      return Ok(());
    }
    r := db.InsertUser(AdminUser(hash, newId, now));
  }
}
