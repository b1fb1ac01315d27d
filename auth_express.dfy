/** The Express server's authentication service: registration, sign-in,
    password change, admin-created accounts and the seeding of the default
    admin, over the SQLite schema. The hash of the given password, the fresh
    uuid, the clock and JavaScript's `toLowerCase` (`lowerCase`) are
    parameters. */
module ExpressAuth {
  import opened Common
  import opened Text
  import opened Records
  import opened Db
  import opened Accounts

  const INVALID_LOGIN: string := "Invalid email or password"

  /** The row `register` and `createUser` insert: trimmed name, lower-cased
      email, the hash in place of the password, NULL for an empty address. */
  function NewUser(name: string, email: string, address: string, role: string, hash: string,
                   newId: Id, now: Timestamp, lowerCase: string -> string): User {
    User(newId, Trim(name), lowerCase(email), hash, OrNull(address), role, now, now)
  }

  /** `role || 'user'`. */
  function RoleOrDefault(role: string): string {
    if role == [] then USER else role
  }

  /** The shared body of `register` and `createUser`: 409 when the email is
      taken (under NOCASE, as typed); otherwise the insert of the normalised
      row, which the engine refuses with 500 on a reused id or on a stored
      email that equals the lowered one. For an email whose lower case is its
      ASCII folding (every ASCII email) only a reused id can make it fail;
      `LowerCasedClashIsNotTaken` shows an email where the two part. */
  method InsertNewUser(db: Database, name: string, email: string, address: string, role: string, hash: string,
                       newId: Id, now: Timestamp, lowerCase: string -> string)
    returns (r: Result<UserView>)
    requires db.Valid() && db.dialect == Sqlite
    modifies db
    ensures db.Valid()
    ensures db.stores == old(db.stores) && db.ratings == old(db.ratings)
    ensures EmailTaken(Sqlite, old(db.users), email) ==> r == Err(Error(409, EMAIL_IN_USE))
    ensures !EmailTaken(Sqlite, old(db.users), email) ==>
      (r.Ok? <==> CanInsertUser(Sqlite, old(db.users), NewUser(name, email, address, role, hash, newId, now, lowerCase)))
    ensures !EmailTaken(Sqlite, old(db.users), email) && lowerCase(email) == ToLower(email) ==>
      (r.Ok? <==> newId !in old(db.users))
    ensures !EmailTaken(Sqlite, old(db.users), email) && r.Err? ==> r.error == EngineError()
    ensures r.Ok? ==> var u := NewUser(name, email, address, role, hash, newId, now, lowerCase);
      db.users == old(db.users)[newId := u] && r.value == ViewOf(u)
    ensures r.Err? ==> db.users == old(db.users)
  {
    var taken := db.FindUserByEmail(email);
    if taken.Some? {
      return Err(Error(409, EMAIL_IN_USE));
    }
    var u := NewUser(name, email, address, role, hash, newId, now, lowerCase);
    EmailTakenLower(db.users, email);
    var w := db.InsertUser(u);
    if w.Err? {
      return Err(w.error);
    }
    r := Ok(ViewOf(db.users[newId]));
  }

  /** Self-registration always stores the role `user`. */
  method Register(db: Database, name: string, email: string, address: string, hash: string,
                  newId: Id, now: Timestamp, lowerCase: string -> string)
    returns (r: Result<UserView>)
    requires db.Valid() && db.dialect == Sqlite
    modifies db
    ensures db.Valid()
    ensures db.stores == old(db.stores) && db.ratings == old(db.ratings)
    ensures EmailTaken(Sqlite, old(db.users), email) ==> r == Err(Error(409, EMAIL_IN_USE))
    ensures !EmailTaken(Sqlite, old(db.users), email) ==>
      (r.Ok? <==> CanInsertUser(Sqlite, old(db.users), NewUser(name, email, address, USER, hash, newId, now, lowerCase)))
    ensures !EmailTaken(Sqlite, old(db.users), email) && lowerCase(email) == ToLower(email) ==>
      (r.Ok? <==> newId !in old(db.users))
    ensures !EmailTaken(Sqlite, old(db.users), email) && r.Err? ==> r.error == EngineError()
    ensures r.Ok? ==> var u := NewUser(name, email, address, USER, hash, newId, now, lowerCase);
      db.users == old(db.users)[newId := u] && r.value == ViewOf(u) && r.value.role == USER
    ensures r.Err? ==> db.users == old(db.users)
  {
    r := InsertNewUser(db, name, email, address, USER, hash, newId, now, lowerCase);
  }

  /** An admin-created account takes the given role, `user` when none is
      given; the role column accepts any text. */
  method CreateUser(db: Database, name: string, email: string, address: string, role: string, hash: string,
                    newId: Id, now: Timestamp, lowerCase: string -> string)
    returns (r: Result<UserView>)
    requires db.Valid() && db.dialect == Sqlite
    modifies db
    ensures db.Valid()
    ensures db.stores == old(db.stores) && db.ratings == old(db.ratings)
    ensures EmailTaken(Sqlite, old(db.users), email) ==> r == Err(Error(409, EMAIL_IN_USE))
    ensures !EmailTaken(Sqlite, old(db.users), email) ==>
      (r.Ok? <==> CanInsertUser(Sqlite, old(db.users), NewUser(name, email, address, RoleOrDefault(role), hash, newId, now, lowerCase)))
    ensures !EmailTaken(Sqlite, old(db.users), email) && lowerCase(email) == ToLower(email) ==>
      (r.Ok? <==> newId !in old(db.users))
    ensures !EmailTaken(Sqlite, old(db.users), email) && r.Err? ==> r.error == EngineError()
    ensures r.Ok? ==> var u := NewUser(name, email, address, RoleOrDefault(role), hash, newId, now, lowerCase);
      db.users == old(db.users)[newId := u] && r.value == ViewOf(u)
    ensures r.Ok? ==> r.value.role == (if role == [] then USER else role)
    ensures r.Err? ==> db.users == old(db.users)
  {
    r := InsertNewUser(db, name, email, address, RoleOrDefault(role), hash, newId, now, lowerCase);
  }

  /** The stored row is normalised, and a registered user signs in with the
      password whose hash was stored and any email equal to the stored one
      under NOCASE; for an ASCII email, that is the email typed in any case. */
  lemma RegisteredUserSignsIn(users: map<Id, User>, name: string, email: string, address: string, role: string,
                              hash: string, newId: Id, now: Timestamp, lowerCase: string -> string,
                              typed: string, password: string, compare: (string, string) -> bool)
    requires LowersLikeJavaScript(lowerCase)
    requires compare(password, hash)
    ensures var u := NewUser(name, email, address, role, hash, newId, now, lowerCase);
      && Trim(u.name) == u.name && ToLower(u.email) == u.email
      && (u.address.None? <==> address == [])
      && (NocaseEq(u.email, typed) ==> Authenticates(Sqlite, users[newId := u], typed, password, compare))
      && (IsAscii(email) && NocaseEq(email, typed) ==> Authenticates(Sqlite, users[newId := u], typed, password, compare))
  {
    var u := NewUser(name, email, address, role, hash, newId, now, lowerCase);
    assert u.email == lowerCase(email) && u.password == hash;
    TrimIdempotent(name);
    LoweredHasNoAsciiCapital(lowerCase, email);
    if NocaseEq(u.email, typed) {
      StoredUserAuthenticates(Sqlite, users, u, typed, password, compare);
    }
    if IsAscii(email) && NocaseEq(email, typed) {
      LoweredAsciiIsFolded(lowerCase, email);
      LowerCasedEmailMatches(email, typed);
      StoredUserAuthenticates(Sqlite, users, u, typed, password, compare);
    }
  }

  /** An email with a non-ASCII capital is stored lowered by `toLowerCase`,
      which NOCASE does not fold back: typed as registered, it no longer
      matches, and the sign-in is refused. */
  lemma AccentedCapitalLocksOut(name: string, address: string, role: string, hash: string,
                                newId: Id, now: Timestamp, lowerCase: string -> string,
                                password: string, compare: (string, string) -> bool)
    requires lowerCase("\U{00C9}@x.com") == "\U{00E9}@x.com"
    ensures var u := NewUser(name, "\U{00C9}@x.com", address, role, hash, newId, now, lowerCase);
      !Authenticates(Sqlite, map[newId := u], "\U{00C9}@x.com", password, compare)
  {
    var e := "\U{00C9}@x.com";
    var u := NewUser(name, e, address, role, hash, newId, now, lowerCase);
    assert e[0] == '\U{00C9}' && u.email[0] == '\U{00E9}';
    NocaseHeadsDiffer(u.email, e);
    var users := map[newId := u];
    forall id | id in users
      ensures !SameEmail(Sqlite, users[id].email, e)
    {
      assert users[id] == u;
    }
  }

  /** The 409 check compares the email as typed, the UNIQUE column the
      lowered one: with `stored` holding the lowered email, the capitalised
      one is not taken, yet its insert is refused, with 500. */
  lemma LowerCasedClashIsNotTaken(stored: User, name: string, address: string, role: string,
                                  hash: string, newId: Id, now: Timestamp, lowerCase: string -> string)
    requires lowerCase("\U{00C9}@x.com") == "\U{00E9}@x.com"
    requires stored.email == "\U{00E9}@x.com"
    ensures !EmailTaken(Sqlite, map[stored.id := stored], "\U{00C9}@x.com")
    ensures !CanInsertUser(Sqlite, map[stored.id := stored],
                           NewUser(name, "\U{00C9}@x.com", address, role, hash, newId, now, lowerCase))
  {
    var e := "\U{00C9}@x.com";
    assert e[0] == '\U{00C9}' && stored.email[0] == '\U{00E9}';
    NocaseHeadsDiffer(stored.email, e);
    var users := map[stored.id := stored];
    forall id | id in users
      ensures !SameEmail(Sqlite, users[id].email, e)
    {
      assert users[id] == stored;
    }
    var u := NewUser(name, e, address, role, hash, newId, now, lowerCase);
    assert u.email == stored.email;
    assert SameEmail(Sqlite, users[stored.id].email, u.email);
  }

  /** One message for an unknown email and for a wrong password; on success
      the session of the user the email matches (case-insensitively). */
  method Login(db: Database, email: string, password: string,
               compare: (string, string) -> bool, sign: Claims -> string)
    returns (r: Result<Session>)
    requires db.Valid() && db.dialect == Sqlite
    ensures r.Ok? <==> Authenticates(Sqlite, db.users, email, password, compare)
    ensures r.Err? ==> r.error == Error(401, INVALID_LOGIN)
    ensures r.Ok? ==> exists id | id in db.users ::
      SameEmail(Sqlite, db.users[id].email, email) && r.value == SessionOf(db.users[id], sign)
  {
    var found := db.FindUserByEmail(email);
    if found.None? {
      return Err(Error(401, INVALID_LOGIN));
    }
    var u := found.value;
    AuthenticatesIff(Sqlite, db.users, u, email, password, compare);
    if !compare(password, u.password) {
      return Err(Error(401, INVALID_LOGIN));
    }
    r := Ok(SessionOf(u, sign));
  }

  /** Stores the new hash and `updated_at` of the row with that id, if any,
      and reports success either way. */
  method UpdatePassword(db: Database, userId: Id, hash: string, now: Timestamp) returns (message: string)
    requires db.Valid()
    modifies db
    ensures db.Valid()
    ensures db.users == PasswordSet(old(db.users), userId, hash, now)
    ensures db.stores == old(db.stores) && db.ratings == old(db.ratings)
    ensures message == PASSWORD_UPDATED
  {
    db.UpdatePasswordById(userId, hash, now);
    message := PASSWORD_UPDATED;
  }

  /** Inserts the default admin unless a user already matches its email. */
  method SeedAdmin(db: Database, hash: string, newId: Id, now: Timestamp) returns (r: Result<()>)
    requires db.Valid()
    modifies db
    ensures db.Valid()
    ensures db.users == Seeded(db.dialect, old(db.users), hash, newId, now)
    ensures db.stores == old(db.stores) && db.ratings == old(db.ratings)
    ensures r.Err? <==> !EmailTaken(db.dialect, old(db.users), ADMIN_EMAIL)
                        && !CanInsertUser(db.dialect, old(db.users), AdminUser(hash, newId, now))
    ensures r.Err? ==> r.error == EngineError()
  {
    var existing := db.FindUserByEmail(ADMIN_EMAIL);
    if existing.Some? {
      return Ok(());
    }
    r := db.InsertUser(AdminUser(hash, newId, now));
  }
}
