/** What both servers' authentication services share: the sign-in decision,
    the session a sign-in hands out, and the seeding of the default admin.
    Password hashing, the hash comparison and token signing are library
    calls; a stored hash is a given string, the comparison is the parameter
    `compare(plain, hash)`, and signing is the parameter `sign(claims)`,
    which also stands for the secret and the expiry. */
module Accounts {
  import opened Common
  import opened Text
  import opened Records
  import opened Db

  const EMAIL_IN_USE: string := "Email already in use"
  const PASSWORD_UPDATED: string := "Password updated successfully"

  const ADMIN_EMAIL: string := "admin@platform.com"
  const ADMIN_PASSWORD: string := "Admin@123"
  const ADMIN_NAME: string := "System Administrator Account"
  const ADMIN_ADDRESS: string := "123 Admin Street, Platform City"

  /** The token payload `{ sub, email, role }`. */
  datatype Claims = Claims(sub: Id, email: string, role: string)

  /** `{ id, name, email, role }` of the signed-in user. */
  datatype SessionUser = SessionUser(id: Id, name: string, email: string, role: string)

  /** `{ accessToken, user }`. */
  datatype Session = Session(accessToken: string, user: SessionUser)

  function SessionOf(u: User, sign: Claims -> string): Session {
    Session(sign(Claims(u.id, u.email, u.role)), SessionUser(u.id, u.name, u.email, u.role))
  }

  /** Some stored user matches `email` under `WHERE email = ?`. */
  predicate EmailTaken(d: Dialect, users: map<Id, User>, email: string) {
    exists id | id in users :: SameEmail(d, users[id].email, email)
  }

  /** A sign-in with `email` and `password` is accepted: a user matches the
      email and the password compares equal to that user's hash. */
  predicate Authenticates(d: Dialect, users: map<Id, User>, email: string, password: string,
                          compare: (string, string) -> bool) {
    exists id | id in users :: SameEmail(d, users[id].email, email) && compare(password, users[id].password)
  }

  /** Since emails are unique, a sign-in is accepted exactly when the one
      user that matches the email has a hash the password compares equal to. */
  lemma AuthenticatesIff(d: Dialect, users: map<Id, User>, u: User, email: string, password: string,
                         compare: (string, string) -> bool)
    requires UsersOk(d, users)
    requires u.id in users && users[u.id] == u && SameEmail(d, u.email, email)
    ensures Authenticates(d, users, email, password, compare) <==> compare(password, u.password)
  {
    if Authenticates(d, users, email, password, compare) {
      var id :| id in users && SameEmail(d, users[id].email, email) && compare(password, users[id].password);
      SameEmailSymmetric(d, u.email, email);
      SameEmailTransitive(d, users[id].email, email, u.email);
    }
  }

  /** A row stored with the lower case of `email` matches every spelling of
      `email` that differs only in ASCII case, so under SQLite a user signs
      in with the email typed in any case. */
  lemma LowerCasedEmailMatches(email: string, typed: string)
    requires NocaseEq(email, typed)
    ensures SameEmail(Sqlite, ToLower(email), typed)
  {
    ToLowerIdempotent(email);
  }

  /** An email is taken under SQLite exactly when its lower case is. */
  lemma EmailTakenLower(users: map<Id, User>, email: string)
    ensures EmailTaken(Sqlite, users, ToLower(email)) <==> EmailTaken(Sqlite, users, email)
  {
    ToLowerIdempotent(email);
  }

  /** After a user is stored, the password whose hash was stored signs in
      with any email matching the stored one. */
  lemma StoredUserAuthenticates(d: Dialect, users: map<Id, User>, u: User, email: string, password: string,
                                compare: (string, string) -> bool)
    requires SameEmail(d, u.email, email) && compare(password, u.password)
    ensures Authenticates(d, users[u.id := u], email, password, compare)
  {
    var after := users[u.id := u];
    assert u.id in after && after[u.id] == u;
  }

  /** After a password change, the new password signs in with the user's
      email, and every other user is unchanged. */
  lemma PasswordSetAuthenticates(d: Dialect, users: map<Id, User>, id: Id, password: string, hash: string,
                                 now: Timestamp, compare: (string, string) -> bool)
    requires id in users && compare(password, hash)
    ensures var after := PasswordSet(users, id, hash, now);
      && Authenticates(d, after, users[id].email, password, compare)
      && after.Keys == users.Keys
      && forall other | other in users && other != id :: after[other] == users[other]
  {
    var after := PasswordSet(users, id, hash, now);
    assert SameEmail(d, after[id].email, users[id].email) by {
      if d == Sqlite { assert NocaseEq(after[id].email, users[id].email); }
    }
  }

  /** The default admin row. */
  function AdminUser(hash: string, newId: Id, now: Timestamp): User {
    User(newId, ADMIN_NAME, ADMIN_EMAIL, hash, Some(ADMIN_ADDRESS), ADMIN, now, now)
  }

  /** The users table after seeding: unchanged when a user already matches
      the admin email, otherwise the admin row is inserted when the engine
      accepts it. No existing row is changed and at most one is added. */
  function Seeded(d: Dialect, users: map<Id, User>, hash: string, newId: Id, now: Timestamp): (r: map<Id, User>)
    ensures forall id | id in users :: id in r && r[id] == users[id]
    ensures r.Keys <= users.Keys + {newId}
    ensures EmailTaken(d, users, ADMIN_EMAIL) ==> r == users
  {
    if EmailTaken(d, users, ADMIN_EMAIL) then users
    else if CanInsertUser(d, users, AdminUser(hash, newId, now)) then users[newId := AdminUser(hash, newId, now)]
    else users
  }

  /** Once seeding has stored the admin (or found one), seeding again
      changes nothing. */
  lemma SeededIdempotent(d: Dialect, users: map<Id, User>, h1: string, id1: Id, t1: Timestamp,
                         h2: string, id2: Id, t2: Timestamp)
    requires EmailTaken(d, users, ADMIN_EMAIL) || CanInsertUser(d, users, AdminUser(h1, id1, t1))
    ensures var once := Seeded(d, users, h1, id1, t1);
      EmailTaken(d, once, ADMIN_EMAIL) && Seeded(d, once, h2, id2, t2) == once
  {
    var once := Seeded(d, users, h1, id1, t1);
    if !EmailTaken(d, users, ADMIN_EMAIL) {
      assert id1 in once && once[id1].email == ADMIN_EMAIL;
      assert SameEmail(d, once[id1].email, ADMIN_EMAIL);
    }
  }

  /** A freshly seeded admin signs in with the default credentials when the
      stored hash is one of `Admin@123`. */
  lemma SeededAdminAuthenticates(d: Dialect, users: map<Id, User>, hash: string, newId: Id, now: Timestamp,
                                 compare: (string, string) -> bool)
    requires !EmailTaken(d, users, ADMIN_EMAIL) && CanInsertUser(d, users, AdminUser(hash, newId, now))
    requires compare(ADMIN_PASSWORD, hash)
    ensures Authenticates(d, Seeded(d, users, hash, newId, now), ADMIN_EMAIL, ADMIN_PASSWORD, compare)
  {
    var u := AdminUser(hash, newId, now);
    assert SameEmail(d, u.email, ADMIN_EMAIL);
    StoredUserAuthenticates(d, users, u, ADMIN_EMAIL, ADMIN_PASSWORD, compare);
  }
}
