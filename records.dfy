/** The rows of the three tables, `users`, `stores` and `ratings`, and the
    projections of a user that the services hand out. */
module Records {
  import opened Common

  /** Primary keys are uuid strings. */
  type Id = string

  /** `datetime('now')` text (`YYYY-MM-DD HH:MM:SS`) or a serialised Date;
      both order chronologically when compared as text. */
  type Timestamp = string

  const ADMIN: string := "admin"
  const USER: string := "user"
  const STORE_OWNER: string := "store_owner"

  /** `x || null` for a text input: the empty string is stored as NULL. */
  function OrNull(x: string): Option<string> {
    if x == [] then None else Some(x)
  }

  /** The three labels of the `UserRole` enumeration. */
  predicate IsRoleName(r: string) {
    r == ADMIN || r == USER || r == STORE_OWNER
  }

  datatype User = User(
    id: Id, name: string, email: string, password: string,
    address: Option<string>, role: string,
    createdAt: Timestamp, updatedAt: Timestamp)

  datatype Store = Store(
    id: Id, name: string, email: string,
    address: Option<string>, ownerId: Option<Id>,
    createdAt: Timestamp, updatedAt: Timestamp)

  datatype Rating = Rating(
    id: Id, userId: Id, storeId: Id, value: int,
    createdAt: Timestamp, updatedAt: Timestamp)

  /** The pair `(user_id, store_id)` that the ratings table keeps UNIQUE. */
  type RatingKey = (Id, Id)

  function KeyOf(r: Rating): RatingKey {
    (r.userId, r.storeId)
  }

  /** Every rating sits under its own `(userId, storeId)` pair. */
  predicate KeyedByPair(ratings: map<RatingKey, Rating>) {
    forall k | k in ratings :: KeyOf(ratings[k]) == k
  }

  /** The column list `id,name,email,address,role,created_at`: a user without
      its password hash and without `updated_at`. */
  datatype UserView = UserView(
    id: Id, name: string, email: string, address: Option<string>,
    role: string, createdAt: Timestamp)

  function ViewOf(u: User): UserView {
    UserView(u.id, u.name, u.email, u.address, u.role, u.createdAt)
  }

  /** A saved user entity with its `password` property removed
      (`const { password, ...result } = user`). */
  datatype SafeUser = SafeUser(
    id: Id, name: string, email: string, address: Option<string>,
    role: string, createdAt: Timestamp, updatedAt: Timestamp)

  function WithoutPassword(u: User): SafeUser {
    SafeUser(u.id, u.name, u.email, u.address, u.role, u.createdAt, u.updatedAt)
  }
}
