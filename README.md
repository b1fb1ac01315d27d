# Store rating platform — a Dafny model of its core

The platform lets users rate stores from 1 to 5. Administrators manage users and stores. A store owner sees who rated their store. It ships two interchangeable backends over the same three tables (`users`, `stores`, `ratings`):

- an Express server whose services run SQL against SQLite;
- a NestJS server whose services use TypeORM repositories over PostgreSQL.

A React frontend validates forms and sorts tables on the client.

This project models the data logic of both servers and the frontend's validators and sort helpers in Dafny:

- **The tables** (`Db`). The three tables are maps held by the `Database` class. Its invariant `Valid` is the schema the engine enforces, under either dialect:
  - UNIQUE emails, case-insensitive under SQLite's `COLLATE NOCASE`;
  - foreign keys;
  - `UNIQUE(user_id, store_id)` on ratings;
  - SQLite's `CHECK(value BETWEEN 1 AND 5)`;
  - TypeORM's one-to-one owner column, enum role and `varchar` lengths.

  Every write goes through an engine operation. It either applies the write or fails with a 500 and changes nothing.
- **The rating ledger** (`Ledger`, `ExpressRatings`, `NestRatings`). A submission updates the pair's existing rating or inserts a new one.
- **Store and user queries** (`ExpressStores`, `NestStores`, `StoreViews`, `Aggregate`, `Ordering`, `ExpressUsers`, `NestUsers`, `UserViews`):
  - filters and allow-listed or defaulted sorts;
  - exact per-store means and counts;
  - the viewer's own rating;
  - the owner dashboard;
  - the admin statistics.
- **Accounts** (`Accounts`, `ExpressAuth`, `NestAuth`): registration, admin-created users, sign-in, password change and seeding of the default admin. Hashing, comparison and token signing are parameters.
- **The access gate** (`AccessGate`): Express's `authenticate` and `authorize` middleware.
- **Validators**:
  - the backend rule chains (`BackendRules`);
  - the password and email patterns (`PasswordPolicy`, `EmailShape`);
  - the frontend's shared validators (`ClientValidators`);
  - the page-level validators (`RegisterPage`, `ChangePasswordPage`, `AdminDashboardPage`).
- **Sorting on the client**: the sort-state toggle (`SortState`) and the dashboards' copy-and-sort comparator (`ClientSort`, `OwnerDashboardPage`, `StoreOwnerDashboardPage`).

Where the parts of the system disagree, lemmas state the disagreement with a concrete input. The cases are:

- the register page's untrimmed name (`RegisterPage.PaddedNameOnlyRefusedByBackend`);
- the frontend's untrimmed address (`ClientValidators.PaddedAddressOnlyRefusedByFrontend`);
- the Nest DTO's pattern accepting a line break (`PasswordPolicy.DtoAcceptsLineBreak`);
- pages that accept line terminators the backend refuses (`ChangePasswordPage.SentExactlyWhenBackendAccepts`);
- the Express services' 409 check, which compares the email as typed under ASCII-only NOCASE, while the row stores JavaScript's full lower case (`ExpressAuth.LowerCasedClashIsNotTaken`, `ExpressAuth.AccentedCapitalLocksOut`). The lock-out happens through the routes: registration's `normalizeEmail` stores the full lower case, while the sign-in rules leave the email as typed. The 409 clash needs a caller that skips the registration route, whose `normalizeEmail` lower-cases the email first.

All source paths below are relative to the repository root.

## Model

| member | source | states |
|---|---|---|
| Db.Database.constructor | store-rating-app/backend/src/config/db.js:63-100 | Freshly created tables are empty and satisfy every constraint of the schema |
| Db.Database.InsertUser | store-rating-app/backend/src/config/db.js:64-73 | A user row is stored exactly when its id is new, no stored email collides with its email under the dialect's collation, and (PostgreSQL) its role and lengths fit the entity; otherwise 500 and nothing changes; the schema is kept |
| Db.Database.InsertStore | store-rating-app/backend/src/config/db.js:75-83 | A store row is stored exactly when its id is new, its email is unique, its owner exists and (PostgreSQL) no other store has that owner and its lengths fit; otherwise 500 and nothing changes |
| Db.Database.InsertRating | store-rating-app/backend/src/config/db.js:85-93 | A rating is stored exactly when its (user, store) pair and id are new, both references exist and (SQLite) the value is in 1..5; otherwise 500 and nothing changes |
| Db.Database.UpdateRatingById | store-rating-app/backend/src/services/ratings.service.js:13-16 | The UPDATE by id passes unless SQLite's CHECK refuses an out-of-range value; it changes exactly the rows with that id and keeps the schema |
| Db.Database.UpdatePasswordById | store-rating-app/backend/src/services/auth.service.js:39 | Only the password hash and updated_at of the row with that id change; the schema is kept |
| Db.Database.FindUserByEmail | store-rating-app/backend/src/services/auth.service.js:14 | The lookup returns a stored user whose email matches under the column's collation, and returns nothing exactly when no stored email matches |
| Db.Database.EmailLookupUnique | store-rating-app/backend/src/config/db.js:67 | Under the UNIQUE email constraint at most one user matches an email lookup |
| Db.Database.StoreOwnedBy | store-rating-app/backend/src/services/stores.service.js:72-74 | Returns a stored store with that owner, and nothing exactly when the owner has no store |
| Db.Database.OwnedStoreUnique | store-rating-app/backend/src/stores/store.entity.ts:28-32 | Under the one-to-one owner relation an owner has at most one store |
| Db.SelectWhere | store-rating-app/backend/src/services/users.service.js:18-21 | A filtered scan returns every matching row exactly once, in some order (equal multisets) |
| Db.Database.FindRatingsOfStore | store-rating-app/backend/src/stores/stores.service.ts:43 | The rows returned are the store's ratings, each exactly once |
| Db.Database.FindRatingsOfUser | store-rating-app/backend/src/services/stores.service.js:46 | The rows returned are the user's ratings, each exactly once |
| Db.Database.AggregateOf | store-rating-app/backend/src/services/stores.service.js:79-83 | `COALESCE(AVG(value), 0)` and `COUNT(*)` are the store's exact mean (0 without ratings) and number of ratings |
| Aggregate.ListedMeanIsStoreAverage | store-rating-app/backend/src/stores/stores.service.ts:43-46 | The `reduce` sum over a fetched list divided by its length, 0 for an empty list, equals the store's mean, and the list's length is its count |
| Aggregate.SumPermutation | store-rating-app/backend/src/stores/stores.service.ts:45 | The sum of the values does not depend on the order the ratings were fetched in |
| Aggregate.StoreAverageInRange | store-rating-app/backend/src/services/stores.service.js:35-36 | With every value in 1..5 a store's average is 0 with no ratings and between 1 and 5 otherwise |
| Aggregate.NoRatingsAverageZero | store-rating-app/backend/src/services/stores.service.js:35 | A store with no ratings (LEFT JOIN) has count 0 and average 0 |
| Ledger.UpsertedHoldsValue | store-rating-app/backend/src/services/ratings.service.js:12-25 | After a submission the pair has exactly one rating and it holds the submitted value; ratings stay keyed by their pair |
| Ledger.UpsertedOthersUnchanged | store-rating-app/backend/src/services/ratings.service.js:13-16 | Every other (user, store) pair's rating is present and unchanged exactly as before |
| Ledger.UpsertedIdentity | store-rating-app/backend/src/services/ratings.service.js:8-25 | An existing rating keeps its id and creation time and takes the new updated_at; a new rating carries the fresh id, the pair, the value and the current time |
| Ledger.UpsertedCount | store-rating-app/backend/src/services/ratings.service.js:12-25 | An update adds no row; an insert adds exactly one |
| Ledger.UpsertedIdempotent | store-rating-app/backend/src/services/ratings.service.js:8-25 | Submitting the same value twice leaves the table of one submission, up to updated_at |
| Ledger.UpdateByIdIsUpsert | store-rating-app/backend/src/services/ratings.service.js:13-16 | With distinct rating ids, `UPDATE ... WHERE id = existing.id` changes exactly the pair's rating |
| Ledger.UpsertedKeepsSchema | store-rating-app/backend/src/config/db.js:85-93 | A write the engine accepts leaves the ratings table satisfying the schema |
| ExpressRatings.SubmitOrUpdate | store-rating-app/backend/src/services/ratings.service.js:4-26 | A missing store gives 404 "Store not found" and no change. Otherwise the call succeeds exactly when the engine accepts the write; the table becomes the upsert and the pair's row is returned. A refused write (an out-of-range value) gives 500 and no change. Users and stores never change |
| NestRatings.SubmitRating | store-rating-app/backend/src/ratings/ratings.service.ts:18-30 | The value is the JSON number as sent. A value outside 1..5 gives 400 before any read or write. A fractional value in range, such as 2.5, passes that check and is refused by the integer column with 500 and no change. Otherwise the existing entity is updated or a new one saved, succeeding exactly when the engine accepts it (a missing store fails the foreign key with 500). When the pair already holds the value, nothing is written and even its updatedAt stays. On success the pair holds the value and the store exists |
| StoreViews.FromEntriesLookup | store-rating-app/backend/src/services/stores.service.js:47 | `Object.fromEntries` has exactly the entries' keys, and with distinct keys each maps to its own entry's value |
| StoreViews.RatingMapIsLookup | store-rating-app/backend/src/services/stores.service.js:46-48 | The `store_id -> value` object built from the viewer's ratings holds a store exactly when the viewer rated it, with that rating's value |
| StoreViews.ListedRaters | store-rating-app/backend/src/services/stores.service.js:85-91 | Joining a store's ratings with their users lists one rater per rating of the store, each once, and as many as the store's count |
| ExpressStores.SortColumn | store-rating-app/backend/src/services/stores.service.js:29 | The sort column is always in `ALLOWED_SORT`: the requested one when allowed, `name` otherwise |
| ExpressStores.SortDirection | store-rating-app/backend/src/services/stores.service.js:31 | Ascending exactly when the order is the string `'ASC'` |
| ExpressStores.NewStoreNormalised | store-rating-app/backend/src/services/stores.service.js:14-17 | The stored name is trimmed and the stored email is `toLowerCase` of the input, so it holds no ASCII capital; an ASCII email is stored as its ASCII folding, still NOCASE-equal to the input. Address and owner are NULL exactly when empty |
| ExpressStores.Create | store-rating-app/backend/src/services/stores.service.js:6-19 | An owner that is not a `store_owner` user gives 400 and no insert. Otherwise the store with trimmed name and `toLowerCase` email is stored exactly when the engine accepts it, and is returned; a refusal gives 500 with no change |
| ExpressStores.AggregateRows | store-rating-app/backend/src/services/stores.service.js:33-42 | Each selected store, in order, carries its exact average and count |
| ExpressStores.FindAll | store-rating-app/backend/src/services/stores.service.js:21-49 | The listing holds every store passing the name and address filters exactly once, with exact aggregates, ordered by the chosen column and direction. With a viewer each row carries that viewer's own rating or null; without one there is no user_rating |
| ExpressStores.FindOne | store-rating-app/backend/src/services/stores.service.js:51-69 | An unknown id gives 404 "Store not found"; otherwise the store with its exact aggregates and, for a viewer, the viewer's rating or null |
| ExpressStores.GetOwnerDashboard | store-rating-app/backend/src/services/stores.service.js:71-99 | 404 exactly when no store has that owner. Otherwise the owner's store, its exact mean and count, and its raters (one per rating, as many as the count) newest first |
| NestStores.SortColumn | store-rating-app/backend/src/stores/stores.service.ts:34 | `sortBy` as given, `createdAt` when empty |
| NestStores.SortDirection | store-rating-app/backend/src/stores/stores.service.ts:35 | The given order, `DESC` when absent |
| NestStores.Create | store-rating-app/backend/src/stores/stores.service.ts:17-20 | The DTO's store is saved as given, with no owner-role check, exactly when the engine accepts it; a refusal gives 500 with no change |
| NestStores.Enrich | store-rating-app/backend/src/stores/stores.service.ts:42-61 | An enriched store carries the exact mean of its fetched ratings (0 for none), their count, and the viewer's rating or null |
| NestStores.FindAll | store-rating-app/backend/src/stores/stores.service.ts:22-66 | A sort by a store column never fails, holds each store passing the ILIKE filters exactly once and orders by that column (NULLs last ascending). Any other sort text is raw SQL: it fails with 500 exactly when PostgreSQL refuses it, and otherwise lists only filtered stores, each at most once, since a `LIMIT` or `OFFSET` in the text can drop rows. Every listed store carries exact aggregates and the viewer's rating or null |
| NestStores.FindOne | store-rating-app/backend/src/stores/stores.service.ts:68-89 | An id that is not uuid-shaped makes the query on the `uuid` column fail with 500; an absent uuid gives 404 "Store not found"; otherwise the store with exact aggregates and the viewer's rating or null |
| NestStores.GetOwnerDashboard | store-rating-app/backend/src/stores/stores.service.ts:91-118 | 404 exactly when the owner has no store. Otherwise the store, its exact mean, and one rater per rating; totalRatings equals the number of raters and the store's count |
| UserViews.DashboardStats | store-rating-app/backend/src/services/users.service.js:45-50 | The statistics are the three table sizes, and the rating total is the sum of every store's rating count |
| UserViews.TotalRatingsAddUp | store-rating-app/backend/src/config/db.js:88 | Since every rating references a stored store, the number of ratings is the sum of the stores' counts |
| ExpressUsers.SortColumn | store-rating-app/backend/src/services/users.service.js:15 | The sort column is always allowed: the requested one when allowed, `created_at` otherwise |
| ExpressUsers.SortDirection | store-rating-app/backend/src/services/users.service.js:16 | Ascending exactly when the order is `'ASC'` |
| ExpressUsers.FindAll | store-rating-app/backend/src/services/users.service.js:5-22 | The listing holds every user passing all given filters (case-insensitive LIKE, exact role) exactly once, sorted by the chosen column with NULLs lowest (first ascending, last descending), each projected without password and updated_at |
| ExpressUsers.FindOne | store-rating-app/backend/src/services/users.service.js:24-43 | An unknown id gives 404 "User not found". A user gets `store` exactly when they are a store owner who owns a store; that store's name, exact average and count are attached |
| ExpressUsers.GetDashboardStats | store-rating-app/backend/src/services/users.service.js:45-50 | The counts are exactly the sizes of the users, stores and ratings tables |
| NestUsers.SortColumn | store-rating-app/backend/src/users/users.service.ts:33 | `sortBy` as given, `createdAt` when empty |
| NestUsers.SortDirection | store-rating-app/backend/src/users/users.service.ts:34 | The given order, `DESC` when absent |
| NestUsers.RoleRankIsDeclarationOrder | store-rating-app/backend/src/users/user.entity.ts:11-15 | The rank the `role` column is ordered by follows the declaration order admin, user, store_owner |
| NestUsers.UserRoleSortsBeforeStoreOwner | store-rating-app/backend/src/users/user.entity.ts:34-35 | Ascending by role, a `user` row comes before a `store_owner` row and not after it, although "store_owner" precedes "user" as text |
| NestUsers.FindAll | store-rating-app/backend/src/users/users.service.ts:19-42 | A non-column sort or a role that is not an enum label fails with 500. Otherwise every user passing the case-sensitive filters appears once, sorted (NULLs last ascending, `role` by the enum's declaration order), projected to the six public columns |
| NestUsers.FindOne | store-rating-app/backend/src/users/users.service.ts:44-63 | An id that is not uuid-shaped makes the query fail with 500; an absent uuid gives 404 "User not found". A store owner who owns a store gets its id and the exact mean of its ratings; everyone else is returned alone |
| NestUsers.GetDashboardStats | store-rating-app/backend/src/users/users.service.ts:65-72 | The three repository counts are the table sizes |
| Accounts.AuthenticatesIff | store-rating-app/backend/src/services/auth.service.js:27-30 | With unique emails a sign-in is accepted exactly when the password compares equal to the hash of the one matching user |
| Accounts.LowerCasedEmailMatches | store-rating-app/backend/src/services/auth.service.js:21 | A user stored with the lower-cased email is found by that email typed in any ASCII case |
| Accounts.EmailTakenLower | store-rating-app/backend/src/services/auth.service.js:14-15 | Under NOCASE an email is taken exactly when its lower case is |
| Accounts.PasswordSetAuthenticates | store-rating-app/backend/src/services/auth.service.js:37-40 | After a password change the new password signs in with the user's email, and every other user is unchanged |
| Accounts.Seeded | store-rating-app/backend/src/services/auth.service.js:56-67 | Seeding changes no existing row and adds at most the admin row; it changes nothing when the admin email is taken |
| Accounts.SeededIdempotent | store-rating-app/backend/src/services/auth.service.js:56-58 | Once seeding has stored or found the admin, seeding again changes nothing |
| Accounts.SeededAdminAuthenticates | store-rating-app/backend/src/services/auth.service.js:60-65 | A freshly seeded admin signs in with `admin@platform.com` and `Admin@123` |
| ExpressAuth.InsertNewUser | store-rating-app/backend/src/services/auth.service.js:43-54 | An email taken under NOCASE, as typed, gives 409 and no insert. Otherwise the user with trimmed name and `toLowerCase` email is stored exactly when the engine accepts it (for an email whose lower case is its ASCII folding, exactly when the id is new), and returned without the password; a refusal gives 500 with no change |
| ExpressAuth.Register | store-rating-app/backend/src/services/auth.service.js:13-24 | As InsertNewUser, with the stored and returned role always `user` |
| ExpressAuth.CreateUser | store-rating-app/backend/src/services/auth.service.js:43-54 | As InsertNewUser, with the given role or `user` when it is empty |
| ExpressAuth.RegisteredUserSignsIn | store-rating-app/backend/src/services/auth.service.js:19-22 | The stored row has a trimmed name, an email without ASCII capitals and NULL exactly for an empty address. It signs in with any email NOCASE-equal to the stored one, and so, for an ASCII email, with the email typed in any case |
| ExpressAuth.AccentedCapitalLocksOut | store-rating-app/backend/src/services/auth.service.js:19-29 | An email registered as "É@x.com" is stored as "é@x.com", and signing in with "É@x.com" is refused, because NOCASE folds only ASCII |
| ExpressAuth.LowerCasedClashIsNotTaken | store-rating-app/backend/src/services/auth.service.js:13-22 | With "é@x.com" stored, "É@x.com" passes the 409 check, yet its lowered insert violates the UNIQUE email and fails with 500 |
| ExpressAuth.Login | store-rating-app/backend/src/services/auth.service.js:26-35 | Succeeds exactly when the credentials authenticate; every failure is 401 "Invalid email or password"; a session holds the claims and the public fields of the matched user |
| ExpressAuth.UpdatePassword | store-rating-app/backend/src/services/auth.service.js:37-41 | Only that user's hash and updated_at change, and success is reported |
| ExpressAuth.SeedAdmin | store-rating-app/backend/src/services/auth.service.js:56-67 | The users table becomes the seeded table; the call fails only when the admin is absent and the engine refuses its row |
| NestAuth.InsertNewUser | store-rating-app/backend/src/auth/auth.service.ts:52-61 | An exactly equal email gives 409 and no save. Otherwise the DTO's user is saved if the entity accepts it and returned without the password |
| NestAuth.Register | store-rating-app/backend/src/auth/auth.service.ts:21-30 | As InsertNewUser, with the role forced to `user` |
| NestAuth.CreateUser | store-rating-app/backend/src/auth/auth.service.ts:52-61 | As InsertNewUser, keeping the DTO's role, `user` when absent |
| NestAuth.Login | store-rating-app/backend/src/auth/auth.service.ts:32-44 | Succeeds exactly when the credentials authenticate; every failure is 401 "Invalid credentials"; the payload and user mirror the matched user |
| NestAuth.UpdatePassword | store-rating-app/backend/src/auth/auth.service.ts:46-50 | Only that user's hash and updated_at change |
| NestAuth.SeedAdmin | store-rating-app/backend/src/auth/auth.service.ts:63-78 | The admin is saved only when its email is absent, and existing rows never change |
| AccessGate.FirstField | store-rating-app/backend/src/middleware/auth.js:11 | The field is the longest space-free prefix |
| AccessGate.BearerTokenRoundTrip | store-rating-app/backend/src/middleware/auth.js:11 | The token read from `Bearer <t>` is `t` for any token without spaces |
| AccessGate.Authenticate | store-rating-app/backend/src/middleware/auth.js:4-27 | Admits exactly a Bearer header whose token verifies to the id of a stored user, and attaches that user. Otherwise "No token provided", "Token expired" (TokenExpiredError), "Invalid token" or "User not found" |
| AccessGate.AuthenticateRequest | store-rating-app/backend/src/middleware/auth.js:19-25 | `next()` exactly on admission, with `req.user` set; otherwise 401 with the decision's message and `req.user` untouched |
| AccessGate.Authorize | store-rating-app/backend/src/middleware/auth.js:29-35 | `next()` exactly when there is a user whose role is allowed; 401 without a user, 403 for another role |
| AccessGate.GatesAdmitStoredRole | store-rating-app/backend/src/middleware/auth.js:14-33 | Behind both gates a route is reached exactly by a verified token naming a stored user whose current stored role is allowed |
| PasswordPolicy.SpecialClassesAgree | store-rating-app/backend/src/validators/rules.js:3 | The two spellings of the special-character class list the same thirty characters |
| PasswordPolicy.RegexIsPolicy | store-rating-app/backend/src/validators/rules.js:3 | `PASSWORD_REGEX` matches exactly the strings of 8 to 16 characters, with no line terminator, at least one A-Z and at least one special character |
| PasswordPolicy.DtoAgreesWithRegex | store-rating-app/backend/src/auth/auth.dto.ts:29 | The Nest DTO accepts everything the regex accepts, and agrees with it on passwords without line terminators |
| PasswordPolicy.DtoAcceptsLineBreak | store-rating-app/backend/src/auth/auth.dto.ts:29 | `"Abcdefg!\n"` passes the DTO and fails the Express regex |
| PasswordPolicy.PageProblem | store-rating-app/frontend/src/pages/RegisterPage.jsx:12-17 | The first failing page check: length outside 8..16, else no upper-case letter, else no special character; none exactly when all three pass |
| PasswordPolicy.PagesAgreeWithRegex | store-rating-app/frontend/src/pages/ChangePassword.jsx:6-8 | Without line terminators the pages' checks accept exactly what the regex accepts; a line terminator always fails the regex |
| EmailShape.PatternIsShape | store-rating-app/frontend/src/utils/validators.js:7 | The pattern matches exactly the strings with no whitespace, one `@` not at the start, and a `.` strictly inside the domain part |
| EmailShape.PatternExamples | store-rating-app/frontend/src/utils/validators.js:7 | `a@b.co` matches; `a@b@c.de` does not |
| BackendRules.PasswordErrors | store-rating-app/backend/src/validators/rules.js:25-32 | No error exactly when the password meets the policy; a bad length reports both messages, since both validators run |
| BackendRules.RegisterPasses | store-rating-app/backend/src/validators/rules.js:55 | A registration body passes exactly when the trimmed name has 20 to 60 characters, the trimmed email is an email, the trimmed address, if any, has at most 400 characters, and the password meets the policy |
| BackendRules.CreateUserIsRegisterPlusRole | store-rating-app/backend/src/validators/rules.js:60 | createUser's errors are the registration errors followed by the role's; it passes exactly when registration passes and the role is absent or one of the three labels |
| BackendRules.SubmitRatingPasses | store-rating-app/backend/src/validators/rules.js:49-71 | A rating body passes exactly when the store id is a UUID and the value is a whole number in 1..5; a fractional value such as 2.5 is refused; a passing value is the integer the service receives |
| BackendRules.UpdatePasswordPasses | store-rating-app/backend/src/validators/rules.js:67 | A new password passes exactly when it meets the policy |
| ClientValidators.AcceptedIffPatterns | store-rating-app/frontend/src/utils/validators.js:5-9 | The form acceptance predicate is the conjunction of the four checks the validator's code performs |
| ClientValidators.ValidateRegister | store-rating-app/frontend/src/utils/validators.js:3-12 | Each field's error is present exactly when its check fails, carrying the line's message (the over-60 message wins). The object is empty exactly when the form is accepted |
| ClientValidators.ValidatePassword | store-rating-app/frontend/src/utils/validators.js:14-18 | null exactly for a password meeting the policy; otherwise the single message |
| ClientValidators.AcceptedFormPassesBackend | store-rating-app/frontend/src/utils/validators.js:3-12 | A form the frontend accepts passes the backend's registration rules, given the backend's email check accepts the email |
| ClientValidators.PaddedAddressOnlyRefusedByFrontend | store-rating-app/frontend/src/utils/validators.js:8 | 400 letters and a space are refused by the frontend's untrimmed check and accepted by the backend's trimmed one |
| RegisterPage.Validate | store-rating-app/frontend/src/pages/RegisterPage.jsx:6-19 | Each field's error is present exactly when its untrimmed check fails, carrying the line's message. The password carries only the first failing check's message. The object is empty exactly when the page submits |
| RegisterPage.NameAgreesWhenTrimmed | store-rating-app/frontend/src/pages/RegisterPage.jsx:8-9 | On names without surrounding whitespace the page's and the backend's name checks agree |
| RegisterPage.PaddedNameOnlyRefusedByBackend | store-rating-app/frontend/src/pages/RegisterPage.jsx:8-9 | Nineteen letters and a space pass the page and fail the backend |
| RegisterPage.AcceptedPasswordPassesBackend | store-rating-app/frontend/src/pages/RegisterPage.jsx:12-17 | A password the page accepts passes the backend exactly when it holds no line terminator |
| ChangePasswordPage.ValidatePassword | store-rating-app/frontend/src/pages/ChangePassword.jsx:5-10 | null exactly when all three checks pass; otherwise the length, upper-case or special-character message, in that priority |
| ChangePasswordPage.SentExactlyWhenBackendAccepts | store-rating-app/frontend/src/pages/ChangePassword.jsx:5-10 | Without line terminators the page sends exactly the passwords the backend's password-change rule accepts; the backend refuses any with a line terminator |
| AdminDashboardPage.ValidateForm | store-rating-app/frontend/src/pages/AdminDashboard.jsx:9-19 | Each field's error is present exactly when its check fails (an empty address passes), with the line's short message. The password carries the first failing check's message. Empty exactly when the form is accepted |
| AdminDashboardPage.NewControl | store-rating-app/frontend/src/pages/AdminDashboard.jsx:30-31 | The dashboard's sort state starts at `createdAt`, `DESC` |
| SortState.Toggle | store-rating-app/frontend/src/hooks/useSortFilter.js:10 | The toggled order is ASC or DESC, and DESC exactly when it was ASC |
| SortState.Next | store-rating-app/frontend/src/hooks/useSortFilter.js:7-16 | After a click the column is the clicked one. The order flips when the column was already current and becomes ASC on a new column; it is always ASC or DESC |
| SortState.SameColumnTwiceRestores | store-rating-app/frontend/src/hooks/useSortFilter.js:9-11 | Two clicks on the current column restore the state |
| SortState.NewColumnTwiceDescends | store-rating-app/frontend/src/hooks/useSortFilter.js:13-14 | Two clicks on a new column sort it descending |
| SortState.ClicksEndOnLastColumn | store-rating-app/frontend/src/hooks/useSortFilter.js:7-16 | After any non-empty click sequence, the column is the last one clicked and the order is ASC or DESC |
| SortState.RepeatedClicksAlternate | store-rating-app/frontend/src/hooks/useSortFilter.js:9-11 | k clicks on the current column keep the order for even k and flip it for odd k |
| SortState.SortControl.constructor | store-rating-app/frontend/src/hooks/useSortFilter.js:3-5 | The hook starts at the given column and order |
| SortState.SortControl.Default | store-rating-app/frontend/src/hooks/useSortFilter.js:3 | Without arguments the hook starts at `name`, `ASC` |
| SortState.SortControl.HandleSort | store-rating-app/frontend/src/hooks/useSortFilter.js:7-16 | The new state is the click transition of the old one |
| ClientSort.Multiplier | store-rating-app/frontend/src/pages/owner/OwnerDashboard.jsx:28 | +1 exactly for `'ASC'`, -1 otherwise |
| ClientSort.CompareIsKeyOrder | store-rating-app/frontend/src/pages/owner/OwnerDashboard.jsx:26-31 | On two rows of the same kind, the comparator is non-positive exactly when the key order in that direction puts the first row first (numbers by value, text by code points) |
| ClientSort.SortedCopy | store-rating-app/frontend/src/pages/owner/OwnerDashboard.jsx:26-31 | A fresh array leaves the fetched one untouched and holds the same raters. When the field has one kind, no row is after a later one by the comparator |
| ClientSort.ExpressRowsSameKind | store-rating-app/backend/src/services/stores.service.js:85-91 | Every column of the Express raters holds one kind of value, so the dashboard sort is consistent |
| ClientSort.NestRowsSameKind | store-rating-app/backend/src/stores/stores.service.ts:104-110 | Every column of the Nest raters holds one kind of value |
| OwnerDashboardPage.SortedRaters | store-rating-app/frontend/src/pages/owner/OwnerDashboard.jsx:26-31 | An absent list gives an empty copy. Otherwise a fresh copy with the same raters, ordered by the comparator with missing values read as `''` |
| OwnerDashboardPage.NewControl | store-rating-app/frontend/src/pages/owner/OwnerDashboard.jsx:13 | The sort state starts at `rated_at`, `DESC` |
| StoreOwnerDashboardPage.SortedRaters | store-rating-app/frontend/src/pages/StoreOwnerDashboard.jsx:25-30 | Absent exactly when the raters are absent. Otherwise a fresh sorted copy with the same raters, values compared as `String(v)` |
| StoreOwnerDashboardPage.NewControl | store-rating-app/frontend/src/pages/StoreOwnerDashboard.jsx:10-11 | The sort state starts at `ratedAt`, `DESC` |
| Text.Trim | store-rating-app/backend/src/validators/rules.js:7 | The trimmed text is the slice of the input with only whitespace before and after it, and it neither starts nor ends with whitespace |
| Text.TrimIdempotent | store-rating-app/backend/src/services/auth.service.js:21 | A trimmed name trims to itself |
| Text.ContainsIff | store-rating-app/backend/src/services/users.service.js:9-11 | `LIKE '%x%'` containment holds exactly when `x` occurs at some index |
| Text.LexCmp | store-rating-app/frontend/src/pages/owner/OwnerDashboard.jsx:30 | The three-way text comparison is 0 exactly on equal strings, and its sign follows code-point order |
| Ordering.SortRows | store-rating-app/backend/src/services/users.service.js:19 | `ORDER BY` returns a permutation of its rows in which every row comes before every later one in the key order |

## Left out

- Hashing, hash comparison, token signing and token verification (bcrypt, jsonwebtoken) are parameters with no assumed properties. So are `isEmail`, `isUUID`, PostgreSQL's check of uuid input, uuid generation and the clock.
- JavaScript's `toLowerCase` is the parameter `lowerCase`. The model knows two of its properties (`Text.LowersLikeJavaScript`): it folds ASCII text exactly as ASCII, and it leaves no ASCII capital. Which non-ASCII letters it lowers is not modelled.
- `normalizeEmail` and `trim` in the express-validator chains also rewrite the request body; the services are modelled on the values they receive.
- Averages are exact rationals. `toFixed(2)`/`parseFloat` rounding and every floating-point display is not modelled.
- ExpressStores.GetOwnerDashboard, NestStores.FindAll, NestStores.FindOne, NestStores.GetOwnerDashboard, NestUsers.FindOne: the average is stated exactly, without the two-decimal rounding `parseFloat(x.toFixed(2))` these services apply. (ExpressStores.FindAll, ExpressStores.FindOne and ExpressUsers.FindOne return SQLite's `AVG` unrounded, as modelled.)
- `%` and `_` in a LIKE filter act as wildcards in the source. The model treats filter text literally as a substring, and it models the case folding of LIKE, NOCASE and ILIKE as ASCII-only.
- Ordering.SortRows: the order of rows with equal keys is left unspecified, as `ORDER BY` leaves it.
- Text.LexCmp: `localeCompare` is modelled as code-point order, not the locale's collation.
- NestStores.FindAll: a sort text that is not a column name (a relation path such as `owner`, a name in another case such as `Name`, a raw list such as `name, store.email`, or SQL such as `name LIMIT 0 --`) is pasted unescaped into ORDER BY and runs as SQL. Whether it runs is the parameter `orderRuns` and the rows it returns are the parameter `rawRows`; the model promises only that the listing draws on the filtered stores, each at most once, and states no order. A text that runs a second statement (`name; UPDATE users SET role='admin' --`, possible when no filter adds a parameter and the driver sends the query unprepared) writes to the database and may return rows that are not stores: those writes and rows are not modelled, and the method is modelled as changing nothing.
- NestStores.FindAll, NestUsers.FindAll: text columns are ordered by code point, which is PostgreSQL's order only under the "C" collation. The source sets no collation, so under a locale collation such as en_US.UTF-8 the database orders differently (for example "apple" before "Banana").
- A JSON body value is modelled as a number. A numeric string such as `"3"`, which express-validator's `isInt` also accepts, is not modelled.
- ClientSort.Compare: a string operand of a numeric subtraction becomes 0 when blank and NaN otherwise. A numeric string such as `"3"` would convert to a number in JavaScript; the model treats it as NaN, and no server sends one.
- OwnerDashboardPage.SortedRaters, StoreOwnerDashboardPage.SortedRaters, ClientSort.SortedCopy: the order is stated only when the sorted field holds one kind of value in every row. When numbers and text mix, the comparator is not a consistent order and `Array.prototype.sort` promises nothing. The engine's sort algorithm itself is modelled as a sort by the comparator's key.
- String lengths are counted in code points, not UTF-16 units; whitespace follows JavaScript's `\s` and `trim()`.
- Integer columns are unbounded; the 32-bit range of PostgreSQL `int` is not modelled.
- ON DELETE CASCADE and ON DELETE SET NULL are not modelled, because no core operation deletes a row.
- Errors raised by the database engine are modelled as one internal error (500); their messages are not modelled.
- NestStores.SortDirection, NestUsers.SortDirection: `sortOrder` is typed `'ASC' | 'DESC'`, so other runtime strings are not modelled.
- Asynchronous execution (`async`/`await`, `Promise.all`) is modelled as sequential.
- React rendering, data fetching, toasts and navigation are not modelled; only the pages' validators, sort state and sorted copies are.
- `config/db.js` file persistence and the sql.js statement loop are not modelled; the schema it creates is the invariant of `Db.Database`.
