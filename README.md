# savvy-backend: ownership-scoped CRUD, modelled in Dafny

This project models the core of savvy-backend, a personal-finance API. Users
own spending records, and each record is filed under a category. A category is
either public (it has no owner) or belongs to one user. The model covers:

- **The generic repository** (`Repository`): one table per model class, keyed
  by primary key, with keys taken from an auto-increment counter. It has
  `save`, `get_all`, `get_by_id`, `delete_by_id`, `update_by_id`, `update`,
  `get_by_email` and `delete_by_email`, plus the reflective field patch
  `update_instance_fields`. The patch is proved against a specification
  function, `Patch`, that applies the data items in order.
- **The services**:
  - `CategoryService`: a quota of five categories per user, kept in the user's
    `categories_count`. Users see public categories and their own. Only the
    owner may delete a category.
  - `RecordService`: a record may only be filed under a category the user can
    see. Deletion is owner-only. A user's listing holds only their own records.
  - `UserService`: unique emails, and profile edits only on oneself.
  - Each service is a class over the shared tables. Its methods state the
    whole new state and the errors they raise.
- **The auth routes** (`AuthRouter`): the decisions of login and of the
  token refresh. Password verification and the token codec are uninterpreted
  functions.
- **The validators**:
  - The password regex, proved equal to a plain-words rule.
  - The length and value bounds of the request and response schemas.
- **The seeding scripts**:
  - `InitDb`: adds the 25 default public categories, only to an empty table.
  - `InitData`: gets or creates the admin user, then adds twenty random
    records within the script's bounds.

Errors are values: `Result<T>` is `Ok(value)` or `Err(error)`, where `error`
is one of `NotFound`, `Unauthorized`, `Forbidden`, `BadRequest`, `Invalid`,
`TypeFailure`, `IndexFailure` or `DatabaseFailure`, each carrying its detail
text. The details are the source's own, with two exceptions. An
UnauthorizedException raised without arguments carries "Unauthorized", the
detail the security tests expect (tests/v1/test_security/test_security_service.py:39-44).
A database error carries "Internal server error", the detail of the handler
for SQLAlchemy errors (app/core/exc.py:14-17).
Entities (`User`, `Category`, `Record`) are datatypes without an id; the key
under which a table stores them is their id. Timestamps are integers.

The files follow the program's layout:

- `common.dfy`
- `repository.dfy`
- `entities.dfy`
- `custom_types.dfy`
- `record_schemas.dfy`, `category_schemas.dfy`, `user_schemas.dfy`
- `category_service.dfy`, `record_service.dfy`, `user_service.dfy`
- `auth_router.dfy`
- `init_db.dfy`, `init_data.dfy`

## Model

| member | source | states |
|---|---|---|
| Repository.UpdateInstanceFields | app/repositories/base_repository.py:121-143 | dict or model data gives the instance with every item applied in order, each item written only when the model has the field and the value is not None (`Patch`); any other data is a TypeError naming its type |
| Repository.PatchKeepsUnwritten | app/repositories/base_repository.py:130-138 | for a model whose setattr touches only the named attribute, every attribute that no written item names keeps its old value |
| Repository.PatchWithoutWrites | app/repositories/base_repository.py:130-138 | data in which every item is None or names a missing field leaves the instance unchanged |
| Repository.PatchSkipsUnwritten | app/repositories/base_repository.py:132-133 | an item that is None or names a missing field can be dropped from the data without changing the result |
| Repository.Table.Save | app/repositories/base_repository.py:24-36 | the instance is stored under a fresh key, which is returned with it; all other rows stay as they were |
| Repository.Table.GetAll | app/repositories/base_repository.py:38-53 | exactly the stored rows the statement's filter selects, with their stored values |
| Repository.Table.GetById | app/repositories/base_repository.py:55-66 | the row stored under the key, and None exactly when the key is absent |
| Repository.Table.DeleteById | app/repositories/base_repository.py:68-83 | an absent key gives None and no change; a present key removes exactly that row and returns it |
| Repository.Table.Update | app/repositories/base_repository.py:104-119 | the stored row is replaced by its patch and returned; a TypeError leaves the table unchanged |
| Repository.Table.UpdateById | app/repositories/base_repository.py:85-102 | an absent key gives None with no change; otherwise it behaves as `update` on the found row |
| Repository.Table.GetByEmail | app/repositories/base_repository.py:158-173 | None exactly when no row has the email; otherwise a stored row with that email, under its key |
| Repository.Table.DeleteByEmail | app/repositories/base_repository.py:175-189 | None and no change when no row has the email; otherwise exactly one such row is removed and returned |
| Entities.UserSchemaLawful | app/models/user.py:11-31 | assigning one user attribute (the password through the hashing hook) never changes another |
| Entities.PatchNameOnly | app/schemas/user_schemas.py:37-38 | patching a user with the name-only data of `UserUpdate` changes the name and nothing else |
| CustomTypes.ValidatePassword | app/schemas/custom_types.py:20-27 | accepts exactly the strong passwords and returns them unchanged; otherwise the ValueError with the source's message |
| CustomTypes.PatternIsStrongPassword | app/schemas/custom_types.py:21-22 | the regex under `re.match` matches exactly when, apart from one optional final newline, the password is one line of at least 8 characters holding a digit, a lowercase and an uppercase ASCII letter |
| CustomTypes.LookaheadInBody | app/schemas/custom_types.py:21 | on a one-line body, a `(?=.*X)` lookahead succeeds exactly when the body contains a character of class X |
| CustomTypes.LetterLookaheadRedundant | app/schemas/custom_types.py:21 | dropping the `[a-zA-Z]` lookahead does not change which passwords match |
| CustomTypes.AcceptedPasswordShape | app/schemas/custom_types.py:21-27 | every accepted password has at least 8 characters, a digit, a lowercase and an uppercase letter |
| CustomTypes.PasswordExamples | tests/v1/test_routes/test_user_routes.py:8-37 | "Pass" is refused and "Pass12345" is accepted unchanged |
| RecordSchemas.NewRecordIn | app/schemas/record_schemas.py:7-11 | a record request is accepted exactly when the amount is above 0 and the description has at most 30 characters, with the failing field's message otherwise |
| RecordSchemas.RecordInBoundaries | app/schemas/record_schemas.py:8-9 | amount 0 and a 31-character description are refused; amount 1 with 30 characters is accepted |
| RecordSchemas.ToRecordOut | app/schemas/record_schemas.py:20-24 | the response carries the record's id, amount, description and date, and no category |
| RecordSchemas.ToRecordWithCategoryOut | app/schemas/record_schemas.py:14-32 | the response embeds the category's id, name and optional description |
| CategorySchemas.CheckCategoryFields | app/schemas/category_schemas.py:4-12 | no error exactly when the name has 3 to 16 characters and a present description at most 50 |
| CategorySchemas.NewCategoryIn | app/schemas/category_schemas.py:10-12 | a category request is accepted exactly within the bounds; the description defaults to None |
| CategorySchemas.NewCategoryOut | app/schemas/category_schemas.py:4-7 | the category response applies the same bounds as the request |
| CategorySchemas.CategoryInBoundaries | app/schemas/category_schemas.py:11-12 | names of 2 and 17 characters are refused and names of 3 and 16 accepted; a 51-character description is refused |
| UserSchemas.UserUpdate.AsData | app/schemas/user_schemas.py:37-38 | iterating a `UserUpdate` yields only the name |
| UserSchemas.NewUserIn | app/schemas/user_schemas.py:9-25 | a registration is accepted exactly when the name has at most 20 characters and the password is strong; a bad password reports the password message |
| UserSchemas.NewUserUpdate | app/schemas/user_schemas.py:37-38 | an update is accepted exactly when the name has at most 20 characters |
| UserSchemas.ToUserOut | app/schemas/user_schemas.py:28-34 | the response copies id, name, email, timestamps and counter from the user |
| UserSchemas.UserOutHidesPassword | app/schemas/user_schemas.py:28-34 | the response is the same whatever the stored password is |
| UserSchemas.UserInExamples | tests/v1/test_routes/test_user_routes.py:8-37 | the registration with password "Pass" is refused with the password message, and the one with "Pass12345" accepted |
| CategoryService.CreateKeepsCounters | app/services/category_service.py:19-26 | when every counter equals the number of categories its user owns, a create under the quota keeps it so |
| CategoryService.DeleteKeepsCounters | app/services/category_service.py:41-48 | when every counter equals the number of categories its user owns, deleting one's own category keeps it so |
| CategoryService.CategoryService.CreateCategory | app/services/category_service.py:17-27 | at the quota: Forbidden "Max categories reached" and nothing changes; otherwise the counter goes up by one, exactly one category owned by the user is inserted under the next key, and counters stay equal to owned counts |
| CategoryService.CategoryService.GetCategories | app/services/category_service.py:29-39 | exactly the categories that are public or the user's own |
| CategoryService.CategoryService.ValidateCategory | app/services/category_service.py:50-57 | the category when it exists and the user owns it; otherwise NotFound, so a public category never qualifies |
| CategoryService.CategoryService.DeleteCategory | app/services/category_service.py:41-48 | a missing or not-own category is NotFound with no change; one a record is filed under is refused by the foreign key on `records.category_id` (app/models/record.py:17) with a database error and no change; otherwise exactly that category is removed and the counter goes down by one. Counters stay equal to owned counts, and every record's category still exists |
| CategoryService.RemoveUnreferencedKeepsResolve | app/models/record.py:17 | removing a category no record is filed under keeps every record's category in the table |
| CategoryService.SixthCategoryForbidden | tests/v1/test_services/test_category_service.py:30-40 | after five creates, the sixth is Forbidden "Max categories reached" |
| CategoryService.DeleteTwiceNotFound | tests/v1/test_services/test_category_service.py:43-60 | a create then delete brings the counter back to 0, and a second delete is NotFound |
| CategoryService.FiledCategoryKept | app/services/category_service.py:41-48 | deleting one's category that a record is filed under is a database error; the category stays and the counter is still 1 |
| RecordService.ApplySortingIfValid | app/services/record_service.py:62-67 | the caller's statement is unchanged, because the ordered statement only rebinds the parameter |
| RecordService.RecordService.ValidateCategory | app/services/record_service.py:52-60 | the category when it exists and is public or the user's own; otherwise NotFound |
| RecordService.RecordService.CreateRecord | app/services/record_service.py:20-26 | an invisible or missing category is NotFound with no change; otherwise one record is inserted under the next key, owned by the user, with the request's fields, and returned with its category; every record's category still exists |
| RecordService.RecordService.DeleteRecord | app/services/record_service.py:28-38 | absent: NotFound "Record not found"; another user's: Unauthorized with the record kept; own: exactly that record is removed and returned, with the key counter unchanged; every record's category still exists |
| RecordService.RecordService.RunQuery | app/services/record_service.py:41-45 | the listing statement selects exactly the user's records, each joined with the category it is filed under |
| RecordService.RecordService.GetUserRecords | app/services/record_service.py:40-50 | exactly the user's records, each with its category |
| RecordService.RecordService.SortIgnored | app/services/record_service.py:46-47 | the listing is the same for every `sort` value |
| RecordService.ForeignDeleteRefused | tests/v1/test_services/test_record_service.py:34-100 | deleting another user's record is Unauthorized; its owner can then delete it and no longer lists it |
| UserService.NewUser | app/services/user_service.py:14-15 | a new user takes the request's name and email, the hash of the password, the default timestamps and a zero counter |
| UserService.InsertKeepsEmailsUnique | app/services/user_service.py:17-21 | inserting a user whose email is not taken keeps emails unique |
| UserService.UserService.EmailInUse | app/services/user_service.py:37-47 | true exactly when some stored user has the email |
| UserService.UserService.CreateUser | app/services/user_service.py:14-22 | a taken email is BadRequest "Email already in use" with no change; otherwise exactly one user is inserted under the next key and returned with it; unique emails are preserved |
| UserService.UserService.UpdateUser | app/services/user_service.py:24-35 | another user's id is Unauthorized "You cannot update this user" with no change; otherwise only the current user's name changes |
| UserService.DuplicateEmailRefused | tests/v1/test_services/test_user_service.py:27-47 | registering the same email twice: the second attempt is BadRequest |
| AuthRouter.LoginUser | app/routers/v1/auth_router.py:15-38 | no user with the email: Unauthorized; for that user, a verifier answering true gives tokens made for the user's id with type "Bearer", answering false gives Unauthorized, and raising propagates its error |
| AuthRouter.RefreshToken | app/routers/v1/auth_router.py:41-67 | a verification error propagates; a type other than "refresh" is "Invalid token type"; a subject with no user is "Invalid user"; otherwise a new "Bearer" pair for the subject |
| AuthRouter.LoginTokensRefresh | app/routers/v1/auth_router.py:28-67 | with a codec that reads back what it encoded, the refresh token a login issues buys a pair for the same user id while that user exists, and the access token is refused as the wrong type |
| AuthRouter.LoginScenario | tests/v1/test_routes/test_token_routes.py:6-36 | a registered user gets tokens with the right password and Unauthorized with a wrong one, for a verifier that answers false on the wrong one |
| AuthRouter.LoginMismatchRaises | app/core/sec.py:32-34 | with argon2's verifier, which raises on a mismatch, the login with a wrong password ends in that error, not in Unauthorized |
| InitDb.SeedPrefix | app/cmd/init_db.py:122-126 | the first n default categories take exactly the n keys from the starting key, in list order |
| InitDb.AddDefaultCategories | app/cmd/init_db.py:15-127 | on an empty table the default categories are inserted in order under the next 25 keys; on any other table nothing changes |
| InitDb.SeedAddsTwentyFive | app/cmd/init_db.py:16-127 | seeding an empty table adds exactly 25 categories, all public |
| InitDb.SeedSkipsNonEmpty | app/cmd/init_db.py:119-122 | when any category exists, seeding changes nothing |
| InitDb.SeedIdempotent | app/cmd/init_db.py:119-127 | seeding twice gives the same table as seeding once |
| InitDb.DefaultNamesDistinct | app/cmd/init_db.py:16-117 | the 25 default names are pairwise distinct |
| InitDb.DefaultsExceedInputBounds | app/cmd/init_db.py:97-112 | "Business Expenses" and "Alcohol & Tobacco" are longer than a user-created category's name may be, so they are refused even without a description; every default description but two is longer than 50 characters |
| InitData.CreateAdminUser | app/cmd/init_data.py:26-42 | a stored user with "admin@admin.org" is returned with no insert; otherwise exactly one user "Admin" with that email and the hashed password is inserted and returned |
| InitData.RandomLetters | app/cmd/init_data.py:52-55 | a string of the requested length made only of ASCII letters |
| InitData.AddAdminRecords | app/cmd/init_data.py:46-63 | with no category: IndexError and nothing added; otherwise exactly 20 records under the next 20 keys, each owned by the admin, with an amount in 1..1000, 10 to 30 letters and an existing category; earlier records unchanged |
| InitData.AdminRecordIsValidInput | app/cmd/init_data.py:50-62 | every generated record passes the record request bounds |
| InitData.AdminSeededOnce | app/cmd/init_data.py:32-42 | running the admin get-or-create twice inserts one user and returns it both times |

## Left out

- Async sessions, commits and refreshes are not modelled. The store is sequential, so the race between concurrent creates on `categories_count` is not modelled.
- Password hashing (argon2), password verification and the JWT codec are uninterpreted functions. The JWT methods in the security service have no bodies to model.
- The exception classes the services raise are not part of this model; each becomes an `Error` constructor with its detail.
- The verifier may answer true or false, or raise. argon2's `verify` never answers false: a wrong password raises, so the source's login never reaches its UnauthorizedException for a wrong password. The tests expect a verifier that answers false; `AuthRouter.LoginScenario` assumes one, and `AuthRouter.LoginMismatchRaises` shows the raising case.
- The authenticated-user dependencies (`get_current_user`, `get_db_user`) are not part of this model. Their source is not available. The services take the acting user's key instead.
- `UserService.delete_user` is not modelled. It is called by the user router but not defined in the user service.
- Timestamps are integers. The `updated_at` refresh from the wall clock (app/utils/functions.py) is not part of this model. The `created_at`/`updated_at` column default is one value fixed at import, passed in as a parameter.
- `categories_count` is not a column of the user table. It is modelled as a user field that starts at 0, which is what the category service and its tests use.
- `delete_instance`, called by the category service's delete, does not exist in the base repository. The model removes the category by its key, which is the evident intent.
- `Category.user_id` is typed as an optional string. It is modelled as an optional user key.
- The category name's lower bound is declared as the string '3'. It is modelled as the number 3.
- Repository.UpdateInstanceFields: the primary key is not a patchable attribute, because rows are keyed by it. An assignment of a value of the wrong type is a no-op in the model; in Python it stores the value and the database rejects it on commit. The model's `hasattr` holds only for the column attributes. In Python it also holds for methods such as `verify_password` and for SQLAlchemy internals (`metadata`, `_sa_instance_state`), which a dict patch would overwrite. The `log.exception` call before the TypeError is not modelled.
- RecordService.RecordService.GetUserRecords: results are maps keyed by id, so the order of a listing is not represented. That includes the order `get_all` returns and the newest-first ordering that the sort helper builds and discards.
- CustomTypes.ValidatePassword: `\d` is modelled as the ASCII digits 0-9. Python's `\d` on `str` also matches other Unicode decimal digits.
- UserSchemas.NewUserIn: `EmailStr` is not modelled: neither its syntax check nor the normalisation it returns (surrounding whitespace and a `Name <addr>` wrapper removed, the domain lower-cased). The model keeps the email as given, so "bob@Gmail.COM" and "bob@gmail.com" are two emails to `UserService.UserService.EmailInUse`, where the source finds the second taken after the first registers. Only the first failing field is reported, where pydantic reports all failing fields. `RecordSchemas.NewRecordIn` and `CategorySchemas.CheckCategoryFields` do the same.
- RecordSchemas.NewRecordIn: the strict-integer rule on `amount` is a matter of the input's type. The model's amount is already an integer.
- CategoryService.CategoryService.DeleteCategory: the foreign-key refusal undoes the whole transaction, so the counter's decrement is undone with it. The other foreign keys (`records.user_id`, `categories.user_id`) are not checked here; see the line on `Repository.Table.DeleteById`.
- AuthRouter.LoginUser: it requires that emails be unique, as the unique index on `users.email` guarantees. Without that requirement the model's lookup may pick any user with the email.
- Repository.Table.DeleteById: a table's delete does not check the foreign keys other tables hold on it. In PostgreSQL, deleting through `delete_by_id` a category a record is filed under (app/models/record.py:17), or a user who owns a category or a record, is refused. The only model operation that deletes a category, `CategoryService.CategoryService.DeleteCategory`, does check the foreign key on records.
- Repository.Table.DeleteByEmail: `delete_by_email` exists only on the user repository, and PostgreSQL refuses to delete a user who owns a category or a record (app/models/category.py:15, app/models/record.py:14). The model removes the row regardless.
- Repository.Table.GetByEmail: the optional `stmt` argument, which replaces the email filter when given, is not modelled; no caller passes it.
- AuthRouter.LoginTokensRefresh: token expiry and the clock are not modelled. The real token makers stamp an expiry (app/core/sec.py:7-8), so a refresh issues a different pair from the login's, and a refresh token stops working once it expires. In the model a token is a function of the user id alone.
- AuthRouter.RefreshToken: a missing `type` or `sub` claim, a KeyError in Python, is folded into the codec's error result.
- InitData.AddAdminRecords: the twenty records share one timestamp, `now`. The script reads the clock once per record.
- The HTTP layer is not modelled: routers other than auth, status codes and response-model serialisation.
