# Record shop and startups API: a verified model of the handler logic

The repository is a course of Express lessons. Two applications grow across the lessons:

- **The startups API.** It filters an in-memory list of startups by query parameters
  (`/api?industry=…&country=…&continent=…&is_seeking_funding=…&has_mvp=…`). It also filters by one
  whitelisted path field (`/api/:field/:term`).
- **A vinyl record shop on SQLite.** It has a `products` catalogue with genre and search filters,
  sign-up, login and logout with a session cookie, a `/me` endpoint, and a per-user shopping cart
  kept in the `cart_items` table.

This project models what those handlers decide and what they write:

- the status codes, messages and JSON bodies they send;
- the rows they insert, update and delete;
- the session user they assign.

Properties of the model are proved with Dafny. The modules are listed below.

| module | models |
|---|---|
| `Wrappers` | `Option`: a missing request field, SQL `NULL`, a `.get` that found nothing |
| `Seqs` | the two driver primitives: `.get` (`FirstIndex`, the first matching row) and a `WHERE` filter (`Keep`, every matching row in order) |
| `JsStrings` | `String.prototype.trim` with ECMAScript's whitespace set, and ASCII `toLowerCase` |
| `JsNumbers` | `parseInt` (section 19.2.5 of ECMA-262), including NaN, signs, trailing text and the `0x` prefix; the decimal rendering of an integer |
| `Http` | JSON values, `Response(status, body)`, the `{ error }` and `{ message }` replies, the truthiness of a request field, and the session with its `user` |
| `Cart` | the `cart_items` table as a class whose methods are `addToCart`, `deleteItem` and `deleteAll`; `getCartCount` and `getAll` as functions; lesson-16 and lesson-20 variants |
| `Auth` | the sign-up validation pipeline (lessons 5, 6, 10 and 15), the `users` table with its conflict lookup and insert, `loginUser` and `logoutUser` |
| `Me` | `getCurrentUser` |
| `Startups` | the `/api` filter chain and the `/api/:field/:term` whitelist filter (lessons 8, 10, 12 and 13) |
| `Products` | the SQL text and parameter list that `getProducts` builds (lessons 15 and 16), its reply, and `getGenres` |

Conventions used throughout:

- **Tables.** A table is a sequence of rows in rowid order plus its AUTOINCREMENT counter.
- **Session user.** It is `Option<SessionUser>`.
- **Foreign functions.** `bcrypt.hash`, `bcrypt.compare` and `validator.isEmail` are function
  parameters with no interpretation.
- **Faults.** A boolean `fault` means that the first database statement inside the handler's
  `try` throws. The model then gives the handler's `catch` reply and no write.
- **Session destroy.** `destroyFails` is the outcome of `req.session.destroy`.

- **Lookup with OR.** `SELECT * FROM users WHERE email = ? OR username = ?` runs over the two
  UNIQUE indexes, one term after the other. Its first row is therefore the one holding the email
  when there is one. A sign-up that collides on email with one user and on username with another
  gets the email error (`Auth.EmailErrorWhileUsernameTaken`).

## Model

| member | source | states |
|---|---|---|
| `Seqs.FirstIndex` | 16-authentication/20-protecting-cart-routes/src/controllers/cart.controller.ts:21-27 | `.get` finds the first row satisfying the condition; none only when no row does |
| `Seqs.Keep` | 16-authentication/20-protecting-cart-routes/src/controllers/cart.controller.ts:155 | every row kept satisfies the condition and every row that satisfies it is kept; all rows are kept when all satisfy it |
| `Seqs.KeepCounts` | 16-authentication/20-protecting-cart-routes/src/controllers/cart.controller.ts:155 | a filter keeps each satisfying value as many times as it occurs, and drops every other value |
| `Seqs.KeepIsSubsequence` | 13-route-not-found/src/controller/getAllData.ts:9-29 | a filter's result is an order-preserving subsequence of its input |
| `Seqs.KeepKeep` | 13-route-not-found/src/controller/getAllData.ts:11-21 | two filters in a row equal one filter on the conjunction |
| `JsStrings.JsTrim` | 16-authentication/15-the-cart-count/src/controllers/auth.controller.ts:14-16 | the trimmed text has no whitespace at either end; an all-whitespace text trims to empty |
| `JsStrings.JsTrimSlice` | 16-authentication/15-the-cart-count/src/controllers/auth.controller.ts:14-16 | the trimmed text is a contiguous part of the input, and everything cut before and after it is whitespace |
| `JsStrings.JsTrimIdempotent` | 16-authentication/15-the-cart-count/src/controllers/auth.controller.ts:14-16 | trimming twice is trimming once |
| `JsStrings.ToLower` | 16-authentication/15-the-cart-count/src/controllers/auth.controller.ts:15 | same length, each character lower-cased |
| `JsStrings.ToLowerIdempotent` | 16-authentication/15-the-cart-count/src/controllers/auth.controller.ts:15 | lower-casing twice is lower-casing once |
| `JsStrings.JsTrimToLower` | 16-authentication/15-the-cart-count/src/controllers/auth.controller.ts:15 | `trim` and `toLowerCase` commute |
| `JsNumbers.ParseIntOfIntToString` | 16-authentication/20-protecting-cart-routes/src/controllers/cart.controller.ts:8 | an integer written in decimal, after any whitespace and before anything that does not continue it, parses back to itself |
| `JsNumbers.DecimalValue` | 16-authentication/20-protecting-cart-routes/src/controllers/cart.controller.ts:157 | the decimal digits of `m` denote `m` |
| `JsNumbers.LeadingWhiteSpaceIgnored` | 16-authentication/20-protecting-cart-routes/src/controllers/cart.controller.ts:8 | leading whitespace does not change what `parseInt` reads |
| `JsNumbers.TrailingTextIgnored` | 16-authentication/20-protecting-cart-routes/src/controllers/cart.controller.ts:8-18 | `"7abc"` is accepted as product id 7 |
| `JsNumbers.NaNOfEmpty` | 16-authentication/20-protecting-cart-routes/src/controllers/cart.controller.ts:8-18 | the empty text is NaN, so it gets "Invalid product id" |
| `JsNumbers.NaNOfLetters` | 16-authentication/20-protecting-cart-routes/src/controllers/cart.controller.ts:111-121 | letters are NaN in radix 10 |
| `JsNumbers.NaNOfNoDigits` | 16-authentication/20-protecting-cart-routes/src/controllers/cart.controller.ts:8-18 | an unsigned part without digits is NaN in every radix |
| `JsNumbers.NaNOfSignedEmpty` | 16-authentication/20-protecting-cart-routes/src/controllers/cart.controller.ts:8-18 | `-` followed by nothing is NaN in every valid radix |
| `JsNumbers.NaNOfSignOnly` | 16-authentication/20-protecting-cart-routes/src/controllers/cart.controller.ts:8-18 | a sign without digits is NaN |
| `JsNumbers.HexPrefixRead` | 16-authentication/20-protecting-cart-routes/src/controllers/cart.controller.ts:8 | without a radix, `"0x1A"` is product id 26 |
| `JsNumbers.HexPrefixWithRadix10` | 16-authentication/20-protecting-cart-routes/src/controllers/cart.controller.ts:111 | with radix 10, `"0x1A"` is item id 0 |
| `JsNumbers.HexPrefixWithoutDigits` | 16-authentication/20-protecting-cart-routes/src/controllers/cart.controller.ts:8 | `"0x"` alone is NaN |
| `Cart.IncrementWhereId` | 16-authentication/20-protecting-cart-routes/src/controllers/cart.controller.ts:30-34 | exactly the rows with that id gain one unit; every other row and the length are unchanged |
| `Cart.FirstIndexOfPair` | 16-authentication/20-protecting-cart-routes/src/controllers/cart.controller.ts:21-27 | with one row per (user, product), the lookup finds that row |
| `Cart.AddedMerges` | 16-authentication/20-protecting-cart-routes/src/controllers/cart.controller.ts:21-34 | an existing row of the pair gains exactly 1, no row is added, every other row is unchanged |
| `Cart.AddedInserts` | 16-authentication/20-protecting-cart-routes/src/controllers/cart.controller.ts:35-42 | without such a row, exactly `(user, product, 1)` is appended under the next id |
| `Cart.AddedLeavesOthers` | 16-authentication/20-protecting-cart-routes/src/controllers/cart.controller.ts:21-42 | rows of other users or other products are untouched; at most one row is added, and it belongs to the pair |
| `Cart.AddedKeepsInvariants` | 16-authentication/20-protecting-cart-routes/src/controllers/cart.controller.ts:21-42 | an add keeps ids unique, increasing and below the counter, quantities positive, and at most one row per (user, product) |
| `Cart.AddedCount` | 16-authentication/15-the-cart-count/src/controllers/cart.controller.ts:29-42 | an add raises the adding user's total by exactly 1 and nobody else's |
| `Cart.AddAllCount` | 16-authentication/15-the-cart-count/src/controllers/cart.controller.ts:29-42 | after n adds the user's total has grown by n, other users' totals are unchanged, and the table stays well formed |
| `Cart.CountFromEmptyCart` | 16-authentication/15-the-cart-count/src/controllers/cart.controller.ts:21-42 | starting from an empty cart, the count after n adds is n |
| `Cart.AddTwiceMerges` | 16-authentication/15-the-cart-count/src/controllers/cart.controller.ts:21-42 | adding a new product twice gives one row of quantity 2 |
| `Cart.SqlSum` | 16-authentication/20-protecting-cart-routes/src/controllers/cart.controller.ts:63-67 | SQL `SUM` is NULL exactly over no rows |
| `Cart.SqlSumOfOwned` | 16-authentication/20-protecting-cart-routes/src/controllers/cart.controller.ts:60-69 | `SUM(quantity) … ?? 0` is the user's total; NULL exactly when the user has no rows |
| `Cart.CountWithoutRows` | 16-authentication/20-protecting-cart-routes/src/controllers/cart.controller.ts:69 | a user without rows has count 0 |
| `Cart.GetCartCount` | 16-authentication/20-protecting-cart-routes/src/controllers/cart.controller.ts:51-78 | 401 without a session; 500 on fault; otherwise 200 `{ totalItems }` equal to the user's total quantity; the same code is in `16-authentication/15-the-cart-count/src/controllers/cart.controller.ts` at lines 66-93; the same code is in `16-authentication/16-cart-page-challenge-delete-item/src/controllers/cart.controller.ts` at lines 86-113 |
| `Cart.Joined` | 16-authentication/20-protecting-cart-routes/src/controllers/cart.controller.ts:89-99 | the k-th line is the k-th of the user's rows whose product exists, joined to that product: each such row once, in row order, and nothing else |
| `Cart.JoinedQuantity` | 16-authentication/20-protecting-cart-routes/src/controllers/cart.controller.ts:89-99 | the units listed never exceed the cart count, and equal it exactly when every product in the user's cart exists |
| `Cart.ItemsReplyLists` | 16-authentication/20-protecting-cart-routes/src/controllers/cart.controller.ts:101 | `{ items }` has one item per line, in order, with each field under its key |
| `Cart.GetAll` | 16-authentication/20-protecting-cart-routes/src/controllers/cart.controller.ts:80-106 | without a session, `{ err: "not logged in" }` with the default status 200; 500 on fault; otherwise `{ items }` listing the user's joined rows in order, each field under its key |
| `Cart.GetAllV20` | 16-authentication/20-protecting-cart-routes/src/controllers/cart.controller.ts:89-101 | every item carries its row id under `cartItemId`, as the declared item type says |
| `Cart.GetAllV16` | 16-authentication/16-cart-page-challenge-delete-item/src/controllers/cart.controller.ts:115-141 | the items list the user's joined rows with the row id under `id`, and no item has the `cartItemId` field its declared type promises |
| `Cart.ItemsLackCartItemId` | 16-authentication/16-cart-page-challenge-delete-item/src/controllers/cart.controller.ts:124-136 | with the row id under `id`, no item of the reply has a `cartItemId` field |
| `Cart.DeleteRemovesExactly` | 16-authentication/20-protecting-cart-routes/src/controllers/cart.controller.ts:137 | deleting by the found row's id removes exactly that row and keeps the order of the rest |
| `Cart.OtherUsersItemIsMissing` | 16-authentication/20-protecting-cart-routes/src/controllers/cart.controller.ts:124-135 | the id of another user's row is not found for this user |
| `Cart.DeleteItemCount` | 16-authentication/20-protecting-cart-routes/src/controllers/cart.controller.ts:137 | removing a row takes its quantity off its owner's count only |
| `Cart.DeleteAllOfUser` | 16-authentication/20-protecting-cart-routes/src/controllers/cart.controller.ts:155 | after deleting the user's rows that user has none; every other user's rows and count are unchanged |
| `Cart.KeepKeepsInvariants` | 16-authentication/20-protecting-cart-routes/src/controllers/cart.controller.ts:137-155 | deleting rows keeps the table well formed and one row per (user, product) |
| `Cart.CartItemsTable.constructor` | 16-authentication/20-protecting-cart-routes/src/database/schema/createTableCartItems.ts:8-15 | a fresh table is empty with the counter at 1 |
| `Cart.CartItemsTable.IncrementQuantity` | 16-authentication/20-protecting-cart-routes/src/controllers/cart.controller.ts:30-34 | the UPDATE raises the quantity of the rows with that id |
| `Cart.CartItemsTable.InsertRow` | 16-authentication/20-protecting-cart-routes/src/controllers/cart.controller.ts:36-41 | the INSERT appends `(user, product, 1)` under the next id |
| `Cart.CartItemsTable.DeleteWhereNot` | 16-authentication/20-protecting-cart-routes/src/controllers/cart.controller.ts:137 | the DELETE removes the rows matching its condition and keeps the order of the rest |
| `Cart.CartItemsTable.AddToCart` | 16-authentication/20-protecting-cart-routes/src/controllers/cart.controller.ts:5-49 | 401 without a session before the id check; 401 "Invalid product id" on NaN; 500 on fault (all with no write); otherwise merge-on-add and 200; keeps one row per (user, product); the same code is in `16-authentication/16-cart-page-challenge-delete-item/src/controllers/cart.controller.ts` at lines 5-49; the same code is in `16-authentication/15-the-cart-count/src/controllers/cart.controller.ts` at lines 5-49; the same code is in `16-authentication/14-adding-to-cart-table/src/controllers/cart.controller.ts` at lines 5-49 |
| `Cart.CartItemsTable.DeleteItem` | 16-authentication/20-protecting-cart-routes/src/controllers/cart.controller.ts:108-144 | 401 without a session or on a NaN id; 500 on fault; 404 and no write when no row has both that id and that owner; otherwise exactly that row goes and the reply is 204 with no body |
| `Cart.CartItemsTable.DeleteAll` | 16-authentication/20-protecting-cart-routes/src/controllers/cart.controller.ts:146-162 | 401 without a session; 500 on fault; otherwise exactly the user's rows go and the reply is 201, also for an empty cart |
| `Auth.ValidateSignUp` | 16-authentication/15-the-cart-count/src/controllers/auth.controller.ts:10-38 | required fields on the raw body, then the trimmed username against `^[a-zA-Z0-9_-]{1,20}$`, then `isEmail` on the trimmed lower-cased email, each with its own 400; accepted exactly when all pass, with the normalised record; the same code is in `16-authentication/10-display-username/src/controllers/auth.controller.ts` at lines 10-38; the same code is in `16-authentication/06-add-user-to-db/src/controllers/auth.controller.ts` at lines 9-34 |
| `Auth.AcceptedIsNormalised` | 16-authentication/15-the-cart-count/src/controllers/auth.controller.ts:14-38 | the stored record is already trimmed and lower-cased, passes both checks, and keeps the password as sent |
| `Auth.BlankUsernameRefused` | 16-authentication/15-the-cart-count/src/controllers/auth.controller.ts:10-23 | a username of spaces passes the required check but fails the pattern |
| `Auth.RegisterV05` | 16-authentication/05-validate-the-user/src/controllers/auth.controller.ts:6-37 | lesson 5 sends the failing check's 400 reply, with its message, and no reply at all when every check passes |
| `Auth.ConflictLookup` | 16-authentication/15-the-cart-count/src/controllers/auth.controller.ts:43-45 | `.get` finds no row exactly when no row shares the email or the username; the row found shares one of them, and it is the email's row whenever some row holds the email |
| `Auth.ConflictReply` | 16-authentication/15-the-cart-count/src/controllers/auth.controller.ts:43-55 | there is a conflict exactly when some row shares the email or the username, and the error is the email one or the username one; the same code is in `16-authentication/06-add-user-to-db/src/controllers/auth.controller.ts` at lines 39-51 |
| `Auth.EmailConflictReported` | 16-authentication/15-the-cart-count/src/controllers/auth.controller.ts:43-50 | when any row holds the email, the email error is given, whatever the username |
| `Auth.UsernameConflictReported` | 16-authentication/15-the-cart-count/src/controllers/auth.controller.ts:43-55 | when no row holds the email and some row holds the username, the username error is given |
| `Auth.EmailErrorWhileUsernameTaken` | 16-authentication/15-the-cart-count/src/controllers/auth.controller.ts:43-55 | a username held by an earlier user and an email held by a later one give the email error |
| `Auth.InsertKeepsUnique` | 16-authentication/14-adding-to-cart-table/src/database/schema/createTableUsers.ts:8-15 | an insert after a clean lookup keeps ids, emails and usernames unique |
| `Auth.ReadBackInserted` | 16-authentication/10-display-username/src/controllers/auth.controller.ts:67-76 | reading back by `lastInsertRowid` finds the row just inserted |
| `Auth.SecondRegistrationRefused` | 16-authentication/15-the-cart-count/src/controllers/auth.controller.ts:43-55 | once registered, the same email or username is refused |
| `Auth.UsersTable.constructor` | 16-authentication/14-adding-to-cart-table/src/database/schema/createTableUsers.ts:8-15 | a fresh users table is empty with the counter at 1 |
| `Auth.UsersTable.InsertUser` | 16-authentication/15-the-cart-count/src/controllers/auth.controller.ts:57-67 | the INSERT appends the record under the next id and returns that id |
| `Auth.UsersTable.RegisterV06` | 16-authentication/06-add-user-to-db/src/controllers/auth.controller.ts:6-67 | a refusal replies and writes nothing; 500 on fault; a conflict replies and writes nothing; otherwise one row is inserted with the password as sent, and the reply is 201 |
| `Auth.UsersTable.RegisterV10` | 16-authentication/10-display-username/src/controllers/auth.controller.ts:7-91 | as lesson 6 with the password hashed; on success `session.user` is the id, email and username of the row read back, and the reply is 201 |
| `Auth.UsersTable.RegisterV15` | 16-authentication/15-the-cart-count/src/controllers/auth.controller.ts:7-82 | as lesson 10, but `session.user = { id }` from `lastInsertRowid` and the reply is 201 "User registered" |
| `Auth.FirstWithUsernameUnique` | 16-authentication/15-the-cart-count/src/controllers/auth.controller.ts:118 | the first row with a username is unique, so `.get` determines one row |
| `Auth.Login` | 16-authentication/15-the-cart-count/src/controllers/auth.controller.ts:107-139 | 400 "All fields are required" on a missing field; 500 "Login failed. Please try again." on fault; access exactly when the first row with the trimmed username accepts the untrimmed password, the granted id being that row's; every other refusal is the 400 credentials message |
| `Auth.UnknownUserDenied` | 16-authentication/15-the-cart-count/src/controllers/auth.controller.ts:118-122 | a username no row holds is refused with the credentials message |
| `Auth.WrongPasswordDenied` | 16-authentication/15-the-cart-count/src/controllers/auth.controller.ts:124-128 | a password the first row with that username rejects is refused with the same message |
| `Auth.LoginIndistinguishable` | 16-authentication/15-the-cart-count/src/controllers/auth.controller.ts:118-128 | an unknown username and a wrong password get the identical 400 reply |
| `Auth.RegisterThenLogin` | 16-authentication/15-the-cart-count/src/controllers/auth.controller.ts:114-130 | a just-registered user logs in with the same username and password as the new row's id, given that `compare` accepts a password against its own hash |
| `Auth.LoginUser` | 16-authentication/15-the-cart-count/src/controllers/auth.controller.ts:107-139 | success sets `session.user = { id }` and replies 200 "Logged in"; every refusal leaves the session unchanged |
| `Auth.LogoutUser` | 16-authentication/15-the-cart-count/src/controllers/auth.controller.ts:141-151 | a failed destroy gives 500 and the session is unchanged; otherwise the session user is cleared, the `connect.sid` cookie is cleared and the reply is 200 "Logged out" |
| `Me.GetCurrentUser` | 16-authentication/20-protecting-cart-routes/src/controllers/me.controller.ts:5-27 | 500 when the query throws; `{ isLoggedIn: false }` with no session or id 0; 500 when no row has the id; otherwise `{ isLoggedIn: true, name }` of the first row with the id |
| `Me.CurrentUserName` | 16-authentication/20-protecting-cart-routes/src/controllers/me.controller.ts:20-22 | with unique ids, a logged-in user gets the name of their own row |
| `Me.GreetedAfterRegistration` | 16-authentication/20-protecting-cart-routes/src/controllers/me.controller.ts:16-22 | right after a registration, the new session user is reported as logged in under the name just stored |
| `Startups.StepExtends` | 13-route-not-found/src/controller/getAllData.ts:11-29 | each conditional filter turns the items that match the earlier filters into those that also match this one |
| `Startups.StepsKeepMatching` | 13-route-not-found/src/controller/getAllData.ts:9-29 | after n filter steps, exactly the items matching the first n filters are left |
| `Startups.FilterByQueryIsOneFilter` | 13-route-not-found/src/controller/getAllData.ts:9-29 | the chain of five filters is one filter on the conjunction of the parameters given |
| `Startups.FilterByQueryMeaning` | 13-route-not-found/src/controller/getAllData.ts:9-29 | the result is an order-preserving subsequence; every item satisfies every parameter given; no matching item is dropped; the same code is in `08-filtering-by-query-params/src/app.ts` at lines 19-39; the same code is in `10-add-path-parameters/src/app.ts` at lines 20-40 |
| `Startups.EmptyQueryKeepsAll` | 13-route-not-found/src/controller/getAllData.ts:9-31 | with no parameter given, or only empty ones, the whole list comes back in order |
| `Startups.GetAllData` | 13-route-not-found/src/controller/getAllData.ts:6-32 | status 200 with exactly the matching items, as a subsequence of the list; the same code is in `08-filtering-by-query-params/src/app.ts` at lines 17-42; the same code is in `10-add-path-parameters/src/app.ts` at lines 17-43 |
| `Startups.FlagValueTrue` | 13-route-not-found/src/controller/getAllData.ts:23-25 | any spelling of "true" parses to `true` |
| `Startups.FlagValueFalse` | 13-route-not-found/src/controller/getAllData.ts:27-29 | any spelling of "false" parses to `false` |
| `Startups.AllowedField` | 12-modularize-the-code/src/controller/getDataByPathParam.ts:8-14 | a field is allowed exactly when it is `country`, `continent` or `industry`, compared case-sensitively |
| `Startups.FilterByPath` | 12-modularize-the-code/src/controller/getDataByPathParam.ts:6-22 | 400 with the whitelist error exactly for other fields; otherwise 200 and the items whose field equals the term ignoring case, in order; the same code is in `10-add-path-parameters/src/app.ts` at lines 45-61 |
| `Startups.PathAgreesWithQuery` | 12-modularize-the-code/src/controller/getDataByPathParam.ts:16-19 | for an allowed field, the path filter and the query filter on that one parameter give the same reply |
| `Products.SearchPattern` | 16-authentication/16-cart-page-challenge-delete-item/src/controllers/products.controller.ts:36 | the pattern is the search text between two `%` |
| `Products.GenreClauseText` | 16-authentication/16-cart-page-challenge-delete-item/src/controllers/products.controller.ts:30 | the clause exactly as `getProducts` writes it at line 30 |
| `Products.SearchClauseText` | 16-authentication/16-cart-page-challenge-delete-item/src/controllers/products.controller.ts:35 | the clause exactly as `getProducts` writes it at line 35 |
| `Products.FragmentPlaceholders` | 16-authentication/16-cart-page-challenge-delete-item/src/controllers/products.controller.ts:23-35 | the base query has no placeholder, the genre clause one, each search clause three |
| `Products.PlaceholdersAppend` | 16-authentication/16-cart-page-challenge-delete-item/src/controllers/products.controller.ts:29-38 | appending a clause adds its placeholders |
| `Products.DoubleWhere` | 16-authentication/16-cart-page-challenge-delete-item/src/controllers/products.controller.ts:29-38 | with both filters the query holds a `WHERE` after the base and a second one after the genre clause |
| `Products.BuildProductsQuery` | 16-authentication/16-cart-page-challenge-delete-item/src/controllers/products.controller.ts:21-38 | placeholders equal parameters in every case; the exact query and parameters per case; with both filters, `[genre, p, p, p]` and two `WHERE`s |
| `Products.BuildProductsQueryFixed` | 16-authentication/16-cart-page-challenge-delete-item/src/controllers/products.controller.ts:21-38 | placeholders equal parameters; a query holds exactly one `WHERE`, right after the base, whenever a filter is given |
| `Products.BuildGenreQuery` | 15-building-fullstack-app/10-wire-up-the-dropdown/src/controllers/products.controller.ts:23-34 | `search` has no effect; only a genre adds " WHERE genre = ?" and its one parameter; placeholders equal parameters |
| `Products.ProductsReply` | 16-authentication/16-cart-page-challenge-delete-item/src/controllers/products.controller.ts:40-46 | 500 "Failed to fetch products" exactly when the query throws, otherwise 200 with the rows; the same code is in `15-building-fullstack-app/10-wire-up-the-dropdown/src/controllers/products.controller.ts` at lines 36-42 |
| `Products.SelectDistinct` | 16-authentication/16-cart-page-challenge-delete-item/src/controllers/products.controller.ts:10 | each genre of the column, NULL included, exactly once |
| `Products.GenreNames` | 16-authentication/16-cart-page-challenge-delete-item/src/controllers/products.controller.ts:12 | `row.genre` for each row, in row order and with the same length; the same code is in `15-building-fullstack-app/10-wire-up-the-dropdown/src/controllers/products.controller.ts` at lines 12 |
| `Products.GetGenres` | 16-authentication/16-cart-page-challenge-delete-item/src/controllers/products.controller.ts:6-19 | 500 "Failed to fetch genres" on fault, otherwise 200 with a JSON array; the same code is in `15-building-fullstack-app/10-wire-up-the-dropdown/src/controllers/products.controller.ts` at lines 6-21 |
| `Products.GenresListed` | 16-authentication/16-cart-page-challenge-delete-item/src/controllers/products.controller.ts:10-14 | the reply lists a genre exactly when the table has it, and each one once |

## Left out

- I/O: `console.log` and `console.error` are left out. `res` is modelled as the value a
  handler returns.
- Concurrency: the unguarded read-then-write of `addToCart` is not modelled, and handlers run one
  at a time.
- Express wiring is not part of this model: routers, `requireAuth`, CORS, the 404 route, static
  files and server start-up. Neither are the database set-up, seed and log scripts.
- `getDatabaseConnection` outside the `try` (the cart handlers, line 6): a failure to open the
  database before any reply is not modelled. `fault` stands for the first statement inside the
  `try` throwing.
- Where exactly inside a `try` a fault hits: a fault is taken to happen before the first write. A
  write followed by a throw, such as the session assignment after an insert, is not modelled.
- `Cart.CartItemsTable.AddToCart`: foreign-key enforcement on `cart_items` is not modelled. The
  `getDatabaseConnection` of the full-stack lessons turns on `PRAGMA foreign_keys` for every
  connection (`15-building-fullstack-app/11-add-search-functionality/src/database/init.database.ts:9`).
  The `database/schema/init.database.ts` that the cart lessons import is not part of this model.
  With the pragma on, an add whose product id has no `products` row makes the INSERT throw
  (`16-authentication/20-protecting-cart-routes/src/controllers/cart.controller.ts:36-41`), and
  the reply is 500 "Failed to add to cart". The model reaches that reply only through `fault`;
  without a fault it inserts the row and replies 200. A cart row whose product is missing, the
  case `Cart.JoinedQuantity` speaks about, arises only with the pragma off.
- `bcrypt.genSalt`, `bcrypt.hash`, `bcrypt.compare` and `validator.isEmail` are third-party code.
  They are parameters; only `Auth.RegisterThenLogin` assumes that `compare` accepts a password
  against its own hash.
- Request bodies and queries hold strings only: a non-string value (a number, an array, a
  repeated query key) is not modelled.
- `RETURNING id, email, username` on the registration insert is not modelled: `.run` discards the
  returned row, and the model reads `lastInsertRowid` only.
- The session store of `express-session` and its cookie are not modelled. The session is a `user`
  field, and the effect of `destroy` on the store is the `user` becoming absent.
- `Startups.FlagValue`: `JSON.parse` is modelled only on the declared values "true" and "false",
  in any case and with JSON whitespace. Every filter requires that the flags given are such text
  (`FlagsParse`), which leaves out every other text, and neither of its two outcomes is modelled.
  Text that is not JSON makes `JSON.parse` throw from the `filter` callback, but only when some
  item reaches that filter: with `?industry=zzz&is_seeking_funding=yes` no item does, and the
  reply is 200 `[]`. JSON that is not a boolean, such as "1", "null", "[]" or "\"true\"", parses
  to a value that no item's flag is `===` to, so that filter keeps no item.
- `JsStrings.ToLower`: case mapping covers ASCII letters only. `toLowerCase`, used by the text
  filters and by sign-up, maps all of Unicode. `toLocaleLowerCase`, used on the flags by
  `Startups.FlagValue`, also depends on the host locale, as with the Turkish dotted I.
- Prices are `REAL` in SQLite. They are carried through the join as `real` values, and
  floating-point behaviour is not modelled.
- Rows are read back in rowid order, except by the OR lookup of `Auth.ConflictLookup`.
  `SELECT DISTINCT` is modelled in the order of each value's first appearance, which SQLite does
  not promise.
- The rows returned by the product query are a parameter of `Products.ProductsReply`. The
  evaluation of `LIKE` and the driver's row objects are not modelled.
- `Products.BuildProductsQuery`: SQLite's refusal to prepare a statement with a second `WHERE` is
  stated through the two `WHERE` positions. No model of SQL syntax decides it.
- `Products.GetGenres`: its `ensures` says only that the reply is a 200 JSON array.
  `Products.GenresListed` and `Products.GenreNames` state what the array holds.
- `JsNumbers.ParseInt`: the result is an unbounded integer. JavaScript's `parseInt` returns a
  double, so a value above 2^53 may be rounded, and one of more than about 308 digits gives
  `Infinity`. `isNaN(Infinity)` is false, so `addToCart` would accept it; neither the rounding
  nor `Infinity` is modelled.
- `JsNumbers.ParseIntOfIntToString`: the round trip is proved for every integer of the model.
  In JavaScript it holds only for integers of magnitude at most 2^53, where doubles are exact.
- `Auth.ConflictLookup`: SQLite does not promise the row order of `email = ? OR username = ?`.
  The order is that of the plan with one index lookup per term, in the order written. A plan
  that scanned the table in rowid order would let the first conflicting row decide instead.
- `Auth.Login` and `Me.GetCurrentUser`: a query that throws is a `fault` input, not a failure
  located at a particular statement.

## Findings

| source | as written | input that shows it | evidently intended | confidence | as-written member | corrected member |
|---|---|---|---|---|---|---|
| 16-authentication/16-cart-page-challenge-delete-item/src/controllers/products.controller.ts:29-38 | both clauses start with `WHERE`, so with a genre and a search the query is `SELECT * FROM products WHERE genre = ? WHERE title LIKE ? …`, which SQLite cannot prepare, and the request gets 500 | `?genre=Rock&search=love` | the search condition joined to the genre condition: `… WHERE genre = ? AND (title LIKE ? OR artist LIKE ? OR genre LIKE ?)`, with one `WHERE` | high (not executed) | `Products.BuildProductsQuery`, `Products.DoubleWhere` | `Products.BuildProductsQueryFixed` |
| 16-authentication/16-cart-page-challenge-delete-item/src/controllers/cart.controller.ts:124-136 | `SELECT c.id, …` sends the row id under `id`, while the declared item type (`cartItem.types.ts` line 13) and lesson 20 use `cartItemId` | any logged-in user with one cart row | `SELECT c.id AS cartItemId, …`, as lesson 20 writes it | high (not executed) | `Cart.GetAllV16`, `Cart.ItemsLackCartItemId` | `Cart.GetAllV20` |
