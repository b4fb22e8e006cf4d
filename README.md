# AutoStyle backend: authentication, users and orders in Dafny

AutoStyle's backend is an Express service over PostgreSQL. This project models
its core:

- the JWT middleware, `middleware/auth.js`:
  - `authenticateToken`, `optionalAuth`, `generateToken` and `checkOwnership`
  - the `Authorization: Bearer <token>` parsing they share
- the user routes, `routes/users.js`: register, login, `/me`, and get, update and delete by id
- the order routes, `routes/orders.js`: create, `/my`, `/user/:userId`, get by id,
  status update, delete, and the admin listing

Each table is a map from its serial id to a row. The classes
`Users.UserTable` and `Orders.OrderTable` hold the table and the next serial
value, and their methods change them as the SQL statements do.

Read-only handlers are pure functions of the table and the request. Those
that can fail return `Http.Result`: a success code with a value, or an error
tag. The listings that always succeed (`Orders.MyOrders`, `Orders.AdminList`)
return the sequence itself. Each `ErrorTag` other than `ServerError` stands
for one of the source's messages; `ServerError` stands for every 500 text of
the catch blocks. Each tag always carries the same status code
(`ErrorTag.Code`).

The middleware also exists imperatively, over `Request`, `Response` and
`Next` objects. Each method is tied by its `ensures` to the pure function it
implements.

The JavaScript built-ins whose behaviour decides outcomes are modelled in
`JsRuntime`:

- truthiness
- `String.prototype.split` on one character
- `parseInt` without a radix
- `toLowerCase` for ASCII, Latin-1 and basic Cyrillic
- UTF-16 `.length`
- the regular-expression `\s` class

Things outside the model are parameters:

- JWT signing and verification (`Auth.Signer`, `Auth.Verifier`)
- bcrypt hashing and comparison (`Users.Hasher`, `Users.Comparer`)
- the environment variables (`Auth.Env`)
- the database clock (`now`)
- the database's reading of a route parameter text as an integer (`Tables.IntCast`)

The bearer token is the second piece
of `split(' ')`, a split on the single space character, not on whitespace.
A header such as `"Bearer  tok"`, with two spaces, therefore yields an empty
second piece and a 401 "token missing" (`Auth.TokenIsSecondWord`).

## Model

| member | source | states |
|---|---|---|
| JsRuntime.Split | middleware/auth.js:10 | `split(' ')` returns at least one piece and no piece contains the separator |
| JsRuntime.SplitPrefix | middleware/auth.js:10 | a separator-free prefix joins the first piece of the split of the rest |
| JsRuntime.SplitNoSeparator | middleware/auth.js:10 | a string without the separator splits into itself alone |
| JsRuntime.TrimStart | middleware/auth.js:67 | `parseInt` skips exactly the leading JavaScript whitespace |
| JsRuntime.DigitPrefix | middleware/auth.js:67 | `parseInt` reads the longest digit prefix and stops at the first non-digit |
| JsRuntime.ParseInt | middleware/auth.js:67 | `parseInt` is NaN exactly when no digit follows the whitespace, sign and hex prefix |
| JsRuntime.TrimStartOfNonSpace | middleware/auth.js:67 | text that does not start with white space is read from its first character |
| JsRuntime.DecimalUnsigned | middleware/auth.js:67 | a decimal rendering reads as its sign followed by its digits |
| JsRuntime.ParseIntDecimal | middleware/auth.js:67 | `parseInt` of the decimal rendering of any integer gives back that integer |
| JsRuntime.DigitsValueOfDigits | middleware/auth.js:67 | decimal digits read back to the number they render |
| JsRuntime.DigitsNoLeadingZero | middleware/auth.js:67 | a positive number's rendering has no leading zero, so it is never read as a hex prefix |
| JsRuntime.DigitPrefixOfDigits | middleware/auth.js:67 | a string of digits is its own longest digit prefix |
| JsRuntime.ParseIntStopsAtUnderscore | middleware/auth.js:67 | `parseInt("1_5")` is 1: reading stops at the first non-digit |
| JsRuntime.Truthy | routes/orders.js:16 | JavaScript truthiness: `undefined`, `null`, `false`, `0`, `NaN` and `""` are falsy (a predicate, no contract) |
| JsRuntime.ParseOptionalInt | middleware/auth.js:67 | `parseInt(undefined)` is NaN |
| JsRuntime.ToLowerCase | routes/users.js:38 | `toLowerCase` keeps the length and lowers every character |
| JsRuntime.LowerChar | routes/users.js:38 | a lowered character is never upper case, other characters are unchanged, `A`-`Z` move up by 32, and each capital lowers to a letter UpperChar maps back to it |
| JsRuntime.LowerCharInjective | routes/users.js:38 | two different characters lower alike only when one of them is the capital of the other |
| JsRuntime.ToLowerCaseIdempotent | routes/users.js:56 | lowering a stored e-mail again changes nothing |
| JsRuntime.Utf16Length | routes/users.js:29 | `password.length` counts UTF-16 units: one for a character of the Basic Multilingual Plane, two for one outside it |
| JsRuntime.Utf16LengthAppend | routes/users.js:29 | the length of a concatenation is the sum of the lengths |
| JsRuntime.Utf16LengthBmp | routes/users.js:29 | a text inside the Basic Multilingual Plane has one unit per character |
| JsRuntime.Present | routes/users.js:16 | `!x` is false exactly for a string that is defined, not null and not empty (a predicate, no contract) |
| JsRuntime.IsJsSpace | routes/users.js:23 | the characters of `\s`, which `parseInt` also skips: ECMAScript WhiteSpace and LineTerminator (a predicate, no contract) |
| JsRuntime.OrNull | routes/users.js:56 | `phone \|\| null` keeps a non-empty phone and stores null otherwise |
| Tables.SortedKeys | routes/orders.js:64-67 | a table's ids in ascending order, each exactly once |
| Http.ErrorTag.Code | middleware/auth.js:13-21 | every message a handler chooses is sent with a 4xx status; a failed query is a 500 |
| Auth.Secret | middleware/auth.js:3 | the JWT secret is `JWT_SECRET` when non-empty, otherwise the built-in fallback |
| Auth.ExpiresIn | middleware/auth.js:59 | the token lifetime is `JWT_EXPIRES_IN` when non-empty, otherwise `7d` |
| Auth.ExtractToken | middleware/auth.js:9-10 | an extracted token is non-empty and free of spaces |
| Auth.TokenIsSecondWord | middleware/auth.js:10-12 | for `scheme + ' ' + token + rest` the token is the second word, and missing when that word is empty |
| Auth.NoSpaceNoToken | middleware/auth.js:10-12 | a header without a space carries no token |
| Auth.ExtractTokenByPositions | middleware/auth.js:10 | the split-based extraction is the text between the first and second spaces |
| Auth.DecomposeAtSpace | middleware/auth.js:10 | extraction at the first space, used by the position-based proof |
| Auth.GenerateToken | middleware/auth.js:51-61 | signs exactly `{id, email, name}` with the configured secret and lifetime; its round trip is Auth.IssuedTokenAuthenticates |
| Auth.Authenticate | middleware/auth.js:8-27 | proceeds exactly when a token exists and verifies, with the decoded claims; otherwise one of the three token errors |
| Auth.AuthenticateRejections | middleware/auth.js:12-21 | no token gives 401; `TokenExpiredError` gives 401 "expired"; any other failure gives 403 |
| Auth.OptionalUser | middleware/auth.js:32-46 | an attached user always stems from a verified token |
| Auth.OptionalUserAgreesWithAuthenticate | middleware/auth.js:32-46 | optionalAuth attaches a user exactly when authenticateToken would proceed, and the same one |
| Auth.IssuedTokenAuthenticates | middleware/auth.js:51-61 | a token from generateToken, sent as `Bearer <token>`, authenticates as the same id, e-mail and name |
| Auth.ResourceParam | middleware/auth.js:67 | `req.params.id \|\| req.params.userId`: the id parameter when non-empty, otherwise the userId parameter |
| Auth.Owns | middleware/auth.js:67-69 | the caller owns the resource when `parseInt` of the parameter equals their id (a predicate, no contract) |
| Auth.OwnsExactlyOwnId | middleware/auth.js:66-74 | a decimal id parameter is accepted exactly when it is the caller's id |
| Auth.NaNIsDenied | middleware/auth.js:67-70 | a parameter `parseInt` cannot read is always denied |
| Auth.GuardOwner | middleware/auth.js:66-74 | authentication errors come first, then 403 unless the parameter parses to the caller's id, and an authenticated owner proceeds as that caller |
| Auth.Request.constructor | middleware/auth.js:8-9 | a request starts without a user |
| Auth.Response.Send | middleware/auth.js:13 | sending appends exactly one error response |
| Auth.Next.Call | middleware/auth.js:25 | calling `next` is counted once |
| Auth.AuthenticateToken | middleware/auth.js:8-27 | the middleware sets `req.user` and calls next, or sends one error and does not call next, as Authenticate decides |
| Auth.OptionalAuth | middleware/auth.js:32-46 | the middleware never responds, always calls next once, and sets `req.user` as OptionalUser decides |
| Auth.CheckOwnership | middleware/auth.js:66-74 | calls next when the caller owns the resource, otherwise sends 403 |
| Auth.OwnerChain | routes/users.js:165 | `authenticateToken, checkOwnership` run in sequence reach the handler exactly as GuardOwner decides |
| Users.ProfileOf | routes/users.js:55 | the public profile carries every column except the password |
| Users.MatchesEmail | routes/users.js:23 | `/^[^\s@]+@[^\s@]+\.[^\s@]+$/`: some `@` and some later `.` cut the text into three non-empty runs without whitespace or `@` (a predicate, no contract) |
| Users.MatchesEmailIffScans | routes/users.js:23-24 | the e-mail pattern matches exactly when the scan it describes succeeds |
| Users.MatchImpliesScan | routes/users.js:23-24 | a match passes the scan |
| Users.ScanImpliesMatch | routes/users.js:23-24 | a passed scan is a match |
| Users.EmailOfParts | routes/users.js:23-24 | any three non-empty parts without whitespace or `@`, joined as in `a@b.c`, pass |
| Users.FirstWithEmail | routes/users.js:36-39 | finds a row with the e-mail, or shows that none of the listed rows has it |
| Users.FindByEmail | routes/users.js:97-100 | finds a user with the e-mail exactly when one exists |
| Users.InsertKeepsEmailsNormalized | routes/users.js:36-57 | inserting a lower-cased, unused e-mail keeps e-mails lower-case and unique |
| Users.FindByEmailUnique | routes/users.js:97-108 | with unique e-mails, the lookup of a stored user's e-mail finds that user |
| Users.RegistrationError | routes/users.js:16-45 | the checks in order: required fields, e-mail pattern, length at least 6 UTF-16 units, then 409 exactly when the lower-cased e-mail is in use |
| Users.RegistrationShapeChecksIgnoreTable | routes/users.js:16-33 | the first three register errors do not depend on the table |
| Users.NewUser | routes/users.js:48-57 | the stored user has the lower-cased e-mail, the hash of the password with 10 rounds and `phone \|\| null` |
| Users.Login | routes/users.js:85-138 | 400 when e-mail or password is missing, 401 for an unknown e-mail or a wrong password, otherwise generateToken of the found user and that user's profile |
| Users.LoginDoesNotRevealUnknownEmail | routes/users.js:102-117 | unknown e-mail and wrong password give the same 401 |
| Users.RegisteredUserCanLogIn | routes/users.js:48-57 | a registered user logs in with any case variant of the e-mail and the same password |
| Users.ProfileById | routes/users.js:165-184 | the profile of the id, or 404 exactly when it is absent |
| Users.Me | routes/users.js:143-160 | 200 with the profile of the caller's row, or 404 exactly when the caller's row is gone |
| Users.MeAgreesWithLogin | routes/users.js:143-160 | `/me` with a token for the user who logged in shows the profile the login returned |
| Users.IdParams | routes/users.js:165 | the `/:id` parameter is what checkOwnership reads, unless it is empty |
| Users.RequestedRow | routes/users.js:165-172 | as written: the guard passes only when `parseInt(id)` is the caller's id; the queries address the database's reading of the text (500 if it rejects it, that row whenever it reads one); that row is the caller's whenever the database reads the text as `parseInt` does |
| Users.CheckedRow | middleware/auth.js:66-74 | corrected: the row addressed is the number checkOwnership compared, so always the caller's own |
| Users.UnderscoreIdReachesAnotherRow | routes/users.js:165-172 | with a database reading `1_5` as 15, user 1 passes the guard on `/api/users/1_5` and the queries address user 15; the corrected row is 1 |
| Users.ShowUser | routes/users.js:165-184 | GET `/:id`: guard errors first, then the profile of the addressed row or 404; the profile shown is the caller's whenever the database reads the text as `parseInt` does |
| Users.Coalesced | routes/users.js:205-212 | `COALESCE` replaces name and phone only when given; e-mail, password and creation time are kept |
| Users.UserTable.constructor | routes/users.js:52-57 | the table starts empty with serial 1 |
| Users.UserTable.Register | routes/users.js:11-80 | on any check failure the table is unchanged; otherwise exactly one user under a fresh id, 201 with a token and the profile, e-mails stay lower-case and unique |
| Users.UserTable.Update | routes/users.js:189-223 | 404 and no change for a missing id; otherwise only that row is coalesced |
| Users.UserTable.Delete | routes/users.js:228-247 | 404 and no change for a missing id; otherwise exactly that row is removed |
| Users.UserTable.UpdateRoute | routes/users.js:189-223 | PUT `/:id` with its guard: no change on a guard error, a rejected text or a missing row; otherwise only the addressed row is coalesced, and it is the caller's whenever the database reads the text as `parseInt` does |
| Users.UserTable.DeleteRoute | routes/users.js:228-247 | DELETE `/:id` with its guard: no change on a guard error, a rejected text or a missing row; otherwise exactly the addressed row is removed, and it is the caller's whenever the database reads the text as `parseInt` does |
| Orders.StatusName | routes/orders.js:178 | every status is stored under one of the six valid names |
| Orders.ParseStatus | routes/orders.js:178-184 | a status is accepted exactly when it is one of the six names, spelled exactly |
| Orders.EveryStatusAccepted | routes/orders.js:178-196 | every status can be set by its name regardless of the current status |
| Orders.OrderError | routes/orders.js:16-26 | missing items or a falsy total (including 0) first, then an empty or non-array cart; accepted exactly for a non-empty array and a truthy total |
| Orders.NewOrder | routes/orders.js:29-34 | a new order belongs to the caller, is pending, and stores a falsy delivery address as null |
| Orders.RowsAt | routes/orders.js:64-67 | the rows at the listed ids, each stored order once |
| Orders.AllRows | routes/orders.js:64-67 | every stored order exactly once |
| Orders.Filter | routes/orders.js:66 | a `WHERE` keeps exactly the rows that satisfy it, each as often as before |
| Orders.InsertNewest | routes/orders.js:67 | inserting into a newest-first list keeps it newest-first and adds exactly that row |
| Orders.SortNewestFirst | routes/orders.js:67 | `ORDER BY created_at DESC` is newest-first and a permutation of its input |
| Orders.MyOrders | routes/orders.js:60-88 | newest first, every order of the caller exactly once and no other |
| Orders.OrdersOfUser | routes/orders.js:93-126 | as written: 403 exactly when `parseInt(userId)` is not the caller's id, whatever the table; then 500 on a text the database rejects; otherwise exactly the orders of the database's reading of the text, which are the caller's whenever it reads the text as `parseInt` does |
| Orders.OrdersOfCheckedUser | routes/orders.js:98-107 | corrected: a request that passes the check lists exactly the caller's orders |
| Orders.UnderscoreIdListsAnotherUser | routes/orders.js:98-107 | with a database reading `1_5` as 15, user 1 lists user 15's orders through `/api/orders/user/1_5`; the corrected handler lists user 1's |
| Orders.OrdersOfOwnIdAreMyOrders | routes/orders.js:93-126 | requesting one's own id in decimal gives the same answer as `/my` |
| Orders.ListsAfterInsert | routes/orders.js:29-34 | a listing after an insert gains exactly the new row, for its owner only |
| Orders.ListsAfterRemove | routes/orders.js:236-239 | a listing after a delete loses exactly the removed row, for its owner only |
| Orders.InsertedOrderListed | routes/orders.js:29-34 | a created order shows up once in its owner's `/my`; other users' listings are unchanged |
| Orders.RemovedOrderUnlisted | routes/orders.js:236-239 | a deleted order disappears from its owner's `/my`; other users' listings are unchanged |
| Orders.OrderById | routes/orders.js:131-168 | 404 for a missing order whoever asks, then 403 for another user's order, otherwise that order |
| Orders.AdminOrders | routes/orders.js:256-268 | newest first, every stored order once, restricted to the given status when the query value is non-empty |
| Orders.Joined | routes/orders.js:257-259 | the LEFT JOIN adds the owner's name and e-mail, or nulls when the user is gone |
| Orders.Page | routes/orders.js:268 | `LIMIT`/`OFFSET`: the rows from the offset on, at most the limit |
| Orders.JoinUsers | routes/orders.js:273-284 | each listed order joined with its user, in order |
| Orders.PageOfNewestFirst | routes/orders.js:268 | a page holds rows of the listing, at most the limit, in the listing's newest-first order |
| Orders.AdminList | routes/orders.js:252-292 | the page of the admin rows from `offset` (default 0), at most `limit` (default 50), each joined with its user |
| Orders.AdminPageProperties | routes/orders.js:252-292 | the admin page lists at most `limit` (default 50) stored orders that pass the status filter, newest first |
| Orders.OrderTable.constructor | routes/orders.js:29-34 | the table starts empty with serial 1 |
| Orders.OrderTable.Create | routes/orders.js:10-55 | on a rejected body the table is unchanged; otherwise exactly one pending order of the caller under a fresh id, with 201 |
| Orders.OrderTable.UpdateStatus | routes/orders.js:173-213 | the status is checked before the lookup and there is no ownership check; only that order's status changes |
| Orders.OrderTable.Delete | routes/orders.js:218-247 | 404, then 403, with the table unchanged; otherwise exactly that order is removed |

## Left out

- `db.js` and `server.js` are not part of this model: the connection pool, the router mounting, CORS and the static files.
- The 500 responses for database or library failures are not modelled, except the one for a route parameter the database cannot read as an integer on the user routes and `/user/:userId`. The SQL text is not modelled either; its effect on a table is.
- The localized message texts are not modelled. Each message is an `ErrorTag`.
- JWT cryptography is not modelled: signing, verification and expiry checking are the `Signer` and `Verifier` parameters. `Auth.IssuedTokenAuthenticates` assumes they agree (`Auth.SoundJwt`).
- bcrypt is not modelled: hashing and comparison are the `Hasher` and `Comparer` parameters.
- Asynchrony is not modelled: the `jwt.verify` callback and the awaited queries run to completion in order.
- The clock is not modelled: `created_at` is the `now` parameter.
- `updated_at` is not modelled, because the schema that maintains it is not part of this model.
- The database's integer input rules are not modelled: they are the `IntCast` parameter. Whether a text such as `1_5` is read as 15 depends on the database version.
- `Orders.OrderById`, `Orders.OrderTable.UpdateStatus` and `Orders.OrderTable.Delete` take the row id the database reads from the route text. The 500 for a text it rejects is not modelled for them. Whatever row it reads, their ownership checks compare that row's owner.
- User body fields are `Option<string>`: absent, or a string. Non-string JSON values (numbers, objects) in `name`, `email`, `password` or `phone` are not modelled.
- The admin `limit` and `offset` are an `Option<nat>`. Query text the database cannot cast, negative numbers and repeated query keys (arrays) are not modelled.
- `JsRuntime.ParseInt` yields the exact integer. Rounding to a double for inputs of more than 15 digits is not modelled.
- `JsRuntime.ToLowerCase` lowers ASCII, Latin-1 and basic Cyrillic (with `Ё`–`Џ`). Other scripts and the context-dependent rules of full Unicode case mapping are not modelled.
- Rows with equal `created_at` may come back from the database in any order. The listings are specified only as newest first plus every matching row once; the model's concrete order is one of the orders the database may produce.
- Foreign keys are not modelled: deleting a user leaves their orders, and the admin listing joins them with nulls.

## Findings

| source | as written | input that shows it | evidently intended | confidence | as-written member | corrected member |
|---|---|---|---|---|---|---|
| routes/users.js:165-235 | checkOwnership compares `parseInt(req.params.id)` with the caller's id, but the queries are given the raw text `id`, which the database reads with its own integer rules | on a database that reads `1_5` as 15 (underscores as digit separators, as PostgreSQL 16 does), user 1 calls GET, PUT or DELETE `/api/users/1_5`: `parseInt` reads 1, and the queries address user 15 | the queries address the id the check compared, so only the caller's own row is read, updated or deleted | not executed; depends on the database version | Users.RequestedRow, Users.UnderscoreIdReachesAnotherRow | Users.CheckedRow |
| routes/orders.js:98-107 | the check compares `parseInt(userId)` with the caller's id, but the query is given the raw text `userId` | on the same database, user 1 calls `/api/orders/user/1_5` and gets the orders of user 15 | the query lists the orders of the id the check compared | not executed; depends on the database version | Orders.OrdersOfUser, Orders.UnderscoreIdListsAnotherUser | Orders.OrdersOfCheckedUser |
