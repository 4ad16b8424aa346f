# A model of the users/orders demo API in Dafny

The service is a small Express application backed by SQLite (`server.js`). It issues
30-minute JWTs for the roles `admin` and `user` and guards every data route with a
bearer-token check. Deleting a user also needs the `admin` role. Its routes manage
users, their orders and a table of cities. At start-up it tries to top the `users`
table up to twenty fake rows. It accepts image uploads either as a multipart file part or as a
Base64 data URI.

The model is in eight modules:

- `Values` (values.dfy): JavaScript values as a request body carries them. It covers
  truthiness, destructuring of an absent key to `undefined`, how SQLite binds
  `undefined` (as NULL), and `COALESCE(?, column)`.
- `Text` (text.dfy): `String.prototype.split(' ')`, which keeps empty pieces, and
  `join`. It also holds the decimal rendering of a millisecond timestamp and its
  inverse.
- `Auth` (auth.dfy): the `Authorization` header parse, `authenticateToken`,
  `authorizeAdmin` and token issuance. Time is in seconds since the epoch, as in
  JWT claims, and a token expires when the current second reaches `exp`
  (section 4.1.4 of RFC 7519).
- `Validate` (validate.dfy): the presence check each route makes before it touches
  the database.
- `Store` (store.dfy): the database as a class `UserStore`. It holds the `users` map,
  the `orders` sequence and the `cities` map with its AUTOINCREMENT sequence. Its
  methods are the SQL statements the handlers run. New rowids follow SQLite's rule
  for a plain `INTEGER PRIMARY KEY`: one more than the largest in use, or 1.
- `Seed` (seed.dfy): the start-up top-up loop.
- `Uploads` (uploads.dfy): the MIME allow-list, Node's POSIX `path.extname`, the data-URI
  pattern and the time-derived file names.
- `Routes` (routes.dfy): each handler as the composition gate, then presence
  check, then one statement. A request refused by the gate or the check leaves the
  database untouched.

Inputs the model cannot compute are parameters:

- the wall clock (`nowMs`);
- whether the JWT library accepts a token's signature (`signatureValid`) and the
  claims it decodes;
- whether the SQLite engine accepts a statement (`engineOk`);
- the seed's faker and `Math.random()` values (`Draw`);
- whether a file write succeeds (`writeOk`).

Where the code and the documented behaviour of the service differ, the model
follows the code:

- A multipart part with a refused MIME type, or one in a field other than `file`, is
  an error multer hands to Express's default error handler. It is answered with 500,
  not with the 400 the route's own documentation lists (server.js:753-760, 808).
- The create, replace and patch statements and the user listing name a `city` column
  (server.js:342, 460, 617, 673). The `users` table the schema creates has no such
  column (server.js:18). On such a database those four routes always answer 500.
  `UserStore.hasCityColumn` records which schema the database has.
- `PRAGMA foreign_keys = ON` (server.js:24) makes SQLite enforce the references of
  `users.city_id` and `orders.user_id`. For the seed this is modelled explicitly
  (`Seed.Accepts`); for the route statements a refusal for that reason is one where
  `engineOk` is false.
- `GET /secure-endpoint` refuses an empty `X-Custom-Header` as well as a missing one,
  because the check is on truthiness (server.js:733).
- The seed does not give a new database twenty users. Nothing fills `cities`
  (server.js:15), so the `city_id` in 1..5 of the first seed insert (server.js:40)
  names no city and the foreign-key check refuses it. The inserts run without a
  callback (server.js:41-48), so the driver reports the refusal as an `'error'`
  event with no listener, which ends the process. `Seed.TopUp` stops at the first
  refused insert and reports it as `aborted`; rows accepted before it stay.
- A multipart part with an empty file name (what a browser sends for an empty file
  input) is skipped by multer, so the handler finds no file and answers 400
  (server.js:809-810).

## Model

| member | source | states |
|---|---|---|
| Values.FalsyExactly | server.js:243 | the values the presence checks treat as missing are exactly `undefined`, `null`, `false`, `0` and `""`; a truthy value is neither `undefined` nor `null` |
| Values.Bind | server.js:461 | a bound parameter is never `undefined`: `undefined` becomes NULL and every other value is stored as it is |
| Values.Coalesce | server.js:617 | `COALESCE(?, column)` keeps the column for an absent or null parameter and takes the parameter otherwise |
| Values.CoalesceKeepsAbsent | server.js:617-618 | a patch field that is absent or null keeps the stored column; any other value, even a falsy one, replaces it |
| Text.Split | server.js:60 | `split(' ')` yields at least one piece and no piece contains a space |
| Text.JoinSplit | server.js:60 | splitting on spaces loses nothing: joining the pieces with spaces gives the header back |
| Text.SplitJoin | server.js:60 | pieces without spaces, joined with spaces, split back into the same pieces |
| Text.DecimalString | server.js:748 | the rendering of a timestamp is non-empty, all digits, with no leading zero |
| Text.DecimalRoundTrip | server.js:869 | reading the decimal rendering of a timestamp gives the timestamp back |
| Text.DecimalInjective | server.js:869 | distinct timestamps render as distinct strings |
| Auth.BearerToken | server.js:59-61 | a token taken from the header is non-empty and holds no space (its exact value is given by `BearerTokenAnyScheme` and `BearerTokenShape`) |
| Auth.BearerTokenAnyScheme | server.js:60 | any first word is accepted as the scheme, not only `Bearer` |
| Auth.BearerTokenShape | server.js:60-61 | conversely, a header yields a token only if it is `<scheme> <token>` or `<scheme> <token> <rest>` |
| Auth.NoSpaceNoToken | server.js:60-61 | a header without a space yields no token |
| Auth.Authenticate | server.js:58-68 | `authenticateToken` denies only with 401 or 403, and lets a request through only with a validly signed, unexpired token, whose claims it passes on |
| Auth.AuthenticateOutcomes | server.js:58-68 | no token gives 401 (including a header such as `"Bearer "`); a bad signature or an expired token gives 403; otherwise the request proceeds with the token's claims |
| Auth.AuthorizeAdmin | server.js:71-76 | `authorizeAdmin` lets through exactly the role "admin", with its claims unchanged, and refuses every other role with 403 |
| Auth.AdminGate | server.js:205 | the two middlewares in sequence let a request through only with a validly signed, unexpired admin token |
| Auth.AdminGateOrder | server.js:71-76 | the admin gate denies what the token gate denies with the same status, then refuses every non-admin role with 403, and otherwise proceeds |
| Auth.Issue | server.js:163-171 | a token is issued exactly for the roles "admin" and "user"; it carries that role and the subject `test_user`, and expires 1800 seconds after its issue second |
| Auth.IssuedTokenAccepted | server.js:169 | a freshly issued token presented under any scheme word is accepted for the first 29 minutes 59 seconds |
| Auth.IssuedTokenExpires | server.js:63-64 | from 30 minutes after issue on, the same token is refused with 403 |
| Auth.UserTokenNotAdmin | server.js:72-73 | a token issued for "user" never passes the admin gate |
| Auth.AdminTokenAdmitted | server.js:205 | a fresh admin token passes both gates of the delete route |
| Validate.CityRequestNeedsBoth | server.js:243-245 | `CityRequestComplete`: a city without a name or a country, or with either empty or null, is refused |
| Validate.CityAssignmentRefusesZero | server.js:290-292 | `CityAssignmentComplete`: an absent, null or zero `city_id` is refused and every non-zero number accepted |
| Validate.NewUserNeedsOnlyName | server.js:456-458 | `NewUserComplete`: a non-empty name alone is enough to create a user; without a name nothing is |
| Validate.PatchNeedsOne | server.js:614-616 | `PatchRequestComplete`: a patch is refused exactly when neither `city` nor `phone` is truthy |
| Validate.ReplaceBalanceOnlyDefined | server.js:670-672 | `ReplaceRequestComplete`: a full replace accepts a balance of 0 or null, and refuses a missing balance or a missing text field |
| Validate.CustomHeaderAnyValue | server.js:733-735 | `CustomHeaderPresent`: the custom header is refused when absent or empty and accepted with any other value |
| Store.NextRowId | server.js:18 | a new rowid is unused and above every id in use: one more than the largest, or 1 for an empty table |
| Store.OrdersOf | server.js:399 | the listed orders are exactly the table's orders whose `user_id` is the requested id |
| Store.OrdersOfAppend | server.js:534 | inserting an order adds it at the end of its own user's list and changes no other user's list |
| Store.Rows | server.js:399 | the listing has one row per order, each with every column but `user_id` |
| Store.UserRowOf | server.js:342 | a listed user row carries the user's id and every column but `city_id`, so it loses nothing else |
| Store.UserRows | server.js:342-345 | the listing has exactly one row per stored user, keyed by its id |
| Store.UserRowsUpdate | server.js:342 | after a user is stored or replaced, the listing shows its new row under its id and no other row changes |
| Store.UserRowsRemove | server.js:342 | after a delete, the listing loses that id's row and no other |
| Store.UserStore.Fresh | server.js:13-21 | a database created by the schema: empty tables and no `city` column in `users` |
| Store.UserStore.Open | server.js:15-21 | an existing database file is used as it is; its orders have distinct ids and are listed in rowid order |
| Store.UserStore.InsertUser | server.js:37 | the seed's prepared insert adds the row under a fresh rowid and changes nothing else |
| Store.UserStore.CreateUser | server.js:460-464 | succeeds exactly when `users` has a `city` column and the engine accepts; the new row is stored under a fresh rowid, with `undefined` fields bound as NULL |
| Store.UserStore.ReplaceUser | server.js:673-677 | overwrites the six named columns of that row only; an unknown id changes nothing and still succeeds |
| Store.UserStore.PatchUser | server.js:617-621 | keeps the old `city` and `phone` where the request gives none, replaces them otherwise, and touches nothing else |
| Store.UserStore.SetCity | server.js:294-297 | sets `city_id` of that row only; an unknown id changes nothing and still succeeds |
| Store.UserStore.DeleteUser | server.js:206-209 | removes the row if present; deleting an absent id succeeds and changes nothing |
| Store.UserStore.InsertOrder | server.js:534-538 | appends one order under a fresh id, with the path id as `user_id` and absent fields as NULL |
| Store.UserStore.ListOrders | server.js:399-402 | returns the rows of `OrdersOf` for the id and changes nothing |
| Store.UserStore.ListUsers | server.js:342-345 | fails without a `city` column; otherwise returns the projected rows of every user and changes nothing |
| Store.UserStore.CreateCity | server.js:247-250 | adds the city under the next AUTOINCREMENT id, which has never been used |
| Seed.CityIdOf | server.js:40 | the seeded `city_id` lies in 1..5 |
| Seed.SeedRow | server.js:41-48 | every seeded row has text fields, a whole city id in 1..5, a whole balance in 1000..50000 and no `city` |
| Seed.TopUp | server.js:27-51 | existing rows are untouched; the inserts are accepted in order up to the first refusal, which aborts; each accepted one adds a seed-shaped row; with every insert accepted the table ends with max(existing, 20) rows; with no city in 1..5 the first insert is refused and no row is added |
| Uploads.FileFilter | server.js:753-760 | a part is admitted exactly when its MIME type is `image/jpeg`, `image/png` or `image/gif` |
| Uploads.ExtName | server.js:748 | the extension is empty or starts with its only dot and holds no slash |
| Uploads.MultipartFilename | server.js:748 | the name starts with the upload time in decimal, without a leading zero, and the rest is the original name's extension |
| Uploads.Base64Filename | server.js:869 | the name starts with the upload time in decimal, without a leading zero, and the rest is a dot and the data URI's type |
| Uploads.ExtNameOfPlainName | server.js:748 | `<stem>.<ext>` has the extension `.<ext>` |
| Uploads.ExtNameNone | server.js:748 | a name with no dot after its first character has no extension |
| Uploads.ParseDataUri | server.js:862-868 | a match yields a word-character extension and a non-empty single-line payload that recompose to the input |
| Uploads.ParseCompose | server.js:862-868 | every well-formed data URI matches, with its own extension and payload |
| Uploads.ParseNeedsPrefix | server.js:862-865 | a string without the `data:image/` prefix never matches |
| Uploads.TimePrefixDetermines | server.js:869 | a stored name determines the millisecond it was built at |
| Uploads.FilenamesDistinct | server.js:869 | names built at different milliseconds differ, on either upload path and across both |
| Routes.Echo | server.js:463 | the echoed fields are exactly the requested ones that are defined, with the request's values |
| Routes.IssueTokenRoute | server.js:163-171 | 400 exactly for a role other than "admin" and "user"; otherwise a token with that role expiring 30 minutes on |
| Routes.DeleteUserRoute | server.js:205-210 | non-admins get 401 or 403 and delete nothing; an admin's delete succeeds when the engine accepts and removes exactly that id |
| Routes.CreateCityRoute | server.js:240-251 | 400 exactly when the gate passes and a field is missing; otherwise a new city under an id above every id ever used, which the AUTOINCREMENT sequence now holds, with `name` and `country` echoed |
| Routes.SetCityRoute | server.js:287-298 | 400 exactly when `city_id` is falsy; otherwise only that user's `city_id` changes |
| Routes.ListUsersRoute | server.js:341-346 | the gate's status on denial; 500 without a `city` column; otherwise one row per user without its `city_id` |
| Routes.ListOrdersRoute | server.js:398-403 | the gate's status on denial; otherwise the requested user's orders in table order |
| Routes.CreateUserRoute | server.js:453-465 | 400 exactly when the name is falsy; 500 without a `city` column; otherwise a new user under a fresh id, with the defined request fields echoed |
| Routes.CreateOrderRoute | server.js:532-539 | no presence check: any authenticated request appends an order when the engine accepts, and the answer carries the new order id |
| Routes.PatchUserRoute | server.js:612-622 | 400 exactly when neither `city` nor `phone` is truthy; a successful patch coalesces those two columns only |
| Routes.ReplaceUserRoute | server.js:668-678 | 400 exactly when a text field is falsy or the balance undefined; a success overwrites the six columns |
| Routes.SecureEndpoint | server.js:731-737 | 400 exactly when the custom header is missing or empty, success otherwise |
| Routes.UploadRoute | server.js:808-813 | 400 when no file part or only one without a file name arrives, 500 for a refused part; an admitted part is stored as `<ms><extname>` |
| Routes.UploadBase64Route | server.js:854-885 | 400 for a falsy or non-matching value; a matching one is stored as `<ms>.<ext>` |

## Left out

- Express plumbing: the JSON and form body parsers, their 50 MB limits and the message texts of the answers. A reply is modelled by its status and its data: ids, echoed fields, listed rows, file names and token claims.
- Swagger documentation, `/company-info`, `/error`, `/uploads/:filename` and `sendFile`, and all console logging: none of them touches the modelled state.
- The JWT signature: HMAC signing and checking are cryptography. Whether a token's signature checks out is an input, and so are the claims it decodes to.
- SQLite's column type affinity and conversions: path ids are modelled as integers and stored values as the JavaScript values bound.
- Foreign-key and NOT NULL enforcement on the route statements (a `city_id` or `user_id` that names no row, deleting a user who has orders): these are folded into the engine's verdict `engineOk`. Only the seed checks the reference itself.
- Order of the rows `GET /users` returns: the model returns the rows keyed by id.
- Seed.TopUp: the end of the process after a refused seed insert is reported as `aborted`, not modelled further; the SQLite driver that raises the unhandled `'error'` event is not part of this model.
- faker, `Math.random()` and `Date.now()`: their values are inputs. Only the ranges the libraries promise are assumed.
- Floating point: JSON numbers are modelled as reals, so NaN and rounding are not modelled.
- File system writes: the directory creation, the Base64 decoding of the payload and the bytes written. Only whether the write succeeds is an input.
- Multipart requests with more than one file part, and multer's own limits: the model handles at most one part. multer's code is not part of this model; its skipping of a part without a file name is modelled from its documented behaviour. The multipart parser's reduction of the client's file name to its last path segment (with `.` and `..` becoming empty) happens before `originalname` reaches the model, which takes `originalname` as given.
