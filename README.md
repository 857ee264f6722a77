# CozyCup order lifecycle in Dafny

A model of the order workflow of the CozyCup Express server. Customers sign in
with Google. They submit custom cup orders, and an administrator prices each
order and approves or rejects it. The model covers:

- the two middleware guards, `ensureAuth` and `ensureAdmin`;
- the find-or-create of a user on Google login;
- order creation, with its defaults and the notification e-mail that follows the store write;
- the administrative update, with its `||` merge of price and comments;
- the customer's and the administrator's order listings;
- the Order document and its default status.

Modules, one per concern:

| file | module | what it holds |
|---|---|---|
| common.dfy | `Common` | `Option`, `Result` |
| js.dfy | `Js` | JavaScript values and truthiness, the or-operator, and the String methods `split`, `join`, `trim`, `toLowerCase`, `indexOf` |
| order_schema.dfy | `OrderSchema` | the Order document, the three status names, the schema default |
| principal.dfy | `Principal` | users, the Google profile, `User.findOne({googleId})`, find-or-create |
| http.dfy | `Http` | the responses the handlers send, and the guard verdict |
| guards.dfy | `Guards` | `ensureAuth`, `ensureAdmin`, the admin allow-list |
| lifecycle.dfy | `Lifecycle` | the new-order defaults, the update transition, the notification recipients |
| queries.dfy | `Queries` | the two Mongo listings: filter, newest-first sort, 200 cap |
| server.dfy | `Server` | class `App`: the two collections as maps, and one method per handler |

The store is the class `Server.App`. Its fields `users` and `orders` are maps
from id to document. The handlers assign them in place. Ids come from two
counters, so a new id is never in use; this stands in for Mongo's ObjectId.
The method parameters carry what comes from outside: the clock (`now`), whether
the store accepted the write (`stored`), and whether SMTP delivered the mail
(`delivered`). The ghost field `App.effects` logs each order write and each mail
attempt in order. This is how "written before notified" is stated.

Request-body fields are JavaScript values (`Js.Value`). So `title || 'Custom Cup'`
and `price || order.price` follow JavaScript exactly: `''`, `0`, `null`,
`false` and a missing field are falsy, while the string `"0"` is truthy.

Behaviour of the code that the model keeps, though one might expect otherwise:

- The status literal is `"not viewed"`, with a space.
- `GET /admin` and `POST /admin/order/:id/update` have no guard at all. `ensureAdmin` is defined but no route uses it. So `App.GetAdminOrders` and `App.PostAdminUpdate` take no request principal.
- With `ADMIN_EMAILS` unset, the allow-list is `['']`. Only a signed-in user whose e-mail is missing or empty passes `ensureAdmin`.
- An existing user is returned unchanged at login; the stored e-mail is never refreshed.
- A failed notification makes the response a 500 `{error: 'server error'}`, not a degraded success. The order stays stored.
- "Price supplied" means truthy. A supplied `0` or `''` keeps the old price, and so does an absent one.

## Model

| member | source | states |
|---|---|---|
| `Js.Or` | server.js:254-258 | JavaScript's or-operator yields the left operand when it is truthy, else the right one; the result is truthy iff either operand is |
| `Js.Trim` | server.js:116 | `trim` yields the infix of the input that starts at its first non-white-space character, with only white space before and after it and no white space at either end |
| `Js.TrimIdempotent` | server.js:116 | trimming twice equals trimming once |
| `Js.TrimChars` | server.js:176 | a trimmed entry holds only characters of the untrimmed one, so it holds no comma |
| `Js.ToLower` | server.js:68 | `toLowerCase` keeps the length, maps each letter A-Z to its lower-case letter, leaves no upper-case letter, and leaves other characters alone |
| `Js.ToLowerEmpty` | server.js:118 | lower-casing gives the empty string iff the input is empty |
| `Js.Split` | server.js:115 | `split(',')` gives at least one piece, and no piece contains the separator |
| `Js.JoinSplit` | server.js:174-177 | joining the pieces of a split with the same separator restores the string |
| `Js.SplitJoin` | server.js:174-177 | splitting a join of separator-free pieces gives back the pieces |
| `Js.IndexOf` | server.js:100 | `indexOf` is -1 exactly when the substring does not occur; otherwise it is the first occurrence |
| `OrderSchema.ParseStatus` | models/Order.js:8 | a stored status string maps back to the status whose name it is; other strings match no status |
| `OrderSchema.StatusNameRoundTrip` | server.js:160 | the three status names ("not viewed", "approved", "disapproved") are distinct and parse back |
| `OrderSchema.NewOrder` | models/Order.js:3-12 | a new document carries the given fields; status defaults to "not viewed"; price and comments are unset |
| `Principal.FindByGoogleId` | server.js:69 | `findOne({googleId})` returns a user with that Google id, and none with a smaller id has it; `None` iff no user has it |
| `Principal.FindByGoogleIdFrame` | server.js:72-76 | creating a user at a fresh id does not change what the lookup finds among older users |
| `Principal.FindOrCreate` | server.js:66-83 | no profile e-mail gives an error and changes nothing; an existing user is returned unchanged and nothing is created; otherwise exactly one user is added, with the first e-mail lower-cased |
| `Principal.FindOrCreateIdempotent` | server.js:68-79 | logging in twice with the same profile equals logging in once |
| `Guards.EnsureAuthAsWritten` | server.js:94-109 | the guard as written: authenticated requests proceed; it throws exactly on unauthenticated, non-XHR requests without an Accept header; `Guards.EnsureAuthCorrection` shows it otherwise agrees with `Guards.EnsureAuth` |
| `Guards.EnsureAuth` | server.js:94-109 | authenticated requests proceed; otherwise 401 `Login required` iff XHR, an Accept containing "json", or Content-Type exactly `application/json`; otherwise a redirect to `/login` |
| `Guards.MissingAcceptCrashes` | server.js:98-101 | an unauthenticated, non-XHR request without an Accept header makes the code throw |
| `Guards.EnsureAuthCorrection` | server.js:98-101 | the corrected guard agrees with the code except on exactly those crashing requests |
| `Guards.AdminList` | server.js:114-116 | the allow-list has at least one entry, and no entry holds a comma or an upper-case letter; `Guards.AdminListUnset` gives its value when ADMIN_EMAILS is unset |
| `Guards.EnsureAdmin` | server.js:111-120 | an unauthenticated request is redirected to `/login`; an authenticated one proceeds iff its lower-cased e-mail (missing as '') equals a trimmed, lower-cased entry of ADMIN_EMAILS; otherwise 403 |
| `Guards.AdminListUnset` | server.js:114-116 | with ADMIN_EMAILS unset or empty the allow-list is `['']` |
| `Guards.EnsureAdminUnset` | server.js:114-118 | with ADMIN_EMAILS unset, only a signed-in user with a missing or empty e-mail passes |
| `Guards.EnsureAdminIgnoresCase` | server.js:118 | two e-mails that differ only in case get the same verdict |
| `Lifecycle.NewCustomOrder` | server.js:153-162 | the new order belongs to the current user and copies the user's e-mail; its title is the given one if truthy, else "Custom Cup"; its description is the given one if truthy, else ''; its status is "not viewed"; it has no price or comments |
| `Lifecycle.NewCustomOrderWellFormed` | server.js:155-162 | a created order has a truthy title, and price and comments unset |
| `Lifecycle.DecodeAction` | server.js:252-256 | the action is Approve iff it is exactly the string "approve", Disapprove iff exactly "disapprove"; anything else is ignored |
| `Lifecycle.TransitionTable` | server.js:252-259 | approve sets "approved" and merges price and comments with JavaScript's or-operator; disapprove sets "disapproved" and merges only comments; any other action changes nothing |
| `Lifecycle.Transition` | server.js:252-259 | an update never changes id, owner, owner e-mail, title, description or creation time; `Lifecycle.TransitionTable` gives its status, price and comments |
| `Lifecycle.TransitionNeverErases` | server.js:254-258 | a falsy supplied price or comment never erases a recorded one |
| `Lifecycle.TransitionWellFormed` | server.js:252-261 | an update keeps a stored order's title truthy and its price and comments unset-or-truthy |
| `Lifecycle.TransitionIdempotent` | server.js:252-259 | applying the same update twice equals applying it once; approving twice equals approving once |
| `Lifecycle.LastDecision` | server.js:252-259 | the status after a series of updates is the starting one or one of the two decisions |
| `Lifecycle.StatusIsLastDecision` | server.js:245-259 | after any series of updates to one order, each with its own action, price and comments, the status is the one set by the last approve or disapprove, so there is no terminal state |
| `Lifecycle.TrimmedEntries` | server.js:174-176 | the trimmed ADMIN_EMAILS entries: at least one, none containing a comma |
| `Lifecycle.AdminRecipients` | server.js:174-177 | the mail's `to` string splits back into exactly the trimmed entries |
| `Lifecycle.RecipientsAreAdmins` | server.js:174-177 | the entries of the mail's `to` string, lower-cased, are the list `ensureAdmin` admits |
| `Queries.Scan` | server.js:241 | the stored orders, each once, in id order |
| `Queries.OwnedBy` | server.js:267 | the `{userId}` filter keeps exactly the orders of that user |
| `Queries.PrependNewest` | server.js:241 | an order no older than the head of a newest-first listing may go in front of it |
| `Queries.InsertNewestFirst` | server.js:241 | inserting into a newest-first listing keeps it newest-first, and the head is the new order or the old head |
| `Queries.InsertAddsOne` | server.js:241 | inserting adds exactly that order and loses none |
| `Queries.SortNewest` | server.js:267 | `sort({createdAt: -1})` keeps the length; `Queries.SortNewestSpec` shows the result is a newest-first permutation |
| `Queries.SortNewestSpec` | server.js:267 | `sort({createdAt: -1})` gives a newest-first permutation of its input |
| `Queries.PermutationDistinct` | server.js:267 | reordering a listing with no repeats introduces none |
| `Queries.OwnOrders` | server.js:267 | exactly the stored orders whose owner is the user, each once, newest first |
| `Queries.AllNewest` | server.js:241 | every stored order once, newest first |
| `Queries.Limit` | server.js:241 | `limit(n)` keeps a prefix of at most `n` elements, and everything when fewer than `n` are kept |
| `Queries.LimitKeepsNewest` | server.js:241 | what `limit` cuts from a newest-first listing without repeats is no newer than what it keeps, and is cut only when the cap is reached |
| `Queries.NewestOrders` | server.js:241 | at most 200 stored orders, each once, newest first; if an order is left out, 200 are listed and none is older than it |
| `Server.App.Login` | server.js:66-83 | the login callback updates the users collection and answers exactly as `FindOrCreate` says; orders are untouched |
| `Server.App.PostCustomOrder` | server.js:151-194 | unauthenticated: the guard's response and nothing stored or mailed; store failure: 500 and nothing changed; otherwise the new order is stored at a fresh id, then one mail to the trimmed ADMIN_EMAILS is attempted; the reply is `{success, orderId}` if it was delivered, else 500, and the order stays stored either way |
| `Server.App.CreateOrder` | server.js:155-162 | the new order is stored at a fresh id, the id counter advances, the store stays well-formed, and the write is logged |
| `Server.App.NotifyAdmins` | server.js:174-186 | exactly one mail attempt to the trimmed ADMIN_EMAILS is logged, with its outcome |
| `Server.App.PostAdminUpdate` | server.js:245-263 | an unknown id gives 404 and changes nothing; otherwise only that order changes, by the transition, and the reply redirects to `/admin` |
| `Server.App.GetMyOrders` | server.js:266-269 | unauthenticated: the guard's response; otherwise exactly the caller's stored orders, each once, newest first |
| `Server.App.GetAdminOrders` | server.js:240-243 | with no guard, at most 200 stored orders, each once, newest first, and the newest ones in the store |

## Findings

| source | as written | input that shows it | evidently intended | confidence | as-written member | corrected member |
|---|---|---|---|---|---|---|
| server.js:98-101 | `req.headers.accept.indexOf('json')` is evaluated for every unauthenticated non-XHR request. When the Accept header is missing it throws a TypeError, and Express answers with its default 500 error page | a request with no session, `req.xhr` false and no Accept header, e.g. `GET /cart` from a bare HTTP client | a missing Accept header does not ask for JSON: 401 if Content-Type is `application/json`, otherwise a redirect to `/login` | medium, not executed | `Guards.EnsureAuthAsWritten` (shown by `Guards.MissingAcceptCrashes`) | `Guards.EnsureAuth` (used by `Server.App.PostCustomOrder` and `Server.App.GetMyOrders`) |

## Left out

- The Gemini proxy (`POST /api/gemini`) and the model-listing script 1.js: pure pass-throughs to an external API, with no state.
- Process wiring: dotenv, Express setup, static files, body parsers, the Mongo connection, the session store and cookie settings, and Passport's serialize/deserialize. The session's user is given in `Guards.Request`.
- Page rendering (`/`, `/login`, `/logout`, `/cart`, `/custom`, and the render step of `/admin`): `App.GetAdminOrders` returns the list the view is given.
- The nodemailer transport and the mail's subject and text: the send is one attempt whose outcome is the `delivered` parameter, recorded with its `to` string.
- Mongoose casting of body values to the schema's String and Number types: values are stored as supplied. A value that cannot be cast makes `Order.create` fail; this is covered only as the `stored = false` outcome. The stored-order invariant `Lifecycle.WellFormed` (price and comments unset or truthy), kept by `Server.App`, is a fact about these uncast values only. Mongo would store a supplied truthy price `"0"` or `" "` as the falsy Number 0.
- Malformed ids in `/admin/order/:id/update`: ids are store keys. A string that is not an ObjectId makes `findById` reject. That rejection is unhandled in the async handler and is not modelled.
- Failures of `find`, `findOne`, `findById`, `User.create` and `save`, other than the creation write: the model assumes these succeed.
- Tie-breaking among equal `createdAt` values: the contracts fix only the newest-first order. The model's sort is one order that Mongo may return.
- Concurrent requests and last-write-wins: each handler runs to completion on its own.
- `Date` values are natural numbers; ObjectIds are counter values.
- Server.App.PostCustomOrder: uses the corrected guard `Guards.EnsureAuth`. For an unauthenticated, non-XHR request without an Accept header the code answers 500 (see Findings), while the model answers 401 or redirects to `/login`. Nothing is stored or mailed in either case.
- Server.App.GetMyOrders: uses the corrected guard `Guards.EnsureAuth`, with the same difference from the code on requests without an Accept header.
- Js.ToLower: only the ASCII letters A-Z are folded. JavaScript's `toLowerCase` also folds other Unicode letters.
- Js.Value: numbers are reals, so NaN (also falsy) is not represented; strings are sequences of Unicode scalar values, not UTF-16 code units.
- Principal.FindOrCreate: `profile.emails` missing is treated like an empty list. Both throw before the lookup.
- Principal.FindByGoogleId: if several users share a Google id, `findOne` returns the first in natural order. This is modelled as the lowest id.
