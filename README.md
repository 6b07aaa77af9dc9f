# A verified model of the todo app's identity, task and session rules

The todo app signs users in through an external identity provider ("Atlas")
that runs in an embedded iframe. It then keeps a per-user task list on a
FastAPI backend. This project models, in Dafny, the parts of the app that
make decisions or change stored state:

- **Backend identity rules** (`app/auth.py`), in `identity.dfy`:
  - the "link, conflict or create" rule of `POST /register` over the users table;
  - `get_current_user`, which maps a bearer token's decoded payload to a user row or an HTTP error.
- **The per-user task store** (`app/tasks.py`), in `tasks.dfy`: create, list, partial update and delete of the current user's tasks.
- **The frontend token helpers** (`frontend/src/utils/auth.js`), in `token_utils.dfy`:
  - the expiry check on the JWS compact form (section 7.1 of RFC 7515), including `split(".")` and the acceptance rules of `atob`;
  - the refresh call's effect on the two localStorage items.
- **The iframe message handler** (`frontend/src/components/AuthIframe.jsx`), in `auth_iframe.dfy`:
  - origin pinning and dispatch on the message type;
  - token and user validation;
  - the ATLAS_AUTH_COMPLETE message it forwards;
  - its `iframeHeight`/`isProcessing` state.
- **The App's authentication bootstrap** (`frontend/src/App.jsx`), in `app_shell.dfy`:
  - the initial check;
  - the ATLAS_AUTH_COMPLETE handler with its optional link call and rollback;
  - logout;
  - the ProtectedRoute decision.
- **The API helpers** (`frontend/src/api/index.js`), in `api.dfy`: `isValidUUID` and the requests of the four task calls.

Supporting modules:

- `wrappers.dfy`: Option and Result.
- `text.dfy`: decimal text and Python's `int()` on strings.
- `jsvalues.dfy`: JavaScript values with truthiness, optional-chaining reads and `String()`.

Each stateful part is a class whose methods change its fields step by step,
as the source does, and whose contracts give the whole new state. Where the
source makes a decision worth reasoning about, a pure function specifies the
method, and the properties are proved about that function:

- RegisterOrLogin for the users table;
- Updated for the update loop;
- ClassifyMessage for the iframe handler;
- InitialCheck, AfterAuthComplete and AfterLogout for the App.

The task table's create, update and delete, the refresh call and the
localStorage methods state their effect directly in their own contracts,
against the old state. Decoded token payloads,
the current time, fresh database keys, the outcome of network calls and the
part of token decoding after `atob` are all parameters.

## Model

| member | source | states |
|---|---|---|
| Text.ParsePyInt | app/auth.py:41-44 | int() of a string succeeds only on text holding a digit, and only when the trimmed text has at most 4300 digits (`sys.int_max_str_digits`); anything else is the ValueError (None) |
| Text.ParseUnsignedDigits | app/auth.py:42 | int() of 1 to 4300 plain digits is their decimal value |
| Text.ParseNegatedDigits | app/auth.py:42 | int() of '-' and 1 to 4300 plain digits is minus their decimal value |
| Text.TooManyDigitsIsValueError | app/auth.py:42-44 | int() of more than 4300 digits raises ValueError |
| Text.ParsePyIntOfIntToString | app/auth.py:42 | int() of the decimal text of an integer of at most 4300 digits gives that integer back |
| Text.IntToStringInjective | frontend/src/api/index.js:55-56 | Distinct integers have distinct decimal texts (used by Api.TaskPathInjective) |
| Identity.First | app/auth.py:81-83 | `.first()` of a filter: the index of the first matching row, and None exactly when no row matches |
| Identity.RegisterOrLogin | app/auth.py:75-121 | An external-id match updates that row's email and username, returns it and adds no row. Otherwise a taken email gives 409 with the table unchanged. Otherwise exactly one row carrying the supplied data is appended |
| Identity.RegisterTwiceIsRegisterOnce | app/auth.py:81-121 | Repeating the call with the same data gives the same answer and leaves the table as the first call left it |
| Identity.RegisterKeepsRowsUnique | app/auth.py:109-121 | The table never gets two rows with one external id; a fresh primary key keeps the ids distinct |
| Identity.UserTable.RegisterOrLoginOAuthUser | app/auth.py:75-121 | The in-place update (two field assignments, or an append) yields exactly the answer and table of RegisterOrLogin, and keeps both ids unique |
| Identity.PyIntOf | app/auth.py:41-44 | int() of a payload value: an int is itself, a bool is 0 or 1, a string goes through ParsePyInt, and None, lists and dicts raise |
| Identity.JwtDecode | app/auth.py:30 | A decode never reports expiry unless verify_exp is on; with both checks off it succeeds exactly for a well-formed token and returns its payload |
| Identity.ResolveSubject | app/auth.py:33-54 | The try body succeeds exactly when 'sub' is truthy, converts with int() and names a row's external id, returning that row; otherwise 401 or 404 |
| Identity.GetCurrentUser | app/auth.py:21-63 | As written: a malformed token is exactly the 401 "Invalid token" case; every other error is 500; "Token has expired" never occurs; a success is ResolveSubject's row |
| Identity.CurrentUserIgnoresSignatureAndClock | app/auth.py:30 | The answer does not depend on the signature or the current time |
| Identity.SubjectTextResolvesToUser | app/auth.py:33-54 | A payload whose 'sub' is the decimal text of a row's external id (at most 4300 digits) resolves to the first such row |
| Identity.GetCurrentUserCorrected | app/auth.py:21-63 | Corrected handler: a malformed token gives 401 "Invalid token", and otherwise the try body's own result (401/404 included) comes back unchanged |
| Identity.CorrectedAgreesOnSuccess | app/auth.py:25-63 | The as-written and corrected handlers succeed on the same inputs with the same row |
| Identity.MissingSubjectIsReportedAsServerError | app/auth.py:35-36 | An empty payload gets 500 as written where the corrected handler gives 401 "'sub' claim not found" |
| Tasks.OwnedBelow | app/tasks.py:37-38 | The owner's tasks with keys below n, stored, strictly ascending, and complete |
| Tasks.Window | app/tasks.py:39-40 | OFFSET/LIMIT: the length is min(limit, remaining) and element k is element skip+k |
| Tasks.ModelDump | app/tasks.py:57 | `model_dump(exclude_unset=True)` holds an entry for a field exactly when the request set it, with the set value |
| Tasks.Updated | app/tasks.py:57-60 | Exactly the fields the request set are overwritten; unset fields, id and user id keep their values |
| Tasks.DumpedFieldsApplied | app/tasks.py:57-60 | The setattr fold over the dumped entries has the field-wise effect Updated states |
| Tasks.ApplyUpdate | app/tasks.py:59-60 | The setattr loop computes Updated |
| Tasks.UpdateIsIdempotent | app/tasks.py:57-60 | Applying the same update twice gives the task one application gives |
| Tasks.EmptyUpdateKeepsTask | app/tasks.py:57-60 | An update that sets no field leaves the task unchanged |
| Tasks.NewTask | app/tasks.py:17-24 | The inserted row carries the request's title and the owner's id; `completed` is never null: the request's value when given, otherwise the column default False (app/models.py:23) |
| Tasks.TaskTable.CreateTask | app/tasks.py:10-28 | On success one task is added under a fresh key and returned as NewTask builds it, so an unset or null `completed` is stored and returned as False. A failure of the insert or the commit returns 500 with its message and leaves the table unchanged |
| Tasks.TaskTable.ReadTasks | app/tasks.py:30-42 | At most `limit` tasks, all stored and owned by the current user, in ascending key order; with no skip and fewer than `limit` results, every owned task is present |
| Tasks.TaskTable.DefaultListing | app/tasks.py:30-42 | With the defaults skip=0 and limit=100, the ones the frontend's task list uses, the answer is the owner's first 100 tasks in key order, so no more than 100 are ever shown |
| Tasks.TaskTable.UpdateTask | app/tasks.py:44-64 | A task that is absent or owned by another user gives 404 "Task not found" and no change. Otherwise only that task is replaced by its update |
| Tasks.TaskTable.DeleteTask | app/tasks.py:66-80 | A task that is absent or not owned gives 404 with no change. Otherwise exactly that key is removed, other users' tasks included in what stays, and the message is "Task deleted successfully" |
| TokenUtils.LocalStorage.SetItem | frontend/src/utils/auth.js:12-13 | setItem stores String(value) under one key and leaves the other |
| TokenUtils.LocalStorage.RemoveItem | frontend/src/utils/auth.js:16-17 | removeItem clears one key and leaves the other |
| TokenUtils.Split | frontend/src/utils/auth.js:26 | split(".") gives at least one segment, none containing '.', and the whole string when there is no '.' |
| TokenUtils.JoinSplit | frontend/src/utils/auth.js:26 | Joining the segments with '.' gives the token back |
| TokenUtils.Atob | frontend/src/utils/auth.js:26 | After white space and one or two final '=' (when the length is a multiple of four) are removed, atob succeeds exactly when the rest is base64 text (section 4 of RFC 4648) whose length does not leave remainder 1, and then decodes that rest |
| TokenUtils.AtobAcceptsBase64 | frontend/src/utils/auth.js:26 | Base64 text, unpadded or with the '=' padding that completes its last quantum, is accepted and decodes from its unpadded characters |
| TokenUtils.AtobRejectsForeignChar | frontend/src/utils/auth.js:26 | A character outside the base64 alphabet, '=' and white space makes atob throw |
| TokenUtils.DecodePayload | frontend/src/utils/auth.js:26 | Claims are read only from a token with a second '.'-segment that atob accepts |
| TokenUtils.CheckTokenValidity | frontend/src/utils/auth.js:22-31 | A token is valid only when it is non-empty, has a second segment and its payload decodes (the full condition is ValidExactlyWhenUnexpired) |
| TokenUtils.ValidExactlyWhenUnexpired | frontend/src/utils/auth.js:22-31 | checkTokenValidity is true exactly for a non-empty token whose payload decodes with an `exp` and exp*1000 > now |
| TokenUtils.NoPayloadSegmentIsInvalid | frontend/src/utils/auth.js:25-30 | A token with no '.' is invalid: atob("undefined") throws |
| TokenUtils.UrlSafePayloadIsInvalid | frontend/src/utils/auth.js:25-30 | A base64url payload (section 5 of RFC 4648) containing '-' or '_' is invalid whatever it encodes |
| TokenUtils.ValidityOnlyExpires | frontend/src/utils/auth.js:27 | A token valid at a time was valid at every earlier time |
| TokenUtils.RefreshAccessToken | frontend/src/utils/auth.js:3-20 | With no refresh token: false, store unchanged. On a readable answer: true, both returned tokens stored. On a rejected call: false, both tokens removed |
| AuthIframe.ForwardedUser | frontend/src/components/AuthIframe.jsx:41-47 | The forwarded user has exactly id, email and username, with username defaulting to the empty string |
| AuthIframe.ClassifyMessage | frontend/src/components/AuthIframe.jsx:12-75 | Any other origin is dropped. A height message resizes to its height. A success message lacking a token is rejected, as is a registration without user id and email. A success from the provider with both tokens is forwarded exactly when it has a usable user or is a login; it carries the tokens and the shaped user or null, and null only for a login |
| AuthIframe.LoginWithoutUserForwardsNull | frontend/src/components/AuthIframe.jsx:40-64 | AUTH_SUCCESS with both tokens and no usable user forwards ATLAS_AUTH_COMPLETE with a null user |
| AuthIframe.ErrorsAndUnknownTypesPostNothing | frontend/src/components/AuthIframe.jsx:68-74 | ATLAS_AUTH_ERROR becomes an alert with the error's message or the default text; any other type is ignored |
| AuthIframe.AuthIframeState.constructor | frontend/src/components/AuthIframe.jsx:6-7 | The height starts at 400 and nothing is processing |
| AuthIframe.AuthIframeState.HandleMessage | frontend/src/components/AuthIframe.jsx:12-75 | A message is posted exactly for a forward; only a resize changes the height; processing is off after every success, validation failure and error report |
| AppShell.InitialCheck | frontend/src/App.jsx:19-53 | The check always ends checked and consistent. A missing token leaves the store untouched and unauthenticated. With both tokens, isAuth equals checkTokenValidity of the access token, and a failed check removes both tokens |
| AppShell.UndecodableTokenIsCleared | frontend/src/App.jsx:44-48 | A decode error removes both tokens and leaves the App unauthenticated |
| AppShell.InitialCheckIsIdempotent | frontend/src/App.jsx:19-53 | Running the check again at the same time changes nothing |
| AppShell.PlanAuthComplete | frontend/src/App.jsx:57-89 | Tokens are saved exactly for an ATLAS_AUTH_COMPLETE with both tokens; the link call is planned exactly when the user has id and email, and carries them |
| AppShell.AfterAuthComplete | frontend/src/App.jsx:57-116 | Without both tokens nothing changes. A skipped or successful link ends authenticated with both tokens stored. A failed link removes both tokens and ends unauthenticated. Consistency is kept |
| AppShell.AuthCompleteIsIdempotent | frontend/src/App.jsx:57-116 | Handling the same message twice leaves the state of handling it once |
| AppShell.ForwardedMessageIsAccepted | frontend/src/App.jsx:59-92 | What the iframe forwards is accepted: its tokens are saved, the link call is made exactly for a usable user with the defaulted username, and a login without a user ends authenticated |
| AppShell.UncheckedSenderLogsIn | frontend/src/App.jsx:57-72 | Any sender's complete message with two non-empty tokens and no user logs the App in with those tokens |
| AppShell.AfterLogout | frontend/src/App.jsx:139-146 | Logout removes both tokens and ends unauthenticated and consistent |
| AppShell.LogoutIsIdempotent | frontend/src/App.jsx:139-143 | Logging out twice is logging out once |
| AppShell.ProtectedRoute | frontend/src/App.jsx:124-137 | The spinner shows exactly before the initial check; children render exactly when checked and authenticated; otherwise the redirect to /login |
| AppShell.SpinnerUntilChecked | frontend/src/App.jsx:126-132 | Before the initial check, protected pages show the spinner |
| AppShell.RouteAfterInitialCheck | frontend/src/App.jsx:124-137 | After the initial check, protected pages render exactly when both tokens are stored and the access token is valid, and otherwise redirect to /login |
| AppShell.ChildrenOnlyWithStoredTokens | frontend/src/App.jsx:124-137 | In a consistent state, protected pages render only with both tokens stored |
| AppShell.LogoutRedirects | frontend/src/App.jsx:133-143 | After logout a checked App redirects protected pages to /login |
| AppShell.App.constructor | frontend/src/App.jsx:14-15 | The App starts unchecked and unauthenticated |
| AppShell.App.InitialAuthCheck | frontend/src/App.jsx:19-53 | The mount effect moves the fields and the store as InitialCheck says |
| AppShell.App.HandleAuthComplete | frontend/src/App.jsx:57-116 | The handler moves the fields and the store as AfterAuthComplete says, and makes exactly the planned link call |
| AppShell.App.HandleLogout | frontend/src/App.jsx:139-146 | Logout moves the fields and the store as AfterLogout says |
| Api.IsValidUUID | frontend/src/api/index.js:61-64 | The regex test on String(uuid); an accepted value's text is 36 characters long (the full shape is ValidUuidIffShape) |
| Api.ValidUuidIffShape | frontend/src/api/index.js:61-64 | isValidUUID accepts exactly the 36-character strings with '-' at 8, 13, 18 and 23 and hex digits elsewhere |
| Api.ValidUuidIgnoresCase | frontend/src/api/index.js:62 | A string is accepted exactly when its lower-cased form is |
| Api.AnyHexDigitAnywhere | frontend/src/api/index.js:62 | No version or variant check: any hex digit may stand at any non-hyphen position |
| Api.ValidUuidIsAnchored | frontend/src/api/index.js:62 | One extra character before or after an accepted string is rejected |
| Api.TaskPath | frontend/src/api/index.js:55-56 | The update and delete paths start with "/tasks/" |
| Api.BearerHeader | frontend/src/api/index.js:53-56 | The Authorization header is "Bearer " followed by String(token) |
| Api.GetTasks | frontend/src/api/index.js:53 | GET /api/tasks with the bearer header and no body; the token and path properties are TaskCallsCarryToken, TaskPathNamesTheId and TaskPathInjective |
| Api.CreateTask | frontend/src/api/index.js:54 | POST /api/tasks with the bearer header, sending the task; the token and path properties are TaskCallsCarryToken, TaskPathNamesTheId and TaskPathInjective |
| Api.UpdateTask | frontend/src/api/index.js:55 | PUT /api/tasks/{String(id)} with the bearer header, sending the task; the token and path properties are TaskCallsCarryToken, TaskPathNamesTheId and TaskPathInjective |
| Api.DeleteTask | frontend/src/api/index.js:56 | DELETE /api/tasks/{String(id)} with the bearer header and no body; the token and path properties are TaskCallsCarryToken, TaskPathNamesTheId and TaskPathInjective |
| Api.TaskPathNamesTheId | frontend/src/api/index.js:55-56 | The last segment of a numeric id's path reads back as the id's signed decimal value |
| Api.TaskPathInjective | frontend/src/api/index.js:55-56 | Distinct numeric ids give distinct paths |
| Api.TaskCallsCarryToken | frontend/src/api/index.js:53-56 | Every task call's Authorization header is "Bearer " followed by the token; update and delete address /api/tasks/{id}, and update sends the task |

## Left out

- `app/database.py` and `app/main.py` are not part of this model. They hold the engine, the session generator, its retry loop, the app wiring and CORS.
- The proxy endpoint at the end of `app/auth.py` (outbound HTTP) is not modelled.
- The UI is not modelled: TodoList.jsx, Login.jsx, Registration.jsx, rendering, `alert`, notifications, console output and `navigate`.
- The Atlas endpoints and the profile and register calls of api/index.js are network I/O and are not modelled.
- Asynchrony is not modelled. Each message, effect and handler is one sequential transition. The outcome of the link call is a parameter, and `navigate` and the notifications are taken never to throw.
- The `HTTPBearer` dependency of `get_current_user` (app/auth.py:18, 22) is not modelled. FastAPI answers 403 before the handler runs when the Authorization header is missing, is not a Bearer scheme or has empty credentials; Identity.GetCurrentUser starts from the credentials it hands over.
- JWT decoding internals are inputs: the payload of a well-formed token, whether its signature checks, and the clock.
- On the frontend, what follows atob's checks is an input function: turning the bits into text, JSON.parse and reading `exp`. Its numeric result is an integer, so floating point and NaN are not modelled. A missing or non-numeric `exp` is None.
- Identity.JwtDecode: its expiry branch is simplified. It is never taken with `verify_exp` off, the only way the source calls it.
- The database's unique constraints on username and email are not modelled. The link branch can assign an email another row already holds; the database would reject that commit.
- `models.py` calls the external-id column `atlas_user_id` while `auth.py` filters on `external_user_id`. The model has one integer external-id field.
- The new user's UUID key is a parameter (`freshId`), and the model requires it to be unused.
- Tasks.TaskTable.ReadTasks: the SQL query has no ORDER BY, so the database's order is unspecified. The model fixes ascending key order.
- Tasks.TaskTable.ReadTasks: negative `skip` or `limit` are not modelled (`nat`).
- Database failures are modelled only for create_task's insert and commit. Three others are not modelled:
  - a failing `db.refresh` after create_task's commit, which gives 500 while the task stays stored;
  - a failing commit in register (app/auth.py:90, 119), update_task and delete_task (app/tasks.py:62, 79), which FastAPI turns into an unhandled 500;
  - a failing `db.refresh` after those commits.
- Text.ParsePyInt: it skips only the ASCII white space `int()` skips (TAB, LF, VT, FF, CR, SPACE) and reads ASCII digits only; the non-ASCII digits and spaces Python's `int()` also accepts are not modelled.
- JsValues: arrays, functions and non-integer numbers are not modelled.
- JsValues.ToText: a JavaScript number is modelled as an exact, unbounded integer written in plain decimal. String() writes integers of magnitude 1e21 and above in exponent form ("1e+21"), and integers beyond 2^53 are not exactly representable; neither is captured.
- Identity.PyIntOf: floats in the decoded payload are not modelled. A JSON 'sub' such as `5.0` decodes to a Python float, which int() truncates to 5, so such a token resolving to user 5 is not captured.
- Module-level import breakage is not modelled. App.jsx imports `register` from api/index.js, which does not export it, and api/index.js has a duplicate export block. The link call is modelled as the POST /register request it was meant to make.
- The route guard reads only `authChecked` and `isAuth`. No role claim is decoded, and the access token is not re-checked after the initial check.
- The App reads tokens only from localStorage and from ATLAS_AUTH_COMPLETE messages. It has no URL-parameter handoff; the model follows the code.
- AuthIframe rejects a REGISTER_SUCCESS message without tokens. It does not perform a link call followed by a login prompt; the model follows the code.
- The App's message listener does not check `event.origin`. That is stated by AppShell.UncheckedSenderLogsIn, not corrected.

## Findings

| source | as written | input that shows it | evidently intended | confidence | as-written member | corrected member |
|---|---|---|---|---|---|---|
| app/auth.py:35-52, 61-63 | The 401 and 404 HTTPExceptions raised inside the `try` are caught by `except Exception` and re-raised as 500 "Internal server error during authentication" | A well-formed token whose payload has no 'sub' claim, e.g. `{}` | The 401 "Invalid token: 'sub' claim not found" (and the other 401/404 raised in the try) reach the client | not executed | Identity.MissingSubjectIsReportedAsServerError | Identity.GetCurrentUserCorrected |
