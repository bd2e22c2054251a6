# Login/logout session table

A Dafny model of the server side of the login/logout API in `app.py`. The
API keeps two in-memory dictionaries: a read-only user store
(`fake_users_db`, seeded with the single user `alice` / `wonderland`) and a
mutable table of active bearer tokens (`active_tokens`), each mapped to its
owner's username and creation time. Three handlers work on them:

- `login` checks the submitted username and password against the user store.
  On a match it records a session under a newly generated token and answers
  `{access_token, token_type: "bearer"}`. Otherwise it fails with 401
  "Incorrect username or password".
- `get_current_user`, and `read_users_me` on top of it, resolve a bearer
  token to its owner's username, or fail with 401 "Invalid or expired token".
- `logout` deletes an active token and answers "Successfully logged out.",
  or fails with 401 "Invalid or expired token".

Layout:

- `sessions.dfy` (module `Sessions`) holds the records (`UserRecord`,
  `Session`, `Token`, `User`, `Message`), HTTP errors as a `Result` datatype
  carrying status code and detail, and the three handlers as transitions on
  the two maps. The per-call lemmas relate them: login then lookup, logout
  then lookup, logout undoing login, and the table invariant that every
  session belongs to a known user.
- `server.dfy` (module `Server`) holds the module-level state as the class
  `SessionStore`. `Login` and `Logout` update its token table in place
  (`modifies this`tokens`) and are proved equal to the transitions of
  `Sessions`. Identity lookups are read-only, so they stay the pure functions
  `Sessions.CurrentUser` and `Sessions.ReadUsersMe` applied to the store's
  table. The user store is a `const` field, so no handler can write it.
  `StoreAnswersKnownUsers` states what the store's invariant gives a
  client. `AliceSession` is a client that runs a whole session against a
  freshly started store.
- `requests.dfy` (module `Requests`) handles a sequence of requests in order
  against one table. It proves that the invariant holds after any sequence,
  that every token active at the end was active at the start or issued by a
  successful login, and that a logged-out token stays invalid until a
  successful login issues it again. Failed logins issue nothing.

The random token (`secrets.token_urlsafe(32)`) and the timestamp
(`datetime.utcnow()`) are parameters of the login operations. Python's
truthiness tests (`not user`, `not token_data`) reduce to "absent from the
dictionary", because every stored value is a non-empty dictionary.
`app.py` as written does not parse: the `FastAPI(...)` call at line 9 lacks
a comma after its `title` argument. That call is framework wiring outside
this model; the model follows the handlers as evidently intended.

## Model

| member | source | states |
|---|---|---|
| `Sessions.Login` | app.py:34-54 | Wrong username or password: 401 "Incorrect username or password" and the table is unchanged. Valid credentials: the reply is the given token with type "bearer"; the token's key is added and holds the stored username and the time; every other token keeps its session. |
| `Sessions.CurrentUser` | app.py:56-66 | Succeeds exactly when the token is active, returning its recorded username; otherwise 401 "Invalid or expired token". |
| `Sessions.ReadUsersMe` | app.py:82-87 | Returns the user resolved for the token unchanged, or the resolution error. |
| `Sessions.Logout` | app.py:68-80 | Succeeds exactly when the token is active; then replies "Successfully logged out.", removes exactly that key and keeps every other session. Otherwise 401 "Invalid or expired token" and the table is unchanged. |
| `Sessions.LoginThenCurrentUser` | app.py:49-66 | After a successful login, the new token resolves to the stored username. |
| `Sessions.FailedLoginChangesNothing` | app.py:42-47 | After a failed login, every token resolves as it did before. |
| `Sessions.LoginOverwritesCollision` | app.py:49-53 | A login with an already active token replaces that session and does not add an entry. |
| `Sessions.LogoutRevokes` | app.py:60-80 | After a successful logout the token no longer resolves, and a second logout of it fails with 401. Logout is not idempotent. |
| `Sessions.LogoutLeavesOthers` | app.py:73-75 | Logging one token out does not change how any other token resolves. |
| `Sessions.LoginLogoutRoundTrip` | app.py:49-75 | Logging out a token issued by a login restores the table as it was before that login, if the token was not active before. |
| `Sessions.LoginKeepsSessionsValid` | app.py:42-53 | Login keeps every session owned by a username of the user store. |
| `Sessions.LogoutKeepsSessionsValid` | app.py:73-74 | Logout keeps every session owned by a username of the user store. |
| `Server.SessionStore.constructor` | app.py:15-23 | At start-up the user store is the seeded `alice` record and no token is active. |
| `Server.SessionStore.Login` | app.py:42-54 | Updates the token table in place exactly as `Sessions.Login` describes and keeps the invariant. The user store is a `const` field that it cannot write. |
| `Server.SessionStore.Logout` | app.py:73-80 | Deletes in place exactly as `Sessions.Logout` describes and keeps the invariant. The user store is a `const` field that it cannot write. |
| `Server.StoreAnswersKnownUsers` | app.py:50-51 | On a valid store, `/me` only ever answers with a username that a record of the user store carries. |
| `Server.AliceSession` | app.py:15-87 | Against a fresh server: a wrong password fails with 401. `alice`/`wonderland` gets a bearer token, and `/me` returns `alice`. Logout succeeds once, then fails with 401, and `/me` then fails with 401. |
| `Requests.Handle` | app.py:34-87 | Dispatches a request to its handler. Login: the table is that of `Sessions.Login`; the reply succeeds exactly when the credentials match, with the token and "bearer", and otherwise is 401 "Incorrect username or password". Identity: the table is unchanged; the reply succeeds exactly when the token is active, with its username, and otherwise is 401 "Invalid or expired token". Logout: the table is that of `Sessions.Logout`; the reply succeeds exactly when the token is active, with "Successfully logged out.", and otherwise is 401 "Invalid or expired token". Only a successful login can add a token. |
| `Requests.Serve` | app.py:23-87 | Handles requests in order. Every token active at the end was active at the start or was issued by one of the successful logins. |
| `Requests.ServeKeepsSessionsValid` | app.py:15-80 | After any sequence of requests, every session is owned by a username of the user store. |
| `Requests.LoggedOutStaysRevoked` | app.py:43-80 | After a logout, later requests leave the token invalid unless a later successful login issues it again. Failed logins carrying the token do not count. Lookup and logout both fail with 401. |
| `Requests.LookupsChangeNothing` | app.py:56-87 | A sequence of identity requests leaves the token table unchanged. |

## Left out

- FastAPI wiring is not modelled: the app object, route decorators, `Depends`, and the OAuth2 header and form parsing. Tokens and credentials are plain strings.
- HTTP status codes other than 401 do not arise in these handlers. Framework-level errors, such as a missing `Authorization` header, are not modelled.
- Token generation (`secrets.token_urlsafe(32)`) is a parameter. No freshness is assumed, because the code overwrites an existing entry on collision.
- The creation time (`datetime.utcnow()`) is an opaque integer parameter. Nothing reads it back and nothing expires tokens.
- Pydantic validation of `Token` and `User` is not modelled. They are plain datatypes.
- `generate_api_docs` is not modelled. It is start-up file output of fixed Markdown text.
- Concurrent requests are not modelled. Handlers run one at a time, in the order of the request sequence.
- The browser login script and the Git/SSH Markdown guides of the repository are not part of this model.
