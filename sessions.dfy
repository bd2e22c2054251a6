/**
 * The in-memory session table of the login/logout API: the read-only user
 * store, the table of active bearer tokens, and the three request handlers
 * (login, current-user resolution, logout) as transitions on those values.
 *
 * Every handler either succeeds with a response body or fails with an HTTP
 * error carrying a status code and a detail string.
 */
module Sessions {

  /** The creation time stored with a session. The API never reads it back,
      so it is an opaque number supplied by the caller. */
  type Timestamp = int

  /** A record of the user store: the stored username and plain password. */
  datatype UserRecord = UserRecord(username: string, password: string)

  /** The value kept under an active token: its owner and creation time. */
  datatype Session = Session(username: string, createdAt: Timestamp)

  /** Response body of a successful login. */
  datatype Token = Token(accessToken: string, tokenType: string)

  /** Response body of the identity endpoint. */
  datatype User = User(username: string)

  /** Response body of a successful logout. */
  datatype Message = Message(message: string)

  /** An HTTP error as raised by a handler. */
  datatype HttpError = HttpError(statusCode: int, detail: string)

  datatype Option<T> = None | Some(value: T)

  datatype Result<T> = Ok(value: T) | Err(error: HttpError)

  /** What a handler answers, together with the token table it leaves behind. */
  datatype Outcome<T> = Outcome(reply: Result<T>, tokens: map<string, Session>)

  const HttpUnauthorized: int := 401
  const IncorrectCredentials: string := "Incorrect username or password"
  const InvalidToken: string := "Invalid or expired token"
  const LoggedOut: string := "Successfully logged out."
  const Bearer: string := "bearer"

  function Unauthorized(detail: string): HttpError
  {
    HttpError(HttpUnauthorized, detail)
  }

  /** The seeded user store: a single user "alice". */
  function FakeUsersDb(): map<string, UserRecord>
  {
    map["alice" := UserRecord("alice", "wonderland")]
  }

  /** Dictionary `get`: the value under `key`, or nothing. */
  function Get<K, V>(m: map<K, V>, key: K): Option<V>
  {
    if key in m then Some(m[key]) else None
  }

  /** The credentials name a stored user whose password is the one given. */
  predicate CredentialsMatch(users: map<string, UserRecord>, username: string, password: string)
  {
    username in users && users[username].password == password
  }

  /** The usernames that some record of the user store carries. */
  function KnownUsernames(users: map<string, UserRecord>): set<string>
  {
    set k | k in users :: users[k].username
  }

  /** Table invariant: every active session belongs to a user of the store. */
  predicate SessionsValid(users: map<string, UserRecord>, tokens: map<string, Session>)
  {
    forall t :: t in tokens ==> tokens[t].username in KnownUsernames(users)
  }

  /**
   * login: look the username up, compare passwords, and on a match record a
   * session for `token` (the freshly generated token) stamped `now`.
   * Only the token table can change; on failure it does not.
   */
  function Login(users: map<string, UserRecord>, tokens: map<string, Session>,
                 username: string, password: string, token: string, now: Timestamp): (r: Outcome<Token>)
    ensures !CredentialsMatch(users, username, password) ==>
              r == Outcome(Err(Unauthorized(IncorrectCredentials)), tokens)
    ensures CredentialsMatch(users, username, password) ==>
              && r.reply == Ok(Token(token, Bearer))
              && r.tokens.Keys == tokens.Keys + {token}
              && r.tokens[token] == Session(users[username].username, now)
              && (forall t :: t in tokens && t != token ==> r.tokens[t] == tokens[t])
  {
    match Get(users, username)
    case None =>
      Outcome(Err(Unauthorized(IncorrectCredentials)), tokens)
    case Some(user) =>
      if user.password != password then
        Outcome(Err(Unauthorized(IncorrectCredentials)), tokens)
      else
        Outcome(Ok(Token(token, Bearer)), tokens[token := Session(user.username, now)])
  }

  /**
   * get_current_user: resolve a bearer token to the user that owns it.
   * Succeeds exactly when the token is active.
   */
  function CurrentUser(tokens: map<string, Session>, token: string): (r: Result<User>)
    ensures r.Ok? <==> token in tokens
    ensures r.Ok? ==> r.value.username == tokens[token].username
    ensures r.Err? ==> r.error == Unauthorized(InvalidToken)
  {
    match Get(tokens, token)
    case None => Err(Unauthorized(InvalidToken))
    case Some(data) => Ok(User(data.username))
  }

  /**
   * read_users_me: the handler receives the user resolved by
   * get_current_user and returns it as it is; when resolution fails the
   * handler does not run and the resolution error is the answer.
   */
  function ReadUsersMe(tokens: map<string, Session>, token: string): (r: Result<User>)
    ensures r == CurrentUser(tokens, token)
  {
    match CurrentUser(tokens, token)
    case Err(e) => Err(e)
    case Ok(currentUser) => Ok(currentUser)
  }

  /**
   * logout: delete an active token. Succeeds exactly when the token is
   * active, and then only that token disappears.
   */
  function Logout(tokens: map<string, Session>, token: string): (r: Outcome<Message>)
    ensures r.reply.Ok? <==> token in tokens
    ensures r.reply.Ok? ==>
              && r.reply.value == Message(LoggedOut)
              && r.tokens.Keys == tokens.Keys - {token}
              && (forall t :: t in r.tokens ==> r.tokens[t] == tokens[t])
    ensures r.reply.Err? ==> r == Outcome(Err(Unauthorized(InvalidToken)), tokens)
  {
    if token in tokens then
      Outcome(Ok(Message(LoggedOut)), tokens - {token})
    else
      Outcome(Err(Unauthorized(InvalidToken)), tokens)
  }

  /** A successful login makes its token resolve to the stored username. */
  lemma LoginThenCurrentUser(users: map<string, UserRecord>, tokens: map<string, Session>,
                             username: string, password: string, token: string, now: Timestamp)
    requires CredentialsMatch(users, username, password)
    ensures CurrentUser(Login(users, tokens, username, password, token, now).tokens, token)
            == Ok(User(users[username].username))
  {
  }

  /** A failed login leaves every token resolving as before. */
  lemma FailedLoginChangesNothing(users: map<string, UserRecord>, tokens: map<string, Session>,
                                  username: string, password: string, token: string, now: Timestamp, t: string)
    requires !CredentialsMatch(users, username, password)
    ensures CurrentUser(Login(users, tokens, username, password, token, now).tokens, t)
            == CurrentUser(tokens, t)
  {
  }

  /**
   * The generated token is not checked for freshness: a login whose token is
   * already active replaces the previous session instead of adding one.
   */
  lemma LoginOverwritesCollision(users: map<string, UserRecord>, tokens: map<string, Session>,
                                 username: string, password: string, token: string, now: Timestamp)
    requires CredentialsMatch(users, username, password)
    requires token in tokens
    ensures |Login(users, tokens, username, password, token, now).tokens| == |tokens|
    ensures Login(users, tokens, username, password, token, now).tokens[token].username
            == users[username].username
  {
  }

  /**
   * After a successful logout the token no longer resolves, and a second
   * logout with the same token fails: logout is not idempotent.
   */
  lemma LogoutRevokes(tokens: map<string, Session>, token: string)
    requires token in tokens
    ensures CurrentUser(Logout(tokens, token).tokens, token) == Err(Unauthorized(InvalidToken))
    ensures Logout(Logout(tokens, token).tokens, token)
            == Outcome(Err(Unauthorized(InvalidToken)), Logout(tokens, token).tokens)
  {
  }

  /** Logging one token out does not affect how any other token resolves. */
  lemma LogoutLeavesOthers(tokens: map<string, Session>, token: string, other: string)
    requires other != token
    ensures CurrentUser(Logout(tokens, token).tokens, other) == CurrentUser(tokens, other)
  {
  }

  /** Logout undoes a login whose token was not yet active. */
  lemma LoginLogoutRoundTrip(users: map<string, UserRecord>, tokens: map<string, Session>,
                             username: string, password: string, token: string, now: Timestamp)
    requires CredentialsMatch(users, username, password)
    requires token !in tokens
    ensures Logout(Login(users, tokens, username, password, token, now).tokens, token)
            == Outcome(Ok(Message(LoggedOut)), tokens)
  {
  }

  /** Login keeps the table invariant. */
  lemma LoginKeepsSessionsValid(users: map<string, UserRecord>, tokens: map<string, Session>,
                                username: string, password: string, token: string, now: Timestamp)
    requires SessionsValid(users, tokens)
    ensures SessionsValid(users, Login(users, tokens, username, password, token, now).tokens)
  {
  }

  /** Logout keeps the table invariant. */
  lemma LogoutKeepsSessionsValid(users: map<string, UserRecord>, tokens: map<string, Session>, token: string)
    requires SessionsValid(users, tokens)
    ensures SessionsValid(users, Logout(tokens, token).tokens)
  {
  }
}
