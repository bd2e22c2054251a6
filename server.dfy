/**
 * The API's module-level state: the user store and the active-token table,
 * as one object whose login and logout handlers update the token table in
 * place. Identity resolution reads the table through Sessions.CurrentUser
 * and Sessions.ReadUsersMe.
 */
module Server {
  import opened Sessions

  class SessionStore {
    /** The user store; it is fixed at start-up and no handler writes it. */
    const users: map<string, UserRecord>
    /** The active tokens, each mapped to its session. */
    var tokens: map<string, Session>

    ghost predicate Valid()
      reads this
    {
      SessionsValid(users, tokens)
    }

    /** The state at start-up: the seeded user store and no active token. */
    constructor ()
      ensures Valid()
      ensures users == FakeUsersDb() && tokens == map[]
    {
      users := FakeUsersDb();
      tokens := map[];
    }

    /**
     * POST /login with the submitted credentials. `token` is the newly
     * generated random token and `now` the current time.
     */
    method Login(username: string, password: string, token: string, now: Timestamp)
      returns (r: Result<Token>)
      requires Valid()
      modifies this`tokens
      ensures Valid()
      ensures Outcome(r, tokens) == Sessions.Login(users, old(tokens), username, password, token, now)
    {
      LoginKeepsSessionsValid(users, tokens, username, password, token, now);
      var user := Get(users, username);
      if user.None? || user.value.password != password {
        return Err(Unauthorized(IncorrectCredentials));
      }
      tokens := tokens[token := Session(user.value.username, now)];
      r := Ok(Token(token, Bearer));
    }

    /** POST /logout with the bearer token. */
    method Logout(token: string) returns (r: Result<Message>)
      requires Valid()
      modifies this`tokens
      ensures Valid()
      ensures Outcome(r, tokens) == Sessions.Logout(old(tokens), token)
    {
      LogoutKeepsSessionsValid(users, tokens, token);
      if token in tokens {
        tokens := tokens - {token};
        r := Ok(Message(LoggedOut));
      } else {
        r := Err(Unauthorized(InvalidToken));
      }
    }
  }

  /**
   * On a store whose invariant holds, the identity endpoint only ever answers
   * with a username that a record of the user store carries.
   */
  lemma StoreAnswersKnownUsers(store: SessionStore, token: string)
    requires store.Valid()
    ensures ReadUsersMe(store.tokens, token).Ok? ==>
              ReadUsersMe(store.tokens, token).value.username in KnownUsernames(store.users)
  {
  }

  /**
   * A client session against a freshly started server: a wrong password,
   * then alice logs in, asks who she is, logs out, logs out again and asks
   * again. The answers follow from the handlers' contracts alone.
   */
  method AliceSession(token: string, now: Timestamp)
    returns (rejected: Result<Token>, login: Result<Token>, me: Result<User>,
             logout: Result<Message>, again: Result<Message>, after: Result<User>)
    ensures rejected == Err(HttpError(401, "Incorrect username or password"))
    ensures login == Ok(Token(token, "bearer"))
    ensures me == Ok(User("alice"))
    ensures logout == Ok(Message("Successfully logged out."))
    ensures again == Err(HttpError(401, "Invalid or expired token"))
    ensures after == Err(HttpError(401, "Invalid or expired token"))
  {
    var store := new SessionStore();
    rejected := store.Login("alice", "rabbit", token, now);
    login := store.Login("alice", "wonderland", token, now);
    me := ReadUsersMe(store.tokens, token);
    logout := store.Logout(token);
    again := store.Logout(token);
    after := ReadUsersMe(store.tokens, token);
  }
}
