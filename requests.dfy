/**
 * The server handles its requests one after another against the same token
 * table. This module folds a sequence of requests over the table and proves
 * what holds across any such sequence: every session stays owned by a
 * known user, and no token is ever active unless it was active at the start
 * or issued by a successful login.
 */
module Requests {
  import opened Sessions

  datatype Request =
    | LoginRequest(username: string, password: string, token: string, now: Timestamp)
    | MeRequest(token: string)
    | LogoutRequest(token: string)

  datatype Reply = TokenReply(token: Token) | UserReply(user: User) | MessageReply(message: Message)

  function Lift<T>(r: Result<T>, wrap: T -> Reply): Result<Reply>
  {
    match r
    case Ok(v) => Ok(wrap(v))
    case Err(e) => Err(e)
  }

  /**
   * Dispatch one request to its handler. The reply is the handler's answer
   * and the table is the one the handler leaves behind.
   */
  function Handle(users: map<string, UserRecord>, tokens: map<string, Session>, req: Request): (r: Outcome<Reply>)
    ensures req.LoginRequest? ==>
              && r.tokens == Sessions.Login(users, tokens, req.username, req.password, req.token, req.now).tokens
              && (r.reply.Ok? <==> CredentialsMatch(users, req.username, req.password))
              && (r.reply.Ok? ==> r.reply.value == TokenReply(Token(req.token, Bearer)))
              && (r.reply.Err? ==> r.reply.error == Unauthorized(IncorrectCredentials))
    ensures req.MeRequest? ==>
              && r.tokens == tokens
              && (r.reply.Ok? <==> req.token in tokens)
              && (r.reply.Ok? ==> r.reply.value == UserReply(User(tokens[req.token].username)))
              && (r.reply.Err? ==> r.reply.error == Unauthorized(InvalidToken))
    ensures req.LogoutRequest? ==>
              && r.tokens == Sessions.Logout(tokens, req.token).tokens
              && (r.reply.Ok? <==> req.token in tokens)
              && (r.reply.Ok? ==> r.reply.value == MessageReply(Message(LoggedOut)))
              && (r.reply.Err? ==> r.reply.error == Unauthorized(InvalidToken))
    ensures r.tokens.Keys <= tokens.Keys + Issued(users, req)
  {
    match req
    case LoginRequest(username, password, token, now) =>
      var o := Sessions.Login(users, tokens, username, password, token, now);
      Outcome(Lift(o.reply, (t: Token) => TokenReply(t)), o.tokens)
    case MeRequest(token) =>
      Outcome(Lift(ReadUsersMe(tokens, token), (u: User) => UserReply(u)), tokens)
    case LogoutRequest(token) =>
      var o := Sessions.Logout(tokens, token);
      Outcome(Lift(o.reply, (m: Message) => MessageReply(m)), o.tokens)
  }

  /** The token a request issues: that of a login whose credentials match. */
  function Issued(users: map<string, UserRecord>, req: Request): set<string>
  {
    if req.LoginRequest? && CredentialsMatch(users, req.username, req.password) then {req.token} else {}
  }

  /**
   * The tokens that the successful logins of `reqs` issue. The user store is
   * never written, so whether a login succeeds does not depend on the
   * requests before it.
   */
  function IssuedTokens(users: map<string, UserRecord>, reqs: seq<Request>): set<string>
  {
    set i | 0 <= i < |reqs| && reqs[i].LoginRequest? && CredentialsMatch(users, reqs[i].username, reqs[i].password)
      :: reqs[i].token
  }

  /**
   * The token table after handling `reqs` in order. A token active at the
   * end was active at the start or was issued by one of the successful logins.
   */
  function Serve(users: map<string, UserRecord>, tokens: map<string, Session>, reqs: seq<Request>): (r: map<string, Session>)
    ensures r.Keys <= tokens.Keys + IssuedTokens(users, reqs)
    decreases |reqs|
  {
    if reqs == [] then tokens
    else
      var rest := Serve(users, Handle(users, tokens, reqs[0]).tokens, reqs[1..]);
      assert IssuedTokens(users, reqs[1..]) <= IssuedTokens(users, reqs) by {
        forall t | t in IssuedTokens(users, reqs[1..]) ensures t in IssuedTokens(users, reqs) {
          var i :| 0 <= i < |reqs[1..]| && reqs[1..][i].LoginRequest?
                   && CredentialsMatch(users, reqs[1..][i].username, reqs[1..][i].password) && reqs[1..][i].token == t;
          assert reqs[i + 1] == reqs[1..][i];
        }
      }
      assert Issued(users, reqs[0]) <= IssuedTokens(users, reqs);
      rest
  }

  /** Every session in the table belongs to a user of the store, after any requests. */
  lemma {:induction false} ServeKeepsSessionsValid(users: map<string, UserRecord>, tokens: map<string, Session>,
                                                   reqs: seq<Request>)
    requires SessionsValid(users, tokens)
    ensures SessionsValid(users, Serve(users, tokens, reqs))
    decreases |reqs|
  {
    if reqs != [] {
      var next := Handle(users, tokens, reqs[0]).tokens;
      match reqs[0] {
        case LoginRequest(username, password, token, now) =>
          LoginKeepsSessionsValid(users, tokens, username, password, token, now);
        case MeRequest(_) =>
        case LogoutRequest(token) =>
          LogoutKeepsSessionsValid(users, tokens, token);
      }
      ServeKeepsSessionsValid(users, next, reqs[1..]);
    }
  }

  /**
   * Once logged out, a token stays invalid for as long as no later
   * successful login issues it again (failed logins with it are allowed):
   * identity resolution and logout both fail with 401.
   */
  lemma LoggedOutStaysRevoked(users: map<string, UserRecord>, tokens: map<string, Session>,
                              token: string, later: seq<Request>)
    requires token !in IssuedTokens(users, later)
    ensures CurrentUser(Serve(users, tokens, [LogoutRequest(token)] + later), token)
            == Err(Unauthorized(InvalidToken))
    ensures Sessions.Logout(Serve(users, tokens, [LogoutRequest(token)] + later), token).reply
            == Err(Unauthorized(InvalidToken))
  {
  }

  /** Identity lookups never change the token table. */
  lemma {:induction false} LookupsChangeNothing(users: map<string, UserRecord>, tokens: map<string, Session>,
                                               reqs: seq<Request>)
    requires forall i :: 0 <= i < |reqs| ==> reqs[i].MeRequest?
    ensures Serve(users, tokens, reqs) == tokens
    decreases |reqs|
  {
    if reqs != [] {
      LookupsChangeNothing(users, tokens, reqs[1..]);
    }
  }
}
