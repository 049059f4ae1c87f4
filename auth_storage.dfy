/** `AuthStorage`: registration, login, logout and password reset over the users and tokens tables. */
module AuthStorage {
  import opened Results
  import opened Seqs
  import opened AuthTables

  datatype RegisterRequest = RegisterRequest(username: string, email: string, password: string, name: string,
                                             phone: string, address: string, role: string, token: string)
  datatype RegisterResponse = RegisterResponse(id: string, message: string, success: bool)
  datatype LoginRequest = LoginRequest(username: string, password: string)
  datatype LoginResponse = LoginResponse(token: string, message: string, success: bool)
  datatype ResetPasswordRequest = ResetPasswordRequest(email: string, username: string, newPassword: string)
  datatype MessageResponse = MessageResponse(message: string)

  const Registered := "User created successfully"
  const InvalidCredentials := "Invalid username or password"
  const TokenNotFound := "Token not found"
  const LoggedIn := "Login successful"
  const LoggedOut := "Logged out successfully"
  const PasswordReset := "Password reset successfully"

  /** The user row a registration inserts (the password is stored as given). */
  function NewUser(req: RegisterRequest, userId: string): UserRow
  {
    UserRow(userId, req.username, req.email, req.password, req.name, req.phone, req.address, req.role)
  }

  /** The login lookup `WHERE username = $1 AND password_hash = $2`. */
  function CredentialsOf(req: LoginRequest): UserRow -> bool
  {
    (u: UserRow) => u.username == req.username && u.passwordHash == req.password
  }

  /** The token lookup `WHERE user_id = $1`. */
  function TokenOf(userId: string): TokenRow -> bool
  {
    (t: TokenRow) => t.userId == userId
  }

  /** `DELETE FROM tokens WHERE token = $1`. */
  function WithoutToken(tokens: seq<TokenRow>, token: string): seq<TokenRow>
  {
    Keep(tokens, (t: TokenRow) => t.token != token)
  }

  /** `UPDATE users SET password_hash = $1 WHERE email = $2 and username = $3`. */
  function ResetRows(users: seq<UserRow>, req: ResetPasswordRequest): seq<UserRow>
  {
    UpdateWhere(users, (u: UserRow) => u.email == req.email && u.username == req.username,
                (u: UserRow) => u.(passwordHash := req.newPassword))
  }

  /**
   * The reply of a login whose two lookups run without a driver error: the first user
   * with these credentials, then the first token row of that user.
   */
  function LoginOutcome(users: seq<UserRow>, tokens: seq<TokenRow>, req: LoginRequest): (r: LoginResponse)
    ensures !r.success ==> r.token == ""
    ensures r.message == InvalidCredentials <==> forall i :: 0 <= i < |users| ==> !CredentialsOf(req)(users[i])
    ensures r.success <==> r.message == LoggedIn
    ensures r.success ==>
              exists i, j :: 0 <= i < |users| && 0 <= j < |tokens| && CredentialsOf(req)(users[i]) &&
                tokens[j].userId == users[i].id && tokens[j].token == r.token
    ensures First(users, CredentialsOf(req)).Some? ==>
              var u := users[First(users, CredentialsOf(req)).value];
              (First(tokens, TokenOf(u.id)).None? ==> r == LoginResponse("", TokenNotFound, false)) &&
              (First(tokens, TokenOf(u.id)).Some? ==>
                 r == LoginResponse(tokens[First(tokens, TokenOf(u.id)).value].token, LoggedIn, true))
  {
    match First(users, CredentialsOf(req))
    case None => LoginResponse("", InvalidCredentials, false)
    case Some(i) =>
      match First(tokens, TokenOf(users[i].id))
      case None => LoginResponse("", TokenNotFound, false)
      case Some(j) => LoginResponse(tokens[j].token, LoggedIn, true)
  }

  /**
   * Register, then log in with the same username and password: the login hands back
   * the registered token, provided no earlier user has those credentials and the fresh
   * user id has no earlier token rows.
   */
  lemma RegisterThenLogin(users: seq<UserRow>, tokens: seq<TokenRow>, req: RegisterRequest, userId: string, tokenId: string)
    requires forall i :: 0 <= i < |users| ==> !(users[i].username == req.username && users[i].passwordHash == req.password)
    requires forall j :: 0 <= j < |tokens| ==> tokens[j].userId != userId
    ensures LoginOutcome(users + [NewUser(req, userId)], tokens + [TokenRow(tokenId, req.token, userId)],
                         LoginRequest(req.username, req.password))
            == LoginResponse(req.token, LoggedIn, true)
  {
    var login := LoginRequest(req.username, req.password);
    FirstAppended(users, NewUser(req, userId), CredentialsOf(login));
    assert (users + [NewUser(req, userId)])[|users|] == NewUser(req, userId);
    FirstAppended(tokens, TokenRow(tokenId, req.token, userId), TokenOf(userId));
    assert (tokens + [TokenRow(tokenId, req.token, userId)])[|tokens|] == TokenRow(tokenId, req.token, userId);
  }

  /** After a logout, no login hands out the logged-out token. */
  lemma LogoutRevokes(users: seq<UserRow>, tokens: seq<TokenRow>, token: string, req: LoginRequest)
    ensures LoginOutcome(users, WithoutToken(tokens, token), req).token != token ||
            !LoginOutcome(users, WithoutToken(tokens, token), req).success
  {
    var rest := WithoutToken(tokens, token);
    var r := LoginOutcome(users, rest, req);
    if r.success {
      var i, j :| 0 <= i < |users| && 0 <= j < |rest| && CredentialsOf(req)(users[i]) &&
                  rest[j].userId == users[i].id && rest[j].token == r.token;
      assert rest[j] in rest;
    }
  }

  /**
   * Tokens are only created by registration, so once every token row of the user who
   * matches the credentials has been logged out, that user's login answers "Token not found".
   */
  lemma LogoutLocksOut(users: seq<UserRow>, tokens: seq<TokenRow>, token: string, req: LoginRequest)
    requires First(users, CredentialsOf(req)).Some?
    requires forall j :: 0 <= j < |tokens| && tokens[j].userId == users[First(users, CredentialsOf(req)).value].id ==>
               tokens[j].token == token
    ensures LoginOutcome(users, WithoutToken(tokens, token), req) == LoginResponse("", TokenNotFound, false)
  {
    var userId := users[First(users, CredentialsOf(req)).value].id;
    assert forall j :: 0 <= j < |tokens| && tokens[j].userId == userId ==> !(tokens[j].token != token);
  }

  /** After a password reset, logging in with the username and the new password finds a user. */
  lemma ResetThenLogin(users: seq<UserRow>, tokens: seq<TokenRow>, req: ResetPasswordRequest)
    requires exists i :: 0 <= i < |users| && users[i].email == req.email && users[i].username == req.username
    ensures LoginOutcome(ResetRows(users, req), tokens, LoginRequest(req.username, req.newPassword)).message
            != InvalidCredentials
  {
    var i :| 0 <= i < |users| && users[i].email == req.email && users[i].username == req.username;
    var after := ResetRows(users, req);
    assert CredentialsOf(LoginRequest(req.username, req.newPassword))(after[i]);
  }

  /** The storage object: it holds only the database handle. */
  class AuthStorage {
    const db: Db

    constructor (db: Db)
      ensures this.db == db
    {
      this.db := db;
    }

    /**
     * Insert the user under the fresh id `userId`, then the token row linked to it under
     * the fresh id `tokenId`. If the second insert fails the user row stays.
     */
    method Register(req: RegisterRequest, userId: string, tokenId: string,
                    userFail: Option<string>, tokenFail: Option<string>)
      returns (r: Result<RegisterResponse>)
      modifies db
      ensures userFail.Some? ==>
                r == Err(userFail.value) && db.users == old(db.users) && db.tokens == old(db.tokens)
      ensures userFail.None? ==> db.users == old(db.users) + [NewUser(req, userId)]
      ensures userFail.None? && tokenFail.Some? ==> r == Err(tokenFail.value) && db.tokens == old(db.tokens)
      ensures userFail.None? && tokenFail.None? ==>
                db.tokens == old(db.tokens) + [TokenRow(tokenId, req.token, userId)] &&
                r == Ok(RegisterResponse(userId, Registered, true))
    {
      if userFail.Some? {
        return Err(userFail.value);
      }
      db.users := db.users + [NewUser(req, userId)];
      if tokenFail.Some? {
        return Err(tokenFail.value);
      }
      db.tokens := db.tokens + [TokenRow(tokenId, req.token, userId)];
      r := Ok(RegisterResponse(userId, Registered, true));
    }

    /**
     * Two dependent lookups: the first user with these credentials, then the first token
     * of that user. A miss in either is an unsuccessful reply, not an error; a driver
     * error in either is returned as an error.
     */
    method Login(req: LoginRequest, userFail: Option<string>, tokenFail: Option<string>)
      returns (r: Result<LoginResponse>)
      ensures userFail.Some? ==> r == Err(userFail.value)
      ensures userFail.None? && First(db.users, CredentialsOf(req)).Some? && tokenFail.Some? ==>
                r == Err(tokenFail.value)
      ensures userFail.None? && (First(db.users, CredentialsOf(req)).None? || tokenFail.None?) ==>
                r == Ok(LoginOutcome(db.users, db.tokens, req))
    {
      if userFail.Some? {
        return Err(userFail.value);
      }
      var found := First(db.users, CredentialsOf(req));
      if found.None? {
        return Ok(LoginResponse("", InvalidCredentials, false));
      }
      var userId := db.users[found.value].id;
      if tokenFail.Some? {
        return Err(tokenFail.value);
      }
      var tokenAt := First(db.tokens, TokenOf(userId));
      if tokenAt.None? {
        return Ok(LoginResponse("", TokenNotFound, false));
      }
      r := Ok(LoginResponse(db.tokens[tokenAt.value].token, LoggedIn, true));
    }

    /** Delete every token row holding this token; users and other tokens are untouched. */
    method Logout(token: string, fail: Option<string>) returns (r: Result<MessageResponse>)
      modifies db
      ensures db.users == old(db.users)
      ensures fail.Some? ==> r == Err(fail.value) && db.tokens == old(db.tokens)
      ensures fail.None? ==> r == Ok(MessageResponse(LoggedOut)) && db.tokens == WithoutToken(old(db.tokens), token)
    {
      if fail.Some? {
        return Err(fail.value);
      }
      db.tokens := WithoutToken(db.tokens, token);
      r := Ok(MessageResponse(LoggedOut));
    }

    /** Set the password hash of the rows matching both email and username. */
    method ResetPassword(req: ResetPasswordRequest, fail: Option<string>) returns (r: Result<MessageResponse>)
      modifies db
      ensures db.tokens == old(db.tokens)
      ensures fail.Some? ==> r == Err(fail.value) && db.users == old(db.users)
      ensures fail.None? ==> r == Ok(MessageResponse(PasswordReset)) && db.users == ResetRows(old(db.users), req)
    {
      if fail.Some? {
        return Err(fail.value);
      }
      db.users := ResetRows(db.users, req);
      r := Ok(MessageResponse(PasswordReset));
    }
  }
}
