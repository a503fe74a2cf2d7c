/** The decisions of the `/auth` routes: issuing a token pair on login and
    exchanging a refresh token for a new pair.  Password verification and the
    token codec are not modelled; they are the uninterpreted functions of a
    `Crypto` value. */
module AuthRouter {
  import opened Common
  import opened Repository
  import opened Entities

  /** The claims a verified token carries: `sub` and `type`. */
  datatype Claims = Claims(sub: int, tokenType: string)

  /** The security service as seen by the router.  Password verification
      answers true or false, or raises (argon2 raises on a mismatch or a
      malformed hash).  The token makers receive `{'sub': id}`, so they are
      functions of the user id. */
  datatype Crypto = Crypto(
    verifyPassword: (string, string) -> Result<bool>,
    createAccessToken: nat -> string,
    createRefreshToken: nat -> string,
    verifyToken: string -> Result<Claims>)

  /** The JSON body both routes return. */
  datatype TokenResponse = TokenResponse(accessToken: string, refreshToken: string, tokenType: string)

  const BearerTokenType: string := "Bearer"
  const RefreshTokenType: string := "refresh"
  const InvalidTokenTypeDetail: string := "Invalid token type"
  const InvalidUserDetail: string := "Invalid user"

  /** A fresh pair of tokens for the user `id`. */
  function Tokens(crypto: Crypto, id: nat): TokenResponse {
    TokenResponse(crypto.createAccessToken(id), crypto.createRefreshToken(id), BearerTokenType)
  }

  /** The stored user `id` has this email and the password verifies against
      the stored hash. */
  predicate Authenticates(users: map<nat, User>, crypto: Crypto, id: nat, email: string, password: string) {
    id in users && users[id].email == email && crypto.verifyPassword(password, users[id].password) == Ok(true)
  }

  /** `login_user`: tokens for the user with the form's email (its
      `username`) when the password verifies; an error the verifier raises
      propagates; UnauthorizedException when there is no such user or the
      verifier answers false.  Emails are unique in the store (the unique
      index). */
  method LoginUser(users: Table<User>, crypto: Crypto, email: string, password: string)
    returns (r: Result<TokenResponse>)
    requires EmailsUnique(users.rows)
    ensures r.Ok? <==> exists id :: Authenticates(users.rows, crypto, id, email, password)
    ensures (forall id :: id in users.rows ==> users.rows[id].email != email) ==>
              r == Err(Unauthorized(DefaultUnauthorizedDetail))
    ensures forall id :: id in users.rows && users.rows[id].email == email ==>
              match crypto.verifyPassword(password, users.rows[id].password)
              case Ok(true) => r == Ok(Tokens(crypto, id))
              case Ok(false) => r == Err(Unauthorized(DefaultUnauthorizedDetail))
              case Err(e) => r == Err(e)
  {
    var user := users.GetByEmail(email, UserEmail);
    if user.None? {
      return Err(Unauthorized(DefaultUnauthorizedDetail));
    }
    var verified := crypto.verifyPassword(password, user.value.value.password);
    if verified.Err? {
      r := Err(verified.error);
    } else if verified.value {
      assert Authenticates(users.rows, crypto, user.value.id, email, password);
      r := Ok(Tokens(crypto, user.value.id));
    } else {
      r := Err(Unauthorized(DefaultUnauthorizedDetail));
    }
    forall id | id in users.rows && users.rows[id].email == email
      ensures id == user.value.id
    {
    }
  }

  /** `refresh_token`: a verification failure propagates; a token whose type
      is not "refresh" or whose subject is no stored user is refused; otherwise
      a new pair for the subject. */
  function RefreshToken(users: Table<User>, crypto: Crypto, token: string): (r: Result<TokenResponse>)
    reads users
    ensures crypto.verifyToken(token).Err? ==> r == Err(crypto.verifyToken(token).error)
    ensures crypto.verifyToken(token).Ok? && crypto.verifyToken(token).value.tokenType != RefreshTokenType ==>
              r == Err(Unauthorized(InvalidTokenTypeDetail))
    ensures crypto.verifyToken(token).Ok? && crypto.verifyToken(token).value.tokenType == RefreshTokenType
            && crypto.verifyToken(token).value.sub !in users.rows ==>
              r == Err(Unauthorized(InvalidUserDetail))
    ensures r.Ok? <==> && crypto.verifyToken(token).Ok?
                       && crypto.verifyToken(token).value.tokenType == RefreshTokenType
                       && crypto.verifyToken(token).value.sub in users.rows
    ensures r.Ok? ==> r.value == Tokens(crypto, crypto.verifyToken(token).value.sub as nat)
  {
    match crypto.verifyToken(token)
    case Err(e) => Err(e)
    case Ok(claims) =>
      if claims.tokenType != RefreshTokenType then Err(Unauthorized(InvalidTokenTypeDetail))
      else match users.GetById(claims.sub)
        case None => Err(Unauthorized(InvalidUserDetail))
        case Some(_) => Ok(Tokens(crypto, claims.sub as nat))
  }

  /** The token codec reads back the subject and type it was made with. */
  predicate CodecRoundTrips(crypto: Crypto, id: nat) {
    && crypto.verifyToken(crypto.createRefreshToken(id)) == Ok(Claims(id, RefreshTokenType))
    && crypto.verifyToken(crypto.createAccessToken(id)).Ok?
    && crypto.verifyToken(crypto.createAccessToken(id)).value.tokenType != RefreshTokenType
  }

  /** With a codec that round-trips, the refresh token a login issues buys the
      same pair again while its user exists, and the access token is refused
      as the wrong type. */
  lemma LoginTokensRefresh(users: Table<User>, crypto: Crypto, id: nat)
    requires CodecRoundTrips(crypto, id)
    ensures id in users.rows ==>
              RefreshToken(users, crypto, Tokens(crypto, id).refreshToken) == Ok(Tokens(crypto, id))
    ensures id !in users.rows ==>
              RefreshToken(users, crypto, Tokens(crypto, id).refreshToken) == Err(Unauthorized(InvalidUserDetail))
    ensures RefreshToken(users, crypto, Tokens(crypto, id).accessToken) == Err(Unauthorized(InvalidTokenTypeDetail))
  {
  }

  /** A registered user logs in with the right password and is refused with
      a wrong one, as long as the verifier answers false for it rather than
      raising. */
  method LoginScenario(crypto: Crypto) returns (good: Result<TokenResponse>, bad: Result<TokenResponse>)
    requires crypto.verifyPassword("Pass12345", "hash") == Ok(true)
    requires crypto.verifyPassword("12345Pass", "hash") == Ok(false)
    ensures good == Ok(Tokens(crypto, 1))
    ensures bad == Err(Unauthorized(DefaultUnauthorizedDetail))
  {
    var users := new Table<User>();
    var saved := users.Save(User("testuser", "testuser@example.com", "hash", 0, 0, 0));
    assert users.rows == map[1 := saved.value];
    good := LoginUser(users, crypto, "testuser@example.com", "Pass12345");
    bad := LoginUser(users, crypto, "testuser@example.com", "12345Pass");
  }

  /** With argon2's verifier, a wrong password raises instead of answering
      false, and that error is what the login route produces. */
  method LoginMismatchRaises(crypto: Crypto, mismatch: Error) returns (bad: Result<TokenResponse>)
    requires crypto.verifyPassword("12345Pass", "hash") == Err(mismatch)
    ensures bad == Err(mismatch)
  {
    var users := new Table<User>();
    var saved := users.Save(User("testuser", "testuser@example.com", "hash", 0, 0, 0));
    assert users.rows == map[1 := saved.value];
    bad := LoginUser(users, crypto, "testuser@example.com", "12345Pass");
  }
}
