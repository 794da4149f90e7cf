/** The two route guards. Each reads the token from the request's Authorization header, asks the
    JWT provider to verify it, and on success stores the verified payload on the request as the
    request user; on failure it raises Unauthorized and leaves the request as it was. */
module Guards {
  import opened Wrappers
  import opened Http
  import opened Jwt
  import opened BearerHeader

  const RefreshTokenNotProvided := "Refresh token not provided"

  /** The part of an incoming request the guards read and write. */
  class Request {
    var authorization: Option<string>
    /** The request user slot, written by a guard that lets the request through. */
    var user: Option<Claims>

    constructor (authorization: Option<string>)
      ensures this.authorization == authorization && user.None?
    {
      this.authorization := authorization;
      user := None;
    }
  }

  /** A token the guards can use: present and not the empty string. */
  predicate Usable(token: Option<string>) {
    token.Some? && token.value != ""
  }

  /** The access guard's verdict on an Authorization header: the verified payload, or
      Unauthorized with the default message. */
  function AccessDecision(signer: Signer, config: JwtConfig, authorization: Option<string>): (r: Result<Claims, Exception>)
    ensures r.Ok? <==> Usable(Extract(authorization)) && Verify(signer, config, Extract(authorization).value).Ok?
    ensures r.Ok? ==> r.value == Verify(signer, config, Extract(authorization).value).value
    ensures r.Err? ==> r.error == Unauthorized(DefaultUnauthorized)
  {
    var token := Extract(authorization);
    if !Usable(token) then Err(Unauthorized(DefaultUnauthorized))
    else
      match Verify(signer, config, token.value)
      case Ok(claims) => Ok(claims)
      case Err(_) => Err(Unauthorized(DefaultUnauthorized))
  }

  /** The refresh guard's verdict: a missing token and a refused one are told apart. */
  function RefreshDecision(signer: Signer, config: JwtConfig, authorization: Option<string>): (r: Result<Claims, Exception>)
    ensures !Usable(Extract(authorization)) ==> r == Err(Unauthorized(RefreshTokenNotProvided))
    ensures Usable(Extract(authorization)) ==>
      && (r.Ok? <==> VerifyRefreshToken(signer, config, Extract(authorization).value).Ok?)
      && (r.Ok? ==> r.value == VerifyRefreshToken(signer, config, Extract(authorization).value).value)
      && (r.Err? ==> r.error == Unauthorized(InvalidRefreshToken))
  {
    var token := Extract(authorization);
    if !Usable(token) then Err(Unauthorized(RefreshTokenNotProvided))
    else
      match VerifyRefreshToken(signer, config, token.value)
      case Ok(claims) => Ok(claims)
      case Err(_) => Err(Unauthorized(InvalidRefreshToken))
  }

  class AccessTokenGuard {
    const signer: Signer
    const config: JwtConfig

    constructor (signer: Signer, config: JwtConfig)
      ensures this.signer == signer && this.config == config
    {
      this.signer := signer;
      this.config := config;
    }

    /** canActivate: true with the request user set, or Unauthorized with the request untouched. */
    method CanActivate(request: Request) returns (r: Result<bool, Exception>)
      modifies request
      ensures request.authorization == old(request.authorization)
      ensures match AccessDecision(signer, config, old(request.authorization))
        case Ok(claims) => r == Ok(true) && request.user == Some(claims)
        case Err(e) => r == Err(e) && request.user == old(request.user)
    {
      var token := Extract(request.authorization);
      if token.None? || token.value == "" {
        return Err(Unauthorized(DefaultUnauthorized));
      }
      var verified := Verify(signer, config, token.value);
      if verified.Err? {
        return Err(Unauthorized(DefaultUnauthorized));
      }
      request.user := Some(verified.value);
      return Ok(true);
    }
  }

  class RefreshTokenGuard {
    const signer: Signer
    const config: JwtConfig

    constructor (signer: Signer, config: JwtConfig)
      ensures this.signer == signer && this.config == config
    {
      this.signer := signer;
      this.config := config;
    }

    /** canActivate: true with the refresh payload as request user, or Unauthorized with the
        request untouched. */
    method CanActivate(request: Request) returns (r: Result<bool, Exception>)
      modifies request
      ensures request.authorization == old(request.authorization)
      ensures match RefreshDecision(signer, config, old(request.authorization))
        case Ok(claims) => r == Ok(true) && request.user == Some(claims)
        case Err(e) => r == Err(e) && request.user == old(request.user)
    {
      var token := Extract(request.authorization);
      if token.None? || token.value == "" {
        return Err(Unauthorized(RefreshTokenNotProvided));
      }
      var payload := VerifyRefreshToken(signer, config, token.value);
      if payload.Err? {
        return Err(Unauthorized(InvalidRefreshToken));
      }
      request.user := Some(payload.value);
      return Ok(true);
    }
  }

  /** A header the client would send: any space-free word, a space, then the token. */
  function Header(scheme: string, token: string): string {
    scheme + " " + token
  }

  /** The guards read back exactly the token put after the scheme word. */
  lemma HeaderCarriesToken(scheme: string, token: string)
    requires ' ' !in scheme && ' ' !in token
    ensures Extract(Some(Header(scheme, token))) == Some(token)
  {
    ExtractSecondWord(scheme, token, None);
    assert Header(scheme, token) == scheme + " " + token + "";
  }

  /** Without a header, or without a space in it, neither guard finds a token. */
  lemma NoSpaceNoToken(authorization: Option<string>)
    requires authorization.None? || ' ' !in authorization.value
    ensures forall signer, config :: AccessDecision(signer, config, authorization) == Err(Unauthorized(DefaultUnauthorized))
    ensures forall signer, config :: RefreshDecision(signer, config, authorization) == Err(Unauthorized(RefreshTokenNotProvided))
  {
  }

  /** "Bearer  abc" (two spaces) carries an empty token and is refused by both guards. */
  lemma DoubleSpaceIsRefused(signer: Signer, config: JwtConfig)
    ensures AccessDecision(signer, config, Some("Bearer  abc")) == Err(Unauthorized(DefaultUnauthorized))
    ensures RefreshDecision(signer, config, Some("Bearer  abc")) == Err(Unauthorized(RefreshTokenNotProvided))
  {
    DoubleSpaceGivesEmptyToken();
  }

  /** The access guard lets an access token through under any scheme word, with its claims as
      the request user, and looks up no session. */
  lemma AccessGuardAcceptsAccessToken(signer: Signer, config: JwtConfig, scheme: string, userId: string, expiresIn: int, payload: Option<Claims>)
    requires VerifyUndoesSign(signer)
    requires var token := SignToken(signer, config, userId, expiresIn, payload); token != "" && ' ' !in token
    requires ' ' !in scheme
    ensures AccessDecision(signer, config, Some(Header(scheme, SignToken(signer, config, userId, expiresIn, payload))))
              == Ok(TokenClaims(userId, payload))
  {
    HeaderCarriesToken(scheme, SignToken(signer, config, userId, expiresIn, payload));
    AccessTokenRoundTrip(signer, config, userId, expiresIn, payload);
  }

  /** The access guard does not check `tokenType`: a refresh token opens it too. */
  lemma AccessGuardAcceptsRefreshToken(signer: Signer, config: JwtConfig, scheme: string, userId: string, payload: Option<Claims>)
    requires VerifyUndoesSign(signer)
    requires var token := SignRefreshToken(signer, config, userId, payload); token != "" && ' ' !in token
    requires ' ' !in scheme
    ensures AccessDecision(signer, config, Some(Header(scheme, SignRefreshToken(signer, config, userId, payload))))
              == Ok(RefreshClaims(userId, payload))
  {
    HeaderCarriesToken(scheme, SignRefreshToken(signer, config, userId, payload));
    VerifyAcceptsRefreshTokens(signer, config, userId, payload);
  }

  /** The refresh guard lets a refresh token through, with its claims as the request user. */
  lemma RefreshGuardAcceptsRefreshToken(signer: Signer, config: JwtConfig, scheme: string, userId: string, payload: Option<Claims>)
    requires VerifyUndoesSign(signer) && LeavesTokenType(payload)
    requires var token := SignRefreshToken(signer, config, userId, payload); token != "" && ' ' !in token
    requires ' ' !in scheme
    ensures RefreshDecision(signer, config, Some(Header(scheme, SignRefreshToken(signer, config, userId, payload))))
              == Ok(RefreshClaims(userId, payload))
  {
    HeaderCarriesToken(scheme, SignRefreshToken(signer, config, userId, payload));
    RefreshTokenRoundTrip(signer, config, userId, payload);
  }

  /** The refresh guard refuses an access token whose payload has no `tokenType`. */
  lemma RefreshGuardRefusesAccessToken(signer: Signer, config: JwtConfig, scheme: string, userId: string, expiresIn: int, payload: Option<Claims>)
    requires VerifyUndoesSign(signer) && LeavesTokenType(payload)
    requires var token := SignToken(signer, config, userId, expiresIn, payload); token != "" && ' ' !in token
    requires ' ' !in scheme
    ensures RefreshDecision(signer, config, Some(Header(scheme, SignToken(signer, config, userId, expiresIn, payload))))
              == Err(Unauthorized(InvalidRefreshToken))
  {
    HeaderCarriesToken(scheme, SignToken(signer, config, userId, expiresIn, payload));
    AccessTokenIsNotRefreshToken(signer, config, userId, expiresIn, payload);
  }
}
