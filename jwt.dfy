/** The claim layer of the JWT provider: which claims go into access and refresh tokens, the
    refresh-type discriminator, and how every library failure is reduced to one error message.
    The JWT library itself (signing, signature and claim checks) is an abstract `Signer`. */
module Jwt {
  import opened Wrappers

  /** A claim value. */
  datatype Json = JStr(str: string) | JNum(num: int) | JBool(flag: bool) | JNull

  /** A token payload: claim names to values. */
  type Claims = map<string, Json>

  const InvalidToken := "Invalid token"
  const InvalidRefreshToken := "Invalid refresh token"
  const RefreshType := JStr("refresh")

  /** The injected jwt configuration. */
  datatype JwtConfig = JwtConfig(audience: string, issuer: string, secret: string, accessTokenTtl: int, refreshTokenTtl: int)

  datatype SignOptions = SignOptions(audience: string, issuer: string, secret: string, expiresIn: int)

  datatype VerifyOptions = VerifyOptions(audience: string, issuer: string, secret: string)

  /** The two library calls the provider makes, as total functions. A failing verification is an
      `Err` carrying the library's own message. */
  datatype Signer = Signer(
    sign: (Claims, SignOptions) -> string,
    verifyAsync: (string, VerifyOptions) -> Result<Claims, string>)

  /** The one fact assumed of the library: a token verifies, under the audience, issuer and secret
      it was signed with, to the claims it was signed with. */
  ghost predicate VerifyUndoesSign(signer: Signer) {
    forall claims, opts :: signer.verifyAsync(signer.sign(claims, opts), VerifyOptions(opts.audience, opts.issuer, opts.secret)) == Ok(claims)
  }

  /** What both verifying calls check against: the configured audience, issuer and secret. */
  function VerifyOptionsOf(config: JwtConfig): VerifyOptions {
    VerifyOptions(config.audience, config.issuer, config.secret)
  }

  /** `{...base, ...payload}`: an absent payload adds nothing, and its keys win over `base`. */
  function Spread(base: Claims, payload: Option<Claims>): (r: Claims)
    ensures payload.None? ==> r == base
    ensures payload.Some? ==> r.Keys == base.Keys + payload.value.Keys
    ensures payload.Some? ==> forall k :: k in payload.value ==> r[k] == payload.value[k]
    ensures forall k :: k in base && (payload.None? || k !in payload.value) ==> r[k] == base[k]
  {
    match payload
    case None => base
    case Some(p) => base + p
  }

  /** The claims of an access token: `{sub: userId, ...payload}`. */
  function TokenClaims(userId: string, payload: Option<Claims>): Claims {
    Spread(map["sub" := JStr(userId)], payload)
  }

  /** The claims of a refresh token: `{sub: userId, tokenType: 'refresh', ...payload}`. */
  function RefreshClaims(userId: string, payload: Option<Claims>): Claims {
    Spread(map["sub" := JStr(userId), "tokenType" := RefreshType], payload)
  }

  function SignOptionsOf(config: JwtConfig, expiresIn: int): SignOptions {
    SignOptions(config.audience, config.issuer, config.secret, expiresIn)
  }

  /** signToken: the access-token claims signed with the configured audience, issuer and secret. */
  function SignToken(signer: Signer, config: JwtConfig, userId: string, expiresIn: int, payload: Option<Claims>): string {
    signer.sign(TokenClaims(userId, payload), SignOptionsOf(config, expiresIn))
  }

  /** signRefreshToken: the refresh-token claims, valid for the configured refresh lifetime. */
  function SignRefreshToken(signer: Signer, config: JwtConfig, userId: string, payload: Option<Claims>): string {
    signer.sign(RefreshClaims(userId, payload), SignOptionsOf(config, config.refreshTokenTtl))
  }

  /** verify: the verified claims, or "Invalid token" whatever the library's reason. */
  function Verify(signer: Signer, config: JwtConfig, token: string): (r: Result<Claims, string>)
    ensures r.Ok? <==> signer.verifyAsync(token, VerifyOptionsOf(config)).Ok?
    ensures r.Ok? ==> r.value == signer.verifyAsync(token, VerifyOptionsOf(config)).value
    ensures r.Err? ==> r.error == InvalidToken
  {
    match signer.verifyAsync(token, VerifyOptionsOf(config))
    case Ok(claims) => Ok(claims)
    case Err(_) => Err(InvalidToken)
  }

  /** verifyRefreshToken: as verify, and the claims must carry `tokenType: 'refresh'`; every
      failure reads "Invalid refresh token". */
  function VerifyRefreshToken(signer: Signer, config: JwtConfig, token: string): (r: Result<Claims, string>)
    ensures r.Ok? <==>
      && signer.verifyAsync(token, VerifyOptionsOf(config)).Ok?
      && "tokenType" in signer.verifyAsync(token, VerifyOptionsOf(config)).value
      && signer.verifyAsync(token, VerifyOptionsOf(config)).value["tokenType"] == RefreshType
    ensures r.Ok? ==> r.value == signer.verifyAsync(token, VerifyOptionsOf(config)).value
    ensures r.Err? ==> r.error == InvalidRefreshToken
  {
    match signer.verifyAsync(token, VerifyOptionsOf(config))
    case Err(_) => Err(InvalidRefreshToken)
    case Ok(claims) =>
      if "tokenType" !in claims || claims["tokenType"] != RefreshType then Err(InvalidRefreshToken)
      else Ok(claims)
  }

  datatype TokenPair = TokenPair(accessToken: string, refreshToken: string, tokenType: string, expiresIn: int)

  /** generateTokens: an access and a refresh token for the same user and payload. */
  function GenerateTokens(signer: Signer, config: JwtConfig, userId: string, payload: Option<Claims>): TokenPair {
    TokenPair(
      SignToken(signer, config, userId, config.accessTokenTtl, payload),
      SignRefreshToken(signer, config, userId, payload),
      "Bearer",
      config.accessTokenTtl)
  }

  /** The payload does not set `tokenType`. */
  predicate LeavesTokenType(payload: Option<Claims>) {
    payload.None? || "tokenType" !in payload.value
  }

  /** The access-token claims name the user unless the payload overrides `sub`, carry every payload
      claim, and nothing else. */
  lemma TokenClaimsContents(userId: string, payload: Option<Claims>)
    ensures var c := TokenClaims(userId, payload);
      && c.Keys == {"sub"} + (if payload.Some? then payload.value.Keys else {})
      && c["sub"] == (if payload.Some? && "sub" in payload.value then payload.value["sub"] else JStr(userId))
      && (payload.Some? ==> forall k :: k in payload.value ==> c[k] == payload.value[k])
  {
  }

  /** The refresh-token claims are the access-token claims plus `tokenType: 'refresh'`, unless the
      payload sets `tokenType` itself, in which case its value wins. */
  lemma RefreshClaimsContents(userId: string, payload: Option<Claims>)
    ensures var c := RefreshClaims(userId, payload);
      && c.Keys == TokenClaims(userId, payload).Keys + {"tokenType"}
      && (forall k :: k in c && k != "tokenType" ==> c[k] == TokenClaims(userId, payload)[k])
      && c["tokenType"] == (if LeavesTokenType(payload) then RefreshType else payload.value["tokenType"])
  {
  }

  /** An access token verifies to exactly the claims it was signed with. */
  lemma AccessTokenRoundTrip(signer: Signer, config: JwtConfig, userId: string, expiresIn: int, payload: Option<Claims>)
    requires VerifyUndoesSign(signer)
    ensures Verify(signer, config, SignToken(signer, config, userId, expiresIn, payload)) == Ok(TokenClaims(userId, payload))
  {
    var opts := SignOptionsOf(config, expiresIn);
    assert VerifyOptionsOf(config) == VerifyOptions(opts.audience, opts.issuer, opts.secret);
  }

  /** An access token is refused where a refresh token is required, unless its payload forged a
      `tokenType` of 'refresh'. */
  lemma AccessTokenIsNotRefreshToken(signer: Signer, config: JwtConfig, userId: string, expiresIn: int, payload: Option<Claims>)
    requires VerifyUndoesSign(signer)
    ensures VerifyRefreshToken(signer, config, SignToken(signer, config, userId, expiresIn, payload)).Ok? <==>
              payload.Some? && "tokenType" in payload.value && payload.value["tokenType"] == RefreshType
  {
    var opts := SignOptionsOf(config, expiresIn);
    assert VerifyOptionsOf(config) == VerifyOptions(opts.audience, opts.issuer, opts.secret);
    var c := TokenClaims(userId, payload);
    assert "tokenType" in c <==> payload.Some? && "tokenType" in payload.value;
  }

  /** A refresh token is accepted as one, with the claims it was signed with, exactly when the
      payload leaves `tokenType` alone or sets it to 'refresh' itself. */
  lemma RefreshTokenRoundTrip(signer: Signer, config: JwtConfig, userId: string, payload: Option<Claims>)
    requires VerifyUndoesSign(signer)
    ensures var r := VerifyRefreshToken(signer, config, SignRefreshToken(signer, config, userId, payload));
      && (r.Ok? <==> LeavesTokenType(payload) || payload.value["tokenType"] == RefreshType)
      && (r.Ok? ==> r.value == RefreshClaims(userId, payload))
      && (r.Err? ==> r.error == InvalidRefreshToken)
  {
    var opts := SignOptionsOf(config, config.refreshTokenTtl);
    assert VerifyOptionsOf(config) == VerifyOptions(opts.audience, opts.issuer, opts.secret);
    RefreshClaimsContents(userId, payload);
  }

  /** `verify` does not look at `tokenType`: a refresh token passes it too. */
  lemma VerifyAcceptsRefreshTokens(signer: Signer, config: JwtConfig, userId: string, payload: Option<Claims>)
    requires VerifyUndoesSign(signer)
    ensures Verify(signer, config, SignRefreshToken(signer, config, userId, payload)) == Ok(RefreshClaims(userId, payload))
  {
    var opts := SignOptionsOf(config, config.refreshTokenTtl);
    assert VerifyOptionsOf(config) == VerifyOptions(opts.audience, opts.issuer, opts.secret);
  }

  /** generateTokens hands out a Bearer pair valid for the access lifetime, whose access token
      verifies to the access claims and whose refresh token is accepted as a refresh token when
      the payload leaves `tokenType` alone, while the access token then is not. */
  lemma GeneratedTokensAreDistinguished(signer: Signer, config: JwtConfig, userId: string, payload: Option<Claims>)
    requires VerifyUndoesSign(signer)
    ensures var pair := GenerateTokens(signer, config, userId, payload);
      && pair.tokenType == "Bearer"
      && pair.expiresIn == config.accessTokenTtl
      && Verify(signer, config, pair.accessToken) == Ok(TokenClaims(userId, payload))
      && (LeavesTokenType(payload) ==>
            && VerifyRefreshToken(signer, config, pair.refreshToken) == Ok(RefreshClaims(userId, payload))
            && VerifyRefreshToken(signer, config, pair.accessToken) == Err(InvalidRefreshToken))
  {
    AccessTokenRoundTrip(signer, config, userId, config.accessTokenTtl, payload);
    AccessTokenIsNotRefreshToken(signer, config, userId, config.accessTokenTtl, payload);
    RefreshTokenRoundTrip(signer, config, userId, payload);
  }
}
