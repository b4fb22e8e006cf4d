/** middleware/auth.js: the bearer-token gate in front of the protected routes,
    its non-blocking variant, token issue, and the ownership check on routes
    that name a user id.

    The JWT library is an oracle: `jwt.verify(token, secret)` is a function
    parameter returning the decoded claims or an error name, and
    `jwt.sign(payload, secret, { expiresIn })` is a function parameter
    returning an opaque string. The request, response and `next` callback of
    a middleware call are three small objects. */
module Auth {
  import opened JsRuntime
  import opened Http

  /** The fields of a user that generateToken copies into a token. */
  datatype TokenPayload = TokenPayload(id: int, email: string, name: string)

  /** A decoded token: the signed payload plus the issue and expiry times
      (seconds) the library adds. This is what `req.user` holds. */
  datatype Claims = Claims(id: int, email: string, name: string, iat: int, exp: int)

  /** The outcome jwt.verify reports to its callback: the decoded claims, or an
      error whose `name` tells an expired token from a bad one. */
  datatype Verdict = Decoded(claims: Claims) | Failed(errorName: string)

  /** jwt.verify(token, secret) at the time of the request. */
  type Verifier = (string, string) -> Verdict

  /** jwt.sign(payload, secret, { expiresIn }). */
  type Signer = (TokenPayload, string, string) -> string

  /** The two environment variables the module reads. */
  datatype Env = Env(jwtSecret: Option<string>, jwtExpiresIn: Option<string>)

  const FALLBACK_SECRET := "autostyle-secret-key-2024"
  const DEFAULT_EXPIRES_IN := "7d"
  const TOKEN_EXPIRED_ERROR := "TokenExpiredError"

  /** `process.env.JWT_SECRET || 'autostyle-secret-key-2024'`. */
  function Secret(env: Env): (k: string)
    ensures k != ""
    ensures !Present(env.jwtSecret) ==> k == FALLBACK_SECRET
    ensures Present(env.jwtSecret) ==> k == env.jwtSecret.value
  {
    if Present(env.jwtSecret) then env.jwtSecret.value else FALLBACK_SECRET
  }

  /** `process.env.JWT_EXPIRES_IN || '7d'`. */
  function ExpiresIn(env: Env): (e: string)
    ensures e != ""
    ensures !Present(env.jwtExpiresIn) ==> e == DEFAULT_EXPIRES_IN
    ensures Present(env.jwtExpiresIn) ==> e == env.jwtExpiresIn.value
  {
    if Present(env.jwtExpiresIn) then env.jwtExpiresIn.value else DEFAULT_EXPIRES_IN
  }

  // ---------------------------------------------------------------------------
  // Token extraction

  /** `authHeader && authHeader.split(' ')[1]`, kept only when truthy: the
      second space-separated piece of the Authorization header. The first
      piece (the scheme word) is never looked at. */
  function ExtractToken(header: Option<string>): (r: Option<string>)
    ensures r.Some? ==> r.value != "" && ' ' !in r.value
  {
    match header
    case None => None
    case Some(h) =>
      var parts := Split(h, ' ');
      if |parts| >= 2 && parts[1] != "" then Some(parts[1]) else None
  }

  /** Whatever the scheme word, the token is the text between the first space
      and the next one (or the end); two spaces in a row give no token. */
  lemma TokenIsSecondWord(scheme: string, token: string, rest: string)
    requires ' ' !in scheme && ' ' !in token
    requires rest == [] || rest[0] == ' '
    ensures ExtractToken(Some(scheme + [' '] + token + rest)) == if token == [] then None else Some(token)
  {
    var h := scheme + [' '] + token + rest;
    var x := [' '] + (token + rest);
    assert h == scheme + x;
    var tail := Split(rest, ' ');
    assert tail[0] == [] by {
      if rest != [] {
        assert rest[0] == ' ';
      }
    }
    SplitPrefix(token, rest, ' ');
    assert token + tail[0] == token;
    assert Split(token + rest, ' ') == [token] + tail[1..];
    assert x[0] == ' ' && x[1..] == token + rest;
    assert Split(x, ' ') == [[]] + ([token] + tail[1..]);
    SplitPrefix(scheme, x, ' ');
    assert scheme + [] == scheme;
    assert Split(h, ' ')[1] == token;
  }

  /** A header without a space carries no token. */
  lemma NoSpaceNoToken(h: string)
    requires ' ' !in h
    ensures ExtractToken(Some(h)) == None
  {
    SplitNoSeparator(h, ' ');
  }

  /** The token described by positions instead of by split: the characters
      after the first space up to the next space or the end of the header. */
  function TokenByPositions(h: string): Option<string> {
    var i := IndexOf(h, ' ');
    if i == |h| then None
    else
      var k := IndexOf(h[i + 1..], ' ');
      if k == 0 then None else Some(h[i + 1..][..k])
  }

  /** ExtractToken and the description by positions agree on every header. */
  lemma ExtractTokenByPositions(h: string)
    ensures ExtractToken(Some(h)) == TokenByPositions(h)
  {
    var i := IndexOf(h, ' ');
    if i == |h| {
      assert h[..i] == h;
      NoSpaceNoToken(h);
    } else {
      DecomposeAtSpace(h, i);
    }
  }

  lemma DecomposeAtSpace(h: string, i: nat)
    requires i < |h| && h[i] == ' ' && ' ' !in h[..i]
    ensures ExtractToken(Some(h)) == (var k := IndexOf(h[i + 1..], ' '); if k == 0 then None else Some(h[i + 1..][..k]))
  {
    var after := h[i + 1..];
    var k := IndexOf(after, ' ');
    var scheme, token, rest := h[..i], after[..k], after[k..];
    assert after == token + rest;
    assert h == scheme + [' '] + token + rest by {
      assert h == h[..i] + [h[i]] + h[i + 1..];
    }
    TokenIsSecondWord(scheme, token, rest);
  }

  // ---------------------------------------------------------------------------
  // authenticateToken and optionalAuth as decisions

  datatype GateOutcome = Proceed(user: Claims) | Reject(tag: ErrorTag)

  /** The decision authenticateToken takes: no token is 401, an error named
      TokenExpiredError is 401, any other verification error is 403, and only
      claims that verified let the request through. */
  function Authenticate(header: Option<string>, secret: string, verify: Verifier): (r: GateOutcome)
    ensures r.Proceed? <==> ExtractToken(header).Some? && verify(ExtractToken(header).value, secret).Decoded?
    ensures r.Proceed? ==> verify(ExtractToken(header).value, secret) == Decoded(r.user)
    ensures r.Reject? ==> r.tag == TokenMissing || r.tag == TokenExpired || r.tag == TokenInvalid
  {
    match ExtractToken(header)
    case None => Reject(TokenMissing)
    case Some(token) =>
      match verify(token, secret)
      case Decoded(claims) => Proceed(claims)
      case Failed(name) => if name == TOKEN_EXPIRED_ERROR then Reject(TokenExpired) else Reject(TokenInvalid)
  }

  /** Missing token, expired token and any other verification failure give
      401, 401 and 403, in that order of checks. */
  lemma AuthenticateRejections(header: Option<string>, secret: string, verify: Verifier)
    ensures ExtractToken(header).None? ==> Authenticate(header, secret, verify) == Reject(TokenMissing)
    ensures ExtractToken(header).Some? && verify(ExtractToken(header).value, secret).Failed? ==>
      var name := verify(ExtractToken(header).value, secret).errorName;
      Authenticate(header, secret, verify) == Reject(if name == TOKEN_EXPIRED_ERROR then TokenExpired else TokenInvalid)
    ensures Authenticate(header, secret, verify).Reject? ==>
      Authenticate(header, secret, verify).tag.Code() == (if Authenticate(header, secret, verify).tag == TokenInvalid then 403 else 401)
  {
  }

  /** The identity optionalAuth attaches, if any. */
  function OptionalUser(header: Option<string>, secret: string, verify: Verifier): (r: Option<Claims>)
    ensures r.Some? ==> ExtractToken(header).Some? && verify(ExtractToken(header).value, secret) == Decoded(r.value)
  {
    match ExtractToken(header)
    case None => None
    case Some(token) =>
      match verify(token, secret)
      case Decoded(claims) => Some(claims)
      case Failed(_) => None
  }

  /** optionalAuth attaches exactly the identity authenticateToken would let
      through, and nothing when authenticateToken would reject. */
  lemma OptionalUserAgreesWithAuthenticate(header: Option<string>, secret: string, verify: Verifier)
    ensures OptionalUser(header, secret, verify).Some? <==> Authenticate(header, secret, verify).Proceed?
    ensures OptionalUser(header, secret, verify).Some? ==>
      OptionalUser(header, secret, verify).value == Authenticate(header, secret, verify).user
  {
  }

  // ---------------------------------------------------------------------------
  // generateToken

  /** generateToken(user): signs exactly `{id, email, name}` of the user with
      the configured secret and lifetime. */
  function GenerateToken(id: int, email: string, name: string, env: Env, sign: Signer): (t: string)
    ensures t == sign(TokenPayload(id, email, name), Secret(env), ExpiresIn(env))
  {
    sign(TokenPayload(id, email, name), Secret(env), ExpiresIn(env))
  }

  /** What the library promises: a token it signs is a non-empty string without
      spaces that, while unexpired, verifies with the same secret to claims
      carrying the payload. Used as a hypothesis, never as an axiom. */
  ghost predicate SoundJwt(sign: Signer, verify: Verifier, secret: string, expiresIn: string) {
    forall p: TokenPayload {:trigger sign(p, secret, expiresIn)} ::
      var t := sign(p, secret, expiresIn);
      && t != [] && ' ' !in t
      && verify(t, secret).Decoded?
      && verify(t, secret).claims.id == p.id
      && verify(t, secret).claims.email == p.email
      && verify(t, secret).claims.name == p.name
  }

  /** A token from generateToken, sent as `Bearer <token>` within its
      lifetime, passes authenticateToken with the same id, email and name. */
  lemma IssuedTokenAuthenticates(id: int, email: string, name: string, env: Env, sign: Signer, verify: Verifier)
    requires SoundJwt(sign, verify, Secret(env), ExpiresIn(env))
    ensures var g := Authenticate(Some("Bearer " + GenerateToken(id, email, name, env, sign)), Secret(env), verify);
            g.Proceed? && g.user.id == id && g.user.email == email && g.user.name == name
  {
    var t := GenerateToken(id, email, name, env, sign);
    assert t == sign(TokenPayload(id, email, name), Secret(env), ExpiresIn(env));
    TokenIsSecondWord("Bearer", t, []);
    assert "Bearer " + t == "Bearer" + [' '] + t + [];
  }

  // ---------------------------------------------------------------------------
  // checkOwnership as a decision

  /** The route parameters checkOwnership may read. */
  datatype RouteParams = RouteParams(id: Option<string>, userId: Option<string>)

  /** `req.params.id || req.params.userId`. */
  function ResourceParam(params: RouteParams): (r: Option<string>)
    ensures Present(params.id) ==> r == params.id
    ensures !Present(params.id) ==> r == params.userId
  {
    if Present(params.id) then params.id else params.userId
  }

  /** `req.user.id === parseInt(req.params.id || req.params.userId)`; NaN is
      never equal to an id. */
  predicate Owns(user: Claims, params: RouteParams) {
    ParseOptionalInt(ResourceParam(params)) == Some(user.id)
  }

  /** On a route `/:id` whose parameter is an id written in decimal, the caller
      passes exactly when that id is their own. */
  lemma OwnsExactlyOwnId(user: Claims, n: int, userId: Option<string>)
    ensures Owns(user, RouteParams(Some(Decimal(n)), userId)) <==> user.id == n
  {
    ParseIntDecimal(n);
  }

  /** A parameter that does not parse as a number (NaN) is denied for every user. */
  lemma NaNIsDenied(user: Claims, params: RouteParams)
    requires ParseOptionalInt(ResourceParam(params)).None?
    ensures !Owns(user, params)
  {
  }

  /** authenticateToken followed by checkOwnership, as chained on the routes
      GET, PUT and DELETE /api/users/:id. */
  function GuardOwner(header: Option<string>, params: RouteParams, secret: string, verify: Verifier): (r: GateOutcome)
    ensures r.Proceed? ==> Authenticate(header, secret, verify) == Proceed(r.user)
    ensures r.Proceed? ==> ParseOptionalInt(ResourceParam(params)) == Some(r.user.id)
    ensures Authenticate(header, secret, verify).Reject? ==> r == Authenticate(header, secret, verify)
    ensures Authenticate(header, secret, verify).Proceed? && !Owns(Authenticate(header, secret, verify).user, params) ==>
      r == Reject(AccessDenied)
    ensures Authenticate(header, secret, verify).Proceed? && Owns(Authenticate(header, secret, verify).user, params) ==>
      r == Authenticate(header, secret, verify)
  {
    match Authenticate(header, secret, verify)
    case Reject(tag) => Reject(tag)
    case Proceed(user) => if Owns(user, params) then Proceed(user) else Reject(AccessDenied)
  }

  // ---------------------------------------------------------------------------
  // The middleware functions on request, response and next

  class Request {
    const authorization: Option<string>
    const params: RouteParams
    var user: Option<Claims>

    constructor (authorization: Option<string>, params: RouteParams)
      ensures this.authorization == authorization && this.params == params && user == None
    {
      this.authorization := authorization;
      this.params := params;
      user := None;
    }
  }

  /** The error responses written: `res.status(tag.Code()).json({ error })`. */
  class Response {
    var sent: seq<ErrorTag>

    constructor ()
      ensures sent == []
    {
      sent := [];
    }

    method Send(tag: ErrorTag)
      modifies this
      ensures sent == old(sent) + [tag]
    {
      sent := sent + [tag];
    }
  }

  /** The `next` callback; it counts how often it was called. */
  class Next {
    var calls: nat

    constructor ()
      ensures calls == 0
    {
      calls := 0;
    }

    method Call()
      modifies this
      ensures calls == old(calls) + 1
    {
      calls := calls + 1;
    }
  }

  /** authenticateToken(req, res, next): on success sets `req.user` and calls
      `next` once; otherwise writes one error and leaves `req.user` alone. */
  method AuthenticateToken(req: Request, res: Response, next: Next, env: Env, verify: Verifier)
    modifies req, res, next
    ensures match Authenticate(req.authorization, Secret(env), verify)
            case Proceed(user) =>
              req.user == Some(user) && res.sent == old(res.sent) && next.calls == old(next.calls) + 1
            case Reject(tag) =>
              req.user == old(req.user) && res.sent == old(res.sent) + [tag] && next.calls == old(next.calls)
  {
    var token := ExtractToken(req.authorization);
    if token.None? {
      res.Send(TokenMissing);
      return;
    }
    var verdict := verify(token.value, Secret(env));
    match verdict
    case Failed(name) =>
      if name == TOKEN_EXPIRED_ERROR {
        res.Send(TokenExpired);
      } else {
        res.Send(TokenInvalid);
      }
    case Decoded(user) =>
      req.user := Some(user);
      next.Call();
  }

  /** optionalAuth(req, res, next): never writes a response, always calls
      `next` exactly once, and sets `req.user` only for a token that verifies. */
  method OptionalAuth(req: Request, res: Response, next: Next, env: Env, verify: Verifier)
    modifies req, next
    ensures res.sent == old(res.sent)
    ensures next.calls == old(next.calls) + 1
    ensures req.user == match OptionalUser(req.authorization, Secret(env), verify)
                        case Some(user) => Some(user)
                        case None => old(req.user)
  {
    var token := ExtractToken(req.authorization);
    if token.None? {
      next.Call();
      return;
    }
    var verdict := verify(token.value, Secret(env));
    if verdict.Decoded? {
      req.user := Some(verdict.claims);
    }
    next.Call();
  }

  /** checkOwnership(req, res, next): runs after authenticateToken, so
      `req.user` is set (reading `req.user.id` would otherwise throw). */
  method CheckOwnership(req: Request, res: Response, next: Next)
    requires req.user.Some?
    modifies res, next
    ensures Owns(req.user.value, req.params) ==> res.sent == old(res.sent) && next.calls == old(next.calls) + 1
    ensures !Owns(req.user.value, req.params) ==> res.sent == old(res.sent) + [AccessDenied] && next.calls == old(next.calls)
  {
    var resourceUserId := ParseOptionalInt(ResourceParam(req.params));
    if resourceUserId != Some(req.user.value.id) {
      res.Send(AccessDenied);
      return;
    }
    next.Call();
  }

  /** The chain `authenticateToken, checkOwnership, handler`: the handler's
      `next` is reached exactly when GuardOwner lets the request through. */
  method OwnerChain(req: Request, res: Response, handler: Next, env: Env, verify: Verifier)
    modifies req, res, handler
    ensures var g := GuardOwner(req.authorization, req.params, Secret(env), verify);
            && (g.Proceed? ==> req.user == Some(g.user) && res.sent == old(res.sent) && handler.calls == old(handler.calls) + 1)
            && (g.Reject? ==> res.sent == old(res.sent) + [g.tag] && handler.calls == old(handler.calls))
  {
    var toOwnership := new Next();
    AuthenticateToken(req, res, toOwnership, env, verify);
    if toOwnership.calls == 1 {
      CheckOwnership(req, res, handler);
    }
  }
}
