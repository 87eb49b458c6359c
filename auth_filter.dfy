/** JwtAuthFilter: the servlet filter that turns the Authorization header of
    a request into an authentication in the security context. The decision
    on the token's claims is a function; the filter itself is a method over
    the security context. The header is read with substring(7): there is no
    check for the "Bearer " prefix. */
module JwtAuthFilter {
  import opened Common
  import opened Strings
  import opened JwtService

  /** What the filter can put in the security context. */
  datatype Authentication =
    | NodeAuthentication(nodeId: string)                        // authority ROLE_NODE
    | UserAuthentication(principal: string, authority: string)  // a username/password token with one authority

  const ROLE_NODE := "ROLE_NODE"
  const ROLE_PREFIX := "ROLE_"
  /** The length of "Bearer ", which is cut off the header unchecked. */
  const BEARER_LENGTH := 7

  /** The granted authorities of an authentication. */
  function Authorities(a: Authentication): seq<string> {
    match a
    case NodeAuthentication(_) => [ROLE_NODE]
    case UserAuthentication(_, authority) => [authority]
  }

  /** How a request leaves the filter: down the chain and back normally,
      with an error status set on the response, or with an exception. */
  datatype FilterOutcome = Continued | Status(code: int) | Threw(ex: Exception)

  /** The rest of the filter chain run outside the try block: an exception
      it throws (chain is Some) leaves the filter. */
  function Propagated(chain: Option<Exception>): (r: FilterOutcome)
    ensures r.Threw? <==> chain.Some?
    ensures r.Threw? ==> r.ex == chain.value
    ensures chain.None? ==> r == Continued
  {
    if chain.None? then Continued else Threw(chain.value)
  }

  /** The rest of the filter chain run inside the try block: an exception it
      throws is caught and answered 401. */
  function CaughtAsUnauthorized(chain: Option<Exception>): (r: FilterOutcome)
    ensures !r.Threw?
    ensures r == Continued <==> chain.None?
    ensures r.Status? ==> r.code == UNAUTHORIZED
  {
    if chain.None? then Continued else Status(UNAUTHORIZED)
  }

  /** The security context after the filter, and how the request left it. */
  datatype FilterRun = FilterRun(authentication: Option<Authentication>, outcome: FilterOutcome)

  /** shouldNotFilter: login endpoints are not filtered. */
  predicate ShouldNotFilter(servletPath: Option<string>) {
    servletPath.Some? && StartsWith(servletPath.value, "/auth/")
  }

  /** The typ values that ask for a user authentication (case-sensitive). */
  predicate IsUserTyp(typ: string) {
    Contains(typ, "user") || Contains(typ, "admin")
  }

  /** The authentication a set of valid claims earns, if any. */
  function Classify(c: Claims): (r: Option<Authentication>)
    ensures r.Some? <==> c.typ.Some? && c.sub.Some? && !IsBlank(c.sub.value)
                         && (c.typ.value == NODE_TYP || (IsUserTyp(c.typ.value) && c.role.Some?))
    ensures r.Some? && c.typ == Some(NODE_TYP) ==> r.value == NodeAuthentication(c.sub.value)
    ensures r.Some? && c.typ != Some(NODE_TYP) ==> r.value == UserAuthentication(c.sub.value, ROLE_PREFIX + c.role.value)
  {
    if c.typ.None? || c.sub.None? || IsBlank(c.sub.value) then None
    else if c.typ.value == NODE_TYP then Some(NodeAuthentication(c.sub.value))
    else if IsUserTyp(c.typ.value) then
      if c.role.None? then None else Some(UserAuthentication(c.sub.value, ROLE_PREFIX + c.role.value))
    else None
  }

  /** doFilterInternal, given the authentication already in the context,
      the Authorization header (None when the request has none) and the
      exception the rest of the chain throws once entered (None when it
      returns normally). */
  function DoFilterInternalSpec(cfg: JwtConfig, current: Option<Authentication>, header: Option<string>,
                                chain: Option<Exception>, now: int): FilterRun {
    if current.Some? then FilterRun(current, Propagated(chain))
    else if header.None? then FilterRun(None, Threw(NullPointer))
    else if |header.value| < BEARER_LENGTH then FilterRun(None, Threw(IndexOutOfBounds))
    else
      var claims := ParseClaims(cfg, header.value[BEARER_LENGTH..], now);
      if claims.Err? then FilterRun(None, Status(UNAUTHORIZED))
      else
        var a := Classify(claims.value);
        if a.None? then FilterRun(None, Status(UNAUTHORIZED)) else FilterRun(a, CaughtAsUnauthorized(chain))
  }

  /** The whole filter: a path shouldNotFilter accepts goes down the chain
      untouched, any other goes through doFilterInternal. */
  function DoFilterSpec(cfg: JwtConfig, servletPath: Option<string>, current: Option<Authentication>,
                        header: Option<string>, chain: Option<Exception>, now: int): FilterRun {
    if ShouldNotFilter(servletPath) then FilterRun(current, Propagated(chain))
    else DoFilterInternalSpec(cfg, current, header, chain, now)
  }

  /** Login endpoints are never filtered, whatever the header. */
  lemma AuthPathsPassThrough(cfg: JwtConfig, rest: string, current: Option<Authentication>, header: Option<string>,
                             chain: Option<Exception>, now: int)
    ensures DoFilterSpec(cfg, Some("/auth/" + rest), current, header, chain, now) == FilterRun(current, Propagated(chain))
  {
    assert ("/auth/" + rest)[..6] == "/auth/";
  }

  /** An authentication already present is kept and the header is not read;
      this call of the chain is outside the try, so its exception escapes. */
  lemma ExistingAuthenticationKept(cfg: JwtConfig, a: Authentication, header: Option<string>,
                                   chain: Option<Exception>, now: int)
    ensures DoFilterInternalSpec(cfg, Some(a), header, chain, now) == FilterRun(Some(a), Propagated(chain))
  {
  }

  /** A missing header, or one shorter than "Bearer ", makes the filter throw
      instead of answering 401. */
  lemma ShortHeaderThrows(cfg: JwtConfig, header: Option<string>, chain: Option<Exception>, now: int)
    requires header.None? || |header.value| < BEARER_LENGTH
    ensures var run := DoFilterInternalSpec(cfg, None, header, chain, now);
      run.outcome.Threw? && run.authentication.None?
  {
  }

  /** Without a prior authentication the filter runs the chain exactly when
      it has just authenticated the request, and the request passes exactly
      when moreover the chain returns normally; otherwise it answers 401 or
      throws, and the context stays empty. */
  lemma ContinuesIffAuthenticated(cfg: JwtConfig, header: Option<string>, chain: Option<Exception>, now: int)
    ensures var run := DoFilterInternalSpec(cfg, None, header, chain, now);
      && (run.outcome == Continued <==> run.authentication.Some? && chain.None?)
      && (run.authentication.Some? ==> run.outcome == CaughtAsUnauthorized(chain))
      && (run.outcome.Status? ==> run.outcome.code == UNAUTHORIZED)
  {
  }

  /** A request that passes the filter, but whose rest of the chain throws,
      is answered 401 by the catch; the authentication stays in the
      context. */
  lemma ChainFailureAnsweredUnauthorized(cfg: JwtConfig, header: Option<string>, ex: Exception, now: int)
    requires DoFilterInternalSpec(cfg, None, header, None, now).outcome == Continued
    ensures DoFilterInternalSpec(cfg, None, header, Some(ex), now)
            == FilterRun(DoFilterInternalSpec(cfg, None, header, None, now).authentication, Status(UNAUTHORIZED))
  {
  }

  /** A request carrying an unexpired node token, behind any seven
      characters, is authenticated as that node with authority ROLE_NODE. */
  lemma NodeTokenAuthenticates(cfg: JwtConfig, prefix: string, nodeId: string, iat: int, chain: Option<Exception>, now: int)
    requires RoundTrips(cfg.signer) && |prefix| == BEARER_LENGTH && !IsBlank(nodeId) && now <= iat + cfg.ttlSeconds
    ensures var run := DoFilterInternalSpec(cfg, None, Some(prefix + MintNodeToken(cfg, nodeId, iat)), chain, now);
      run == FilterRun(Some(NodeAuthentication(nodeId)), CaughtAsUnauthorized(chain))
      && Authorities(run.authentication.value) == [ROLE_NODE]
  {
    var token := MintNodeToken(cfg, nodeId, iat);
    assert (prefix + token)[BEARER_LENGTH..] == token;
    NodeTokenRoundTrip(cfg, nodeId, iat, now);
  }

  /** An unexpired user token: role "node" passes as a node, a role
      containing "user" or "admin" gets authority "ROLE_" + role, and every
      other role is answered 401 without running the chain. */
  lemma UserTokenClassified(cfg: JwtConfig, prefix: string, userId: string, role: string, iat: int,
                            chain: Option<Exception>, now: int)
    requires RoundTrips(cfg.signer) && |prefix| == BEARER_LENGTH && !IsBlank(userId) && now <= iat + cfg.ttlSeconds
    ensures var run := DoFilterInternalSpec(cfg, None, Some(prefix + MintUserToken(cfg, userId, role, iat)), chain, now);
      && (run.authentication.Some? <==> role == NODE_TYP || IsUserTyp(role))
      && (role == NODE_TYP ==> run.authentication == Some(NodeAuthentication(userId)))
      && (role != NODE_TYP && IsUserTyp(role) ==> run.authentication == Some(UserAuthentication(userId, ROLE_PREFIX + role)))
      && (run.authentication.Some? ==> run.outcome == CaughtAsUnauthorized(chain))
      && (run.authentication.None? ==> run == FilterRun(None, Status(UNAUTHORIZED)))
  {
    var token := MintUserToken(cfg, userId, role, iat);
    assert (prefix + token)[BEARER_LENGTH..] == token;
    assert cfg.signer.verify(cfg.signer.sign(UserClaims(cfg, userId, role, iat))) == Some(UserClaims(cfg, userId, role, iat));
  }

  /** A string does not start with a pattern whose first character differs. */
  lemma FirstCharBlocks(s: string, p: string)
    requires p != [] && (s == [] || s[0] != p[0])
    ensures !StartsWith(s, p)
  {
    if |p| <= |s| {
      assert s[..|p|][0] == s[0];
    }
  }

  /** An upper-case string contains no pattern that starts in lower case. */
  lemma {:induction false} LowerNotInUpper(s: string, p: string)
    requires p != [] && 'a' <= p[0] <= 'z'
    requires forall i :: 0 <= i < |s| ==> 'A' <= s[i] <= 'Z'
    ensures !Contains(s, p)
    decreases |s|
  {
    FirstCharBlocks(s, p);
    if s != [] {
      LowerNotInUpper(s[1..], p);
    }
  }

  /** The typ check is case-sensitive: "ADMIN" contains neither "admin" nor
      "user". */
  lemma UppercaseAdminIsNotUserTyp()
    ensures !IsUserTyp("ADMIN")
  {
    LowerNotInUpper("ADMIN", "admin");
    LowerNotInUpper("ADMIN", "user");
  }

  /** So a user whose role is "ADMIN" is refused with 401. */
  lemma UppercaseAdminTokenRefused(cfg: JwtConfig, prefix: string, userId: string, iat: int,
                                   chain: Option<Exception>, now: int)
    requires RoundTrips(cfg.signer) && |prefix| == BEARER_LENGTH && !IsBlank(userId) && now <= iat + cfg.ttlSeconds
    ensures DoFilterInternalSpec(cfg, None, Some(prefix + MintUserToken(cfg, userId, "ADMIN", iat)), chain, now)
            == FilterRun(None, Status(UNAUTHORIZED))
  {
    UppercaseAdminIsNotUserTyp();
    UserTokenClassified(cfg, prefix, userId, "ADMIN", iat, chain, now);
  }

  /** An expired token is answered 401, whatever it claims. */
  lemma ExpiredTokenRefused(cfg: JwtConfig, prefix: string, c: Claims, chain: Option<Exception>, now: int)
    requires RoundTrips(cfg.signer) && |prefix| == BEARER_LENGTH && c.exp.Some? && now > c.exp.value
    ensures DoFilterInternalSpec(cfg, None, Some(prefix + cfg.signer.sign(c)), chain, now) == FilterRun(None, Status(UNAUTHORIZED))
  {
    assert (prefix + cfg.signer.sign(c))[BEARER_LENGTH..] == cfg.signer.sign(c);
    MintedTokenExpires(cfg, c, now);
  }

  /** SecurityContextHolder's context for the current request. */
  class SecurityContext {
    var authentication: Option<Authentication>

    constructor ()
      ensures authentication.None?
    {
      authentication := None;
    }
  }

  class AuthFilter {
    const jwtService: JwtConfig

    constructor (jwtService: JwtConfig)
      ensures this.jwtService == jwtService
    {
      this.jwtService := jwtService;
    }

    /** doFilterInternal on the request's context: sets the authentication
        it earns, and reports how the request leaves the filter; chain is
        what the rest of the chain throws when it is run. */
    method DoFilterInternal(context: SecurityContext, authorization: Option<string>, chain: Option<Exception>, now: int)
      returns (o: FilterOutcome)
      modifies context
      ensures FilterRun(context.authentication, o)
              == DoFilterInternalSpec(jwtService, old(context.authentication), authorization, chain, now)
    {
      if context.authentication.Some? {
        return Propagated(chain);
      }
      if authorization.None? {
        return Threw(NullPointer);
      }
      if |authorization.value| < BEARER_LENGTH {
        return Threw(IndexOutOfBounds);
      }
      var token := authorization.value[BEARER_LENGTH..];
      var claims := ParseClaims(jwtService, token, now);
      if claims.Err? {
        return Status(UNAUTHORIZED);
      }
      var typ := claims.value.typ;
      var subject := claims.value.sub;
      if typ.None? || subject.None? || IsBlank(subject.value) {
        return Status(UNAUTHORIZED);
      }
      if typ.value == NODE_TYP {
        context.authentication := Some(NodeAuthentication(subject.value));
        return CaughtAsUnauthorized(chain);
      }
      if IsUserTyp(typ.value) {
        var role := claims.value.role;
        if role.None? {
          return Status(UNAUTHORIZED);
        }
        context.authentication := Some(UserAuthentication(subject.value, ROLE_PREFIX + role.value));
        return CaughtAsUnauthorized(chain);
      }
      o := Status(UNAUTHORIZED);
    }

    /** OncePerRequestFilter.doFilter: skips the paths shouldNotFilter names. */
    method DoFilter(servletPath: Option<string>, context: SecurityContext, authorization: Option<string>,
                    chain: Option<Exception>, now: int)
      returns (o: FilterOutcome)
      modifies context
      ensures FilterRun(context.authentication, o)
              == DoFilterSpec(jwtService, servletPath, old(context.authentication), authorization, chain, now)
    {
      if ShouldNotFilter(servletPath) {
        return Propagated(chain);
      }
      o := DoFilterInternal(context, authorization, chain, now);
    }
  }
}
