/** How the worker's token handling meets the coordinator's: the answer of
    loginNode, stored by the worker's TokenManager and sent back as a bearer
    header, passes the coordinator's filter as the node it was issued to;
    and because the coordinator already subtracts a minute from the expiry
    it reports, the worker stops using a token two minutes before the
    token's own expiry claim. */
module Handshake {
  import opened Common
  import opened Strings
  import opened Passwords
  import opened NodeStore
  import opened JwtService
  import opened AuthService
  import opened JwtAuthFilter
  import opened WorkerHttp
  import opened TokenManagement

  /** HttpHeaders.setBearerAuth writes "Bearer " before the token. */
  const BEARER := "Bearer "

  /** The answer a worker receives for a successful loginNode. */
  function LoginAnswer(r: LoginResponse): HttpReply
    requires r.NodeLoginResponse?
  {
    Answered(LoginMap(Some(r.accessToken), Some(Timestamp(r.expiringOn))))
  }

  /** Logged in at time iat, the worker keeps using the token up to and
      including iat + ttl - 120, while the token itself is valid up to
      iat + ttl. */
  lemma RefreshStartsTwoMinutesEarly(nodes: seq<Node>, encoder: PasswordEncoder, cfg: JwtConfig,
                                     nodeId: string, secret: string, cache: Cache, iat: int, later: int)
    requires RoundTrips(cfg.signer) && 0 <= cfg.ttlSeconds
    requires LoginNode(nodes, encoder, cfg, Some(nodeId), Some(secret), iat).Success?
    ensures var body := LoginNode(nodes, encoder, cfg, Some(nodeId), Some(secret), iat).body;
      var stored := Absorb(cache, LoginAnswer(body), iat);
      && stored.outcome == Pass
      && ParseClaims(cfg, body.accessToken, iat).value.exp == Some(iat + cfg.ttlSeconds)
      && (UsableAt(stored.cache, later) <==> later <= iat + cfg.ttlSeconds - 2 * REFRESH_MARGIN)
  {
    LoginNodeTokenIdentifiesNode(nodes, encoder, cfg, Some(nodeId), Some(secret), iat, iat);
  }

  /** The token from a successful loginNode, sent as "Bearer " + token while
      it is unexpired, authenticates the request as that node. */
  lemma WorkerBearerAuthenticates(nodes: seq<Node>, encoder: PasswordEncoder, cfg: JwtConfig,
                                  nodeId: string, secret: string, iat: int, chain: Option<Exception>, later: int)
    requires RoundTrips(cfg.signer) && iat <= later <= iat + cfg.ttlSeconds
    requires LoginNode(nodes, encoder, cfg, Some(nodeId), Some(secret), iat).Success?
    ensures var token := LoginNode(nodes, encoder, cfg, Some(nodeId), Some(secret), iat).body.accessToken;
      DoFilterInternalSpec(cfg, None, Some(BEARER + token), chain, later)
      == FilterRun(Some(NodeAuthentication(nodeId)), CaughtAsUnauthorized(chain))
  {
    LoginNodeOutcomes(nodes, encoder, cfg, Some(nodeId), Some(secret), iat);
    var found := FindByNodeId(nodes, nodeId).value;
    NodeTokenAuthenticates(cfg, BEARER, found.nodeId, iat, chain, later);
  }
}
