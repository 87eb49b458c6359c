/** JwtService: the claim sets the coordinator signs into access tokens, and
    the checks it applies when reading one back. The HMAC signature and the
    compact serialisation are one abstract Signer of which only the round
    trip is assumed; expiry is checked against a clock passed in seconds. */
module JwtService {
  import opened Common

  /** The registered and private claims the core reads or writes (each may
      be absent from a token). */
  datatype Claims = Claims(
    iss: Option<string>,
    sub: Option<string>,
    typ: Option<string>,
    role: Option<string>,
    iat: Option<int>,
    exp: Option<int>)

  /** Signing with the configured key, and verifying a compact token with
      it: verify yields the claims of a well-formed token whose signature is
      good, and nothing otherwise. */
  datatype Signer = Signer(sign: Claims -> string, verify: string -> Option<Claims>)

  /** Verifying what was signed gives back the same claims. */
  ghost predicate RoundTrips(s: Signer) {
    forall c: Claims {:trigger s.sign(c)} :: s.verify(s.sign(c)) == Some(c)
  }

  /** app.jwt.issuer, app.jwt.ttlSeconds and the key behind the signer. */
  datatype JwtConfig = JwtConfig(issuer: string, ttlSeconds: int, signer: Signer)

  const NODE_TYP := "node"

  /** The claims of a node token issued at time now. */
  function NodeClaims(cfg: JwtConfig, nodeId: string, now: int): (c: Claims)
    ensures c.iss == Some(cfg.issuer) && c.sub == Some(nodeId) && c.typ == Some(NODE_TYP)
    ensures c.role.None? && c.iat == Some(now) && c.exp == Some(now + cfg.ttlSeconds)
  {
    Claims(Some(cfg.issuer), Some(nodeId), Some(NODE_TYP), None, Some(now), Some(now + cfg.ttlSeconds))
  }

  /** The claims of a user token: the role is both the typ and the role claim. */
  function UserClaims(cfg: JwtConfig, adminId: string, role: string, now: int): (c: Claims)
    ensures c.iss == Some(cfg.issuer) && c.sub == Some(adminId) && c.typ == Some(role)
    ensures c.role == Some(role) && c.iat == Some(now) && c.exp == Some(now + cfg.ttlSeconds)
  {
    Claims(Some(cfg.issuer), Some(adminId), Some(role), Some(role), Some(now), Some(now + cfg.ttlSeconds))
  }

  /** mintNodeToken. */
  function MintNodeToken(cfg: JwtConfig, nodeId: string, now: int): string {
    cfg.signer.sign(NodeClaims(cfg, nodeId, now))
  }

  /** mintUserToken. */
  function MintUserToken(cfg: JwtConfig, adminId: string, role: string, now: int): string {
    cfg.signer.sign(UserClaims(cfg, adminId, role, now))
  }

  /** The token's expiry has passed (an absent exp never expires). */
  predicate Expired(c: Claims, now: int) {
    c.exp.Some? && now > c.exp.value
  }

  /** parseClaims: the signature is checked first, then the expiry, then the
      required issuer; each failure is a JwtException. */
  function ParseClaims(cfg: JwtConfig, token: string, now: int): (r: Result<Claims>)
    ensures r.Ok? <==> (cfg.signer.verify(token).Some? && !Expired(cfg.signer.verify(token).value, now)
                        && cfg.signer.verify(token).value.iss == Some(cfg.issuer))
    ensures r.Ok? ==> Some(r.value) == cfg.signer.verify(token)
    ensures r.Err? ==> r.ex.Jwt?
  {
    match cfg.signer.verify(token)
    case None => Err(Jwt("Invalid signature or malformed token"))
    case Some(c) =>
      if Expired(c, now) then Err(Jwt("Token expired"))
      else if c.iss != Some(cfg.issuer) then Err(Jwt("Incorrect issuer"))
      else Ok(c)
  }

  /** parseNodeId: the subject of a valid token whose typ is "node" (the
      subject itself may be absent). */
  function ParseNodeId(cfg: JwtConfig, token: string, now: int): (r: Result<Option<string>>)
    ensures r.Ok? <==> ParseClaims(cfg, token, now).Ok? && ParseClaims(cfg, token, now).value.typ == Some(NODE_TYP)
    ensures r.Ok? ==> r.value == ParseClaims(cfg, token, now).value.sub
  {
    match ParseClaims(cfg, token, now)
    case Err(ex) => Err(ex)
    case Ok(claims) =>
      if claims.typ != Some(NODE_TYP) then Err(Jwt("Invalid token type"))
      else Ok(claims.sub)
  }

  /** A node token reads back as the node id it was minted for, at every
      moment up to and including its expiry. */
  lemma NodeTokenRoundTrip(cfg: JwtConfig, nodeId: string, iat: int, now: int)
    requires RoundTrips(cfg.signer) && now <= iat + cfg.ttlSeconds
    ensures ParseClaims(cfg, MintNodeToken(cfg, nodeId, iat), now) == Ok(NodeClaims(cfg, nodeId, iat))
    ensures ParseNodeId(cfg, MintNodeToken(cfg, nodeId, iat), now) == Ok(Some(nodeId))
  {
    assert cfg.signer.verify(cfg.signer.sign(NodeClaims(cfg, nodeId, iat))) == Some(NodeClaims(cfg, nodeId, iat));
  }

  /** One second after its expiry, any token minted here is refused. */
  lemma MintedTokenExpires(cfg: JwtConfig, c: Claims, now: int)
    requires RoundTrips(cfg.signer) && c.exp.Some? && now > c.exp.value
    ensures ParseClaims(cfg, cfg.signer.sign(c), now) == Err(Jwt("Token expired"))
  {
    assert cfg.signer.verify(cfg.signer.sign(c)) == Some(c);
  }

  /** A token minted for another issuer with the same key is refused. */
  lemma ForeignIssuerRejected(cfg: JwtConfig, other: string, nodeId: string, iat: int, now: int)
    requires RoundTrips(cfg.signer) && other != cfg.issuer && now <= iat + cfg.ttlSeconds
    ensures ParseClaims(cfg, MintNodeToken(cfg.(issuer := other), nodeId, iat), now) == Err(Jwt("Incorrect issuer"))
  {
    assert cfg.signer.verify(cfg.signer.sign(NodeClaims(cfg.(issuer := other), nodeId, iat)))
        == Some(NodeClaims(cfg.(issuer := other), nodeId, iat));
  }

  /** parseNodeId accepts an unexpired user token exactly when its role is
      the literal string "node", and then yields the user's id. */
  lemma UserTokenAsNodeToken(cfg: JwtConfig, adminId: string, role: string, iat: int, now: int)
    requires RoundTrips(cfg.signer) && now <= iat + cfg.ttlSeconds
    ensures var r := ParseNodeId(cfg, MintUserToken(cfg, adminId, role, iat), now);
      (r.Ok? <==> role == NODE_TYP) && (r.Ok? ==> r.value == Some(adminId))
      && (r.Err? ==> r.ex == Jwt("Invalid token type"))
  {
    assert cfg.signer.verify(cfg.signer.sign(UserClaims(cfg, adminId, role, iat))) == Some(UserClaims(cfg, adminId, role, iat));
  }
}
