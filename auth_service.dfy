/** AuthService: the two login guard chains. Each failure is a
    ResponseStatusException with status 401; a success is a 200 response
    carrying a freshly minted token. */
module AuthService {
  import opened Common
  import opened Strings
  import opened Passwords
  import opened JwtService
  import opened NodeStore
  import opened UserStore
  import NodeRegistration
  import UserRegistration

  /** The bodies of the two successful responses. */
  datatype LoginResponse =
    | NodeLoginResponse(accessToken: string, expiringOn: int)
    | UserLoginResponse(accessToken: string, role: string)

  const INVALID_CREDENTIALS: Exception := ResponseStatus(UNAUTHORIZED, "Invalid credentials")
  const NODE_DISABLED: Exception := ResponseStatus(UNAUTHORIZED, "Node disabled")
  const USER_DISABLED: Exception := ResponseStatus(UNAUTHORIZED, "Disabled")
  /** The node is told its token expires this much before it really does. */
  const EXPIRY_MARGIN := 60

  /** loginNode at time now; the id and the secret may be missing from the
      request. */
  function LoginNode(nodes: seq<Node>, encoder: PasswordEncoder, cfg: JwtConfig,
                     nodeId: Option<string>, nodeSecret: Option<string>, now: int): Reply<LoginResponse> {
    if nodeId.None? || IsBlank(nodeId.value) || nodeSecret.None? || IsBlank(nodeSecret.value) then
      Thrown(INVALID_CREDENTIALS)
    else match FindByNodeId(nodes, nodeId.value)
      case None => Thrown(INVALID_CREDENTIALS)
      case Some(node) =>
        if !node.isActive then Thrown(NODE_DISABLED)
        else if !encoder.matches(nodeSecret.value, node.nodeSecretHash) then Thrown(INVALID_CREDENTIALS)
        else Success(NodeLoginResponse(MintNodeToken(cfg, node.nodeId, now), now + cfg.ttlSeconds - EXPIRY_MARGIN))
  }

  /** The request carries a non-blank id and secret. */
  predicate Filled(nodeId: Option<string>, nodeSecret: Option<string>) {
    nodeId.Some? && !IsBlank(nodeId.value) && nodeSecret.Some? && !IsBlank(nodeSecret.value)
  }

  /** loginNode succeeds exactly for a filled request naming an active node
      whose stored hash matches the secret; it answers "Node disabled"
      exactly for a filled request naming an inactive node, whatever the
      secret; every other request gets the one "Invalid credentials" error,
      so an unknown id and a wrong secret cannot be told apart. */
  lemma LoginNodeOutcomes(nodes: seq<Node>, encoder: PasswordEncoder, cfg: JwtConfig,
                          nodeId: Option<string>, nodeSecret: Option<string>, now: int)
    ensures var r := LoginNode(nodes, encoder, cfg, nodeId, nodeSecret, now);
      var node := if nodeId.Some? then FindByNodeId(nodes, nodeId.value) else None;
      && (r.Success? <==> Filled(nodeId, nodeSecret) && node.Some? && node.value.isActive
                          && encoder.matches(nodeSecret.value, node.value.nodeSecretHash))
      && (r == Thrown(NODE_DISABLED) <==> Filled(nodeId, nodeSecret) && node.Some? && !node.value.isActive)
      && (r.Success? || r == Thrown(NODE_DISABLED) || r == Thrown(INVALID_CREDENTIALS))
  {
  }

  /** The token a successful loginNode hands out reads back as the requested
      node id until it expires, and the reported expiry is EXPIRY_MARGIN
      seconds before the token's own. */
  lemma LoginNodeTokenIdentifiesNode(nodes: seq<Node>, encoder: PasswordEncoder, cfg: JwtConfig,
                                     nodeId: Option<string>, nodeSecret: Option<string>, now: int, later: int)
    requires RoundTrips(cfg.signer) && now <= later <= now + cfg.ttlSeconds
    requires LoginNode(nodes, encoder, cfg, nodeId, nodeSecret, now).Success?
    ensures var body := LoginNode(nodes, encoder, cfg, nodeId, nodeSecret, now).body;
      && body.NodeLoginResponse?
      && ParseNodeId(cfg, body.accessToken, later) == Ok(nodeId)
      && ParseClaims(cfg, body.accessToken, later).value.exp == Some(body.expiringOn + EXPIRY_MARGIN)
  {
    NodeTokenRoundTrip(cfg, nodeId.value, now, later);
  }

  /** A node registered with a non-blank id and secret can log in with that
      secret at any later time. */
  lemma CreatedNodeCanLogIn(nodes: seq<Node>, encoder: PasswordEncoder, cfg: JwtConfig,
                            nodeId: string, secret: string, createdOn: int, now: int)
    requires Sound(encoder) && FindByNodeId(nodes, nodeId).None? && !IsBlank(nodeId) && !IsBlank(secret)
    ensures var registered := NodeRegistration.CreateSpec(nodes, encoder, nodeId, secret, createdOn).nodes;
      LoginNode(registered, encoder, cfg, Some(nodeId), Some(secret), now)
        == Success(NodeLoginResponse(MintNodeToken(cfg, nodeId, now), now + cfg.ttlSeconds - EXPIRY_MARGIN))
  {
    var node := Node(nodeId, encoder.encode(secret), true, createdOn);
    FindAfterAppend(nodes, node, nodeId);
    assert encoder.matches(secret, encoder.encode(secret));
  }

  /** login for a username and password at time now. */
  function Login(users: map<string, User>, encoder: PasswordEncoder, cfg: JwtConfig,
                 username: string, password: string, now: int): Reply<LoginResponse> {
    match FindByUsername(users, username)
    case None => Thrown(INVALID_CREDENTIALS)
    case Some(user) =>
      if !user.active then Thrown(USER_DISABLED)
      else if !encoder.matches(password, user.passwordHash) then Thrown(INVALID_CREDENTIALS)
      else Success(UserLoginResponse(MintUserToken(cfg, user.id, user.role, now), user.role))
  }

  /** login succeeds exactly for an enabled user whose stored hash matches
      the password; "Disabled" is the answer for a disabled user whatever
      the password; an unknown name and a wrong password get the same
      "Invalid credentials". */
  lemma LoginOutcomes(users: map<string, User>, encoder: PasswordEncoder, cfg: JwtConfig,
                      username: string, password: string, now: int)
    ensures var r := Login(users, encoder, cfg, username, password, now);
      && (r.Success? <==> username in users && users[username].active && encoder.matches(password, users[username].passwordHash))
      && (r == Thrown(USER_DISABLED) <==> username in users && !users[username].active)
      && (r.Success? || r == Thrown(USER_DISABLED) || r == Thrown(INVALID_CREDENTIALS))
  {
  }

  /** A successful login returns the user's role and a token whose claims
      name the user's id as subject and its role as both typ and role. */
  lemma LoginTokenCarriesRole(users: map<string, User>, encoder: PasswordEncoder, cfg: JwtConfig,
                              username: string, password: string, now: int, later: int)
    requires RoundTrips(cfg.signer) && now <= later <= now + cfg.ttlSeconds
    requires Login(users, encoder, cfg, username, password, now).Success?
    ensures var body := Login(users, encoder, cfg, username, password, now).body;
      var user := users[username];
      && body == UserLoginResponse(body.accessToken, user.role)
      && ParseClaims(cfg, body.accessToken, later) == Ok(UserClaims(cfg, user.id, user.role, now))
  {
    var user := users[username];
    assert cfg.signer.verify(cfg.signer.sign(UserClaims(cfg, user.id, user.role, now))) == Some(UserClaims(cfg, user.id, user.role, now));
  }

  /** A user registered under a free name can log in with that password. */
  lemma CreatedUserCanLogIn(users: map<string, User>, encoder: PasswordEncoder, cfg: JwtConfig,
                            username: string, password: string, role: string, id: string, now: int)
    requires Sound(encoder) && username !in users
    ensures var registered := UserRegistration.CreateSpec(users, encoder, username, password, role, id).users;
      Login(registered, encoder, cfg, username, password, now)
        == Success(UserLoginResponse(MintUserToken(cfg, id, role, now), role))
  {
    assert encoder.matches(password, encoder.encode(password));
  }
}
