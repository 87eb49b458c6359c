/** TokenManager: the worker's cache of its access token and the time the
    coordinator said it expires. getValidToken logs in when the cache is
    empty or within REFRESH_MARGIN seconds of that time; login itself
    re-checks the cache before it posts the node's credentials. Times are
    integer seconds, and one clock reading serves a whole call. */
module TokenManagement {
  import opened Common
  import opened WorkerHttp

  /** The two volatile fields; None is null. */
  datatype Cache = Cache(accessToken: Option<string>, expiringOn: Option<int>)

  /** The node's configured id and secret, the body of every login post. */
  datatype Credentials = Credentials(nodeId: string, nodeSecret: string)

  /** The token cache together with the wire it logs in over. */
  datatype Client = Client(cache: Cache, net: Net)

  const REFRESH_MARGIN := 60
  /** The lifetime assumed when a login answer has no expiringOn (55 minutes). */
  const FALLBACK_LIFETIME := 55 * 60
  const NO_TOKEN: Exception := IllegalState("Login failed: no accessToken")

  /** getValidToken's test: both fields set and expiringOn - 60 s is not
      before now. */
  predicate UsableAt(c: Cache, now: int) {
    c.accessToken.Some? && c.expiringOn.Some? && !(c.expiringOn.value - REFRESH_MARGIN < now)
  }

  /** login's double check: both fields set and expiringOn - 60 s is after
      now. */
  predicate StillValidAt(c: Cache, now: int) {
    c.accessToken.Some? && c.expiringOn.Some? && c.expiringOn.value - REFRESH_MARGIN > now
  }

  datatype Refreshed = Refreshed(cache: Cache, outcome: Outcome)

  /** What one login answer does to the cache. The token is stored before
      the expiry is parsed, so a malformed expiry leaves the new token with
      the old expiry. */
  function Absorb(c: Cache, reply: HttpReply, now: int): (r: Refreshed)
    ensures r.outcome.Pass? ==> r.cache.accessToken.Some? && r.cache.expiringOn.Some?
  {
    match reply
    case Failed(ex) => Refreshed(c, Fail(ex))
    case Answered(body) =>
      if !body.LoginMap? || body.accessToken.None? then Refreshed(c, Fail(NO_TOKEN))
      else match body.expiringOn
        case None => Refreshed(Cache(body.accessToken, Some(now + FALLBACK_LIFETIME)), Pass)
        case Some(Timestamp(at)) => Refreshed(Cache(body.accessToken, Some(at)), Pass)
        case Some(Malformed) => Refreshed(c.(accessToken := body.accessToken), Fail(DateTimeParse))
  }

  datatype LoginRun = LoginRun(state: Client, outcome: Outcome)

  /** login at time now. */
  function LoginSpec(cred: Credentials, s: Client, now: int): (r: LoginRun)
    ensures StillValidAt(s.cache, now) ==> r == LoginRun(s, Pass)
    ensures !StillValidAt(s.cache, now) ==>
              r.state.net.requests == s.net.requests + [LoginPost(cred.nodeId, cred.nodeSecret)]
    ensures r.outcome.Pass? ==> r.state.cache.accessToken.Some? && r.state.cache.expiringOn.Some?
  {
    if StillValidAt(s.cache, now) then LoginRun(s, Pass)
    else
      var sent := Transmit(s.net, LoginPost(cred.nodeId, cred.nodeSecret));
      var a := Absorb(s.cache, sent.reply, now);
      LoginRun(Client(a.cache, sent.net), a.outcome)
  }

  datatype TokenRun = TokenRun(state: Client, token: Result<string>)

  /** getValidToken at time now. */
  function GetValidTokenSpec(cred: Credentials, s: Client, now: int): TokenRun {
    if UsableAt(s.cache, now) then TokenRun(s, Ok(s.cache.accessToken.value))
    else
      var l := LoginSpec(cred, s, now);
      if l.outcome.Fail? then TokenRun(l.state, Err(l.outcome.ex))
      else TokenRun(l.state, Ok(l.state.cache.accessToken.value))
  }

  /** The cache is usable at least as long as login would skip the request;
      at the instant expiringOn - 60 s equals now, getValidToken uses the
      cached token but login would fetch a new one. */
  lemma ValidityBoundary(c: Cache, now: int)
    ensures StillValidAt(c, now) ==> UsableAt(c, now)
    ensures c.accessToken.Some? && c.expiringOn == Some(now + REFRESH_MARGIN) ==> UsableAt(c, now) && !StillValidAt(c, now)
  {
  }

  /** Whenever getValidToken logs in, the login really posts the
      credentials: it never takes the early return. */
  lemma GetValidTokenPostsWhenStale(cred: Credentials, s: Client, now: int)
    requires !UsableAt(s.cache, now)
    ensures var run := GetValidTokenSpec(cred, s, now);
      run.state.net.requests == s.net.requests + [LoginPost(cred.nodeId, cred.nodeSecret)]
  {
  }

  /** The token getValidToken returns is the one left in the cache, and the
      wire is untouched when the cache was usable. */
  lemma GetValidTokenReturnsCached(cred: Credentials, s: Client, now: int)
    ensures var run := GetValidTokenSpec(cred, s, now);
      && (run.token.Ok? ==> run.state.cache.accessToken == Some(run.token.value))
      && (UsableAt(s.cache, now) ==> run.state == s && run.token.Ok?)
  {
  }

  /** After invalidate, login always posts the credentials. */
  lemma InvalidatedLoginPosts(cred: Credentials, net: Net, now: int)
    ensures LoginSpec(cred, Client(Cache(None, None), net), now).state.net.requests
            == net.requests + [LoginPost(cred.nodeId, cred.nodeSecret)]
  {
  }

  /** A login that gets no answer, an error, a null body or a body without
      accessToken fails and leaves both fields as they were; an answer with a
      token stores it, with expiringOn the parsed time, now + 55 minutes
      when absent, or (when malformed) the old value, the call then failing
      with a parse error. */
  lemma LoginAnswerEffect(c: Cache, reply: HttpReply, now: int)
    ensures var r := Absorb(c, reply, now);
      var token := if reply.Answered? && reply.body.LoginMap? then reply.body.accessToken else None;
      && (token.None? ==> r.cache == c && r.outcome.Fail?
                          && (reply.Answered? ==> r.outcome.ex == NO_TOKEN))
      && (token.Some? ==>
            && r.cache.accessToken == token
            && r.cache.expiringOn == (match reply.body.expiringOn
                                      case None => Some(now + FALLBACK_LIFETIME)
                                      case Some(Timestamp(at)) => Some(at)
                                      case Some(Malformed) => c.expiringOn)
            && (r.outcome.Pass? <==> reply.body.expiringOn != Some(Malformed))
            && (r.outcome.Fail? ==> r.outcome.ex == DateTimeParse))
  {
  }

  /** An answer whose expiringOn is t leaves a cache usable exactly up to
      t - 60 s. */
  lemma UsableUntilMargin(c: Cache, token: string, t: int, now: int, later: int)
    ensures var r := Absorb(c, Answered(LoginMap(Some(token), Some(Timestamp(t)))), now);
      r.outcome == Pass && (UsableAt(r.cache, later) <==> later <= t - REFRESH_MARGIN)
  {
  }

  class TokenManager {
    var accessToken: Option<string>
    var expiringOn: Option<int>
    const rt: RestTemplate
    const nodeId: string
    const nodeSecret: string

    constructor (rt: RestTemplate, nodeId: string, nodeSecret: string)
      ensures accessToken.None? && expiringOn.None?
      ensures this.rt == rt && this.nodeId == nodeId && this.nodeSecret == nodeSecret
    {
      this.rt := rt;
      this.nodeId := nodeId;
      this.nodeSecret := nodeSecret;
      accessToken := None;
      expiringOn := None;
    }

    function Cached(): Cache
      reads this
    {
      Cache(accessToken, expiringOn)
    }

    function Creds(): Credentials {
      Credentials(nodeId, nodeSecret)
    }

    function State(): Client
      reads this, rt
    {
      Client(Cached(), rt.Wire())
    }

    method GetValidToken(now: int) returns (r: Result<string>)
      modifies this, rt
      ensures TokenRun(State(), r) == GetValidTokenSpec(Creds(), old(State()), now)
    {
      if accessToken.None? || expiringOn.None? || expiringOn.value - REFRESH_MARGIN < now {
        var o := Login(now);
        if o.Fail? {
          return Err(o.ex);
        }
      }
      r := Ok(accessToken.value);
    }

    method Login(now: int) returns (o: Outcome)
      modifies this, rt
      ensures LoginRun(State(), o) == LoginSpec(Creds(), old(State()), now)
    {
      if accessToken.Some? && expiringOn.Some? && expiringOn.value - REFRESH_MARGIN > now {
        return Pass;
      }
      var reply := rt.Send(LoginPost(nodeId, nodeSecret));
      if reply.Failed? {
        return Fail(reply.ex);
      }
      var resp := reply.body;
      if !resp.LoginMap? || resp.accessToken.None? {
        return Fail(NO_TOKEN);
      }
      accessToken := resp.accessToken;
      match resp.expiringOn {
        case None =>
          expiringOn := Some(now + FALLBACK_LIFETIME);
        case Some(Timestamp(at)) =>
          expiringOn := Some(at);
        case Some(Malformed) =>
          return Fail(DateTimeParse);
      }
      o := Pass;
    }

    method Invalidate()
      modifies this
      ensures accessToken.None? && expiringOn.None?
    {
      accessToken := None;
      expiringOn := None;
    }
  }
}
