/** ServerApiClient: every call to the coordinator carries the token
    getValidToken returns at that moment; a 401 answer triggers exactly one
    retry after the cache is cleared and the node has logged in again. */
module ServerApi {
  import opened Common
  import opened WorkerHttp
  import opened TokenManagement

  /** The client state after a call, and what the call returned or threw. */
  datatype Call<+T> = Call(state: Client, result: Result<T>)

  const UNAUTHORIZED_ERROR: Exception := HttpClientError(UNAUTHORIZED)

  /** doCall: fetch a valid token (logging in if needed), then one exchange
      bearing it. */
  function DoCallSpec(cred: Credentials, s: Client, now: int, verb: HttpMethod, target: Target): Call<Payload> {
    var tok := GetValidTokenSpec(cred, s, now);
    if tok.token.Err? then Call(tok.state, Err(tok.token.ex))
    else
      var sent := Transmit(tok.state.net, Exchange(verb, target, tok.token.value));
      Call(Client(tok.state.cache, sent.net), if sent.reply.Failed? then Err(sent.reply.ex) else Ok(sent.reply.body))
  }

  /** callWithAuth: a 401 from the first doCall (from its exchange or from
      the login inside it) clears the cache, logs in and runs doCall once
      more; anything else is final. */
  function CallWithAuthSpec(cred: Credentials, s: Client, now: int, verb: HttpMethod, target: Target): Call<Payload> {
    var first := DoCallSpec(cred, s, now, verb, target);
    if first.result != Err(UNAUTHORIZED_ERROR) then first
    else
      var relog := LoginSpec(cred, Client(Cache(None, None), first.state.net), now);
      if relog.outcome.Fail? then Call(relog.state, Err(relog.outcome.ex))
      else DoCallSpec(cred, relog.state, now, verb, target)
  }

  /** The requests of t extend those of s. */
  predicate Grows(s: Client, t: Client) {
    |s.net.requests| <= |t.net.requests| && t.net.requests[..|s.net.requests|] == s.net.requests
  }

  /** The requests t sent after s. */
  function Added(s: Client, t: Client): seq<Request>
    requires Grows(s, t)
  {
    t.net.requests[|s.net.requests|..]
  }

  lemma AddedChain(s: Client, t: Client, u: Client)
    requires Grows(s, t) && Grows(t, u)
    ensures Grows(s, u) && Added(s, u) == Added(s, t) + Added(t, u)
  {
    assert u.net.requests[..|t.net.requests|][..|s.net.requests|] == u.net.requests[..|s.net.requests|];
    assert u.net.requests == u.net.requests[..|s.net.requests|] + Added(s, t) + Added(t, u);
  }

  /** Logging in sends at most the login post and no exchange. */
  lemma LoginSendsNoExchange(cred: Credentials, s: Client, now: int)
    ensures var l := LoginSpec(cred, s, now);
      Grows(s, l.state) && Exchanges(Added(s, l.state)) == []
  {
    var l := LoginSpec(cred, s, now);
    if !StillValidAt(s.cache, now) {
      assert Added(s, l.state) == [LoginPost(cred.nodeId, cred.nodeSecret)];
      assert Exchanges([LoginPost(cred.nodeId, cred.nodeSecret)]) == Exchanges([]) + [];
    } else {
      assert Added(s, l.state) == [];
    }
  }

  /** getValidToken extends the request log by no exchange: it either uses
      the cache or logs in. */
  lemma GetValidTokenSendsNoExchange(cred: Credentials, s: Client, now: int)
    ensures var tok := GetValidTokenSpec(cred, s, now);
      Grows(s, tok.state) && Exchanges(Added(s, tok.state)) == []
  {
    if UsableAt(s.cache, now) {
      assert Added(s, s) == [];
    } else {
      LoginSendsNoExchange(cred, s, now);
    }
  }

  /** After the token step doCall sends its exchange, bearing the token, and
      keeps the cache; a failed token step sends nothing more. */
  lemma DoCallExchangeStep(cred: Credentials, s: Client, now: int, verb: HttpMethod, target: Target)
    ensures var tok := GetValidTokenSpec(cred, s, now);
      var run := DoCallSpec(cred, s, now, verb, target);
      && (tok.token.Err? ==> run.state == tok.state)
      && (tok.token.Ok? ==>
            && run.state.cache == tok.state.cache
            && Grows(tok.state, run.state)
            && Added(tok.state, run.state) == [Exchange(verb, target, tok.token.value)])
  {
    var tok := GetValidTokenSpec(cred, s, now);
    if tok.token.Ok? {
      var e := Exchange(verb, target, tok.token.value);
      var sent := Transmit(tok.state.net, e);
      assert sent.net.requests[..|tok.state.net.requests|] == tok.state.net.requests;
    }
  }

  /** doCall sends at most one exchange; when its token step succeeds it
      sends exactly one, as its last request, bearing the token the cache
      now holds. */
  lemma DoCallSendsOneExchange(cred: Credentials, s: Client, now: int, verb: HttpMethod, target: Target)
    ensures var run := DoCallSpec(cred, s, now, verb, target);
      var tok := GetValidTokenSpec(cred, s, now);
      && Grows(s, run.state) && |Exchanges(Added(s, run.state))| <= 1
      && (tok.token.Ok? ==>
            && run.state.cache.accessToken == Some(tok.token.value)
            && Added(s, run.state) == Added(s, tok.state) + [Exchange(verb, target, tok.token.value)])
  {
    var tok := GetValidTokenSpec(cred, s, now);
    var run := DoCallSpec(cred, s, now, verb, target);
    GetValidTokenSendsNoExchange(cred, s, now);
    DoCallExchangeStep(cred, s, now, verb, target);
    if tok.token.Ok? {
      var e := Exchange(verb, target, tok.token.value);
      GetValidTokenReturnsCached(cred, s, now);
      AddedChain(s, tok.state, run.state);
      ExchangesAppend(Added(s, tok.state), [e]);
      assert Exchanges([e]) == Exchanges([]) + [e];
    }
  }

  /** The retry after a 401: logging in again sends no exchange and the
      second doCall at most one. */
  lemma RetrySendsOneExchange(cred: Credentials, t: Client, now: int, verb: HttpMethod, target: Target)
    ensures var relog := LoginSpec(cred, Client(Cache(None, None), t.net), now);
      var end := if relog.outcome.Fail? then relog.state else DoCallSpec(cred, relog.state, now, verb, target).state;
      Grows(t, end) && |Exchanges(Added(t, end))| <= 1
  {
    var cleared := Client(Cache(None, None), t.net);
    var relog := LoginSpec(cred, cleared, now);
    LoginSendsNoExchange(cred, cleared, now);
    assert Grows(t, relog.state) && Added(t, relog.state) == Added(cleared, relog.state);
    if relog.outcome.Pass? {
      var second := DoCallSpec(cred, relog.state, now, verb, target);
      DoCallSendsOneExchange(cred, relog.state, now, verb, target);
      AddedChain(t, relog.state, second.state);
      ExchangesAppend(Added(t, relog.state), Added(relog.state, second.state));
    }
  }

  /** callWithAuth sends at most two exchanges, and a second one only after
      the first doCall ended in a 401. */
  lemma AtMostOneRetry(cred: Credentials, s: Client, now: int, verb: HttpMethod, target: Target)
    ensures var run := CallWithAuthSpec(cred, s, now, verb, target);
      && Grows(s, run.state) && |Exchanges(Added(s, run.state))| <= 2
      && (|Exchanges(Added(s, run.state))| == 2 ==> DoCallSpec(cred, s, now, verb, target).result == Err(UNAUTHORIZED_ERROR))
  {
    var first := DoCallSpec(cred, s, now, verb, target);
    DoCallSendsOneExchange(cred, s, now, verb, target);
    if first.result == Err(UNAUTHORIZED_ERROR) {
      var run := CallWithAuthSpec(cred, s, now, verb, target);
      RetrySendsOneExchange(cred, first.state, now, verb, target);
      AddedChain(s, first.state, run.state);
      ExchangesAppend(Added(s, first.state), Added(first.state, run.state));
    }
  }

  /** With a usable cache, a first answer that fails with anything but 401
      is passed on after one exchange, and the cache is untouched. */
  lemma OtherFailureNotRetried(cred: Credentials, s: Client, now: int, verb: HttpMethod, target: Target, ex: Exception)
    requires UsableAt(s.cache, now) && s.net.replies != [] && s.net.replies[0] == Failed(ex) && ex != UNAUTHORIZED_ERROR
    ensures var run := CallWithAuthSpec(cred, s, now, verb, target);
      && run.result == Err(ex) && run.state.cache == s.cache
      && run.state.net == Net(s.net.replies[1..], s.net.requests + [Exchange(verb, target, s.cache.accessToken.value)])
  {
  }

  /** A 401 on a usable cache: the cache is cleared, the node logs in
      again, and the retry bears the freshly received token; whatever the
      retry gets, a second 401 included, is the result. */
  lemma RetryBearsFreshToken(cred: Credentials, s: Client, now: int, verb: HttpMethod, target: Target,
                             renewed: string, at: int, second: HttpReply, rest: seq<HttpReply>)
    requires UsableAt(s.cache, now) && at - REFRESH_MARGIN >= now
    requires s.net.replies == [Failed(UNAUTHORIZED_ERROR), Answered(LoginMap(Some(renewed), Some(Timestamp(at)))), second] + rest
    ensures var run := CallWithAuthSpec(cred, s, now, verb, target);
      && run.result == (if second.Failed? then Err(second.ex) else Ok(second.body))
      && run.state.cache == Cache(Some(renewed), Some(at))
      && run.state.net == Net(rest, s.net.requests + [Exchange(verb, target, s.cache.accessToken.value),
                                                       LoginPost(cred.nodeId, cred.nodeSecret),
                                                       Exchange(verb, target, renewed)])
  {
    var r := s.net.replies;
    assert r[1..] == [Answered(LoginMap(Some(renewed), Some(Timestamp(at)))), second] + rest;
    assert r[1..][1..] == [second] + rest;
    assert r[1..][1..][1..] == rest;
  }

  /** getByTaskId's reading of the body: null, or the task. */
  function AsTask(p: Payload): Option<TaskDto> {
    if p.OneTask? then Some(p.task) else None
  }

  /** getAllForNode's reading of the body: a null array is the empty list. */
  function AsTaskList(p: Payload): seq<TaskDto> {
    if p.TaskArray? then p.tasks else []
  }

  /** The result of a call, read with f. */
  function Read<T>(r: Result<Payload>, f: Payload -> T): Result<T> {
    if r.Ok? then Ok(f(r.value)) else Err(r.ex)
  }

  /** The one shared RestTemplate is the token manager's. */
  class ServerApiClient {
    const tokenManager: TokenManager

    constructor (tokenManager: TokenManager)
      ensures this.tokenManager == tokenManager
    {
      this.tokenManager := tokenManager;
    }

    method GetByTaskId(taskId: string, now: int) returns (r: Result<Option<TaskDto>>)
      modifies tokenManager, tokenManager.rt
      ensures var run := CallWithAuthSpec(tokenManager.Creds(), old(tokenManager.State()), now, GET, GetByTaskIdEndpoint(taskId));
        tokenManager.State() == run.state && r == Read(run.result, AsTask)
    {
      var body := CallWithAuth(now, GET, GetByTaskIdEndpoint(taskId));
      r := Read(body, AsTask);
    }

    method GetAllForNode(now: int) returns (r: Result<seq<TaskDto>>)
      modifies tokenManager, tokenManager.rt
      ensures var run := CallWithAuthSpec(tokenManager.Creds(), old(tokenManager.State()), now, GET, GetAllForNodeEndpoint);
        tokenManager.State() == run.state && r == Read(run.result, AsTaskList)
    {
      var body := CallWithAuth(now, GET, GetAllForNodeEndpoint);
      r := Read(body, AsTaskList);
    }

    /** A PUT to /task/updateStatus with the three query parameters; the
        answer's body is dropped. */
    method UpdateStatus(taskId: string, oldStatus: string, newStatus: string, now: int) returns (o: Outcome)
      modifies tokenManager, tokenManager.rt
      ensures var run := CallWithAuthSpec(tokenManager.Creds(), old(tokenManager.State()), now, PUT,
                                          UpdateStatusEndpoint(taskId, oldStatus, newStatus));
        tokenManager.State() == run.state && o == (if run.result.Ok? then Pass else Fail(run.result.ex))
    {
      var body := CallWithAuth(now, PUT, UpdateStatusEndpoint(taskId, oldStatus, newStatus));
      o := if body.Ok? then Pass else Fail(body.ex);
    }

    method CallWithAuth(now: int, verb: HttpMethod, target: Target) returns (r: Result<Payload>)
      modifies tokenManager, tokenManager.rt
      ensures Call(tokenManager.State(), r) == CallWithAuthSpec(tokenManager.Creds(), old(tokenManager.State()), now, verb, target)
    {
      r := DoCall(now, verb, target);
      if r == Err(UNAUTHORIZED_ERROR) {
        tokenManager.Invalidate();
        var o := tokenManager.Login(now);
        if o.Fail? {
          return Err(o.ex);
        }
        r := DoCall(now, verb, target);
      }
    }

    method DoCall(now: int, verb: HttpMethod, target: Target) returns (r: Result<Payload>)
      modifies tokenManager, tokenManager.rt
      ensures Call(tokenManager.State(), r) == DoCallSpec(tokenManager.Creds(), old(tokenManager.State()), now, verb, target)
    {
      var token := tokenManager.GetValidToken(now);
      if token.Err? {
        return Err(token.ex);
      }
      var reply := tokenManager.rt.Send(Exchange(verb, target, token.value));
      r := if reply.Failed? then Err(reply.ex) else Ok(reply.body);
    }
  }
}
