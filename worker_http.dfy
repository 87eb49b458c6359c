/** The worker's view of the coordinator over HTTP. The RestTemplate is a
    scripted peer: each request takes the next answer of a script (no
    answer at all once the script is used up) and is appended to a log.
    Answers are modelled already decoded from JSON, and request targets are
    kept as structured values; URL text and its encoding are not modelled. */
module WorkerHttp {
  import opened Common

  /** The worker's copy of GetTaskDto: every field may be null. */
  datatype TaskDto = TaskDto(
    taskId: Option<string>,
    taskType: Option<string>,
    taskDetails: Option<string>,
    assignedNodeId: Option<string>,
    status: Option<string>)

  /** The value of the expiringOn entry of a login answer: text that
      LocalDateTime.parse reads as a time, or text it refuses. */
  datatype Expiry = Timestamp(at: int) | Malformed

  /** A decoded response body; Null is an absent body. */
  datatype Payload =
    | Null
    | LoginMap(accessToken: Option<string>, expiringOn: Option<Expiry>)
    | OneTask(task: TaskDto)
    | TaskArray(tasks: seq<TaskDto>)
    | TextBody(text: string)

  /** A 2xx answer with its body, or the exception RestTemplate raises
      (HttpClientError for a 4xx or 5xx status, ResourceAccess for none). */
  datatype HttpReply = Answered(body: Payload) | Failed(ex: Exception)

  datatype HttpMethod = GET | PUT | POST

  /** The coordinator endpoints the worker calls, with their query
      parameters. */
  datatype Target =
    | LoginNodeEndpoint                                        // POST /auth/login/node
    | GetByTaskIdEndpoint(taskId: string)                      // GET /task/getByTaskId?taskId=
    | GetAllForNodeEndpoint                                    // GET /task/getAllForNode
    | UpdateStatusEndpoint(taskId: string, oldStatus: string, newStatus: string)  // PUT /task/updateStatus?...

  /** A request as it leaves the worker: the login post with its JSON body,
      or an authenticated exchange with its bearer token. */
  datatype Request =
    | LoginPost(nodeId: string, nodeSecret: string)
    | Exchange(verb: HttpMethod, target: Target, bearer: string)

  /** The answers still to come and the requests sent so far. */
  datatype Net = Net(replies: seq<HttpReply>, requests: seq<Request>)

  datatype Sent = Sent(reply: HttpReply, net: Net)

  /** One request on the wire. */
  function Transmit(net: Net, req: Request): (s: Sent)
    ensures s.net.requests == net.requests + [req]
    ensures net.replies != [] ==> s.reply == net.replies[0] && s.net.replies == net.replies[1..]
    ensures net.replies == [] ==> s.reply == Failed(ResourceAccess) && s.net.replies == []
  {
    if net.replies == [] then Sent(Failed(ResourceAccess), Net([], net.requests + [req]))
    else Sent(net.replies[0], Net(net.replies[1..], net.requests + [req]))
  }

  /** The authenticated exchanges among a run of requests, in order. */
  function Exchanges(reqs: seq<Request>): (r: seq<Request>)
    ensures |r| <= |reqs|
  {
    if reqs == [] then []
    else Exchanges(reqs[..|reqs| - 1]) + (if reqs[|reqs| - 1].Exchange? then [reqs[|reqs| - 1]] else [])
  }

  lemma {:induction false} ExchangesAppend(a: seq<Request>, b: seq<Request>)
    ensures Exchanges(a + b) == Exchanges(a) + Exchanges(b)
    decreases |b|
  {
    if b == [] {
      assert a + b == a;
    } else {
      var last := |b| - 1;
      assert (a + b)[..|a + b| - 1] == a + b[..last];
      ExchangesAppend(a, b[..last]);
    }
  }

  /** The shared RestTemplate bean. */
  class RestTemplate {
    var replies: seq<HttpReply>
    var requests: seq<Request>

    constructor (script: seq<HttpReply>)
      ensures replies == script && requests == []
    {
      replies := script;
      requests := [];
    }

    function Wire(): Net
      reads this
    {
      Net(replies, requests)
    }

    /** postForObject or exchange: sends the request and returns the answer. */
    method Send(req: Request) returns (reply: HttpReply)
      modifies this
      ensures Sent(reply, Wire()) == Transmit(old(Wire()), req)
    {
      requests := requests + [req];
      if replies == [] {
        return Failed(ResourceAccess);
      }
      reply := replies[0];
      replies := replies[1..];
    }
  }
}
