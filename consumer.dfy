/** TaskConsumer.onMessage: for one task id taken off the node's topic, fetch
    the task, claim it if pending, run its handler and report the result.
    The observable output is the sequence of status reports the consumer
    sends (each an updateStatus call, whether or not it succeeds). */
module Consumer {
  import opened Common
  import opened WorkerHttp
  import opened TokenManagement
  import opened ServerApi
  import opened TaskExecution

  const PENDING := "pending"
  const IN_PROGRESS := "in_progress"
  const COMPLETED := "completed"
  const FAILED := "failed"
  const TIMED_OUT := "timed_out"

  /** One updateStatus call: task id, claimed old status, new status. */
  datatype Report = Report(taskId: string, oldStatus: string, newStatus: string)

  /** The client state after a message, the reports sent, and whether
      onMessage returned or threw. */
  datatype MessageRun = MessageRun(state: Client, reports: seq<Report>, outcome: Outcome)

  /** A call to the coordinator as onMessage sees it: the client state, the
      method and the target in, the new state and the answer out. The
      worker's calls are WorkerCalls below; the properties of onMessage are
      proved for any such step. */
  type Api = (Client, HttpMethod, Target) -> Call<Payload>

  /** The worker's own step: callWithAuth at time now. */
  function WorkerCalls(cred: Credentials, now: int): Api {
    (s: Client, verb: HttpMethod, t: Target) => CallWithAuthSpec(cred, s, now, verb, t)
  }

  /** One report on the wire. */
  function Send(api: Api, s: Client, r: Report): Call<Payload> {
    api(s, PUT, UpdateStatusEndpoint(r.taskId, r.oldStatus, r.newStatus))
  }

  /** The old status a failure report claims. */
  function FailedFrom(status: Option<string>): string {
    if status == Some(IN_PROGRESS) then IN_PROGRESS else PENDING
  }

  /** The catch block: one failure report, whose own exception escapes. */
  function FailureSpec(api: Api, s: Client, taskId: string, task: TaskDto, before: seq<Report>): MessageRun {
    var failed := Report(taskId, FailedFrom(task.status), FAILED);
    var sent := Send(api, s, failed);
    MessageRun(sent.state, before + [failed], if sent.result.Ok? then Pass else Fail(sent.result.ex))
  }

  /** The try block: run the handler, report completion; anything thrown
      in it leads to the catch block. */
  function AttemptSpec(api: Api, s: Client, taskId: string, task: TaskDto): MessageRun {
    if Execute(task.taskType, task.taskDetails).Err? then FailureSpec(api, s, taskId, task, [])
    else
      var done := Report(taskId, IN_PROGRESS, COMPLETED);
      var sent := Send(api, s, done);
      if sent.result.Ok? then MessageRun(sent.state, [done], Pass)
      else FailureSpec(api, sent.state, taskId, task, [done])
  }

  /** A task that is to be worked on: claimed first when pending (an
      exception from the claim escapes before the handler runs). */
  function ProcessSpec(api: Api, s: Client, taskId: string, task: TaskDto): MessageRun {
    if task.status == Some(PENDING) then
      var claim := Report(taskId, PENDING, IN_PROGRESS);
      var sent := Send(api, s, claim);
      if sent.result.Err? then MessageRun(sent.state, [claim], Fail(sent.result.ex))
      else
        var rest := AttemptSpec(api, sent.state, taskId, task);
        MessageRun(rest.state, [claim] + rest.reports, rest.outcome)
    else AttemptSpec(api, s, taskId, task)
  }

  /** The guard: nothing to do for a missing task, a task without id, or one
      already completed or timed out. */
  predicate Skipped(task: Option<TaskDto>) {
    task.None? || task.value.taskId.None? || task.value.status == Some(COMPLETED) || task.value.status == Some(TIMED_OUT)
  }

  /** The fetch that starts onMessage. */
  function Fetch(api: Api, s: Client, taskId: string): Call<Payload> {
    api(s, GET, GetByTaskIdEndpoint(taskId))
  }

  /** onMessage; a task with an id but a null status makes the guard throw. */
  function OnMessageSpec(api: Api, s: Client, taskId: string): MessageRun {
    var fetch := Fetch(api, s, taskId);
    if fetch.result.Err? then MessageRun(fetch.state, [], Fail(fetch.result.ex))
    else
      var task := AsTask(fetch.result.value);
      if Skipped(task) then MessageRun(fetch.state, [], Pass)
      else if task.value.status.None? then MessageRun(fetch.state, [], Fail(NullPointer))
      else ProcessSpec(api, fetch.state, taskId, task.value)
  }

  /** The status of the fetched task, if one was fetched. */
  function FetchedStatus(fetch: Call<Payload>): Option<string> {
    if fetch.result.Ok? && AsTask(fetch.result.value).Some? then AsTask(fetch.result.value).value.status else None
  }

  /** The position a report takes in the fixed order claim, completion,
      failure. */
  function Stage(r: Report): int {
    if r.newStatus == IN_PROGRESS then 0 else if r.newStatus == COMPLETED then 1 else 2
  }

  /** Reports that follow the fixed order, each at most once, each one of
      the three reports the code sends for this task. */
  ghost predicate WellFormed(reports: seq<Report>, taskId: string, status: Option<string>) {
    && (forall i, j :: 0 <= i < j < |reports| ==> Stage(reports[i]) < Stage(reports[j]))
    && (forall i :: 0 <= i < |reports| ==>
          reports[i] in [Report(taskId, PENDING, IN_PROGRESS), Report(taskId, IN_PROGRESS, COMPLETED), Report(taskId, FailedFrom(status), FAILED)])
  }

  /** The handler's result decides the reports: success reports completed,
      and failed only if that report itself throws; an exception reports
      failed straight away, claiming in_progress only when the fetched
      status was in_progress. */
  lemma AttemptReports(api: Api, s: Client, taskId: string, task: TaskDto)
    ensures var run := AttemptSpec(api, s, taskId, task);
      var done := Report(taskId, IN_PROGRESS, COMPLETED);
      var failed := Report(taskId, FailedFrom(task.status), FAILED);
      && (Execute(task.taskType, task.taskDetails).Err? ==> run.reports == [failed])
      && (Execute(task.taskType, task.taskDetails).Ok? ==>
            run.reports == (if Send(api, s, done).result.Ok? then [done] else [done, failed]))
      && WellFormed(run.reports, taskId, task.status) && run.reports != [] && Stage(run.reports[0]) >= 1
  {
    var failed := Report(taskId, FailedFrom(task.status), FAILED);
    var done := Report(taskId, IN_PROGRESS, COMPLETED);
    assert Stage(done) == 1 && Stage(failed) == 2;
  }

  /** A claim in front of well-formed reports that start after it. */
  lemma ClaimThenWellFormed(taskId: string, status: Option<string>, rest: seq<Report>)
    requires WellFormed(rest, taskId, status) && rest != [] && Stage(rest[0]) >= 1
    ensures WellFormed([Report(taskId, PENDING, IN_PROGRESS)] + rest, taskId, status)
  {
    var claim := Report(taskId, PENDING, IN_PROGRESS);
    var all := [claim] + rest;
    forall i, j | 0 <= i < j < |all|
      ensures Stage(all[i]) < Stage(all[j])
    {
      assert all[j] == rest[j - 1];
      if i > 0 {
        assert all[i] == rest[i - 1];
      } else if j > 1 {
        assert Stage(rest[0]) < Stage(rest[j - 1]);
      }
    }
    assert forall i :: 0 < i < |all| ==> all[i] == rest[i - 1];
  }

  /** The reports of a task that is worked on are well formed. */
  lemma ProcessWellFormed(api: Api, s: Client, taskId: string, task: TaskDto)
    ensures WellFormed(ProcessSpec(api, s, taskId, task).reports, taskId, task.status)
  {
    if task.status == Some(PENDING) {
      var claim := Report(taskId, PENDING, IN_PROGRESS);
      var sent := Send(api, s, claim);
      if sent.result.Ok? {
        AttemptReports(api, sent.state, taskId, task);
        ClaimThenWellFormed(taskId, task.status, AttemptSpec(api, sent.state, taskId, task).reports);
      }
    } else {
      AttemptReports(api, s, taskId, task);
    }
  }

  /** Every message sends its reports in the order in_progress, completed,
      failed, each at most once and each about the message's task. */
  lemma ReportsWellOrdered(api: Api, s: Client, taskId: string)
    ensures WellFormed(OnMessageSpec(api, s, taskId).reports, taskId, FetchedStatus(Fetch(api, s, taskId)))
  {
    var fetch := Fetch(api, s, taskId);
    if fetch.result.Ok? {
      var task := AsTask(fetch.result.value);
      if !Skipped(task) && task.value.status.Some? {
        ProcessWellFormed(api, fetch.state, taskId, task.value);
      }
    }
  }

  /** A task that cannot be fetched, is missing, has no id, or is already
      completed or timed out gets no report; only the fetch was sent. */
  lemma SkippedTaskNotReported(api: Api, s: Client, taskId: string)
    requires Fetch(api, s, taskId).result.Err? || Skipped(AsTask(Fetch(api, s, taskId).result.value))
    ensures var fetch := Fetch(api, s, taskId);
      OnMessageSpec(api, s, taskId)
        == MessageRun(fetch.state, [], if fetch.result.Err? then Fail(fetch.result.ex) else Pass)
  {
  }

  /** A pending task is claimed before anything else; when the claim fails,
      that exception escapes and nothing more is sent. */
  lemma PendingClaimedFirst(api: Api, s: Client, taskId: string, task: TaskDto)
    requires task.status == Some(PENDING)
    ensures var run := ProcessSpec(api, s, taskId, task);
      var claim := Report(taskId, PENDING, IN_PROGRESS);
      var sent := Send(api, s, claim);
      && run.reports[0] == claim
      && (sent.result.Err? ==> run == MessageRun(sent.state, [claim], Fail(sent.result.ex)))
  {
  }

  /** A task in any other state (failed included) is run again without a
      claim. */
  lemma NonPendingRunsUnclaimed(api: Api, s: Client, taskId: string, task: TaskDto)
    requires task.status != Some(PENDING)
    ensures var run := ProcessSpec(api, s, taskId, task);
      run.reports != [] && run.reports[0].newStatus != IN_PROGRESS
  {
    AttemptReports(api, s, taskId, task);
  }

  class TaskConsumer {
    const api: ServerApiClient

    constructor (api: ServerApiClient)
      ensures this.api == api
    {
      this.api := api;
    }

    method OnMessage(taskId: string, now: int) returns (reports: seq<Report>, o: Outcome)
      modifies api.tokenManager, api.tokenManager.rt
      ensures MessageRun(api.tokenManager.State(), reports, o)
              == OnMessageSpec(WorkerCalls(api.tokenManager.Creds(), now), old(api.tokenManager.State()), taskId)
    {
      var task := api.GetByTaskId(taskId, now);
      if task.Err? {
        return [], Fail(task.ex);
      }
      if task.value.None? || task.value.value.taskId.None? {
        return [], Pass;
      }
      if task.value.value.status.None? {
        return [], Fail(NullPointer);
      }
      var status := task.value.value.status.value;
      if status == COMPLETED || status == TIMED_OUT {
        return [], Pass;
      }
      reports, o := Process(taskId, task.value.value, now);
    }

    method Process(taskId: string, task: TaskDto, now: int) returns (reports: seq<Report>, o: Outcome)
      modifies api.tokenManager, api.tokenManager.rt
      ensures MessageRun(api.tokenManager.State(), reports, o)
              == ProcessSpec(WorkerCalls(api.tokenManager.Creds(), now), old(api.tokenManager.State()), taskId, task)
    {
      if task.status == Some(PENDING) {
        var claimed := api.UpdateStatus(taskId, PENDING, IN_PROGRESS, now);
        if claimed.Fail? {
          return [Report(taskId, PENDING, IN_PROGRESS)], claimed;
        }
        var rest;
        rest, o := Attempt(taskId, task, now);
        reports := [Report(taskId, PENDING, IN_PROGRESS)] + rest;
      } else {
        reports, o := Attempt(taskId, task, now);
      }
    }

    /** The try block and its catch. */
    method Attempt(taskId: string, task: TaskDto, now: int) returns (reports: seq<Report>, o: Outcome)
      modifies api.tokenManager, api.tokenManager.rt
      ensures MessageRun(api.tokenManager.State(), reports, o)
              == AttemptSpec(WorkerCalls(api.tokenManager.Creds(), now), old(api.tokenManager.State()), taskId, task)
    {
      var result := Execute(task.taskType, task.taskDetails);
      if result.Err? {
        reports, o := ReportFailure(taskId, task, [], now);
        return;
      }
      var completed := api.UpdateStatus(taskId, IN_PROGRESS, COMPLETED, now);
      if completed.Fail? {
        reports, o := ReportFailure(taskId, task, [Report(taskId, IN_PROGRESS, COMPLETED)], now);
        return;
      }
      reports, o := [Report(taskId, IN_PROGRESS, COMPLETED)], Pass;
    }

    /** The catch block. */
    method ReportFailure(taskId: string, task: TaskDto, before: seq<Report>, now: int) returns (reports: seq<Report>, o: Outcome)
      modifies api.tokenManager, api.tokenManager.rt
      ensures MessageRun(api.tokenManager.State(), reports, o)
              == FailureSpec(WorkerCalls(api.tokenManager.Creds(), now), old(api.tokenManager.State()), taskId, task, before)
    {
      var from := FailedFrom(task.status);
      o := api.UpdateStatus(taskId, from, FAILED, now);
      reports := before + [Report(taskId, from, FAILED)];
    }
  }
}
