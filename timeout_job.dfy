/** TaskTimeoutJob: every run marks the in-progress tasks whose last update
    is older than the configured timeout as timed out, saving them one at a
    time. The schedule is left out; a run is a call with the current time. */
module TimeoutJob {
  import opened Common
  import opened Tasks
  import opened TaskRepo

  /** The in-progress tasks last updated strictly before the cutoff. */
  function Stuck(rows: seq<Task>, cutoff: int): seq<Task> {
    FindByStatusAndUpdatedOnBefore(rows, InProgress, cutoff)
  }

  /** The table after a run and how the run ended. */
  datatype JobRun = JobRun(rows: seq<Task>, outcome: Outcome)

  /** Saving the stuck tasks one by one, each marked timed_out at time now.
      When failAt names the position of a task whose save throws, the run
      stops there with the saves before it in place. */
  function MarkRun(rows: seq<Task>, stuck: seq<Task>, now: int, failAt: Option<nat>): JobRun {
    if failAt.Some? && failAt.value < |stuck| then
      JobRun(SavedAll(rows, Edits(stuck[..failAt.value], TimeOut, now), now), Fail(DataAccess))
    else
      JobRun(SavedAll(rows, Edits(stuck, TimeOut, now), now), Pass)
  }

  /** markTimedOutTasks at time now with cutoff now - timeoutSeconds. */
  function MarkTimedOut(rows: seq<Task>, now: int, timeoutSeconds: int, failAt: Option<nat>): JobRun {
    MarkRun(rows, Stuck(rows, now - timeoutSeconds), now, failAt)
  }

  /** A complete run marks exactly the in-progress tasks with updatedOn
      strictly before now - timeoutSeconds: those get status timed_out and
      updatedOn = now, keeping id, node, type, details and createdOn; every
      other task, and the table order, are unchanged. */
  lemma TimeoutSelectsExactly(rows: seq<Task>, now: int, timeoutSeconds: int)
    requires UniqueIds(rows)
    ensures var run := MarkTimedOut(rows, now, timeoutSeconds, None);
      && run.outcome == Pass && |run.rows| == |rows| && UniqueIds(run.rows)
      && forall i :: 0 <= i < |rows| ==>
           run.rows[i] == if rows[i].status == InProgress && rows[i].updatedOn < now - timeoutSeconds
                          then rows[i].(status := TimedOut, updatedOn := now)
                          else rows[i]
  {
    BulkPointwise(rows, ByStatusAndUpdatedOnBefore(InProgress, now - timeoutSeconds), TimeOut, now);
  }

  /** The cutoff is strict: a task updated exactly timeoutSeconds ago stays
      in progress. */
  lemma TimeoutBoundaryUnchanged(t: Task, now: int, timeoutSeconds: int)
    requires t.status == InProgress && t.updatedOn == now - timeoutSeconds
    ensures MarkTimedOut([t], now, timeoutSeconds, None).rows == [t]
  {
    TimeoutSelectsExactly([t], now, timeoutSeconds);
  }

  /** A second run at the same time finds nothing left to mark. */
  lemma TimeoutIdempotent(rows: seq<Task>, now: int, timeoutSeconds: int)
    requires UniqueIds(rows)
    ensures var once := MarkTimedOut(rows, now, timeoutSeconds, None).rows;
      MarkTimedOut(once, now, timeoutSeconds, None) == JobRun(once, Pass)
  {
    TimeoutSelectsExactly(rows, now, timeoutSeconds);
    var once := MarkTimedOut(rows, now, timeoutSeconds, None).rows;
    SelectNone(once, ByStatusAndUpdatedOnBefore(InProgress, now - timeoutSeconds));
    assert Edits([], TimeOut, now) == [];
  }

  /** A save that throws part-way leaves the tasks saved before it marked and
      every other task as it was, and the run fails. */
  lemma TimeoutPrefixKept(rows: seq<Task>, now: int, timeoutSeconds: int, k: nat)
    requires UniqueIds(rows) && k < |Stuck(rows, now - timeoutSeconds)|
    ensures var run := MarkTimedOut(rows, now, timeoutSeconds, Some(k));
      var saved := Stuck(rows, now - timeoutSeconds)[..k];
      && run.outcome == Fail(DataAccess) && |run.rows| == |rows| && UniqueIds(run.rows)
      && forall i :: 0 <= i < |rows| ==>
           run.rows[i] == if rows[i] in saved then rows[i].(status := TimedOut, updatedOn := now) else rows[i]
  {
    BulkPrefix(rows, ByStatusAndUpdatedOnBefore(InProgress, now - timeoutSeconds), TimeOut, now, k);
  }

  lemma MarkRunStops(rows: seq<Task>, stuck: seq<Task>, now: int, failAt: Option<nat>)
    requires failAt.Some? && failAt.value < |stuck|
    ensures MarkRun(rows, stuck, now, failAt) ==
            JobRun(SavedAll(rows, Edits(stuck[..failAt.value], TimeOut, now), now), Fail(DataAccess))
  {
  }

  lemma MarkRunCompletes(rows: seq<Task>, stuck: seq<Task>, now: int, failAt: Option<nat>)
    requires !(failAt.Some? && failAt.value < |stuck|)
    ensures MarkRun(rows, stuck, now, failAt) == JobRun(SavedAll(rows, Edits(stuck, TimeOut, now), now), Pass)
  {
  }

  class TaskTimeoutJob {
    const taskRepository: TaskRepository
    const timeoutSeconds: int

    constructor (taskRepository: TaskRepository, timeoutSeconds: int)
      ensures this.taskRepository == taskRepository && this.timeoutSeconds == timeoutSeconds
    {
      this.taskRepository := taskRepository;
      this.timeoutSeconds := timeoutSeconds;
    }

    /** failAt: the position in the stuck list of the save that throws a
        DataAccessException, if one does. */
    method MarkTimedOutTasks(now: int, failAt: Option<nat>) returns (o: Outcome)
      requires taskRepository.Valid()
      modifies taskRepository
      ensures taskRepository.Valid()
      ensures MarkTimedOut(old(taskRepository.rows), now, timeoutSeconds, failAt) == JobRun(taskRepository.rows, o)
    {
      var cutoff := now - timeoutSeconds;
      var stuckList := FindByStatusAndUpdatedOnBefore(taskRepository.rows, InProgress, cutoff);
      o := MarkEach(stuckList, now, failAt);
    }

    /** The for loop over the stuck list. */
    method MarkEach(stuckList: seq<Task>, now: int, failAt: Option<nat>) returns (o: Outcome)
      requires taskRepository.Valid()
      modifies taskRepository
      ensures taskRepository.Valid()
      ensures MarkRun(old(taskRepository.rows), stuckList, now, failAt) == JobRun(taskRepository.rows, o)
    {
      ghost var rows0 := taskRepository.rows;
      ghost var done: seq<Task> := [];
      var i := 0;
      while i < |stuckList|
        invariant 0 <= i <= |stuckList|
        invariant failAt.Some? ==> i <= failAt.value
        invariant done == Edits(stuckList[..i], TimeOut, now)
        invariant taskRepository.rows == SavedAll(rows0, done, now)
        invariant taskRepository.Valid()
      {
        if failAt.Some? && failAt.value == i {
          MarkRunStops(rows0, stuckList, now, failAt);
          return Fail(DataAccess);
        }
        var task := stuckList[i];
        task := task.(status := TimedOut);
        task := task.(updatedOn := now);
        EditsSnoc(stuckList, i, TimeOut, now);
        SavedAllSnoc(rows0, done, task, now);
        var _ := taskRepository.Save(task, now);
        done := done + [task];
        i := i + 1;
      }
      assert stuckList[..i] == stuckList;
      MarkRunCompletes(rows0, stuckList, now, failAt);
      o := Pass;
    }
  }
}
