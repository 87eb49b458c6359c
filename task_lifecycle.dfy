/** What each TaskService operation does to the task table and the outbox,
    and what it answers, as functions of the state before the call. Each
    function follows the code as written, guards included; the lemmas below
    state what these functions amount to. */
module TaskLifecycle {
  import opened Common
  import opened Strings
  import opened Topics
  import opened Tasks
  import opened TaskRepo
  import NodeStore
  import opened KafkaPublisher

  /** GetTaskDto: every field may be null; new GetTaskDto() has all of them
      null. */
  datatype TaskView = TaskView(
    taskId: Option<string>,
    taskType: Option<string>,
    taskDetails: Option<string>,
    assignedNodeId: Option<string>,
    status: Option<string>)

  const EmptyView: TaskView := TaskView(None, None, None, None, None)

  /** The DTO built from a task, the status rendered by name(). */
  function Project(t: Task): TaskView {
    TaskView(Some(t.taskId), Some(t.taskType), Some(t.taskDetails), Some(t.assignedNodeId), Some(Name(t.status)))
  }

  /** A projection is never the empty DTO, and its status text parses back to
      the task's status. */
  lemma ProjectSpec(t: Task)
    ensures Project(t) != EmptyView
    ensures ValueOf(Project(t).status.value) == Ok(t.status)
  {
    ValueOfName(t.status);
  }

  /** One DTO per task, in list order. */
  function Views(ts: seq<Task>): seq<TaskView> {
    seq(|ts|, k requires 0 <= k < |ts| => Project(ts[k]))
  }

  /** The bodies TaskService puts in a 200 response. */
  datatype Body = TaskBody(task: Task) | Text(text: string) | ViewBody(view: TaskView) | ViewsBody(views: seq<TaskView>)

  /** The table after the call, the records handed to the producer during the
      call, and the response. */
  datatype Effect = Effect(rows: seq<Task>, published: seq<ProducerRecord>, reply: Reply<Body>)

  const INVALID_UPDATE: string := "Invalid status update"

  // ---------------------------------------------------------------- create

  /** createTask: reject an unknown node; otherwise build a pending task
      without an id and save it. That save is a persist: prePersist gives it
      the UUID and the insert fails when that id is already stored. Then
      publish its id to the node's topic. */
  function CreateSpec(rows: seq<Task>, nodes: seq<NodeStore.Node>, taskType: string, taskDetails: string,
                      assignedNodeId: string, uuid: string, now: int): Effect
  {
    if NodeStore.FindByNodeId(nodes, assignedNodeId).None? then
      Effect(rows, [], Rejected(BAD_REQUEST, "Node does not exist"))
    else
      var t := Task(AssignId(None, uuid), taskType, taskDetails, assignedNodeId, Pending, now, now);
      if FindByTaskId(rows, t.taskId).Some? then Effect(rows, [], Thrown(DuplicateKey))
      else
        var saved := Stamped(None, t, now);
        match Dispatch(saved.assignedNodeId, saved.taskId)
        case Ok(rec) => Effect(rows + [saved], [rec], Success(TaskBody(saved)))
        case Err(ex) => Effect(rows + [saved], [], Thrown(ex))
  }

  /** A UUID that is already stored makes the insert fail: the exception
      leaves createTask before anything is published, and the table is
      unchanged. */
  lemma CreateRefusesTakenId(rows: seq<Task>, nodes: seq<NodeStore.Node>, taskType: string, taskDetails: string,
                             assignedNodeId: string, uuid: string, now: int)
    requires NodeStore.FindByNodeId(nodes, assignedNodeId).Some? && FindByTaskId(rows, uuid).Some?
    ensures CreateSpec(rows, nodes, taskType, taskDetails, assignedNodeId, uuid, now) == Effect(rows, [], Thrown(DuplicateKey))
  {
  }

  /** An unknown node is answered with 400 "Node does not exist"; nothing is
      stored and nothing is published. */
  lemma CreateUnknownNode(rows: seq<Task>, nodes: seq<NodeStore.Node>, taskType: string, taskDetails: string,
                          assignedNodeId: string, uuid: string, now: int)
    requires forall i :: 0 <= i < |nodes| ==> nodes[i].nodeId != assignedNodeId
    ensures CreateSpec(rows, nodes, taskType, taskDetails, assignedNodeId, uuid, now) ==
            Effect(rows, [], Rejected(400, "Node does not exist"))
  {
  }

  /** For a known node and a fresh UUID, exactly one row is appended: a
      pending task with the requested type, details and node, stamped now.
      One record keyed by the new id goes to the node's topic, or, when the
      stored node id is blank, the row stays and the publisher's exception
      leaves the call. */
  lemma CreateAppendsOnePendingTask(rows: seq<Task>, nodes: seq<NodeStore.Node>, taskType: string, taskDetails: string,
                                    assignedNodeId: string, uuid: string, now: int)
    requires UniqueIds(rows) && IsUuid(uuid) && FindByTaskId(rows, uuid).None?
    requires NodeStore.FindByNodeId(nodes, assignedNodeId).Some?
    ensures var e := CreateSpec(rows, nodes, taskType, taskDetails, assignedNodeId, uuid, now);
      var t := Task(uuid, taskType, taskDetails, assignedNodeId, Pending, now, now);
      && e.rows == rows + [t]
      && UniqueIds(e.rows)
      && (!IsBlank(assignedNodeId) ==>
            e.published == [ProducerRecord(DerivedName(assignedNodeId), uuid, uuid)] && e.reply == Success(TaskBody(t)))
      && (IsBlank(assignedNodeId) ==>
            e.published == [] && e.reply == Thrown(IllegalArgument("nodeId is required")))
  {
    UuidFitsColumn(uuid);
    var t := Task(uuid, taskType, taskDetails, assignedNodeId, Pending, now, now);
    SavedSpec(rows, t, now);
  }

  // ---------------------------------------------------------------- read

  /** getTaskByTaskId: the DTO of the caller's task, or the empty DTO, never
      an error. */
  function GetTaskByTaskId(rows: seq<Task>, callerNodeId: string, taskId: string): (v: TaskView)
    ensures v == EmptyView <==> forall i :: 0 <= i < |rows| ==> !(rows[i].taskId == taskId && rows[i].assignedNodeId == callerNodeId)
    ensures v != EmptyView ==> v.taskId == Some(taskId) && v.assignedNodeId == Some(callerNodeId)
  {
    match FindByTaskIdAndAssignedNodeId(rows, taskId, callerNodeId)
    case None => EmptyView
    case Some(t) => Project(t)
  }

  /** With unique ids: the projection of the task exactly when it exists and
      is assigned to the caller. */
  lemma GetTaskByTaskIdSpec(rows: seq<Task>, callerNodeId: string, taskId: string)
    requires UniqueIds(rows)
    ensures var found := FindByTaskId(rows, taskId);
      GetTaskByTaskId(rows, callerNodeId, taskId) ==
        if found.Some? && found.value.assignedNodeId == callerNodeId then Project(found.value) else EmptyView
  {
    FindByTaskIdAndNode(rows, taskId, callerNodeId);
  }

  /** getAllTaskForNode: one DTO per task assigned to the caller. */
  function AllTasksForNode(rows: seq<Task>, callerNodeId: string): seq<TaskView> {
    Views(FindAllByAssignedNodeId(rows, callerNodeId))
  }

  /** The DTOs are those of the caller's tasks, in table order, with the
      status rendered by name: appending rows appends their DTOs. */
  lemma AllTasksForNodeSpec(rows: seq<Task>, more: seq<Task>, callerNodeId: string)
    ensures forall k :: 0 <= k < |AllTasksForNode(rows, callerNodeId)| ==>
      var v := AllTasksForNode(rows, callerNodeId)[k];
      v.assignedNodeId == Some(callerNodeId) && ValueOf(v.status.value).Ok?
    ensures AllTasksForNode(rows + more, callerNodeId) == AllTasksForNode(rows, callerNodeId) + AllTasksForNode(more, callerNodeId)
  {
    var sel := FindAllByAssignedNodeId(rows, callerNodeId);
    forall k | 0 <= k < |sel|
      ensures Views(sel)[k].assignedNodeId == Some(callerNodeId) && ValueOf(Views(sel)[k].status.value).Ok?
    {
      assert sel[k] in sel;
      ProjectSpec(sel[k]);
    }
    SelectAppend(rows, more, ByNode(callerNodeId));
    ViewsAppend(sel, FindAllByAssignedNodeId(more, callerNodeId));
  }

  lemma ViewsAppend(a: seq<Task>, b: seq<Task>)
    ensures Views(a + b) == Views(a) + Views(b)
  {
  }

  // ---------------------------------------------------------------- reassign one

  /** reassignTaskToDifferentNode: load or throw; reset to pending on the
      new node; save; publish if the status is not completed, which the code
      tests only after the reset. */
  function ReassignSpec(rows: seq<Task>, taskId: string, nodeId: string, now: int): Effect {
    match FindByTaskId(rows, taskId)
    case None => Effect(rows, [], Thrown(NoSuchElement))
    case Some(t) =>
      var moved := Apply(Reassign(nodeId), t, now);
      if moved.status != Completed then
        match Dispatch(nodeId, taskId)
        case Ok(rec) => Effect(Saved(rows, moved, now), [rec], Success(TaskBody(moved)))
        case Err(ex) => Effect(Saved(rows, moved, now), [], Thrown(ex))
      else
        Effect(Saved(rows, moved, now), [], Success(TaskBody(moved)))
  }

  /** A missing id throws and changes nothing. */
  lemma ReassignMissing(rows: seq<Task>, taskId: string, nodeId: string, now: int)
    requires forall i :: 0 <= i < |rows| ==> rows[i].taskId != taskId
    ensures ReassignSpec(rows, taskId, nodeId, now) == Effect(rows, [], Thrown(NoSuchElement))
  {
  }

  /** An existing task, whatever its status (completed included), is
      rewritten in place as pending on the new node with updatedOn = now, no
      other row changes, and it is always published to the new node; a blank
      new node id makes the publisher throw after the save. */
  lemma ReassignReopens(rows: seq<Task>, i: nat, nodeId: string, now: int)
    requires UniqueIds(rows) && i < |rows|
    ensures var t := rows[i];
      var e := ReassignSpec(rows, t.taskId, nodeId, now);
      var moved := t.(status := Pending, assignedNodeId := nodeId, updatedOn := now);
      && e.rows == rows[i := moved]
      && UniqueIds(e.rows)
      && (!IsBlank(nodeId) ==>
            e.published == [ProducerRecord(DerivedName(nodeId), t.taskId, t.taskId)] && e.reply == Success(TaskBody(moved)))
      && (IsBlank(nodeId) ==> e.published == [] && e.reply == Thrown(IllegalArgument("nodeId is required")))
  {
    IndexOfUnique(rows, i);
    SavedSpec(rows, Apply(Reassign(nodeId), rows[i], now), now);
  }

  // ---------------------------------------------------------------- reassign all

  /** What the publishing loop sent, and the exception that ended it early. */
  datatype Sends = Sends(records: seq<ProducerRecord>, failure: Option<Exception>)

  /** The second forEach of reassignAllTaskToDifferentNode: in list order,
      publish every task whose status is not completed; the first exception
      ends the loop. */
  function PublishLoop(nodeId: string, ts: seq<Task>): Sends {
    if ts == [] then Sends([], None)
    else
      var prev := PublishLoop(nodeId, ts[..|ts| - 1]);
      var t := ts[|ts| - 1];
      if prev.failure.Some? || t.status == Completed then prev
      else match Dispatch(nodeId, t.taskId)
        case Ok(rec) => Sends(prev.records + [rec], None)
        case Err(ex) => Sends(prev.records, Some(ex))
  }

  /** One record per task, key and value its id, all to the node's topic. */
  function RecordsFor(topic: string, ts: seq<Task>): seq<ProducerRecord> {
    seq(|ts|, k requires 0 <= k < |ts| => ProducerRecord(topic, ts[k].taskId, ts[k].taskId))
  }

  /** When no task in the list is completed, the loop publishes every task in
      order to a non-blank node id, and fails at the first task, having sent
      nothing, for a blank one. */
  lemma PublishLoopSpec(nodeId: string, ts: seq<Task>)
    requires forall k :: 0 <= k < |ts| ==> ts[k].status != Completed
    ensures !IsBlank(nodeId) || ts == [] ==> PublishLoop(nodeId, ts) == Sends(RecordsFor(DerivedName(nodeId), ts), None)
    ensures IsBlank(nodeId) && ts != [] ==>
            PublishLoop(nodeId, ts) == Sends([], Some(IllegalArgument("nodeId is required")))
  {
    if IsBlank(nodeId) {
      if ts != [] {
        PublishLoopBlank(nodeId, ts);
      }
    } else {
      PublishLoopNonBlank(nodeId, ts);
    }
  }

  /** To a non-blank node every task of the list is published, in order. */
  lemma {:induction false} PublishLoopNonBlank(nodeId: string, ts: seq<Task>)
    requires !IsBlank(nodeId)
    requires forall k :: 0 <= k < |ts| ==> ts[k].status != Completed
    ensures PublishLoop(nodeId, ts) == Sends(RecordsFor(DerivedName(nodeId), ts), None)
  {
    if ts != [] {
      var n := |ts| - 1;
      var topic := DerivedName(nodeId);
      PublishLoopNonBlank(nodeId, ts[..n]);
      assert ts[n].status != Completed;
      assert Dispatch(nodeId, ts[n].taskId) == Ok(ProducerRecord(topic, ts[n].taskId, ts[n].taskId));
      RecordsForSnoc(topic, ts);
    }
  }

  /** To a blank node the first task already throws and nothing is sent. */
  lemma {:induction false} PublishLoopBlank(nodeId: string, ts: seq<Task>)
    requires IsBlank(nodeId) && ts != []
    requires forall k :: 0 <= k < |ts| ==> ts[k].status != Completed
    ensures PublishLoop(nodeId, ts) == Sends([], Some(IllegalArgument("nodeId is required")))
  {
    var n := |ts| - 1;
    assert ts[n].status != Completed;
    if n == 0 {
      assert ts[..n] == [];
    } else {
      PublishLoopBlank(nodeId, ts[..n]);
    }
  }

  /** One more iteration of the publishing loop. */
  lemma PublishLoopStep(nodeId: string, ts: seq<Task>, i: nat)
    requires i < |ts|
    ensures var prev := PublishLoop(nodeId, ts[..i]);
      PublishLoop(nodeId, ts[..i + 1]) ==
        if prev.failure.Some? || ts[i].status == Completed then prev
        else match Dispatch(nodeId, ts[i].taskId)
          case Ok(rec) => Sends(prev.records + [rec], None)
          case Err(ex) => Sends(prev.records, Some(ex))
  {
    assert ts[..i + 1][..i] == ts[..i];
  }

  /** After the first exception the loop sends nothing more. */
  lemma {:induction false} PublishLoopAbsorbs(nodeId: string, ts: seq<Task>, k: nat)
    requires 0 < k <= |ts| && PublishLoop(nodeId, ts[..k]).failure.Some?
    ensures PublishLoop(nodeId, ts) == PublishLoop(nodeId, ts[..k])
    decreases |ts|
  {
    if k < |ts| {
      var n := |ts| - 1;
      assert ts[..n][..k] == ts[..k];
      PublishLoopAbsorbs(nodeId, ts[..n], k);
    } else {
      assert ts[..k] == ts;
    }
  }

  lemma RecordsForSnoc(topic: string, ts: seq<Task>)
    requires ts != []
    ensures var n := |ts| - 1;
      RecordsFor(topic, ts) == RecordsFor(topic, ts[..n]) + [ProducerRecord(topic, ts[n].taskId, ts[n].taskId)]
  {
  }

  /** reassignAllTaskToDifferentNode: load the node's non-completed tasks,
      reset each to pending on the new node, saveAll, then publish. */
  function ReassignAllSpec(rows: seq<Task>, oldNodeId: string, newNodeId: string, now: int): Effect {
    var taskList := FindAllByAssignedNodeIdAndStatusNot(rows, oldNodeId, Completed);
    var moved := Edits(taskList, Reassign(newNodeId), now);
    var sends := PublishLoop(newNodeId, moved);
    var after := SavedAll(rows, moved, now);
    if sends.failure.Some? then Effect(after, sends.records, Thrown(sends.failure.value))
    else Effect(after, sends.records, Success(Text("OK")))
  }

  /** Exactly the non-completed tasks of the old node move, in place, to the
      new node as pending with updatedOn = now; completed tasks and other
      nodes' tasks are unchanged. */
  lemma ReassignAllMovesExactly(rows: seq<Task>, oldNodeId: string, newNodeId: string, now: int)
    requires UniqueIds(rows)
    ensures var r := ReassignAllSpec(rows, oldNodeId, newNodeId, now).rows;
      && |r| == |rows| && UniqueIds(r)
      && forall i :: 0 <= i < |rows| ==>
           r[i] == if rows[i].assignedNodeId == oldNodeId && rows[i].status != Completed
                   then rows[i].(status := Pending, assignedNodeId := newNodeId, updatedOn := now)
                   else rows[i]
  {
    BulkPointwise(rows, ByNodeAndStatusNot(oldNodeId, Completed), Reassign(newNodeId), now);
  }

  /** One record per moved task, in table order, to the new node's topic, and
      "OK"; with a blank new node id and at least one task to move, the saves
      stand, nothing is published and the publisher's exception leaves the
      call. */
  lemma ReassignAllPublishes(rows: seq<Task>, oldNodeId: string, newNodeId: string, now: int)
    ensures var taskList := FindAllByAssignedNodeIdAndStatusNot(rows, oldNodeId, Completed);
      var e := ReassignAllSpec(rows, oldNodeId, newNodeId, now);
      && (!IsBlank(newNodeId) || taskList == [] ==>
            e.published == RecordsFor(DerivedName(newNodeId), taskList) && e.reply == Success(Text("OK")))
      && (IsBlank(newNodeId) && taskList != [] ==>
            e.published == [] && e.reply == Thrown(IllegalArgument("nodeId is required")))
  {
    var taskList := FindAllByAssignedNodeIdAndStatusNot(rows, oldNodeId, Completed);
    var moved := Edits(taskList, Reassign(newNodeId), now);
    PublishLoopSpec(newNodeId, moved);
    assert RecordsFor(DerivedName(newNodeId), moved) == RecordsFor(DerivedName(newNodeId), taskList);
  }

  // ---------------------------------------------------------------- update status

  /** updateStatus: parse oldStatus and refuse "completed"; load or throw;
      refuse a stored completed task; parse newStatus; write it and save. */
  function UpdateStatusSpec(rows: seq<Task>, taskId: string, oldStatus: string, newStatus: string, now: int): Effect {
    match ValueOf(oldStatus)
    case Err(ex) => Effect(rows, [], Thrown(ex))
    case Ok(o) =>
      if o == Completed then Effect(rows, [], Success(Text(INVALID_UPDATE)))
      else match FindByTaskId(rows, taskId)
        case None => Effect(rows, [], Thrown(NoSuchElement))
        case Some(t) =>
          if t.status == Completed then Effect(rows, [], Success(Text(INVALID_UPDATE)))
          else match ValueOf(newStatus)
            case Err(ex) => Effect(rows, [], Thrown(ex))
            case Ok(n) =>
              var updated := t.(status := n, updatedOn := now);
              Effect(Saved(rows, updated, now), [], Success(TaskBody(updated)))
  }

  /** A completed task can not change status: neither when the caller claims
      it was completed (checked before the lookup, so even for a missing id)
      nor when it is stored as completed. Nothing changes in either case. */
  lemma UpdateStatusKeepsCompleted(rows: seq<Task>, taskId: string, oldStatus: string, newStatus: string, now: int)
    ensures oldStatus == "completed" ==>
            UpdateStatusSpec(rows, taskId, oldStatus, newStatus, now) == Effect(rows, [], Success(Text("Invalid status update")))
    ensures ValueOf(oldStatus).Ok? && FindByTaskId(rows, taskId).Some? && FindByTaskId(rows, taskId).value.status == Completed ==>
            UpdateStatusSpec(rows, taskId, oldStatus, newStatus, now) == Effect(rows, [], Success(Text("Invalid status update")))
  {
  }

  /** Otherwise the new status is written in place with updatedOn = now,
      whatever the stored non-completed status and whatever oldStatus says;
      no other field and no other task changes, and nothing is published. */
  lemma UpdateStatusOverwrites(rows: seq<Task>, i: nat, oldStatus: string, newStatus: string, now: int)
    requires UniqueIds(rows) && i < |rows| && rows[i].status != Completed
    requires ValueOf(oldStatus).Ok? && ValueOf(oldStatus).value != Completed
    requires ValueOf(newStatus).Ok?
    ensures var e := UpdateStatusSpec(rows, rows[i].taskId, oldStatus, newStatus, now);
      var updated := rows[i].(status := ValueOf(newStatus).value, updatedOn := now);
      && e.rows == rows[i := updated] && UniqueIds(e.rows)
      && e.published == [] && e.reply == Success(TaskBody(updated))
  {
    IndexOfUnique(rows, i);
    SavedSpec(rows, rows[i].(status := ValueOf(newStatus).value, updatedOn := now), now);
  }

  /** oldStatus is never compared with the stored status: any two accepted
      values give the same effect. */
  lemma UpdateStatusIgnoresOldStatus(rows: seq<Task>, taskId: string, old1: string, old2: string, newStatus: string, now: int)
    requires ValueOf(old1).Ok? && ValueOf(old1).value != Completed
    requires ValueOf(old2).Ok? && ValueOf(old2).value != Completed
    ensures UpdateStatusSpec(rows, taskId, old1, newStatus, now) == UpdateStatusSpec(rows, taskId, old2, newStatus, now)
  {
  }

  /** A worker reporting a task as pending that is stored as failed still
      moves it. */
  lemma UpdateStatusStaleOldStatus(t: Task, now: int)
    requires t.status == Failed
    ensures UpdateStatusSpec([t], t.taskId, "pending", "in_progress", now).rows ==
            [t.(status := InProgress, updatedOn := now)]
  {
  }

  /** An unknown status name changes no row: an unknown oldStatus throws
      IllegalArgumentException at once; an unknown newStatus is only parsed
      after the lookup and the completed checks, so the call either throws or
      answers "Invalid status update". */
  lemma UpdateStatusBadName(rows: seq<Task>, taskId: string, oldStatus: string, newStatus: string, now: int)
    requires ValueOf(oldStatus).Err? || ValueOf(newStatus).Err?
    ensures var e := UpdateStatusSpec(rows, taskId, oldStatus, newStatus, now);
      && e.rows == rows && e.published == []
      && (e.reply.Thrown? || e.reply == Success(Text("Invalid status update")))
      && (ValueOf(oldStatus).Err? ==>
            e.reply == Thrown(IllegalArgument("No enum constant task.server.entity.TaskStatus." + oldStatus)))
  {
  }
}
