/** The Task entity: its status enum, the stored record, and the JPA entity
    whose prePersist hook assigns an id. Times are integer seconds. */
module Tasks {
  import opened Common
  import opened Strings

  /** task.server.entity.TaskStatus, persisted by name. */
  datatype TaskStatus = Pending | InProgress | Completed | Failed | TimedOut

  /** Enum.name(). */
  function Name(st: TaskStatus): string {
    match st
    case Pending => "pending"
    case InProgress => "in_progress"
    case Completed => "completed"
    case Failed => "failed"
    case TimedOut => "timed_out"
  }

  /** TaskStatus.valueOf: the constant with exactly this name, or
      IllegalArgumentException. */
  function ValueOf(name: string): (r: Result<TaskStatus>)
    ensures r.Ok? ==> Name(r.value) == name
    ensures r.Err? ==> r.ex == IllegalArgument("No enum constant task.server.entity.TaskStatus." + name)
  {
    if name == "pending" then Ok(Pending)
    else if name == "in_progress" then Ok(InProgress)
    else if name == "completed" then Ok(Completed)
    else if name == "failed" then Ok(Failed)
    else if name == "timed_out" then Ok(TimedOut)
    else Err(IllegalArgument("No enum constant task.server.entity.TaskStatus." + name))
  }

  /** valueOf inverts name(), so valueOf succeeds exactly on the five names. */
  lemma ValueOfName(st: TaskStatus)
    ensures ValueOf(Name(st)) == Ok(st)
  {
  }

  /** Matching is by exact name: every name starting with an upper-case
      letter (such as "PENDING" or "Completed") is rejected. */
  lemma ValueOfIsCaseSensitive(name: string)
    requires |name| > 0 && 'A' <= name[0] <= 'Z'
    ensures ValueOf(name) == Err(IllegalArgument("No enum constant task.server.entity.TaskStatus." + name))
  {
    assert name[0] != "pending"[0] && name[0] != "in_progress"[0] && name[0] != "completed"[0]
        && name[0] != "failed"[0] && name[0] != "timed_out"[0];
  }

  /** A stored task row. */
  datatype Task = Task(
    taskId: string,
    taskType: string,
    taskDetails: string,
    assignedNodeId: string,
    status: TaskStatus,
    createdOn: int,
    updatedOn: int)

  predicate IsHexDigit(c: char) {
    ('0' <= c <= '9') || ('a' <= c <= 'f')
  }

  /** What UUID.randomUUID().toString() produces: 8-4-4-4-12 lower-case hex
      digits separated by '-'. */
  predicate IsUuid(s: string) {
    && |s| == 36
    && forall i :: 0 <= i < 36 ==>
         if i == 8 || i == 13 || i == 18 || i == 23 then s[i] == '-' else IsHexDigit(s[i])
  }

  /** A UUID string fits the 36-character task_id column and is not blank. */
  lemma UuidFitsColumn(s: string)
    requires IsUuid(s)
    ensures |s| == 36 && !IsBlank(s)
  {
    assert IsHexDigit(s[0]);
  }

  /** The id prePersist leaves in the entity. */
  function AssignId(taskId: Option<string>, uuid: string): string {
    if taskId.None? || IsBlank(taskId.value) then uuid else taskId.value
  }

  /** prePersist keeps a present, non-blank id and otherwise takes the fresh
      UUID, so its id is never blank. */
  lemma AssignIdSpec(taskId: Option<string>, uuid: string)
    requires IsUuid(uuid)
    ensures taskId.Some? && !IsBlank(taskId.value) ==> AssignId(taskId, uuid) == taskId.value
    ensures taskId.None? || IsBlank(taskId.value) ==> AssignId(taskId, uuid) == uuid && |AssignId(taskId, uuid)| == 36
    ensures !IsBlank(AssignId(taskId, uuid))
  {
    UuidFitsColumn(uuid);
  }

  /** Running prePersist a second time, with any UUID, changes nothing. */
  lemma AssignIdIdempotent(taskId: Option<string>, uuid: string, uuid2: string)
    requires IsUuid(uuid)
    ensures AssignId(Some(AssignId(taskId, uuid)), uuid2) == AssignId(taskId, uuid)
  {
    UuidFitsColumn(uuid);
  }

  /** The mutable JPA entity, as the builder creates it. */
  class TaskEntity {
    var taskId: Option<string>
    var taskType: string
    var taskDetails: string
    var assignedNodeId: string
    var status: TaskStatus
    var createdOn: int
    var updatedOn: int

    constructor (taskId: Option<string>, taskType: string, taskDetails: string, assignedNodeId: string,
                 status: TaskStatus, createdOn: int, updatedOn: int)
      ensures this.taskId == taskId && this.taskType == taskType && this.taskDetails == taskDetails
      ensures this.assignedNodeId == assignedNodeId && this.status == status
      ensures this.createdOn == createdOn && this.updatedOn == updatedOn
    {
      this.taskId := taskId;
      this.taskType := taskType;
      this.taskDetails := taskDetails;
      this.assignedNodeId := assignedNodeId;
      this.status := status;
      this.createdOn := createdOn;
      this.updatedOn := updatedOn;
    }

    /** @PrePersist: a null or blank id is replaced by the fresh UUID; no
        other field may change (the frame names taskId alone). */
    method PrePersist(uuid: string)
      requires IsUuid(uuid)
      modifies this`taskId
      ensures taskId == Some(AssignId(old(taskId), uuid))
      ensures !IsBlank(taskId.value)
    {
      if taskId.None? || IsBlank(taskId.value) {
        taskId := Some(uuid);
      }
      AssignIdSpec(old(taskId), uuid);
    }

    /** The row this entity is saved as. */
    function Row(): Task
      requires taskId.Some?
      reads this
    {
      Task(taskId.value, taskType, taskDetails, assignedNodeId, status, createdOn, updatedOn)
    }
  }
}
