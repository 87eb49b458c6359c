/** TaskService as a class over the mutable repositories and the publisher.
    Every operation is proved to have exactly the effect its function in
    TaskLifecycle describes. The caller's node id, which the code reads from
    the security context, is a parameter; so are the clock and the UUID the
    entity gets. */
module Coordinator {
  import opened Common
  import opened Tasks
  import opened TaskRepo
  import NodeStore
  import opened KafkaPublisher
  import opened TaskLifecycle

  class TaskService {
    const taskRepository: TaskRepository
    const kafkaPublisher: Publisher
    const nodeRepository: NodeStore.NodeRepository

    constructor (taskRepository: TaskRepository, kafkaPublisher: Publisher, nodeRepository: NodeStore.NodeRepository)
      ensures this.taskRepository == taskRepository && this.kafkaPublisher == kafkaPublisher
      ensures this.nodeRepository == nodeRepository
    {
      this.taskRepository := taskRepository;
      this.kafkaPublisher := kafkaPublisher;
      this.nodeRepository := nodeRepository;
    }

    method CreateTask(taskType: string, taskDetails: string, assignedNodeId: string, uuid: string, now: int)
      returns (r: Reply<Body>)
      requires IsUuid(uuid)
      requires taskRepository.Valid()
      modifies taskRepository, kafkaPublisher
      ensures taskRepository.Valid()
      ensures var e := CreateSpec(old(taskRepository.rows), nodeRepository.nodes, taskType, taskDetails, assignedNodeId, uuid, now);
        taskRepository.rows == e.rows && kafkaPublisher.sent == old(kafkaPublisher.sent) + e.published && r == e.reply
    {
      if NodeStore.FindByNodeId(nodeRepository.nodes, assignedNodeId).None? {
        return Rejected(BAD_REQUEST, "Node does not exist");
      }
      var task := new TaskEntity(None, taskType, taskDetails, assignedNodeId, Pending, now, now);
      var saved := taskRepository.Persist(task, uuid, now);
      if saved.Err? {
        return Thrown(saved.ex);
      }
      var o := kafkaPublisher.PublishTaskToNode(saved.value.assignedNodeId, saved.value.taskId);
      if o.Fail? {
        return Thrown(o.ex);
      }
      r := Success(TaskBody(saved.value));
    }

    method GetTaskByTaskId(callerNodeId: string, taskId: string) returns (r: Reply<Body>)
      ensures r == Success(ViewBody(TaskLifecycle.GetTaskByTaskId(taskRepository.rows, callerNodeId, taskId)))
    {
      var task := FindByTaskIdAndAssignedNodeId(taskRepository.rows, taskId, callerNodeId);
      if task.None? {
        return Success(ViewBody(EmptyView));
      }
      r := Success(ViewBody(Project(task.value)));
    }

    method GetAllTaskForNode(callerNodeId: string) returns (r: Reply<Body>)
      ensures r == Success(ViewsBody(AllTasksForNode(taskRepository.rows, callerNodeId)))
    {
      var taskList := FindAllByAssignedNodeId(taskRepository.rows, callerNodeId);
      var views: seq<TaskView> := [];
      var i := 0;
      while i < |taskList|
        invariant 0 <= i <= |taskList|
        invariant views == Views(taskList[..i])
      {
        views := views + [Project(taskList[i])];
        i := i + 1;
      }
      assert taskList[..i] == taskList;
      r := Success(ViewsBody(views));
    }

    method ReassignTaskToDifferentNode(taskId: string, nodeId: string, now: int) returns (r: Reply<Body>)
      requires taskRepository.Valid()
      modifies taskRepository, kafkaPublisher
      ensures taskRepository.Valid()
      ensures var e := ReassignSpec(old(taskRepository.rows), taskId, nodeId, now);
        taskRepository.rows == e.rows && kafkaPublisher.sent == old(kafkaPublisher.sent) + e.published && r == e.reply
    {
      var found := FindByTaskId(taskRepository.rows, taskId);
      if found.None? {
        return Thrown(NoSuchElement);
      }
      var task := found.value;
      task := task.(status := Pending);
      task := task.(assignedNodeId := nodeId);
      task := task.(updatedOn := now);
      var _ := taskRepository.Save(task, now);
      if task.status != Completed {
        var o := kafkaPublisher.PublishTaskToNode(nodeId, taskId);
        if o.Fail? {
          return Thrown(o.ex);
        }
      }
      r := Success(TaskBody(task));
    }

    method ReassignAllTaskToDifferentNode(oldNodeId: string, newNodeId: string, now: int) returns (r: Reply<Body>)
      requires taskRepository.Valid()
      modifies taskRepository, kafkaPublisher
      ensures taskRepository.Valid()
      ensures var e := ReassignAllSpec(old(taskRepository.rows), oldNodeId, newNodeId, now);
        taskRepository.rows == e.rows && kafkaPublisher.sent == old(kafkaPublisher.sent) + e.published && r == e.reply
    {
      var taskList := FindAllByAssignedNodeIdAndStatusNot(taskRepository.rows, oldNodeId, Completed);
      var edited := MoveAll(taskList, newNodeId, now);
      taskRepository.SaveAll(edited, now);
      var failure := PublishEach(newNodeId, edited);
      if failure.Some? {
        return Thrown(failure.value);
      }
      r := Success(Text("OK"));
    }

    /** The first forEach: each listed task made pending on the new node,
        updated now. */
    method MoveAll(taskList: seq<Task>, newNodeId: string, now: int) returns (edited: seq<Task>)
      ensures edited == Edits(taskList, Reassign(newNodeId), now)
    {
      edited := [];
      var i := 0;
      while i < |taskList|
        invariant 0 <= i <= |taskList|
        invariant edited == Edits(taskList[..i], Reassign(newNodeId), now)
      {
        var task := taskList[i];
        task := task.(status := Pending);
        task := task.(assignedNodeId := newNodeId);
        task := task.(updatedOn := now);
        EditsSnoc(taskList, i, Reassign(newNodeId), now);
        edited := edited + [task];
        i := i + 1;
      }
      assert taskList[..i] == taskList;
    }

    /** The second forEach: publish every task that is not completed, in
        order; the first exception ends the loop and is returned. */
    method PublishEach(newNodeId: string, edited: seq<Task>) returns (failure: Option<Exception>)
      modifies kafkaPublisher
      ensures var sends := PublishLoop(newNodeId, edited);
        kafkaPublisher.sent == old(kafkaPublisher.sent) + sends.records && failure == sends.failure
    {
      ghost var sentBefore := kafkaPublisher.sent;
      var i := 0;
      while i < |edited|
        invariant 0 <= i <= |edited|
        invariant PublishLoop(newNodeId, edited[..i]).failure.None?
        invariant kafkaPublisher.sent == sentBefore + PublishLoop(newNodeId, edited[..i]).records
      {
        PublishLoopStep(newNodeId, edited, i);
        if edited[i].status != Completed {
          var o := kafkaPublisher.PublishTaskToNode(newNodeId, edited[i].taskId);
          if o.Fail? {
            PublishLoopAbsorbs(newNodeId, edited, i + 1);
            return Some(o.ex);
          }
        }
        i := i + 1;
      }
      assert edited[..i] == edited;
      failure := None;
    }

    method UpdateStatus(taskId: string, oldStatus: string, newStatus: string, now: int) returns (r: Reply<Body>)
      requires taskRepository.Valid()
      modifies taskRepository
      ensures taskRepository.Valid()
      ensures var e := UpdateStatusSpec(old(taskRepository.rows), taskId, oldStatus, newStatus, now);
        taskRepository.rows == e.rows && e.published == [] && r == e.reply
    {
      var claimed := ValueOf(oldStatus);
      if claimed.Err? {
        return Thrown(claimed.ex);
      }
      if claimed.value == Completed {
        return Success(Text(INVALID_UPDATE));
      }
      var found := FindByTaskId(taskRepository.rows, taskId);
      if found.None? {
        return Thrown(NoSuchElement);
      }
      var task := found.value;
      if task.status == Completed {
        return Success(Text(INVALID_UPDATE));
      }
      var status := ValueOf(newStatus);
      if status.Err? {
        return Thrown(status.ex);
      }
      task := task.(status := status.value);
      task := task.(updatedOn := now);
      var _ := taskRepository.Save(task, now);
      r := Success(TaskBody(task));
    }
  }
}
