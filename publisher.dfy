/** KafkaPublisher: dispatching a task id to the topic of a node. The broker
    is an outbox: the sequence of records handed to the producer, in order.
    Delivery is asynchronous and its outcome is only logged, so nothing about
    it flows back into the model. */
module KafkaPublisher {
  import opened Common
  import opened Strings
  import opened Topics

  /** One record handed to KafkaTemplate.send(topic, key, value). */
  datatype ProducerRecord = ProducerRecord(topic: string, key: string, value: string)

  /** topicName: rejects a null or blank id, otherwise derives the name. */
  function TopicName(nodeId: Option<string>): (r: Result<string>)
    ensures r.Err? <==> nodeId.None? || IsBlank(nodeId.value)
    ensures r.Err? ==> r.ex == IllegalArgument("nodeId is required")
    ensures r.Ok? ==> r.value == DerivedName(nodeId.value)
  {
    if nodeId.None? || IsBlank(nodeId.value) then Err(IllegalArgument("nodeId is required"))
    else Ok(DerivedName(nodeId.value))
  }

  /** The record publishTaskToNode sends, or the exception topicName throws
      before anything is sent. */
  function Dispatch(nodeId: string, taskId: string): (r: Result<ProducerRecord>)
    ensures r.Ok? <==> !IsBlank(nodeId)
    ensures r.Ok? ==> TopicName(Some(nodeId)) == Ok(r.value.topic) && r.value.key == taskId && r.value.value == taskId
    ensures r.Err? ==> r.ex == IllegalArgument("nodeId is required")
  {
    match TopicName(Some(nodeId))
    case Ok(topic) => Ok(ProducerRecord(topic, taskId, taskId))
    case Err(e) => Err(e)
  }

  /** A successful topicName has the form ^tasks\.node\.[A-Za-z0-9._-]+$,
      and its suffix is as long as the trimmed id. */
  lemma TopicNameWellFormed(nodeId: Option<string>)
    requires TopicName(nodeId).Ok?
    ensures IsTopicName(TopicName(nodeId).value)
    ensures |Suffix(TopicName(nodeId).value)| == |Trim(nodeId.value)|
  {
    DerivedNameShape(nodeId.value);
  }

  /** Publishing the topic suffix of a dispatch record again reaches the same
      topic: the name is a fixed point of topicName. */
  lemma TopicNameIdempotent(nodeId: string)
    requires !IsBlank(nodeId)
    ensures var t := TopicName(Some(nodeId)).value; TopicName(Some(Suffix(t))) == Ok(t)
  {
    DerivedNameShape(nodeId);
    DerivedNameIdempotent(nodeId);
  }

  /** An id with no surrounding whitespace and only safe characters is used
      verbatim, so the worker's unsanitised "tasks.node." + id agrees. */
  lemma SafeIdPassesThrough(nodeId: string)
    requires nodeId != [] && AllSafe(nodeId)
    ensures TopicName(Some(nodeId)) == Ok(TopicPrefix + nodeId)
  {
    DerivedNameOfSafeId(nodeId);
  }

  /** The producer side of the broker. */
  class Publisher {
    var sent: seq<ProducerRecord>

    constructor ()
      ensures sent == []
    {
      sent := [];
    }

    /** publishTaskToNode: one record with key and value both the task id, or
        IllegalArgumentException and nothing sent. A failed delivery is not
        retried and is not reported to the caller. */
    method PublishTaskToNode(nodeId: string, taskId: string) returns (o: Outcome)
      modifies this
      ensures Dispatch(nodeId, taskId).Ok? ==> o == Pass && sent == old(sent) + [Dispatch(nodeId, taskId).value]
      ensures Dispatch(nodeId, taskId).Err? ==> o == Fail(Dispatch(nodeId, taskId).ex) && sent == old(sent)
    {
      var topic := TopicName(Some(nodeId));
      if topic.Err? {
        return Fail(topic.ex);
      }
      sent := sent + [ProducerRecord(topic.value, taskId, taskId)];
      o := Pass;
    }
  }
}
