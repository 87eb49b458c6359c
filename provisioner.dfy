/** NodeTopicProvisioner: at start-up, one createOrModifyTopics call that
    lists a topic for every active node. */
module NodeTopicProvisioner {
  import opened Common
  import opened Strings
  import opened Topics
  import opened NodeStore
  import KafkaPublisher

  /** org.apache.kafka.clients.admin.NewTopic. */
  datatype NewTopic = NewTopic(name: string, numPartitions: int, replicationFactor: int)

  /** The provisioner's own topicName: the same derivation as the publisher's,
      but a null or blank id raises IllegalStateException. */
  function TopicName(nodeId: Option<string>): (r: Result<string>)
    ensures r.Err? <==> nodeId.None? || IsBlank(nodeId.value)
    ensures r.Err? ==> r.ex == IllegalState("Active node has empty nodeId")
    ensures r.Ok? ==> r.value == DerivedName(nodeId.value)
  {
    if nodeId.None? || IsBlank(nodeId.value) then Err(IllegalState("Active node has empty nodeId"))
    else Ok(DerivedName(nodeId.value))
  }

  /** Both components name a node's topic identically whenever the id is
      usable at all; on a blank id both fail. */
  lemma TopicNamesAgree(nodeId: Option<string>)
    ensures TopicName(nodeId).Ok? <==> KafkaPublisher.TopicName(nodeId).Ok?
    ensures TopicName(nodeId).Ok? ==> TopicName(nodeId) == KafkaPublisher.TopicName(nodeId)
  {
  }

  /** The node's id is usable for a topic name. */
  predicate HasId(n: Node) {
    !IsBlank(n.nodeId)
  }

  /** t is the topic the provisioner requests for node n. */
  predicate Describes(t: NewTopic, n: Node, partitions: int, replicationFactor: int) {
    t.name == DerivedName(n.nodeId) && t.numPartitions == partitions && t.replicationFactor == replicationFactor
  }

  /** The stream map over the active nodes: one NewTopic per node, in order,
      or the exception of the first node whose id is blank. It succeeds
      exactly when every active id is non-blank. */
  function NewTopics(nodes: seq<Node>, partitions: int, replicationFactor: int): (r: Result<seq<NewTopic>>)
    ensures r.Ok? <==> forall i :: 0 <= i < |nodes| ==> HasId(nodes[i])
    ensures r.Ok? ==> |r.value| == |nodes|
    ensures r.Ok? ==> forall i :: 0 <= i < |nodes| ==> Describes(r.value[i], nodes[i], partitions, replicationFactor)
    ensures r.Err? ==> r.ex == IllegalState("Active node has empty nodeId")
  {
    if nodes == [] then Ok([])
    else if !HasId(nodes[0]) then Err(IllegalState("Active node has empty nodeId"))
    else
      var rest := NewTopics(nodes[1..], partitions, replicationFactor);
      assert forall i :: 1 <= i < |nodes| ==> nodes[i] == nodes[1..][i - 1];
      if rest.Err? then rest
      else Ok([NewTopic(DerivedName(nodes[0].nodeId), partitions, replicationFactor)] + rest.value)
  }

  /** The admin client; each element of calls is one createOrModifyTopics. */
  class KafkaAdmin {
    var calls: seq<seq<NewTopic>>

    constructor ()
      ensures calls == []
    {
      calls := [];
    }
  }

  class Provisioner {
    const nodeRepository: NodeRepository
    const kafkaAdmin: KafkaAdmin
    const partitions: int
    const replicationFactor: int

    constructor (nodeRepository: NodeRepository, kafkaAdmin: KafkaAdmin, partitions: int, replicationFactor: int)
      ensures this.nodeRepository == nodeRepository && this.kafkaAdmin == kafkaAdmin
      ensures this.partitions == partitions && this.replicationFactor == replicationFactor
    {
      this.nodeRepository := nodeRepository;
      this.kafkaAdmin := kafkaAdmin;
      this.partitions := partitions;
      this.replicationFactor := replicationFactor;
    }

    /** createTopicsForActiveNodes: no admin call when no node is active; an
        IllegalStateException and no call when an active id is blank;
        otherwise exactly one call listing one topic per active node. */
    method CreateTopicsForActiveNodes() returns (o: Outcome)
      modifies kafkaAdmin
      ensures var active := FindActive(nodeRepository.nodes);
        && (active == [] ==> o == Pass && kafkaAdmin.calls == old(kafkaAdmin.calls))
        && (active != [] && NewTopics(active, partitions, replicationFactor).Err? ==>
              o == Fail(IllegalState("Active node has empty nodeId")) && kafkaAdmin.calls == old(kafkaAdmin.calls))
        && (active != [] && NewTopics(active, partitions, replicationFactor).Ok? ==>
              o == Pass && kafkaAdmin.calls == old(kafkaAdmin.calls) + [NewTopics(active, partitions, replicationFactor).value])
    {
      var activeNodes := FindActive(nodeRepository.nodes);
      if activeNodes == [] {
        return Pass;
      }
      var topics := NewTopics(activeNodes, partitions, replicationFactor);
      if topics.Err? {
        return Fail(topics.ex);
      }
      kafkaAdmin.calls := kafkaAdmin.calls + [topics.value];
      o := Pass;
    }
  }
}
