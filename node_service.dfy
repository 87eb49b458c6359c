/** NodeService.create: registers a worker node under a new id, storing the
    hash of its secret. The DTO field that carries the raw secret is called
    nodeSecretHash; it is hashed before it is stored. */
module NodeRegistration {
  import opened Common
  import opened Passwords
  import opened NodeStore

  const NODE_ID_TAKEN := "NodeId already taken"

  /** The node table after a create, and the response. */
  datatype CreateRun = CreateRun(nodes: seq<Node>, reply: Reply<Node>)

  /** create at time now. */
  function CreateSpec(nodes: seq<Node>, encoder: PasswordEncoder, nodeId: string, nodeSecretHash: string, now: int): CreateRun {
    if FindByNodeId(nodes, nodeId).Some? then CreateRun(nodes, Rejected(BAD_REQUEST, NODE_ID_TAKEN))
    else
      var node := Node(nodeId, encoder.encode(nodeSecretHash), true, now);
      CreateRun(nodes + [node], Success(node))
  }

  /** A taken id is refused with 400 and the table is unchanged; a free one
      adds exactly one active node holding the encoded secret, after all the
      existing nodes, which are untouched. Ids stay unique, the new node is
      what findByNodeId now returns for its id, and every other lookup
      answers as before. */
  lemma CreateAddsExactlyOneNode(nodes: seq<Node>, encoder: PasswordEncoder, nodeId: string, nodeSecretHash: string, now: int)
    requires UniqueIds(nodes)
    ensures var run := CreateSpec(nodes, encoder, nodeId, nodeSecretHash, now);
      var node := Node(nodeId, encoder.encode(nodeSecretHash), true, now);
      && (run.reply.Success? <==> FindByNodeId(nodes, nodeId).None?)
      && (run.reply.Rejected? ==> run == CreateRun(nodes, Rejected(BAD_REQUEST, NODE_ID_TAKEN)))
      && (run.reply.Success? ==>
            && run.reply.body == node
            && |run.nodes| == |nodes| + 1 && run.nodes[..|nodes|] == nodes && run.nodes[|nodes|] == node
            && UniqueIds(run.nodes)
            && FindByNodeId(run.nodes, nodeId) == Some(node)
            && forall id :: id != nodeId ==> FindByNodeId(run.nodes, id) == FindByNodeId(nodes, id))
  {
    var node := Node(nodeId, encoder.encode(nodeSecretHash), true, now);
    if FindByNodeId(nodes, nodeId).None? {
      assert (nodes + [node])[..|nodes|] == nodes;
      FindAfterAppend(nodes, node, nodeId);
      forall id | id != nodeId
        ensures FindByNodeId(nodes + [node], id) == FindByNodeId(nodes, id)
      {
        FindAfterAppend(nodes, node, id);
      }
    }
  }

  class NodeService {
    const nodeRepository: NodeRepository
    const encoder: PasswordEncoder

    constructor (nodeRepository: NodeRepository, encoder: PasswordEncoder)
      ensures this.nodeRepository == nodeRepository && this.encoder == encoder
    {
      this.nodeRepository := nodeRepository;
      this.encoder := encoder;
    }

    method Create(nodeId: string, nodeSecretHash: string, now: int) returns (r: Reply<Node>)
      requires nodeRepository.Valid()
      modifies nodeRepository
      ensures nodeRepository.Valid()
      ensures CreateRun(nodeRepository.nodes, r) == CreateSpec(old(nodeRepository.nodes), encoder, nodeId, nodeSecretHash, now)
    {
      if FindByNodeId(nodeRepository.nodes, nodeId).Some? {
        return Rejected(BAD_REQUEST, NODE_ID_TAKEN);
      }
      var node := Node(nodeId, encoder.encode(nodeSecretHash), true, now);
      nodeRepository.Save(node);
      r := Success(node);
    }
  }
}
