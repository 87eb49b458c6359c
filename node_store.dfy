/** Worker nodes as the coordinator stores them, and the two derived queries
    of the node repository (findByNodeId, findByIsActiveTrue). The store is
    the sequence of saved nodes in insertion order. */
module NodeStore {
  import opened Common

  /** A registered worker node; the raw secret is never stored, only its hash. */
  datatype Node = Node(nodeId: string, nodeSecretHash: string, isActive: bool, createdOn: int)

  /** No two stored nodes share an id (the create operation keeps this). */
  ghost predicate UniqueIds(nodes: seq<Node>) {
    forall i, j :: 0 <= i < j < |nodes| ==> nodes[i].nodeId != nodes[j].nodeId
  }

  /** findByNodeId: the first stored node with that id, if any. */
  function FindByNodeId(nodes: seq<Node>, nodeId: string): (r: Option<Node>)
    ensures r.None? <==> forall i :: 0 <= i < |nodes| ==> nodes[i].nodeId != nodeId
    ensures r.Some? ==> r.value in nodes && r.value.nodeId == nodeId
  {
    if nodes == [] then None
    else if nodes[0].nodeId == nodeId then Some(nodes[0])
    else FindByNodeId(nodes[1..], nodeId)
  }

  /** A node appended under a fresh id is what findByNodeId returns for it,
      and every other lookup is unaffected. */
  lemma {:induction false} FindAfterAppend(nodes: seq<Node>, n: Node, nodeId: string)
    requires FindByNodeId(nodes, n.nodeId).None?
    ensures FindByNodeId(nodes + [n], nodeId) ==
            if nodeId == n.nodeId then Some(n) else FindByNodeId(nodes, nodeId)
  {
    if nodes != [] {
      assert (nodes + [n])[1..] == nodes[1..] + [n];
      if nodes[0].nodeId != nodeId {
        FindAfterAppend(nodes[1..], n, nodeId);
      }
    }
  }

  /** findByIsActiveTrue: the active nodes, in store order. */
  function FindActive(nodes: seq<Node>): (r: seq<Node>)
    ensures forall n :: n in r <==> n in nodes && n.isActive
    ensures |r| <= |nodes|
  {
    if nodes == [] then []
    else (if nodes[0].isActive then [nodes[0]] else []) + FindActive(nodes[1..])
  }

  /** The mutable node repository. */
  class NodeRepository {
    var nodes: seq<Node>

    ghost predicate Valid()
      reads this
    {
      UniqueIds(nodes)
    }

    constructor ()
      ensures Valid() && nodes == []
    {
      nodes := [];
    }

    /** save of a node built without its generated key: always an insert.
        The caller has checked that the id is not taken, so ids stay unique. */
    method Save(n: Node)
      requires Valid() && FindByNodeId(nodes, n.nodeId).None?
      modifies this
      ensures Valid()
      ensures nodes == old(nodes) + [n]
    {
      nodes := nodes + [n];
    }
  }
}
