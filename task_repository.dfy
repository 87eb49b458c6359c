/** The task table and the derived queries of TaskRepository. The table is the
    sequence of stored rows in insertion order, which is the order every list
    query returns; task ids are unique, since taskId is the primary key.
    save follows JPA: a row with a known id is merged (createdOn is not
    updatable and @UpdateTimestamp sets updatedOn), an unknown one is inserted
    with both timestamps set to the current time. */
module TaskRepo {
  import opened Common
  import opened Tasks

  /** taskId is the primary key. */
  ghost predicate UniqueIds(rows: seq<Task>) {
    forall i, j :: 0 <= i < j < |rows| ==> rows[i].taskId != rows[j].taskId
  }

  /** The position of the row with this id. */
  function IndexOf(rows: seq<Task>, taskId: string): (r: Option<nat>)
    ensures r.None? <==> forall i :: 0 <= i < |rows| ==> rows[i].taskId != taskId
    ensures r.Some? ==> r.value < |rows| && rows[r.value].taskId == taskId
  {
    if rows == [] then None
    else if rows[0].taskId == taskId then Some(0)
    else match IndexOf(rows[1..], taskId)
      case None => None
      case Some(i) => Some(i + 1)
  }

  /** With unique ids, the position found is the only one with that id. */
  lemma IndexOfUnique(rows: seq<Task>, i: int)
    requires UniqueIds(rows) && 0 <= i < |rows|
    ensures IndexOf(rows, rows[i].taskId) == Some(i)
  {
  }

  /** IndexOf looks at ids only. */
  lemma {:induction false} IndexOfSameIds(a: seq<Task>, b: seq<Task>, taskId: string)
    requires |a| == |b| && forall i :: 0 <= i < |a| ==> a[i].taskId == b[i].taskId
    ensures IndexOf(a, taskId) == IndexOf(b, taskId)
  {
    if a != [] && a[0].taskId != taskId {
      IndexOfSameIds(a[1..], b[1..], taskId);
    }
  }

  /** findByTaskId. */
  function FindByTaskId(rows: seq<Task>, taskId: string): (r: Option<Task>)
    ensures r.None? <==> forall i :: 0 <= i < |rows| ==> rows[i].taskId != taskId
    ensures r.Some? ==> r.value in rows && r.value.taskId == taskId
  {
    match IndexOf(rows, taskId)
    case None => None
    case Some(i) => Some(rows[i])
  }

  /** findByTaskIdAndAssignedNodeId: a row matching both the id and the node. */
  function FindByTaskIdAndAssignedNodeId(rows: seq<Task>, taskId: string, nodeId: string): (r: Option<Task>)
    ensures r.None? <==> forall i :: 0 <= i < |rows| ==> !(rows[i].taskId == taskId && rows[i].assignedNodeId == nodeId)
    ensures r.Some? ==> r.value in rows && r.value.taskId == taskId && r.value.assignedNodeId == nodeId
  {
    if rows == [] then None
    else if rows[0].taskId == taskId && rows[0].assignedNodeId == nodeId then Some(rows[0])
    else FindByTaskIdAndAssignedNodeId(rows[1..], taskId, nodeId)
  }

  /** With unique ids, the two-key lookup is the id lookup restricted to the
      node: it finds the task exactly when it exists and is that node's. */
  lemma FindByTaskIdAndNode(rows: seq<Task>, taskId: string, nodeId: string)
    requires UniqueIds(rows)
    ensures FindByTaskIdAndAssignedNodeId(rows, taskId, nodeId) ==
            if FindByTaskId(rows, taskId).Some? && FindByTaskId(rows, taskId).value.assignedNodeId == nodeId
            then FindByTaskId(rows, taskId) else None
  {
    var r := FindByTaskIdAndAssignedNodeId(rows, taskId, nodeId);
    if r.Some? {
      var i :| 0 <= i < |rows| && rows[i] == r.value;
      IndexOfUnique(rows, i);
    }
  }

  /** The list queries. */
  datatype Query =
    | ByNode(nodeId: string)                                   // findAllByAssignedNodeId
    | ByNodeAndStatusNot(nodeId: string, status: TaskStatus)   // findAllByAssignedNodeIdAndStatusNot
    | ByStatusAndUpdatedOnBefore(status: TaskStatus, cutoff: int)  // findByStatusAndUpdatedOnBefore

  predicate Matches(q: Query, t: Task) {
    match q
    case ByNode(n) => t.assignedNodeId == n
    case ByNodeAndStatusNot(n, st) => t.assignedNodeId == n && t.status != st
    case ByStatusAndUpdatedOnBefore(st, cutoff) => t.status == st && t.updatedOn < cutoff
  }

  /** The rows a list query returns, in table order. */
  function Select(rows: seq<Task>, q: Query): (r: seq<Task>)
    ensures forall t :: t in r <==> t in rows && Matches(q, t)
    ensures |r| <= |rows|
  {
    if rows == [] then []
    else (if Matches(q, rows[0]) then [rows[0]] else []) + Select(rows[1..], q)
  }

  /** Selection keeps table order: it distributes over concatenation. */
  lemma {:induction false} SelectAppend(a: seq<Task>, b: seq<Task>, q: Query)
    ensures Select(a + b, q) == Select(a, q) + Select(b, q)
  {
    if a == [] {
      assert a + b == b;
    } else {
      assert (a + b)[1..] == a[1..] + b;
      SelectAppend(a[1..], b, q);
    }
  }

  /** A selection from a table with unique ids has unique ids. */
  lemma {:induction false} SelectUnique(rows: seq<Task>, q: Query)
    requires UniqueIds(rows)
    ensures UniqueIds(Select(rows, q))
  {
    if rows != [] {
      SelectUnique(rows[1..], q);
      var rest := Select(rows[1..], q);
      forall t | t in rest
        ensures t.taskId != rows[0].taskId
      {
        var j :| 0 <= j < |rows[1..]| && rows[1..][j] == t;
        assert rows[j + 1] == t;
      }
    }
  }

  /** A query no row matches returns nothing. */
  lemma SelectNone(rows: seq<Task>, q: Query)
    requires forall i :: 0 <= i < |rows| ==> !Matches(q, rows[i])
    ensures Select(rows, q) == []
  {
  }

  function FindAllByAssignedNodeId(rows: seq<Task>, nodeId: string): seq<Task> {
    Select(rows, ByNode(nodeId))
  }

  function FindAllByAssignedNodeIdAndStatusNot(rows: seq<Task>, nodeId: string, status: TaskStatus): seq<Task> {
    Select(rows, ByNodeAndStatusNot(nodeId, status))
  }

  function FindByStatusAndUpdatedOnBefore(rows: seq<Task>, status: TaskStatus, cutoff: int): seq<Task> {
    Select(rows, ByStatusAndUpdatedOnBefore(status, cutoff))
  }

  /** The three list queries return exactly the rows their names describe;
      "before" is strict. */
  lemma ListQueries(rows: seq<Task>, nodeId: string, status: TaskStatus, cutoff: int, t: Task)
    ensures t in FindAllByAssignedNodeId(rows, nodeId) <==> t in rows && t.assignedNodeId == nodeId
    ensures t in FindAllByAssignedNodeIdAndStatusNot(rows, nodeId, status) <==>
            t in rows && t.assignedNodeId == nodeId && t.status != status
    ensures t in FindByStatusAndUpdatedOnBefore(rows, status, cutoff) <==>
            t in rows && t.status == status && t.updatedOn < cutoff
  {
  }

  /** The row save writes for t, given what is stored under t's id. */
  function Stamped(stored: Option<Task>, t: Task, now: int): Task {
    match stored
    case Some(s) => t.(createdOn := s.createdOn, updatedOn := now)
    case None => t.(createdOn := now, updatedOn := now)
  }

  /** The table after save(t) at time now. */
  function Saved(rows: seq<Task>, t: Task, now: int): seq<Task> {
    match IndexOf(rows, t.taskId)
    case Some(i) => rows[i := Stamped(Some(rows[i]), t, now)]
    case None => rows + [Stamped(None, t, now)]
  }

  /** save merges a known id in place, keeping createdOn and the table order,
      and appends an unknown one; every other row is untouched, ids stay
      unique, and the id afterwards finds what was written. */
  lemma SavedSpec(rows: seq<Task>, t: Task, now: int)
    requires UniqueIds(rows)
    ensures var r := Saved(rows, t, now);
      && UniqueIds(r)
      && FindByTaskId(r, t.taskId) == Some(Stamped(FindByTaskId(rows, t.taskId), t, now))
      && (FindByTaskId(rows, t.taskId).Some? ==>
            |r| == |rows| && r[IndexOf(rows, t.taskId).value].createdOn == rows[IndexOf(rows, t.taskId).value].createdOn)
      && (FindByTaskId(rows, t.taskId).None? ==> r == rows + [t.(createdOn := now, updatedOn := now)])
      && (forall id :: id != t.taskId ==> FindByTaskId(r, id) == FindByTaskId(rows, id))
  {
    var r := Saved(rows, t, now);
    match IndexOf(rows, t.taskId)
    case Some(i) =>
      IndexOfUnique(r, i);
      forall id | id != t.taskId
        ensures FindByTaskId(r, id) == FindByTaskId(rows, id)
      {
        IndexOfSameIds(r, rows, id);
      }
    case None =>
      IndexOfUnique(r, |rows|);
      forall id | id != t.taskId
        ensures FindByTaskId(r, id) == FindByTaskId(rows, id)
      {
        if FindByTaskId(rows, id).Some? {
          var i := IndexOf(rows, id).value;
          IndexOfUnique(rows, i);
          IndexOfUnique(r, i);
        }
      }
  }

  /** saveAll: the saves one after the other, in list order. */
  function SavedAll(rows: seq<Task>, ts: seq<Task>, now: int): seq<Task> {
    if ts == [] then rows
    else Saved(SavedAll(rows, ts[..|ts| - 1], now), ts[|ts| - 1], now)
  }

  /** Saving one more task after a list of them. */
  lemma SavedAllSnoc(rows: seq<Task>, ts: seq<Task>, t: Task, now: int)
    ensures SavedAll(rows, ts + [t], now) == Saved(SavedAll(rows, ts, now), t, now)
  {
    assert (ts + [t])[..|ts|] == ts;
  }

  /** The in-memory edits the bulk operations make to a loaded task. */
  datatype Edit = Reassign(nodeId: string) | TimeOut

  function Apply(e: Edit, t: Task, now: int): Task {
    match e
    case Reassign(n) => t.(status := Pending, assignedNodeId := n, updatedOn := now)
    case TimeOut => t.(status := TimedOut, updatedOn := now)
  }

  /** The edit applied to each task of a list. */
  function Edits(ts: seq<Task>, e: Edit, now: int): (r: seq<Task>)
    ensures |r| == |ts|
  {
    seq(|ts|, k requires 0 <= k < |ts| => Apply(e, ts[k], now))
  }

  /** Editing one more task of a list. */
  lemma EditsSnoc(ts: seq<Task>, i: nat, e: Edit, now: int)
    requires i < |ts|
    ensures Edits(ts[..i + 1], e, now) == Edits(ts[..i], e, now) + [Apply(e, ts[i], now)]
  {
  }

  /** The table with the edit applied, in place, to exactly the rows of sel. */
  function Touched(rows: seq<Task>, sel: seq<Task>, e: Edit, now: int): seq<Task> {
    seq(|rows|, i requires 0 <= i < |rows| => if rows[i] in sel then Apply(e, rows[i], now) else rows[i])
  }

  /** Saving a row over the one at its own index, with that row's createdOn
      and the current time, writes it in place. */
  lemma SavedInPlace(rows: seq<Task>, i: nat, t: Task, now: int)
    requires i < |rows| && IndexOf(rows, t.taskId) == Some(i)
    requires t.createdOn == rows[i].createdOn && t.updatedOn == now
    ensures Saved(rows, t, now) == rows[i := t]
  {
  }

  /** Touching keeps every row's id. */
  lemma TouchedIds(rows: seq<Task>, sel: seq<Task>, e: Edit, now: int)
    ensures |Touched(rows, sel, e, now)| == |rows|
    ensures forall i :: 0 <= i < |rows| ==> Touched(rows, sel, e, now)[i].taskId == rows[i].taskId
  {
  }

  /** Touching one more row, at index i, changes only that row. */
  lemma TouchedStep(rows: seq<Task>, prefix: seq<Task>, i: nat, e: Edit, now: int)
    requires UniqueIds(rows) && i < |rows| && rows[i] !in prefix
    ensures Touched(rows, prefix + [rows[i]], e, now) == Touched(rows, prefix, e, now)[i := Apply(e, rows[i], now)]
  {
    forall j | 0 <= j < |rows| && j != i
      ensures rows[j] in prefix + [rows[i]] <==> rows[j] in prefix
    {
      assert rows[j].taskId != rows[i].taskId;
    }
  }

  /** The last element of a list with unique ids is not among the others. */
  lemma LastNotInPrefix(sel: seq<Task>)
    requires UniqueIds(sel) && sel != []
    ensures sel[|sel| - 1] !in sel[..|sel| - 1]
  {
    var n := |sel| - 1;
    forall k | 0 <= k < n
      ensures sel[..n][k] != sel[n]
    {
      assert sel[k].taskId != sel[n].taskId;
    }
  }

  /** The inductive step of SavedAllTouches: one more save of an edited row. */
  lemma SavedAllStep(rows: seq<Task>, sel: seq<Task>, i: nat, e: Edit, now: int)
    requires UniqueIds(rows) && UniqueIds(sel) && sel != []
    requires i < |rows| && rows[i] == sel[|sel| - 1]
    requires SavedAll(rows, Edits(sel[..|sel| - 1], e, now), now) == Touched(rows, sel[..|sel| - 1], e, now)
    ensures SavedAll(rows, Edits(sel, e, now), now) == Touched(rows, sel, e, now)
  {
    var n := |sel| - 1;
    var ts := Edits(sel, e, now);
    var prefix := sel[..n];
    assert ts[..n] == Edits(prefix, e, now);
    var mid := Touched(rows, prefix, e, now);
    LastNotInPrefix(sel);
    assert mid[i] == rows[i];
    TouchedIds(rows, prefix, e, now);
    IndexOfUnique(rows, i);
    IndexOfSameIds(mid, rows, sel[n].taskId);
    SavedInPlace(mid, i, ts[n], now);
    assert sel == prefix + [rows[i]];
    TouchedStep(rows, prefix, i, e, now);
  }

  /** Loading distinct rows, editing them and saving them back edits exactly
      those rows in place. */
  lemma {:induction false} SavedAllTouches(rows: seq<Task>, sel: seq<Task>, e: Edit, now: int)
    requires UniqueIds(rows) && UniqueIds(sel)
    requires forall k :: 0 <= k < |sel| ==> sel[k] in rows
    ensures SavedAll(rows, Edits(sel, e, now), now) == Touched(rows, sel, e, now)
    decreases |sel|
  {
    if sel == [] {
      assert Touched(rows, sel, e, now) == rows;
    } else {
      var n := |sel| - 1;
      SavedAllTouches(rows, sel[..n], e, now);
      var i :| 0 <= i < |rows| && rows[i] == sel[n];
      SavedAllStep(rows, sel, i, e, now);
    }
  }

  /** Editing rows in place keeps ids unique. */
  lemma TouchedUnique(rows: seq<Task>, sel: seq<Task>, e: Edit, now: int)
    requires UniqueIds(rows)
    ensures UniqueIds(Touched(rows, sel, e, now))
  {
  }

  /** The bulk update behind reassignAll and the timeout job: select, edit
      every selected task, save them all. */
  function Bulk(rows: seq<Task>, q: Query, e: Edit, now: int): seq<Task> {
    SavedAll(rows, Edits(Select(rows, q), e, now), now)
  }

  /** The bulk update edits exactly the rows matching the query, in place;
      every other row, and the table order, stay as they were. */
  lemma BulkPointwise(rows: seq<Task>, q: Query, e: Edit, now: int)
    requires UniqueIds(rows)
    ensures var r := Bulk(rows, q, e, now);
      && |r| == |rows| && UniqueIds(r)
      && forall i :: 0 <= i < |rows| ==> r[i] == if Matches(q, rows[i]) then Apply(e, rows[i], now) else rows[i]
  {
    SelectUnique(rows, q);
    SavedAllTouches(rows, Select(rows, q), e, now);
    TouchedUnique(rows, Select(rows, q), e, now);
  }

  /** When the saves stop after the first k selected tasks, exactly those k
      rows are edited and every row saved before the stop keeps its edit. */
  lemma BulkPrefix(rows: seq<Task>, q: Query, e: Edit, now: int, k: nat)
    requires UniqueIds(rows) && k <= |Select(rows, q)|
    ensures var sel := Select(rows, q)[..k];
      var r := SavedAll(rows, Edits(sel, e, now), now);
      && |r| == |rows| && UniqueIds(r)
      && forall i :: 0 <= i < |rows| ==> r[i] == if rows[i] in sel then Apply(e, rows[i], now) else rows[i]
  {
    var all := Select(rows, q);
    SelectUnique(rows, q);
    var sel := all[..k];
    forall k' | 0 <= k' < |sel|
      ensures sel[k'] in rows
    {
      assert sel[k'] == all[k'];
    }
    SavedAllTouches(rows, sel, e, now);
    TouchedUnique(rows, sel, e, now);
  }

  /** The mutable repository. */
  class TaskRepository {
    var rows: seq<Task>

    ghost predicate Valid()
      reads this
    {
      UniqueIds(rows)
    }

    constructor ()
      ensures rows == [] && Valid()
    {
      rows := [];
    }

    /** save(task): returns the row as written; ids stay unique. */
    method Save(t: Task, now: int) returns (saved: Task)
      requires Valid()
      modifies this
      ensures Valid()
      ensures rows == Saved(old(rows), t, now)
      ensures saved == Stamped(FindByTaskId(old(rows), t.taskId), t, now)
    {
      SavedSpec(rows, t, now);
      var idx := IndexOf(rows, t.taskId);
      if idx.Some? {
        saved := t.(createdOn := rows[idx.value].createdOn, updatedOn := now);
        rows := rows[idx.value := saved];
      } else {
        saved := t.(createdOn := now, updatedOn := now);
        rows := rows + [saved];
      }
    }

    /** save of a new entity, which is a persist: @PrePersist assigns the
        id and the row is inserted, stamped now. The insert is refused when
        the primary key is already stored, and the table is left as it was. */
    method Persist(e: TaskEntity, uuid: string, now: int) returns (r: Result<Task>)
      requires IsUuid(uuid) && Valid()
      modifies this, e`taskId
      ensures Valid()
      ensures e.taskId == Some(AssignId(old(e.taskId), uuid))
      ensures FindByTaskId(old(rows), e.taskId.value).Some? ==> rows == old(rows) && r == Err(DuplicateKey)
      ensures FindByTaskId(old(rows), e.taskId.value).None? ==>
                rows == old(rows) + [Stamped(None, e.Row(), now)] && r == Ok(Stamped(None, e.Row(), now))
    {
      e.PrePersist(uuid);
      var t := e.Row();
      if FindByTaskId(rows, t.taskId).Some? {
        return Err(DuplicateKey);
      }
      SavedSpec(rows, t, now);
      var saved := Save(t, now);
      r := Ok(saved);
    }

    /** saveAll(ts): ids stay unique. */
    method SaveAll(ts: seq<Task>, now: int)
      requires Valid()
      modifies this
      ensures Valid()
      ensures rows == SavedAll(old(rows), ts, now)
    {
      var i := 0;
      while i < |ts|
        invariant 0 <= i <= |ts|
        invariant Valid()
        invariant rows == SavedAll(old(rows), ts[..i], now)
      {
        assert ts[..i + 1][..i] == ts[..i];
        var _ := Save(ts[i], now);
        i := i + 1;
      }
      assert ts[..i] == ts;
    }
  }
}
