/** The graph editor's store (src/stores/workflowStore.ts): a node list, an
    edge list and at most one selected node id. */
module WorkflowStore {
  import opened Options
  import opened Seqs
  import opened WorkflowTypes

  datatype State = State(nodes: seq<Node>, edges: seq<Edge>, selectedNodeId: Option<string>)

  const Initial := State([], [], None)

  predicate HasNode(s: State, id: string) {
    exists i :: 0 <= i < |s.nodes| && s.nodes[i].id == id
  }

  predicate Touches(e: Edge, id: string) {
    e.source == id || e.target == id
  }

  /** Referential integrity: every edge connects two nodes of the graph. */
  predicate EdgesReferToNodes(s: State) {
    forall i :: 0 <= i < |s.edges| ==> HasNode(s, s.edges[i].source) && HasNode(s, s.edges[i].target)
  }

  /** The filter `removeNode` applies to nodes. */
  function KeepNode(nodeId: string): Node -> bool {
    (n: Node) => n.id != nodeId
  }

  /** The filter `removeNode` applies to edges. */
  function KeepEdgeAwayFrom(nodeId: string): Edge -> bool {
    (e: Edge) => !Touches(e, nodeId)
  }

  /** The filter `removeEdge` applies. */
  function KeepEdge(edgeId: string): Edge -> bool {
    (e: Edge) => e.id != edgeId
  }

  /** `addNode`: the node goes at the end; edges and selection are untouched. */
  function AddNode(s: State, node: Node): (r: State)
    ensures |r.nodes| == |s.nodes| + 1 && r.nodes[|s.nodes|] == node
    ensures r.nodes[..|s.nodes|] == s.nodes
    ensures r.edges == s.edges && r.selectedNodeId == s.selectedNodeId
  {
    s.(nodes := s.nodes + [node])
  }

  /** `updateNode`: merges `patch` into the data of every node whose id is
      `nodeId`; ids, renderer names and positions never change, nor do other
      nodes, edges or the selection. */
  function UpdateNode(s: State, nodeId: string, patch: DataPatch): (r: State)
    ensures |r.nodes| == |s.nodes|
    ensures forall i :: 0 <= i < |s.nodes| ==>
              && r.nodes[i].id == s.nodes[i].id
              && r.nodes[i].kind == s.nodes[i].kind
              && r.nodes[i].position == s.nodes[i].position
    ensures forall i :: 0 <= i < |s.nodes| && s.nodes[i].id != nodeId ==> r.nodes[i] == s.nodes[i]
    ensures forall i :: 0 <= i < |s.nodes| && s.nodes[i].id == nodeId ==>
              r.nodes[i].data == MergeData(s.nodes[i].data, patch)
    ensures r.edges == s.edges && r.selectedNodeId == s.selectedNodeId
  {
    s.(nodes := seq(|s.nodes|, i requires 0 <= i < |s.nodes| =>
                      var n := s.nodes[i];
                      if n.id == nodeId then n.(data := MergeData(n.data, patch)) else n))
  }

  /** `removeNode`: drops the node and, in cascade, every edge that starts or
      ends at it. Survivors keep their relative order; the selection is not
      touched and may therefore name a node that no longer exists. */
  function RemoveNode(s: State, nodeId: string): (r: State)
    ensures forall i :: 0 <= i < |r.nodes| ==> r.nodes[i].id != nodeId
    ensures forall i :: 0 <= i < |r.edges| ==> !Touches(r.edges[i], nodeId)
    ensures forall i :: 0 <= i < |s.nodes| && s.nodes[i].id != nodeId ==> s.nodes[i] in r.nodes
    ensures forall i :: 0 <= i < |s.edges| && !Touches(s.edges[i], nodeId) ==> s.edges[i] in r.edges
    ensures Subsequence(r.nodes, s.nodes) && Subsequence(r.edges, s.edges)
    ensures forall n :: multiset(r.nodes)[n] == if n.id != nodeId then multiset(s.nodes)[n] else 0
    ensures forall e :: multiset(r.edges)[e] == if !Touches(e, nodeId) then multiset(s.edges)[e] else 0
    ensures r.selectedNodeId == s.selectedNodeId
  {
    FilterCounts(s.nodes, KeepNode(nodeId));
    FilterCounts(s.edges, KeepEdgeAwayFrom(nodeId));
    State(Filter(s.nodes, KeepNode(nodeId)), Filter(s.edges, KeepEdgeAwayFrom(nodeId)), s.selectedNodeId)
  }

  /** `setSelectedNode`: replaces the single optional selection, nothing else. */
  function SetSelectedNode(s: State, nodeId: Option<string>): (r: State)
    ensures r.selectedNodeId == nodeId
    ensures r.nodes == s.nodes && r.edges == s.edges
  {
    s.(selectedNodeId := nodeId)
  }

  /** `addEdge`: appends without checking the endpoints or duplicates. */
  function AddEdge(s: State, edge: Edge): (r: State)
    ensures |r.edges| == |s.edges| + 1 && r.edges[|s.edges|] == edge
    ensures r.edges[..|s.edges|] == s.edges
    ensures r.nodes == s.nodes && r.selectedNodeId == s.selectedNodeId
  {
    s.(edges := s.edges + [edge])
  }

  /** `removeEdge`: drops every edge with that id and keeps the rest in order. */
  function RemoveEdge(s: State, edgeId: string): (r: State)
    ensures forall i :: 0 <= i < |r.edges| ==> r.edges[i].id != edgeId
    ensures forall i :: 0 <= i < |s.edges| && s.edges[i].id != edgeId ==> s.edges[i] in r.edges
    ensures Subsequence(r.edges, s.edges)
    ensures forall e :: multiset(r.edges)[e] == if e.id != edgeId then multiset(s.edges)[e] else 0
    ensures r.nodes == s.nodes && r.selectedNodeId == s.selectedNodeId
  {
    FilterCounts(s.edges, KeepEdge(edgeId));
    s.(edges := Filter(s.edges, KeepEdge(edgeId)))
  }

  /** An update naming no node leaves the whole state as it was. */
  lemma UpdateNodeUnknownId(s: State, nodeId: string, patch: DataPatch)
    requires !HasNode(s, nodeId)
    ensures UpdateNode(s, nodeId, patch) == s
  {
    assert UpdateNode(s, nodeId, patch).nodes == s.nodes;
  }

  /** Applying the same partial twice is the same as applying it once. */
  lemma UpdateNodeIdempotent(s: State, nodeId: string, patch: DataPatch)
    ensures UpdateNode(UpdateNode(s, nodeId, patch), nodeId, patch) == UpdateNode(s, nodeId, patch)
  {
    var once := UpdateNode(s, nodeId, patch);
    var twice := UpdateNode(once, nodeId, patch);
    assert twice.nodes == once.nodes;
  }

  /** Adding a node with a fresh id and removing it again restores the graph,
      provided no edge already pointed at that id. */
  lemma {:induction false} RemoveNodeUndoesAddNode(s: State, node: Node)
    requires !HasNode(s, node.id)
    requires forall i :: 0 <= i < |s.edges| ==> !Touches(s.edges[i], node.id)
    ensures RemoveNode(AddNode(s, node), node.id) == s
  {
    FilterConcat(s.nodes, [node], KeepNode(node.id));
    FilterKeepsAll(s.nodes, KeepNode(node.id));
    FilterKeepsAll(s.edges, KeepEdgeAwayFrom(node.id));
  }

  /** Adding an edge with a fresh id and removing it by id restores the graph. */
  lemma {:induction false} RemoveEdgeUndoesAddEdge(s: State, edge: Edge)
    requires forall i :: 0 <= i < |s.edges| ==> s.edges[i].id != edge.id
    ensures RemoveEdge(AddEdge(s, edge), edge.id) == s
  {
    FilterConcat(s.edges, [edge], KeepEdge(edge.id));
    FilterKeepsAll(s.edges, KeepEdge(edge.id));
  }

  /** The cascade keeps referential integrity: an edge survives only if it
      avoids the removed node, so both its endpoints survive too. */
  lemma RemoveNodePreservesIntegrity(s: State, nodeId: string)
    requires EdgesReferToNodes(s)
    ensures EdgesReferToNodes(RemoveNode(s, nodeId))
  {
    var r := RemoveNode(s, nodeId);
    forall i | 0 <= i < |r.edges|
      ensures HasNode(r, r.edges[i].source) && HasNode(r, r.edges[i].target)
    {
      var e := r.edges[i];
      var j :| 0 <= j < |s.edges| && s.edges[j] == e;
      var a :| 0 <= a < |s.nodes| && s.nodes[a].id == e.source;
      var b :| 0 <= b < |s.nodes| && s.nodes[b].id == e.target;
      assert s.nodes[a] in r.nodes && s.nodes[b] in r.nodes;
    }
  }

  /** Adding a node and updating node data keep referential integrity. */
  lemma AddAndUpdatePreserveIntegrity(s: State, node: Node, nodeId: string, patch: DataPatch)
    requires EdgesReferToNodes(s)
    ensures EdgesReferToNodes(AddNode(s, node))
    ensures EdgesReferToNodes(UpdateNode(s, nodeId, patch))
  {
    var a := AddNode(s, node);
    forall i | 0 <= i < |a.edges| ensures HasNode(a, a.edges[i].source) && HasNode(a, a.edges[i].target) {
      var e := a.edges[i];
      var x :| 0 <= x < |s.nodes| && s.nodes[x].id == e.source;
      var y :| 0 <= y < |s.nodes| && s.nodes[y].id == e.target;
      assert a.nodes[x] == s.nodes[x] && a.nodes[y] == s.nodes[y];
    }
    var u := UpdateNode(s, nodeId, patch);
    forall i | 0 <= i < |u.edges| ensures HasNode(u, u.edges[i].source) && HasNode(u, u.edges[i].target) {
      var e := u.edges[i];
      var x :| 0 <= x < |s.nodes| && s.nodes[x].id == e.source;
      var y :| 0 <= y < |s.nodes| && s.nodes[y].id == e.target;
      assert u.nodes[x].id == e.source && u.nodes[y].id == e.target;
    }
  }

  /** `addEdge` does not check its endpoints: an edge from an absent node
      breaks referential integrity. */
  lemma AddEdgeIsUnchecked(s: State, edge: Edge)
    requires !HasNode(s, edge.source)
    ensures !EdgesReferToNodes(AddEdge(s, edge))
  {
    var r := AddEdge(s, edge);
    assert r.edges[|s.edges|] == edge;
  }

  /** Removing the selected node leaves the selection naming a missing node. */
  lemma RemoveNodeLeavesSelectionDangling(s: State, nodeId: string)
    requires s.selectedNodeId == Some(nodeId)
    ensures var r := RemoveNode(s, nodeId); r.selectedNodeId == Some(nodeId) && !HasNode(r, nodeId)
  {
  }

  /** The cascade on a chain A -> B -> C: removing B leaves nodes A and C and no edge. */
  lemma RemoveMiddleOfChain(a: Node, b: Node, c: Node)
    requires a.id == "A" && b.id == "B" && c.id == "C"
    ensures var s := State([a, b, c], [Edge("AB", "A", "B"), Edge("BC", "B", "C")], None);
            var r := RemoveNode(s, "B");
            r.nodes == [a, c] && r.edges == []
  {
    var keep := KeepNode("B");
    assert [a, b, c][1..] == [b, c] && [b, c][1..] == [c] && [c][1..] == [];
    assert Filter([c], keep) == [c];
    assert Filter([b, c], keep) == [c];
    assert Filter([a, b, c], keep) == [a] + [c];
    var away := KeepEdgeAwayFrom("B");
    var es := [Edge("AB", "A", "B"), Edge("BC", "B", "C")];
    assert es[1..] == [Edge("BC", "B", "C")] && es[1..][1..] == [];
    assert Filter(es[1..], away) == [];
  }
}
