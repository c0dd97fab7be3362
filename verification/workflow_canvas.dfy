/** The graph canvas's handlers (src/components/workflow/WorkflowCanvas.tsx):
    dropping a palette item creates a node, clicking one selects it, and
    connecting two nodes draws an edge on the canvas only. */
module WorkflowCanvas {
  import opened Options
  import opened Text
  import opened WorkflowTypes
  import WorkflowStore

  /** Reference reading of the label rule, one character at a time: every
      `-` becomes a space, and the first character of each dash-separated
      piece is upper-cased when `atStart` says the piece has just begun. */
  function TitleFrom(t: string, atStart: bool): (r: string)
    ensures |r| == |t|
    ensures forall i :: 0 <= i < |t| && t[i] == '-' ==> r[i] == ' '
    ensures forall i :: 0 <= i < |t| && t[i] != '-' ==>
              r[i] == (if (if i == 0 then atStart else t[i - 1] == '-') then UpperChar(t[i]) else t[i])
  {
    if |t| == 0 then ""
    else
      var tail := TitleFrom(t[1..], t[0] == '-');
      var r := (if t[0] == '-' then [' '] else if atStart then [UpperChar(t[0])] else [t[0]]) + tail;
      assert forall i :: 1 <= i < |t| ==> r[i] == tail[i - 1] && t[i] == t[1..][i - 1];
      r
  }

  /** Capitalises every piece. */
  function CapitalizeAll(parts: seq<string>): (r: seq<string>)
    ensures |r| == |parts|
  {
    seq(|parts|, i requires 0 <= i < |parts| => Capitalize(parts[i]))
  }

  /** The label a dropped node gets: its type split at `-`, each piece
      capitalised, the pieces joined with spaces. */
  function Label(t: string): (r: string)
    ensures r == TitleFrom(t, true)
  {
    LabelIsTitled(t, true);
    Join(CapitalizeAll(Split(t, '-')), " ")
  }

  /** Gluing a prefix to the first piece glues it to the joined string. */
  lemma JoinConsHead(x: string, y: string, zs: seq<string>, sep: string)
    ensures Join([x + y] + zs, sep) == x + Join([y] + zs, sep)
  {
    if |zs| > 0 {
      assert ([x + y] + zs)[1..] == zs == ([y] + zs)[1..];
    }
  }

  /** The pieces as the label rule shows them, with the first piece
      capitalised only when `atStart`. */
  function ShownPieces(parts: seq<string>, atStart: bool): seq<string>
    requires |parts| >= 1
  {
    [if atStart then Capitalize(parts[0]) else parts[0]] + CapitalizeAll(parts[1..])
  }

  /** The split-capitalise-join label agrees with the reference reading. */
  lemma {:induction false} LabelIsTitled(t: string, atStart: bool)
    ensures Join(ShownPieces(Split(t, '-'), atStart), " ") == TitleFrom(t, atStart)
    ensures atStart ==> ShownPieces(Split(t, '-'), atStart) == CapitalizeAll(Split(t, '-'))
  {
    var parts := Split(t, '-');
    if atStart {
      assert ShownPieces(parts, true) == CapitalizeAll(parts);
    }
    if |t| > 0 {
      var rest := Split(t[1..], '-');
      LabelIsTitled(t[1..], t[0] == '-');
      if t[0] == '-' {
        assert parts == [""] + rest;
        assert ShownPieces(parts, atStart) == [""] + ShownPieces(rest, true);
        assert ShownPieces(rest, true) == CapitalizeAll(rest);
        assert ShownPieces(parts, atStart)[1..] == CapitalizeAll(rest);
      } else {
        var head := if atStart then [UpperChar(t[0])] else [t[0]];
        assert parts == [[t[0]] + rest[0]] + rest[1..];
        assert ShownPieces(parts, atStart) == [head + rest[0]] + CapitalizeAll(rest[1..]);
        assert ShownPieces(rest, false) == [rest[0]] + CapitalizeAll(rest[1..]);
        JoinConsHead(head, rest[0], CapitalizeAll(rest[1..]), " ");
      }
    }
  }

  /** The palette's first item is labelled "Send Dm". */
  lemma SendDmLabel()
    ensures Label("send-dm") == "Send Dm"
  {
    var r := Label("send-dm");
    assert r[0] == 'S' && r[4] == ' ' && r[5] == 'D';
  }

  /** `Date.now()` written in decimal. */
  function Decimal(n: nat): (r: string)
    ensures |r| >= 1
    ensures forall i :: 0 <= i < |r| ==> '0' <= r[i] <= '9'
    ensures |r| == 1 <==> n < 10
  {
    if n < 10 then [('0' as int + n) as char]
    else Decimal(n / 10) + [('0' as int + n % 10) as char]
  }

  /** Distinct clock readings are written differently. */
  lemma {:induction false} DecimalInjective(n: nat, m: nat)
    requires Decimal(n) == Decimal(m)
    ensures n == m
  {
    if n >= 10 && m >= 10 {
      var a, b := Decimal(n), Decimal(m);
      assert a[|a| - 1] == b[|b| - 1];
      assert a[..|a| - 1] == Decimal(n / 10) && b[..|b| - 1] == Decimal(m / 10);
      DecimalInjective(n / 10, m / 10);
    }
  }

  /** The canvas's own copy of the graph, which the graph library renders. */
  datatype Canvas = Canvas(nodes: seq<Node>, edges: seq<Edge>)

  /** A drop event: the dragged palette item's type string and the pointer. */
  datatype Drop = Drop(itemType: string, clientX: int, clientY: int)

  /** The node a drop creates at clock reading `now`. */
  function DroppedNode(d: Drop, now: nat): Node {
    Node(NodeId(d.itemType, now), "workflowNode",
         Position(d.clientX - 200, d.clientY - 100),
         DroppedData(d.itemType))
  }

  /** The data of a dropped node: the type read from its spelling and the
      label; every other field is unset. */
  function DroppedData(itemType: string): NodeData {
    NodeData(ParseNodeType(itemType), Label(itemType), None, None, None, None, None)
  }

  /** The id of a dropped node: its type, a dash and the clock reading. */
  function NodeId(itemType: string, now: nat): string {
    itemType + "-" + Decimal(now)
  }

  /** `onDrop`: a drop without a type changes nothing; otherwise one node is
      appended both to the canvas and to the store, and nothing else moves. */
  function OnDrop(c: Canvas, s: WorkflowStore.State, d: Drop, now: nat): (r: (Canvas, WorkflowStore.State))
    ensures d.itemType == "" ==> r == (c, s)
    ensures d.itemType != "" ==> |r.0.nodes| == |c.nodes| + 1
    ensures d.itemType != "" ==>
              var node := r.0.nodes[|c.nodes|];
              && r.0.nodes == c.nodes + [node] && r.0.edges == c.edges
              && r.1 == WorkflowStore.AddNode(s, node)
              && node.kind == "workflowNode"
              && node.id == d.itemType + "-" + Decimal(now)
              && node.position == Position(d.clientX - 200, d.clientY - 100)
              && node.data.nodeType == ParseNodeType(d.itemType)
              && node.data.labelText == Label(d.itemType)
              && node.data == NodeData(node.data.nodeType, node.data.labelText, None, None, None, None, None)
  {
    if d.itemType == "" then (c, s)
    else
      var node := DroppedNode(d, now);
      DroppedNodeFields(d, now);
      (c.(nodes := c.nodes + [node]), WorkflowStore.AddNode(s, node))
  }

  lemma DroppedNodeFields(d: Drop, now: nat)
    ensures var node := DroppedNode(d, now);
            && node.kind == "workflowNode"
            && node.id == d.itemType + "-" + Decimal(now)
            && node.position == Position(d.clientX - 200, d.clientY - 100)
            && node.data == NodeData(ParseNodeType(d.itemType), Label(d.itemType), None, None, None, None, None)
  {
  }

  /** The number of decimal digits `x` ends with. */
  function TrailingDigits(x: string): (k: nat)
    ensures k <= |x|
  {
    if |x| == 0 || !('0' <= x[|x| - 1] <= '9') then 0
    else 1 + TrailingDigits(x[..|x| - 1])
  }

  /** In `t + "-" + s`, with `s` all digits, the digits at the end are `s`. */
  lemma {:induction false} TrailingDigitsAfterDash(t: string, s: string)
    requires forall i :: 0 <= i < |s| ==> '0' <= s[i] <= '9'
    ensures TrailingDigits(t + "-" + s) == |s|
    decreases |s|
  {
    var x := t + "-" + s;
    if |s| > 0 {
      assert x[..|x| - 1] == t + "-" + s[..|s| - 1];
      TrailingDigitsAfterDash(t, s[..|s| - 1]);
    }
  }

  /** Two drops at different clock readings never share a node id, whatever
      their types: the id ends with the reading's digits after a dash. */
  lemma DropsAtDifferentTimesDiffer(d1: Drop, d2: Drop, now1: nat, now2: nat)
    ensures DroppedNode(d1, now1).id == DroppedNode(d2, now2).id ==> now1 == now2
  {
    if NodeId(d1.itemType, now1) == NodeId(d2.itemType, now2) {
      ReadingFromNodeId(d1.itemType, now1);
      ReadingFromNodeId(d2.itemType, now2);
      DecimalInjective(now1, now2);
    }
  }

  /** The clock reading's digits are the id's trailing digits. */
  lemma ReadingFromNodeId(t: string, now: nat)
    ensures var x := NodeId(t, now);
            TrailingDigits(x) == |Decimal(now)| && x[|x| - TrailingDigits(x)..] == Decimal(now)
  {
    var s := Decimal(now);
    TrailingDigitsAfterDash(t, s);
    var x := t + "-" + s;
    assert x[|x| - |s|..] == s;
  }

  /** A drop keeps the canvas's node list equal to the store's when it was. */
  lemma DropKeepsCanvasAndStoreInStep(c: Canvas, s: WorkflowStore.State, d: Drop, now: nat)
    requires c.nodes == s.nodes
    ensures OnDrop(c, s, d, now).0.nodes == OnDrop(c, s, d, now).1.nodes
  {
  }

  /** `onNodeClick`: the clicked node becomes the selection. */
  function OnNodeClick(s: WorkflowStore.State, nodeId: string): (r: WorkflowStore.State)
    ensures r.selectedNodeId == Some(nodeId)
    ensures r.nodes == s.nodes && r.edges == s.edges
  {
    WorkflowStore.SetSelectedNode(s, Some(nodeId))
  }

  /** A new connection between two handles. */
  datatype Connection = Connection(source: string, target: string)

  /** `onConnect`: the graph library's `addEdge` (given here as `addEdge`)
      updates the canvas's edge list; the store is not told, so its edges
      stay as they were. */
  function OnConnect(c: Canvas, s: WorkflowStore.State, conn: Connection,
                     addEdge: (Connection, seq<Edge>) -> seq<Edge>): (r: (Canvas, WorkflowStore.State))
    ensures r.0.nodes == c.nodes && r.0.edges == addEdge(conn, c.edges)
    ensures r.1 == s
  {
    (c.(edges := addEdge(conn, c.edges)), s)
  }
}
