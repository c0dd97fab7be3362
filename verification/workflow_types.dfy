/** The records of the node-graph editor (src/components/workflow/nodes/types.ts)
    and the node and edge shapes the graph library stores them in. */
module WorkflowTypes {
  import opened Options

  /** The four node types. The canvas casts whatever string a drop carries to
      a node type without checking it, so any other string is kept as `Unknown`. */
  datatype NodeType = SendDm | WaitTime | IfThen | EndCampaign | Unknown(raw: string)

  /** The string spelling of a node type. */
  function NodeTypeName(t: NodeType): string {
    match t
    case SendDm => "send-dm"
    case WaitTime => "wait-time"
    case IfThen => "if-then"
    case EndCampaign => "end-campaign"
    case Unknown(raw) => raw
  }

  /** Reads a node type from its string spelling. */
  function ParseNodeType(s: string): (t: NodeType)
    ensures NodeTypeName(t) == s
    ensures t.Unknown? <==> s !in {"send-dm", "wait-time", "if-then", "end-campaign"}
  {
    if s == "send-dm" then SendDm
    else if s == "wait-time" then WaitTime
    else if s == "if-then" then IfThen
    else if s == "end-campaign" then EndCampaign
    else Unknown(s)
  }

  /** Every named node type survives a round trip through its spelling. */
  lemma ParseNodeTypeName(t: NodeType)
    requires !t.Unknown?
    ensures ParseNodeType(NodeTypeName(t)) == t
  {
  }

  /** The thirteen platforms in the graph editor's lower-case spelling; a
      separate enumeration from the campaign editor's capitalised one. */
  datatype NodePlatform =
    | instagram | facebook | linkedin | twitter | whatsapp | telegram | discord
    | reddit | pinterest | nextdoor | skool | slack | tiktok

  /** The payload of a node. `variants` holds plain contents and `condition`
      the raw string of the condition select, which is what the node editor
      writes into them. */
  datatype NodeData = NodeData(
    nodeType: NodeType,
    labelText: string,
    platform: Option<NodePlatform>,
    content: Option<string>,
    delay: Option<int>,
    variants: Option<seq<string>>,
    condition: Option<string>)

  /** A `Partial<NodeData>`: every field may be absent. */
  datatype DataPatch = DataPatch(
    nodeType: Option<NodeType>,
    labelText: Option<string>,
    platform: Option<NodePlatform>,
    content: Option<string>,
    delay: Option<int>,
    variants: Option<seq<string>>,
    condition: Option<string>)

  const EmptyPatch := DataPatch(None, None, None, None, None, None, None)

  /** `{ ...data, ...patch }`: the fields the patch supplies replace those of
      `data`; the others are kept. */
  function MergeData(data: NodeData, patch: DataPatch): NodeData {
    NodeData(
      Override(data.nodeType, patch.nodeType),
      Override(data.labelText, patch.labelText),
      if patch.platform.Some? then patch.platform else data.platform,
      if patch.content.Some? then patch.content else data.content,
      if patch.delay.Some? then patch.delay else data.delay,
      if patch.variants.Some? then patch.variants else data.variants,
      if patch.condition.Some? then patch.condition else data.condition)
  }

  datatype Position = Position(x: int, y: int)

  /** A graph node: `kind` is the renderer name, `data.nodeType` the step type. */
  datatype Node = Node(id: string, kind: string, position: Position, data: NodeData)

  /** A directed connection between two node ids. */
  datatype Edge = Edge(id: string, source: string, target: string)
}
