/** The node configuration panel (src/components/workflow/nodes/NodeConfig.tsx):
    what each node type lets the user edit, and how edits become partial
    node data for the store. */
module NodeConfig {
  import opened Options
  import opened CampaignTypes
  import opened WorkflowTypes
  import opened MessageVariants
  import WorkflowStore

  /** The editing wrappers the panel synthesises from a node's plain variant
      contents: one per content, in order, with fresh ids and the equal share
      `floor(100 / count)`; none when the node has no variants list. */
  function InitialVariants(data: NodeData, freshId: nat -> string): (r: seq<Variant>)
    ensures data.variants.None? ==> r == []
    ensures data.variants.Some? ==>
              && |r| == |data.variants.value|
              && forall i :: 0 <= i < |r| ==>
                   r[i] == Variant(freshId(i), data.variants.value[i], 100 / |data.variants.value|)
    ensures 0 <= TotalWeight(r) <= 100
  {
    match data.variants
    case None => []
    case Some(contents) =>
      var n := if |contents| == 0 then 1 else |contents|;
      var r := seq(|contents|, i requires 0 <= i < |contents| => Variant(freshId(i), contents[i], 100 / n));
      TotalOfEqualWeights(r, 100 / n);
      EqualSharesFit(|r|, n);
      r
  }

  /** `k` shares of `100 / n`, for `k` at most `n`, add up to at most 100. */
  lemma EqualSharesFit(k: nat, n: nat)
    requires 1 <= n && k <= n
    ensures 0 <= k * (100 / n) <= 100
  {
    assert 100 == n * (100 / n) + 100 % n;
    assert k * (100 / n) <= n * (100 / n);
  }

  /** The contents of a list of variants, in order. */
  function Contents(vs: seq<Variant>): (r: seq<string>)
    ensures |r| == |vs| && forall i :: 0 <= i < |vs| ==> r[i] == vs[i].content
  {
    seq(|vs|, i requires 0 <= i < |vs| => vs[i].content)
  }

  /** `handleVariantsUpdate`: the panel keeps the edited wrappers locally and
      sends the store a partial holding only the contents; ids and weights
      are dropped. */
  function HandleVariantsUpdate(newVariants: seq<Variant>): (r: (seq<Variant>, DataPatch))
    ensures r.0 == newVariants
    ensures r.1 == EmptyPatch.(variants := Some(Contents(newVariants)))
  {
    (newVariants, EmptyPatch.(variants := Some(Contents(newVariants))))
  }

  /** Flattening the synthesised wrappers gives the stored contents back. */
  lemma FlattenAfterSynthesis(data: NodeData, freshId: nat -> string)
    requires data.variants.Some?
    ensures HandleVariantsUpdate(InitialVariants(data, freshId)).1.variants == data.variants
  {
    var vs := InitialVariants(data, freshId);
    assert Contents(vs) == data.variants.value;
  }

  /** One user edit in the panel. */
  datatype Edit =
    | EditContent(content: string)
    | EditVariants(variants: seq<Variant>)
    | EditDelay(delay: int)
    | EditCondition(condition: string)

  /** Which edits each node type's panel offers: message content and variants
      for send-dm, the delay for wait-time, the condition for if-then, and
      nothing for end-campaign or an unknown type. */
  predicate Offers(t: NodeType, e: Edit) {
    match t
    case SendDm => e.EditContent? || e.EditVariants?
    case WaitTime => e.EditDelay?
    case IfThen => e.EditCondition?
    case EndCampaign => false
    case Unknown(_) => false
  }

  /** The partial an edit produces, dispatched on the node's type; `None` when
      the type's panel has no such control. The condition is written as the
      select's raw string. */
  function OnEdit(data: NodeData, e: Edit): (r: Option<DataPatch>)
    ensures r.Some? <==> Offers(data.nodeType, e)
    ensures r.Some? && e.EditContent? ==> r.value == EmptyPatch.(content := Some(e.content))
    ensures r.Some? && e.EditVariants? ==> r.value == EmptyPatch.(variants := Some(Contents(e.variants)))
    ensures r.Some? && e.EditDelay? ==> r.value == EmptyPatch.(delay := Some(e.delay))
    ensures r.Some? && e.EditCondition? ==> r.value == EmptyPatch.(condition := Some(e.condition))
  {
    match data.nodeType
    case SendDm =>
      (match e
       case EditContent(c) => Some(EmptyPatch.(content := Some(c)))
       case EditVariants(vs) => Some(HandleVariantsUpdate(vs).1)
       case _ => None)
    case WaitTime =>
      if e.EditDelay? then Some(EmptyPatch.(delay := Some(e.delay))) else None
    case IfThen =>
      if e.EditCondition? then Some(EmptyPatch.(condition := Some(e.condition))) else None
    case EndCampaign => None
    case Unknown(_) => None
  }

  /** The field of node data an edit targets, replaced by the edited value. */
  function Edited(d: NodeData, e: Edit): NodeData {
    match e
    case EditContent(c) => d.(content := Some(c))
    case EditVariants(vs) => d.(variants := Some(Contents(vs)))
    case EditDelay(n) => d.(delay := Some(n))
    case EditCondition(c) => d.(condition := Some(c))
  }

  /** An offered edit, sent through the store, changes exactly its own field of
      the edited node's data and nothing else; sending it again changes
      nothing more. */
  lemma EditChangesOnlyItsField(s: WorkflowStore.State, nodeId: string, data: NodeData, e: Edit)
    requires Offers(data.nodeType, e)
    ensures var r := WorkflowStore.UpdateNode(s, nodeId, OnEdit(data, e).value);
            && (forall i :: 0 <= i < |s.nodes| && s.nodes[i].id == nodeId ==>
                  r.nodes[i].data == Edited(s.nodes[i].data, e))
            && WorkflowStore.UpdateNode(r, nodeId, OnEdit(data, e).value) == r
  {
    WorkflowStore.UpdateNodeIdempotent(s, nodeId, OnEdit(data, e).value);
  }
}
