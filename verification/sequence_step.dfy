/** The basic sequence editor (src/components/campaigns/steps/SequenceStep.tsx):
    the action menu, step creation, merge-update, the renormalising "add
    variant" button, the per-platform variant number and the continue guard. */
module SequenceStep {
  import opened Options
  import opened Seqs
  import opened CampaignTypes
  import opened MessageVariants

  /** One entry of the "Add Action" menu. */
  datatype ActionChoice = ActionChoice(kind: ActionType, caption: string, platform: Option<Platform>)

  /** `getActionTypes`: a wait action first, then one message action per
      selected platform, in selection order. */
  function ActionTypes(platforms: seq<Platform>): (r: seq<ActionChoice>)
    ensures |r| == |platforms| + 1
    ensures r[0] == ActionChoice(WaitAction, "Wait Time", None)
    ensures forall i :: 0 <= i < |platforms| ==>
              r[i + 1] == ActionChoice(MessageAction, PlatformName(platforms[i]) + " DM", Some(platforms[i]))
  {
    [ActionChoice(WaitAction, "Wait Time", None)]
      + seq(|platforms|, i requires 0 <= i < |platforms| =>
              ActionChoice(MessageAction, PlatformName(platforms[i]) + " DM", Some(platforms[i])))
  }

  /** The editor's local state. */
  datatype Editor = Editor(messages: seq<Message>, activeMessageId: Option<string>, showActionMenu: bool)

  /** `addMessage`: appends one new step, makes it active and closes the menu.
      A wait step waits 24 hours and has no variants; a message step waits 0
      hours and starts with a single empty variant of weight 100. */
  function AddMessage(e: Editor, kind: ActionType, platform: Option<Platform>, id: string, variantId: string)
    : (r: Editor)
    ensures |r.messages| == |e.messages| + 1 && r.messages[..|e.messages|] == e.messages
    ensures r.activeMessageId == Some(id) && !r.showActionMenu
    ensures var m := r.messages[|e.messages|];
            && m.id == id && m.kind == kind && m.content == "" && m.platform == platform
            && (kind == WaitAction ==> m.delay == 24 && m.variants == None)
            && (kind == MessageAction ==> m.delay == 0 && m.variants == Some([Variant(variantId, "", 100)]))
  {
    var m := Message(id, kind, "", if kind == WaitAction then 24 else 0, platform,
                     if kind == MessageAction then Some([Variant(variantId, "", 100)]) else None);
    Editor(e.messages + [m], Some(id), false)
  }

  /** A `Partial<Message>`. The optional fields take an optional value, since
      the partial may set them to a value or to undefined. */
  datatype MessagePatch = MessagePatch(
    id: Option<string>,
    kind: Option<ActionType>,
    content: Option<string>,
    delay: Option<int>,
    platform: Option<Option<Platform>>,
    variants: Option<Option<seq<Variant>>>)

  const NoChange := MessagePatch(None, None, None, None, None, None)

  /** `{ ...msg, ...updates }`. */
  function ApplyMessagePatch(m: Message, p: MessagePatch): Message {
    Message(Override(m.id, p.id), Override(m.kind, p.kind), Override(m.content, p.content),
            Override(m.delay, p.delay), Override(m.platform, p.platform), Override(m.variants, p.variants))
  }

  predicate HasMessage(msgs: seq<Message>, id: string) {
    exists i :: 0 <= i < |msgs| && msgs[i].id == id
  }

  /** `updateMessage`: merges the partial into every step with the matching id;
      length, order and all other steps are kept. */
  function UpdateMessage(msgs: seq<Message>, id: string, updates: MessagePatch): (r: seq<Message>)
    ensures |r| == |msgs|
    ensures forall i :: 0 <= i < |msgs| && msgs[i].id != id ==> r[i] == msgs[i]
    ensures forall i :: 0 <= i < |msgs| && msgs[i].id == id ==> r[i] == ApplyMessagePatch(msgs[i], updates)
    ensures !HasMessage(msgs, id) ==> r == msgs
  {
    seq(|msgs|, i requires 0 <= i < |msgs| =>
          if msgs[i].id == id then ApplyMessagePatch(msgs[i], updates) else msgs[i])
  }

  /** `messages.find(m => m.id === id)`: the first step with that id. */
  function FindMessage(msgs: seq<Message>, id: string): (r: Option<Message>)
    ensures r.None? <==> !HasMessage(msgs, id)
    ensures r.Some? ==> exists k :: 0 <= k < |msgs| && msgs[k] == r.value && msgs[k].id == id
                                    && forall j :: 0 <= j < k ==> msgs[j].id != id
  {
    if |msgs| == 0 then None
    else if msgs[0].id == id then Some(msgs[0])
    else
      var r := FindMessage(msgs[1..], id);
      assert HasMessage(msgs, id) ==> HasMessage(msgs[1..], id) by {
        if HasMessage(msgs, id) {
          var i :| 0 <= i < |msgs| && msgs[i].id == id;
          assert msgs[1..][i - 1] == msgs[i];
        }
      }
      assert r.Some? ==> exists k :: 0 <= k < |msgs| && msgs[k] == r.value && msgs[k].id == id
                                     && forall j :: 0 <= j < k ==> msgs[j].id != id by {
        if r.Some? {
          var k :| 0 <= k < |msgs[1..]| && msgs[1..][k] == r.value && msgs[1..][k].id == id
                   && forall j :: 0 <= j < k ==> msgs[1..][j].id != id;
          assert msgs[k + 1] == r.value;
          assert forall j :: 1 <= j < k + 1 ==> msgs[j] == msgs[1..][j - 1];
        }
      }
      r
  }

  /** The variants after the add-variant button: every existing variant keeps
      its id and content, one empty variant is added, and all of them get
      `floor(100 / (n + 1))`, so the total lies in `100 - n .. 100`. */
  function RenormalisedVariants(vs: seq<Variant>, freshId: string): (r: seq<Variant>)
    ensures |r| == |vs| + 1
    ensures forall i :: 0 <= i < |r| ==> r[i].weight == 100 / (|vs| + 1)
    ensures forall i :: 0 <= i < |vs| ==> r[i].id == vs[i].id && r[i].content == vs[i].content
    ensures r[|vs|].id == freshId && r[|vs|].content == ""
    ensures 100 - |vs| <= TotalWeight(r) <= 100
  {
    var n := |vs| + 1;
    var w := 100 / n;
    var r := seq(|vs|, i requires 0 <= i < |vs| => vs[i].(weight := w)) + [Variant(freshId, "", w)];
    TotalOfEqualWeights(r, w);
    EqualSharesTotal(n);
    r
  }

  /** `n` shares of `100 / n` add up to between `100 - (n - 1)` and 100. */
  lemma EqualSharesTotal(n: int)
    requires n >= 1
    ensures 100 - (n - 1) <= n * (100 / n) <= 100
  {
    assert 100 == n * (100 / n) + 100 % n;
  }

  /** Whether the add-variant button acts: the step exists, is a message step
      and has a variants list. */
  predicate CanAddVariant(msgs: seq<Message>, messageId: string) {
    var found := FindMessage(msgs, messageId);
    found.Some? && found.value.kind == MessageAction && found.value.variants.Some?
  }

  /** `addVariant` of the basic editor: a no-op unless the step can take a
      variant; otherwise every step with that id receives the renormalised
      variants of the first such step, and all other steps are kept. */
  function AddVariant(msgs: seq<Message>, messageId: string, freshId: string): (r: seq<Message>)
    ensures !CanAddVariant(msgs, messageId) ==> r == msgs
    ensures |r| == |msgs|
    ensures forall i :: 0 <= i < |msgs| && msgs[i].id != messageId ==> r[i] == msgs[i]
    ensures CanAddVariant(msgs, messageId) ==>
              var vs := FindMessage(msgs, messageId).value.variants.value;
              forall i :: 0 <= i < |msgs| && msgs[i].id == messageId ==>
                r[i] == msgs[i].(variants := Some(RenormalisedVariants(vs, freshId)))
  {
    if !CanAddVariant(msgs, messageId) then msgs
    else
      var vs := FindMessage(msgs, messageId).value.variants.value;
      UpdateMessage(msgs, messageId, NoChange.(variants := Some(Some(RenormalisedVariants(vs, freshId)))))
  }

  /** The filter behind the variant number: message steps of one platform. */
  function SamePlatformMessage(platform: Option<Platform>): Message -> bool {
    (m: Message) => m.kind == MessageAction && m.platform == platform
  }

  /** `findIndex(m => m.id === id)`: the first position with that id, or -1. */
  function IndexOfId(msgs: seq<Message>, id: string): (r: int)
    ensures -1 <= r < |msgs|
    ensures r >= 0 ==> msgs[r].id == id && forall j :: 0 <= j < r ==> msgs[j].id != id
    ensures r == -1 <==> !HasMessage(msgs, id)
  {
    if |msgs| == 0 then -1
    else if msgs[0].id == id then 0
    else
      var r := IndexOfId(msgs[1..], id);
      assert HasMessage(msgs, id) ==> HasMessage(msgs[1..], id) by {
        if HasMessage(msgs, id) {
          var i :| 0 <= i < |msgs| && msgs[i].id == id;
          assert msgs[1..][i - 1] == msgs[i];
        }
      }
      if r == -1 then -1 else r + 1
  }

  /** `getVariantIndex`: the 1-based position of the step among the message
      steps of its platform, or 0 when it is not among them. */
  function VariantIndex(msgs: seq<Message>, m: Message): (r: nat)
    ensures r == 0 <==> !HasMessage(Filter(msgs, SamePlatformMessage(m.platform)), m.id)
  {
    IndexOfId(Filter(msgs, SamePlatformMessage(m.platform)), m.id) + 1
  }

  /** A step preceded only by steps with other ids is found at its own position. */
  lemma {:induction false} IndexOfIdAfter(p: seq<Message>, m: Message, q: seq<Message>)
    requires forall j :: 0 <= j < |p| ==> p[j].id != m.id
    ensures IndexOfId(p + [m] + q, m.id) == |p|
  {
    if |p| > 0 {
      assert (p + [m] + q)[1..] == p[1..] + [m] + q;
      IndexOfIdAfter(p[1..], m, q);
    }
  }

  /** The variant number of a message step is one more than the number of
      earlier message steps of the same platform. */
  lemma VariantIndexCountsEarlierSteps(msgs: seq<Message>, k: nat)
    requires k < |msgs| && msgs[k].kind == MessageAction
    requires forall j :: 0 <= j < k ==> msgs[j].id != msgs[k].id
    ensures VariantIndex(msgs, msgs[k]) == 1 + |Filter(msgs[..k], SamePlatformMessage(msgs[k].platform))|
  {
    var m := msgs[k];
    var keep := SamePlatformMessage(m.platform);
    var before := Filter(msgs[..k], keep);
    var after := Filter(msgs[k + 1..], keep);
    assert msgs == msgs[..k] + [m] + msgs[k + 1..];
    FilterConcat(msgs[..k] + [m], msgs[k + 1..], keep);
    FilterConcat(msgs[..k], [m], keep);
    assert Filter([m], keep) == [m];
    assert Filter(msgs, keep) == before + [m] + after;
    forall j | 0 <= j < |before| ensures before[j].id != m.id {
      assert before[j] in msgs[..k];
    }
    IndexOfIdAfter(before, m, after);
  }

  /** Inserting a wait step or a step of another platform anywhere leaves the
      variant number of every other step unchanged. */
  lemma VariantIndexIgnoresUnrelatedSteps(a: seq<Message>, w: Message, b: seq<Message>, m: Message)
    requires !(w.kind == MessageAction && w.platform == m.platform)
    ensures VariantIndex(a + [w] + b, m) == VariantIndex(a + b, m)
  {
    FilterSkips(a, w, b, SamePlatformMessage(m.platform));
  }

  /** `handleContinue`, reachable only while the button is enabled: the
      button is disabled exactly when the sequence is empty, and otherwise the
      wizard receives the sequence as built. */
  function Continue(e: Editor): (r: Option<seq<Message>>)
    ensures r.None? <==> |e.messages| == 0
    ensures r.Some? ==> r.value == e.messages
  {
    if |e.messages| == 0 then None else Some(e.messages)
  }
}
