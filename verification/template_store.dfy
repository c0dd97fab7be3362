/** The persisted collection of message templates (src/stores/templateStore.ts),
    as an in-memory sequence. Fresh ids and clock readings are parameters. */
module TemplateStore {
  import opened Options
  import opened Seqs
  import opened CampaignTypes

  /** What a caller hands to `addTemplate`: a template without id and timestamps. */
  datatype TemplateDraft = TemplateDraft(name: string, content: string, platform: Platform, tags: seq<string>)

  /** A `Partial<MessageTemplate>`: every field may be absent. */
  datatype TemplatePatch = TemplatePatch(
    id: Option<string>,
    name: Option<string>,
    content: Option<string>,
    platform: Option<Platform>,
    tags: Option<seq<string>>,
    createdAt: Option<string>,
    updatedAt: Option<string>)

  predicate HasTemplate(ts: seq<MessageTemplate>, id: string) {
    exists i :: 0 <= i < |ts| && ts[i].id == id
  }

  /** `addTemplate`: appends one template built from the draft, with the id and
      the two timestamps the store reads (two separate clock readings). */
  function AddTemplate(ts: seq<MessageTemplate>, draft: TemplateDraft, id: string, createdAt: string, updatedAt: string)
    : (r: seq<MessageTemplate>)
    ensures |r| == |ts| + 1 && r[..|ts|] == ts
    ensures var t := r[|ts|];
            && t.name == draft.name && t.content == draft.content
            && t.platform == draft.platform && t.tags == draft.tags
            && t.id == id && t.createdAt == createdAt && t.updatedAt == updatedAt
  {
    ts + [MessageTemplate(id, draft.name, draft.content, draft.platform, draft.tags, createdAt, updatedAt)]
  }

  /** `{ ...template, ...updates }`. */
  function ApplyPatch(t: MessageTemplate, p: TemplatePatch): MessageTemplate {
    MessageTemplate(
      Override(t.id, p.id), Override(t.name, p.name), Override(t.content, p.content),
      Override(t.platform, p.platform), Override(t.tags, p.tags),
      Override(t.createdAt, p.createdAt), Override(t.updatedAt, p.updatedAt))
  }

  /** `updateTemplate`: every template with a matching id receives the updates
      and then the current time as `updatedAt`; all others stay as they were. */
  function UpdateTemplate(ts: seq<MessageTemplate>, id: string, updates: TemplatePatch, now: string)
    : (r: seq<MessageTemplate>)
    ensures |r| == |ts|
    ensures forall i :: 0 <= i < |ts| && ts[i].id != id ==> r[i] == ts[i]
    ensures forall i :: 0 <= i < |ts| && ts[i].id == id ==>
              r[i].updatedAt == now && r[i] == ApplyPatch(ts[i], updates).(updatedAt := now)
  {
    seq(|ts|, i requires 0 <= i < |ts| =>
          if ts[i].id == id then ApplyPatch(ts[i], updates).(updatedAt := now) else ts[i])
  }

  /** Because the clock reading is spread last, an `updatedAt` the caller
      supplies has no effect. */
  lemma UpdateTemplateIgnoresSuppliedUpdatedAt(ts: seq<MessageTemplate>, id: string, updates: TemplatePatch, now: string)
    ensures UpdateTemplate(ts, id, updates, now) == UpdateTemplate(ts, id, updates.(updatedAt := None), now)
  {
  }

  /** An update naming no template leaves the collection unchanged. */
  lemma UpdateTemplateUnknownId(ts: seq<MessageTemplate>, id: string, updates: TemplatePatch, now: string)
    requires !HasTemplate(ts, id)
    ensures UpdateTemplate(ts, id, updates, now) == ts
  {
  }

  function KeepTemplate(id: string): MessageTemplate -> bool {
    (t: MessageTemplate) => t.id != id
  }

  function OnPlatform(p: Platform): MessageTemplate -> bool {
    (t: MessageTemplate) => t.platform == p
  }

  /** `deleteTemplate`: removes every template with that id and keeps the
      others in order. */
  function DeleteTemplate(ts: seq<MessageTemplate>, id: string): (r: seq<MessageTemplate>)
    ensures !HasTemplate(r, id)
    ensures forall i :: 0 <= i < |ts| && ts[i].id != id ==> ts[i] in r
    ensures Subsequence(r, ts)
    ensures forall t :: multiset(r)[t] == if t.id != id then multiset(ts)[t] else 0
  {
    FilterCounts(ts, KeepTemplate(id));
    Filter(ts, KeepTemplate(id))
  }

  /** Deleting is a no-op for an unknown id, hence deleting twice is deleting once. */
  lemma DeleteTemplateIdempotent(ts: seq<MessageTemplate>, id: string)
    ensures !HasTemplate(ts, id) ==> DeleteTemplate(ts, id) == ts
    ensures DeleteTemplate(DeleteTemplate(ts, id), id) == DeleteTemplate(ts, id)
  {
    if !HasTemplate(ts, id) {
      FilterKeepsAll(ts, KeepTemplate(id));
    }
    FilterIdempotent(ts, KeepTemplate(id));
  }

  /** Adding a template under a fresh id and deleting that id restores the collection. */
  lemma {:induction false} DeleteUndoesAdd(ts: seq<MessageTemplate>, draft: TemplateDraft, id: string, createdAt: string, updatedAt: string)
    requires !HasTemplate(ts, id)
    ensures DeleteTemplate(AddTemplate(ts, draft, id, createdAt, updatedAt), id) == ts
  {
    var t := MessageTemplate(id, draft.name, draft.content, draft.platform, draft.tags, createdAt, updatedAt);
    FilterConcat(ts, [t], KeepTemplate(id));
    FilterKeepsAll(ts, KeepTemplate(id));
  }

  /** `getTemplatesByPlatform`: exactly the templates of that platform, in store order. */
  function TemplatesByPlatform(ts: seq<MessageTemplate>, p: Platform): (r: seq<MessageTemplate>)
    ensures forall i :: 0 <= i < |r| ==> r[i].platform == p
    ensures forall i :: 0 <= i < |ts| && ts[i].platform == p ==> ts[i] in r
    ensures Subsequence(r, ts)
    ensures forall t :: multiset(r)[t] == if t.platform == p then multiset(ts)[t] else 0
  {
    FilterCounts(ts, OnPlatform(p));
    Filter(ts, OnPlatform(p))
  }
}
