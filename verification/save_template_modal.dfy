/** The save-as-template dialog (src/components/campaigns/sequence/SaveTemplateModal.tsx):
    tag editing and name validation before the template reaches the store. */
module SaveTemplateModal {
  import opened Seqs
  import opened Text
  import opened CampaignTypes
  import opened TemplateStore

  const NameRequired := "Please enter a template name"

  /** The dialog's local state: name field, chosen tags, tag input, error text. */
  datatype Form = Form(name: string, tags: seq<string>, newTag: string, error: string)

  const InitialForm := Form("", [], "", "")

  /** `handleAddTag`: the trimmed input is appended when it is non-empty and not
      yet chosen, and only then is the input cleared. */
  function AddTag(f: Form): (r: Form)
    ensures r.name == f.name && r.error == f.error
    ensures |r.tags| >= |f.tags| && r.tags[..|f.tags|] == f.tags
    ensures |r.tags| == |f.tags| + 1 <==> Trim(f.newTag) != "" && Trim(f.newTag) !in f.tags
    ensures |r.tags| == |f.tags| + 1 ==> r.tags[|f.tags|] == Trim(f.newTag) && r.newTag == ""
    ensures |r.tags| != |f.tags| + 1 ==> r == f
    ensures NoDuplicates(f.tags) ==> NoDuplicates(r.tags)
  {
    var tag := Trim(f.newTag);
    if tag != "" && tag !in f.tags then f.(tags := f.tags + [tag], newTag := "") else f
  }

  function KeepTag(tag: string): string -> bool {
    (t: string) => t != tag
  }

  /** `handleRemoveTag`: every occurrence of the tag goes, the others stay in order. */
  function RemoveTag(f: Form, tag: string): (r: Form)
    ensures tag !in r.tags
    ensures forall i :: 0 <= i < |f.tags| && f.tags[i] != tag ==> f.tags[i] in r.tags
    ensures Subsequence(r.tags, f.tags)
    ensures forall t :: multiset(r.tags)[t] == if t != tag then multiset(f.tags)[t] else 0
    ensures r.name == f.name && r.newTag == f.newTag && r.error == f.error
  {
    FilterCounts(f.tags, KeepTag(tag));
    f.(tags := Filter(f.tags, KeepTag(tag)))
  }

  /** Removing a tag that was just added takes the tag list back to what it was. */
  lemma {:induction false} RemoveTagUndoesAddTag(f: Form)
    requires Trim(f.newTag) != "" && Trim(f.newTag) !in f.tags
    ensures RemoveTag(AddTag(f), Trim(f.newTag)).tags == f.tags
  {
    var tag := Trim(f.newTag);
    FilterConcat(f.tags, [tag], KeepTag(tag));
    FilterKeepsAll(f.tags, KeepTag(tag));
  }

  /** The result of pressing Save: the dialog state, the store, and whether the
      dialog closed. */
  datatype SaveOutcome = SaveOutcome(form: Form, templates: seq<MessageTemplate>, closed: bool)

  /** `handleSave`: a blank name sets the error and leaves the store alone;
      otherwise the store receives the trimmed name with the unchanged content,
      platform and tags, and the dialog closes. */
  function Save(f: Form, content: string, platform: Platform, ts: seq<MessageTemplate>,
                id: string, createdAt: string, updatedAt: string): (r: SaveOutcome)
    ensures r.closed <==> !AllWhitespace(f.name)
    ensures !r.closed ==> r.templates == ts && r.form == f.(error := NameRequired)
    ensures r.closed ==>
              && |r.templates| == |ts| + 1 && r.templates[..|ts|] == ts
              && var t := r.templates[|ts|];
                 && t.name == Trim(f.name) && t.name != ""
                 && t.content == content && t.platform == platform && t.tags == f.tags
                 && t.id == id && t.createdAt == createdAt && t.updatedAt == updatedAt
  {
    var trimmed := Trim(f.name);
    if trimmed == "" then SaveOutcome(f.(error := NameRequired), ts, false)
    else SaveOutcome(f, AddTemplate(ts, TemplateDraft(trimmed, content, platform, f.tags), id, createdAt, updatedAt), true)
  }

  /** Typing in the name field replaces the name and clears the error. */
  function EditName(f: Form, value: string): (r: Form)
    ensures r.name == value && r.error == ""
    ensures r.tags == f.tags && r.newTag == f.newTag
  {
    f.(name := value, error := "")
  }

  /** A whitespace-only name is rejected: the store keeps its size and the
      dialog shows the validation message. */
  lemma BlankNameRejected(f: Form, content: string, platform: Platform, ts: seq<MessageTemplate>,
                          id: string, createdAt: string, updatedAt: string)
    requires f.name == "   "
    ensures var r := Save(f, content, platform, ts, id, createdAt, updatedAt);
            !r.closed && |r.templates| == |ts| && r.form.error == NameRequired
  {
  }
}
