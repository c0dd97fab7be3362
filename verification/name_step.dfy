/** The first wizard step (src/components/campaigns/steps/NameStep.tsx):
    campaign name and platform selection with two-stage validation. */
module NameStep {
  import opened Options
  import opened Seqs
  import opened Text
  import opened CampaignTypes

  const NameRequired := "Please enter a campaign name"
  const PlatformRequired := "Please select at least one platform"

  /** The step's local state. */
  datatype Form = Form(name: string, platforms: seq<Platform>, error: string)

  function KeepPlatform(p: Platform): Platform -> bool {
    (q: Platform) => q != p
  }

  /** `handlePlatformToggle`: a selected platform is removed, an unselected one
      appended; membership of `p` flips, every other platform keeps its
      membership, and the error is cleared. */
  function TogglePlatform(f: Form, p: Platform): (r: Form)
    ensures (p in r.platforms) <==> (p !in f.platforms)
    ensures forall q :: q != p ==> (q in r.platforms <==> q in f.platforms)
    ensures p !in f.platforms ==> r.platforms == f.platforms + [p]
    ensures p in f.platforms ==> Subsequence(r.platforms, f.platforms)
    ensures NoDuplicates(f.platforms) ==> NoDuplicates(r.platforms)
    ensures r.name == f.name && r.error == ""
  {
    if p in f.platforms then
      FilterNoDuplicates(f.platforms, KeepPlatform(p));
      f.(platforms := Filter(f.platforms, KeepPlatform(p)), error := "")
    else
      f.(platforms := f.platforms + [p], error := "")
  }

  /** Toggling twice restores which platforms are selected, and restores the
      list itself when the platform was not selected to begin with. */
  lemma ToggleTwice(f: Form, p: Platform)
    ensures forall q :: q in TogglePlatform(TogglePlatform(f, p), p).platforms <==> q in f.platforms
    ensures p !in f.platforms ==> TogglePlatform(TogglePlatform(f, p), p).platforms == f.platforms
  {
    if p !in f.platforms {
      AddThenRemove(f, p);
    }
  }

  /** Removing a platform just appended gives back the list before. */
  lemma AddThenRemove(f: Form, p: Platform)
    requires p !in f.platforms
    ensures TogglePlatform(TogglePlatform(f, p), p).platforms == f.platforms
  {
    var g := TogglePlatform(f, p);
    assert g.platforms == f.platforms + [p];
    assert TogglePlatform(g, p).platforms == Filter(g.platforms, KeepPlatform(p));
    FilterDropsAppended(f.platforms, p);
  }

  lemma FilterDropsAppended(xs: seq<Platform>, p: Platform)
    requires p !in xs
    ensures Filter(xs + [p], KeepPlatform(p)) == xs
  {
    var keep := KeepPlatform(p);
    assert Filter([p], keep) == [];
    FilterConcat(xs, [p], keep);
    FilterKeepsAll(xs, keep);
  }

  /** What the step hands to the wizard on success. */
  datatype CampaignUpdate = CampaignUpdate(name: string, platforms: seq<Platform>)

  datatype ContinueResult = ContinueResult(form: Form, update: Option<CampaignUpdate>)

  /** `handleContinue`: a blank name is reported first, then an empty platform
      selection; otherwise the untrimmed name and the selection go on. */
  function Continue(f: Form): (r: ContinueResult)
    ensures r.update.Some? <==> !AllWhitespace(f.name) && |f.platforms| > 0
    ensures AllWhitespace(f.name) ==> r.form == f.(error := NameRequired)
    ensures !AllWhitespace(f.name) && |f.platforms| == 0 ==> r.form == f.(error := PlatformRequired)
    ensures r.update.Some? ==> r.update.value == CampaignUpdate(f.name, f.platforms) && r.form == f
  {
    if Trim(f.name) == "" then ContinueResult(f.(error := NameRequired), None)
    else if |f.platforms| == 0 then ContinueResult(f.(error := PlatformRequired), None)
    else ContinueResult(f, Some(CampaignUpdate(f.name, f.platforms)))
  }

  /** Typing in the name field replaces the name and clears the error. */
  function EditName(f: Form, value: string): (r: Form)
    ensures r.name == value && r.error == "" && r.platforms == f.platforms
  {
    f.(name := value, error := "")
  }
}
