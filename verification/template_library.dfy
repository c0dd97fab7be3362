/** The template picker's query (src/components/campaigns/sequence/TemplateLibrary.tsx):
    platform filter, then case-insensitive search, then tag filter, plus the
    list of tag buttons. */
module TemplateLibrary {
  import opened Options
  import opened Seqs
  import opened Text
  import opened CampaignTypes
  import opened TemplateStore

  /** A non-empty query must occur, ignoring case, in the name or the content;
      an empty query matches everything. */
  predicate MatchesSearch(t: MessageTemplate, query: string) {
    query != "" ==> Contains(Lower(t.name), Lower(query)) || Contains(Lower(t.content), Lower(query))
  }

  /** A selected, non-empty tag must be among the template's tags. */
  predicate MatchesTag(t: MessageTemplate, selectedTag: Option<string>) {
    selectedTag.Some? && selectedTag.value != "" ==> selectedTag.value in t.tags
  }

  function MatchesQuery(query: string, selectedTag: Option<string>): MessageTemplate -> bool {
    (t: MessageTemplate) => MatchesSearch(t, query) && MatchesTag(t, selectedTag)
  }

  /** `filteredTemplates`: the templates of the platform that match the search
      and the tag, in store order. */
  function FilteredTemplates(ts: seq<MessageTemplate>, platform: Platform, query: string, selectedTag: Option<string>)
    : (r: seq<MessageTemplate>)
    ensures forall i :: 0 <= i < |r| ==>
              r[i].platform == platform && MatchesSearch(r[i], query) && MatchesTag(r[i], selectedTag)
    ensures forall i :: 0 <= i < |ts| ==>
              (ts[i].platform == platform && MatchesSearch(ts[i], query) && MatchesTag(ts[i], selectedTag)
               ==> ts[i] in r)
    ensures Subsequence(r, ts)
    ensures forall t :: multiset(r)[t] ==
              if t.platform == platform && MatchesSearch(t, query) && MatchesTag(t, selectedTag)
              then multiset(ts)[t] else 0
  {
    FilteredMembers(ts, platform, query, selectedTag);
    FilteredCounts(ts, platform, query, selectedTag);
    Filter(Filter(ts, OnPlatform(platform)), MatchesQuery(query, selectedTag))
  }

  lemma FilteredMembers(ts: seq<MessageTemplate>, platform: Platform, query: string, selectedTag: Option<string>)
    ensures var r := Filter(Filter(ts, OnPlatform(platform)), MatchesQuery(query, selectedTag));
            && (forall i :: 0 <= i < |r| ==>
                  r[i].platform == platform && MatchesSearch(r[i], query) && MatchesTag(r[i], selectedTag))
            && (forall i :: 0 <= i < |ts| ==>
                  (ts[i].platform == platform && MatchesSearch(ts[i], query) && MatchesTag(ts[i], selectedTag)
                   ==> ts[i] in r))
            && Subsequence(r, ts)
  {
    FilterFilter(ts, OnPlatform(platform), MatchesQuery(query, selectedTag));
  }

  lemma FilteredCounts(ts: seq<MessageTemplate>, platform: Platform, query: string, selectedTag: Option<string>)
    ensures forall t :: multiset(Filter(Filter(ts, OnPlatform(platform)), MatchesQuery(query, selectedTag)))[t] ==
              if t.platform == platform && MatchesSearch(t, query) && MatchesTag(t, selectedTag)
              then multiset(ts)[t] else 0
  {
    var byPlatform := Filter(ts, OnPlatform(platform));
    FilterCounts(ts, OnPlatform(platform));
    FilterCounts(byPlatform, MatchesQuery(query, selectedTag));
  }

  /** With an empty query and no tag the picker lists all templates of the
      platform, exactly as the store's own platform query does. */
  lemma UnfilteredQueryIsPlatformQuery(ts: seq<MessageTemplate>, platform: Platform)
    ensures FilteredTemplates(ts, platform, "", None) == TemplatesByPlatform(ts, platform)
  {
    FilterKeepsAll(TemplatesByPlatform(ts, platform), MatchesQuery("", None));
  }

  /** The search is case-insensitive: queries that agree once lower-cased
      give the same list. */
  lemma SearchIgnoresCase(ts: seq<MessageTemplate>, platform: Platform, q1: string, q2: string, selectedTag: Option<string>)
    requires Lower(q1) == Lower(q2)
    ensures FilteredTemplates(ts, platform, q1, selectedTag) == FilteredTemplates(ts, platform, q2, selectedTag)
  {
    assert |q1| == |q2|;
    var byPlatform := Filter(ts, OnPlatform(platform));
    FilterCongruent(byPlatform, MatchesQuery(q1, selectedTag), MatchesQuery(q2, selectedTag));
  }

  /** `templates.flatMap(t => t.tags)`. */
  function FlatTags(ts: seq<MessageTemplate>): (r: seq<string>)
    ensures forall i, j :: 0 <= i < |ts| && 0 <= j < |ts[i].tags| ==> ts[i].tags[j] in r
    ensures forall k :: 0 <= k < |r| ==> exists i :: 0 <= i < |ts| && r[k] in ts[i].tags
  {
    if |ts| == 0 then []
    else
      var rest := FlatTags(ts[1..]);
      assert forall k :: 0 <= k < |rest| ==> exists i :: 1 <= i < |ts| && rest[k] in ts[i].tags by {
        forall k | 0 <= k < |rest| ensures exists i :: 1 <= i < |ts| && rest[k] in ts[i].tags {
          var i :| 0 <= i < |ts[1..]| && rest[k] in ts[1..][i].tags;
          assert ts[1..][i] == ts[i + 1];
        }
      }
      assert forall i, j :: 1 <= i < |ts| && 0 <= j < |ts[i].tags| ==> ts[i].tags[j] in rest by {
        forall i, j | 1 <= i < |ts| && 0 <= j < |ts[i].tags| ensures ts[i].tags[j] in rest {
          assert ts[i] == ts[1..][i - 1];
        }
      }
      ts[0].tags + rest
  }

  /** `allTags`: every tag of every template, whatever its platform, each once. */
  function AllTags(ts: seq<MessageTemplate>): (r: seq<string>)
    ensures NoDuplicates(r)
    ensures forall i, j :: 0 <= i < |ts| && 0 <= j < |ts[i].tags| ==> ts[i].tags[j] in r
    ensures forall k :: 0 <= k < |r| ==> exists i :: 0 <= i < |ts| && r[k] in ts[i].tags
  {
    Dedup(FlatTags(ts))
  }
}
