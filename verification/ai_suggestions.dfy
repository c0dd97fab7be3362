/** The suggestion panel (src/components/campaigns/sequence/AiSuggestions.tsx):
    a list of canned messages that can be liked or disliked, tone and topic
    filters, and generation of one more suggestion. */
module AiSuggestions {
  import opened Options

  /** `liked` and `disliked` are optional flags in the source; absent reads as
      false everywhere they are used, so they are plain booleans here. */
  datatype Suggestion = Suggestion(id: string, content: string, tone: string, rating: int,
                                   liked: bool, disliked: bool)

  const Tones: seq<string> := ["Professional", "Casual", "Engaging", "Formal", "Friendly"]
  const Topics: seq<string> := ["Industry Insights", "Collaboration", "Networking", "Product Launch", "Event"]

  /** The list the panel opens with. */
  const InitialSuggestions: seq<Suggestion> := [
    Suggestion("1", "Hi {{firstName}}, I noticed you're working at {{company}} and I'm impressed by your experience in the industry. I'd love to connect and share insights about...", "Professional", 95, false, false),
    Suggestion("2", "Hey {{firstName}}! \U{1F44B} I came across your profile and really resonated with your work in {{industry}}. Would love to explore potential collaborations...", "Casual", 88, false, false),
    Suggestion("3", "{{firstName}}, your recent post about {{topic}} caught my attention. I've been working on similar initiatives and would love to exchange ideas...", "Engaging", 92, false, false)]

  /** No suggestion is liked and disliked at once. */
  predicate Exclusive(ss: seq<Suggestion>) {
    forall i :: 0 <= i < |ss| ==> !(ss[i].liked && ss[i].disliked)
  }

  /** Every suggestion's tone is one of the tone buttons. */
  predicate TonesListed(ss: seq<Suggestion>) {
    forall i :: 0 <= i < |ss| ==> ss[i].tone in Tones
  }

  /** The opening list has no double votes, distinct ids and listed tones. */
  lemma InitialSuggestionsWellFormed()
    ensures Exclusive(InitialSuggestions) && TonesListed(InitialSuggestions)
    ensures forall i, j :: 0 <= i < j < |InitialSuggestions| ==> InitialSuggestions[i].id != InitialSuggestions[j].id
  {
  }

  /** `handleLike`: the suggestions with id `id` flip `liked` and lose
      `disliked`; every other suggestion, and the order, stays. */
  function HandleLike(ss: seq<Suggestion>, id: string): (r: seq<Suggestion>)
    ensures |r| == |ss|
    ensures forall i :: 0 <= i < |ss| && ss[i].id != id ==> r[i] == ss[i]
    ensures forall i :: 0 <= i < |ss| && ss[i].id == id ==>
              r[i] == ss[i].(liked := !ss[i].liked, disliked := false)
  {
    seq(|ss|, i requires 0 <= i < |ss| =>
      if ss[i].id == id then ss[i].(liked := !ss[i].liked, disliked := false) else ss[i])
  }

  /** `handleDislike`: the mirror image of `handleLike`. */
  function HandleDislike(ss: seq<Suggestion>, id: string): (r: seq<Suggestion>)
    ensures |r| == |ss|
    ensures forall i :: 0 <= i < |ss| && ss[i].id != id ==> r[i] == ss[i]
    ensures forall i :: 0 <= i < |ss| && ss[i].id == id ==>
              r[i] == ss[i].(disliked := !ss[i].disliked, liked := false)
  {
    seq(|ss|, i requires 0 <= i < |ss| =>
      if ss[i].id == id then ss[i].(disliked := !ss[i].disliked, liked := false) else ss[i])
  }

  /** The targeted suggestions are never both liked and disliked after either
      handler, and the other suggestions keep the property when they had it. */
  lemma HandlersKeepExclusive(ss: seq<Suggestion>, id: string)
    ensures forall i :: 0 <= i < |ss| && ss[i].id == id ==>
              !(HandleLike(ss, id)[i].liked && HandleLike(ss, id)[i].disliked)
              && !(HandleDislike(ss, id)[i].liked && HandleDislike(ss, id)[i].disliked)
    ensures Exclusive(ss) ==> Exclusive(HandleLike(ss, id)) && Exclusive(HandleDislike(ss, id))
  {
  }

  /** Liking then disliking leaves only the dislike, whatever came before. */
  lemma DislikeOverridesLike(ss: seq<Suggestion>, id: string)
    ensures var r := HandleDislike(HandleLike(ss, id), id);
            forall i :: 0 <= i < |ss| && ss[i].id == id ==> r[i].disliked && !r[i].liked
  {
  }

  /** Liking twice undoes the first like when no matching suggestion was
      disliked; a dislike it cleared is not restored. */
  lemma LikeTwice(ss: seq<Suggestion>, id: string)
    ensures (forall i :: 0 <= i < |ss| && ss[i].id == id ==> !ss[i].disliked)
            <==> HandleLike(HandleLike(ss, id), id) == ss
  {
    var r := HandleLike(HandleLike(ss, id), id);
    if forall i :: 0 <= i < |ss| && ss[i].id == id ==> !ss[i].disliked {
      assert forall i :: 0 <= i < |ss| ==> r[i] == ss[i];
    } else {
      var i :| 0 <= i < |ss| && ss[i].id == id && ss[i].disliked;
      assert !r[i].disliked;
    }
  }

  /** The tone and topic buttons: choosing the current choice clears it,
      choosing anything else selects it. */
  function ToggleChoice(current: Option<string>, choice: string): (r: Option<string>)
    ensures r == None <==> current == Some(choice)
    ensures r != None ==> r == Some(choice)
  {
    if current == Some(choice) then None else Some(choice)
  }

  /** Pressing the same button twice restores a selection that was not that
      choice only when nothing was selected. */
  lemma ToggleTwice(current: Option<string>, choice: string)
    ensures ToggleChoice(ToggleChoice(current, choice), choice) == current
            <==> current == None || current == Some(choice)
  {
  }

  /** How a template literal shows an optional choice: `null` when absent. */
  function Shown(choice: Option<string>): string {
    match choice
    case None => "null"
    case Some(s) => s
  }

  /** The text of a generated suggestion. */
  function GeneratedContent(tone: Option<string>, topic: Option<string>): string {
    Shown(tone) + " message about " + Shown(topic) + GeneratedTail
  }

  /** The fixed text after the tone and topic of a generated suggestion. */
  const GeneratedTail := ": Hi {{firstName}}, I noticed your work in {{industry}} and wanted to connect..."

  /** `handleGenerate`, once its delay has passed: one suggestion is put in
      front of the list, with a fresh id, the chosen tone (or "Professional"
      when none or an empty one is chosen) and a rating of 85 plus a random
      draw from 0 to 14. */
  function Generate(ss: seq<Suggestion>, tone: Option<string>, topic: Option<string>,
                    id: string, roll: int): (r: seq<Suggestion>)
    requires 0 <= roll < 15
    ensures |r| == |ss| + 1 && r[1..] == ss
    ensures r[0].id == id && r[0].content == GeneratedContent(tone, topic)
    ensures r[0].tone == (if tone.Some? && tone.value != "" then tone.value else "Professional")
    ensures 85 <= r[0].rating <= 99
    ensures !r[0].liked && !r[0].disliked
  {
    var toneName := if tone.Some? && tone.value != "" then tone.value else "Professional";
    var made := Suggestion(id, GeneratedContent(tone, topic), toneName, roll + 85, false, false);
    assert ([made] + ss)[1..] == ss;
    [made] + ss
  }

  /** Generation keeps the list free of double votes. */
  lemma GenerateKeepsExclusive(ss: seq<Suggestion>, tone: Option<string>, topic: Option<string>,
                               id: string, roll: int)
    requires 0 <= roll < 15 && Exclusive(ss)
    ensures Exclusive(Generate(ss, tone, topic, id, roll))
  {
    var r := Generate(ss, tone, topic, id, roll);
    assert forall i :: 1 <= i < |r| ==> r[i] == ss[i - 1];
  }

  /** With a tone chosen from the buttons, or none, generation keeps every
      tone one of the buttons'. */
  lemma GenerateKeepsTonesListed(ss: seq<Suggestion>, tone: Option<string>, topic: Option<string>,
                                 id: string, roll: int)
    requires 0 <= roll < 15 && TonesListed(ss)
    requires tone.Some? ==> tone.value in Tones
    ensures TonesListed(Generate(ss, tone, topic, id, roll))
  {
    var r := Generate(ss, tone, topic, id, roll);
    assert forall i :: 1 <= i < |r| ==> r[i] == ss[i - 1];
  }
}
