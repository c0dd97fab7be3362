/** The message editor's pure parts (src/components/campaigns/sequence/MessageEditor.tsx):
    placeholder preview and variable insertion at the selection. */
module MessageEditor {
  import opened Options
  import opened Text

  /** The number of word characters `s` starts with. */
  function WordRun(s: string): (k: nat)
    ensures k <= |s|
  {
    if |s| > 0 && IsWordChar(s[0]) then 1 + WordRun(s[1..]) else 0
  }

  /** The word run is made of word characters. */
  lemma {:induction false} WordRunIsWord(s: string)
    ensures forall i :: 0 <= i < WordRun(s) ==> IsWordChar(s[i])
  {
    if |s| > 0 && IsWordChar(s[0]) {
      WordRunIsWord(s[1..]);
      assert forall i :: 1 <= i < WordRun(s) ==> s[i] == s[1..][i - 1];
    }
  }

  /** A whole placeholder token: `{`, one or more word characters, `}`. */
  predicate IsToken(s: string) {
    && |s| >= 3 && s[0] == '{' && s[|s| - 1] == '}'
    && forall i :: 1 <= i < |s| - 1 ==> IsWordChar(s[i])
  }

  /** The length of the token `/\{(\w+)\}/` matches at the start of `t`, if any. */
  function TokenAt(t: string): (r: Option<nat>)
    ensures r.Some? ==> 3 <= r.value <= |t|
  {
    if |t| == 0 || t[0] != '{' then None
    else
      var k := WordRun(t[1..]);
      if k >= 1 && 1 + k < |t| && t[1 + k] == '}' then Some(k + 2) else None
  }

  /** A run of `m` word characters makes the word run at least `m` long. */
  lemma {:induction false} WordRunAtLeast(s: string, m: nat)
    requires m <= |s| && forall i :: 0 <= i < m ==> IsWordChar(s[i])
    ensures WordRun(s) >= m
  {
    if m > 0 {
      assert forall i :: 0 <= i < m - 1 ==> s[1..][i] == s[i + 1];
      WordRunAtLeast(s[1..], m - 1);
    }
  }

  /** A non-word character at `m` ends the word run by `m`. */
  lemma {:induction false} WordRunAtMost(s: string, m: nat)
    requires m < |s| && !IsWordChar(s[m])
    ensures WordRun(s) <= m
  {
    if m > 0 && IsWordChar(s[0]) {
      assert s[1..][m - 1] == s[m];
      WordRunAtMost(s[1..], m - 1);
    }
  }

  /** Whatever `TokenAt` finds is a token. */
  lemma TokenAtIsToken(t: string)
    requires TokenAt(t).Some?
    ensures IsToken(t[..TokenAt(t).value])
  {
    var k := TokenAt(t).value;
    var n := WordRun(t[1..]);
    var s := t[..k];
    assert k == n + 2 && s[0] == t[0] && s[k - 1] == t[n + 1];
    WordRunIsWord(t[1..]);
    forall i | 1 <= i < k - 1 ensures IsWordChar(s[i]) {
      assert s[i] == t[1..][i - 1];
    }
  }

  /** Every token prefix is the one `TokenAt` finds. */
  lemma TokenIsFound(t: string, k: nat)
    requires k <= |t| && IsToken(t[..k])
    ensures TokenAt(t) == Some(k)
  {
    var s := t[..k];
    assert t[0] == s[0];
    forall i | 0 <= i < k - 2 ensures IsWordChar(t[1..][i]) {
      assert t[1..][i] == s[i + 1];
    }
    WordRunAtLeast(t[1..], k - 2);
    assert t[1..][k - 2] == s[k - 1] == '}';
    WordRunAtMost(t[1..], k - 2);
  }

  /** `TokenAt` finds exactly the prefix of `t` that is a token; there is at
      most one, since `}` is not a word character. */
  lemma TokenAtFindsToken(t: string, k: nat)
    requires k <= |t|
    ensures IsToken(t[..k]) <==> TokenAt(t) == Some(k)
  {
    if TokenAt(t) == Some(k) {
      TokenAtIsToken(t);
    }
    if IsToken(t[..k]) {
      TokenIsFound(t, k);
    }
  }

  /** The replacement for one token: `values[name] || match`, so an unknown
      name, or one whose value is empty, leaves the token as it was. */
  function Substitute(name: string, token: string, values: map<string, string>): string {
    if name in values && values[name] != "" then values[name] else token
  }

  /** `text.replace(/\{(\w+)\}/g, ...)`: scanning left to right, each token is
      replaced and scanning resumes after it; any other character is copied.
      A token without a non-empty value falls back to itself, so the preview
      of non-empty text is never empty. */
  function Render(text: string, values: map<string, string>): (r: string)
    ensures |r| == 0 <==> |text| == 0
    decreases |text|
  {
    if |text| == 0 then ""
    else
      match TokenAt(text)
      case Some(k) => Substitute(text[1..k - 1], text[..k], values) + Render(text[k..], values)
      case None => [text[0]] + Render(text[1..], values)
  }

  /** The sample lead `renderPreview` substitutes. */
  const PreviewData: map<string, string> := map[
    "firstName" := "John",
    "lastName" := "Doe",
    "company" := "Acme Inc",
    "position" := "CEO",
    "email" := "john@example.com",
    "phone" := "+1 234 567 8900",
    "city" := "New York",
    "country" := "USA"]

  /** `renderPreview`: the text against the sample lead. A text none of whose
      tokens names a sample field comes back as it was written. */
  function RenderPreview(text: string): (r: string)
    ensures |r| == 0 <==> |text| == 0
    ensures OnlyUnknownTokens(text, PreviewData) ==> r == text
  {
    if OnlyUnknownTokens(text, PreviewData) then
      UnknownTokensVerbatim(text, PreviewData);
      Render(text, PreviewData)
    else
      Render(text, PreviewData)
  }

  /** No token starts anywhere in `text`. */
  predicate NoToken(text: string) {
    forall i :: 0 <= i < |text| ==> TokenAt(text[i..]).None?
  }

  /** A token starts `t` and names a key with a non-empty value. */
  predicate StartsUsableToken(t: string, values: map<string, string>) {
    TokenAt(t).Some? && var name := t[1..TokenAt(t).value - 1];
    name in values && values[name] != ""
  }

  /** No token of `text` names a key with a non-empty value. */
  predicate OnlyUnknownTokens(text: string, values: map<string, string>) {
    forall i :: 0 <= i < |text| ==> !StartsUsableToken(text[i..], values)
  }

  lemma OnlyUnknownTokensSuffix(text: string, n: nat, values: map<string, string>)
    requires n <= |text| && OnlyUnknownTokens(text, values)
    ensures OnlyUnknownTokens(text[n..], values)
  {
    forall i | 0 <= i < |text[n..]| ensures !StartsUsableToken(text[n..][i..], values) {
      assert text[n..][i..] == text[n + i..];
    }
  }

  /** Unknown tokens are kept verbatim: when no token has a usable value, the
      preview is the text itself. In particular text without tokens, and any
      text rendered against no values, comes back unchanged. */
  lemma {:induction false} UnknownTokensVerbatim(text: string, values: map<string, string>)
    requires OnlyUnknownTokens(text, values)
    ensures Render(text, values) == text
    decreases |text|
  {
    if |text| > 0 {
      match TokenAt(text)
      case Some(k) =>
        OnlyUnknownTokensSuffix(text, k, values);
        UnknownTokensVerbatim(text[k..], values);
        assert text[0..] == text;
        assert !StartsUsableToken(text, values);
        RenderAtToken(text, k, values);
        Reassemble(text, k);
      case None =>
        OnlyUnknownTokensSuffix(text, 1, values);
        UnknownTokensVerbatim(text[1..], values);
        RenderAtChar(text, values);
        Reassemble(text, 1);
    }
  }

  lemma Reassemble(s: string, k: nat)
    requires k <= |s|
    ensures s[..k] + s[k..] == s
    ensures k == 1 ==> [s[0]] + s[1..] == s
  {
  }

  lemma NoTokenUnchanged(text: string, values: map<string, string>)
    requires NoToken(text)
    ensures Render(text, values) == text
  {
    UnknownTokensVerbatim(text, values);
  }

  lemma EmptyValuesUnchanged(text: string)
    ensures Render(text, map[]) == text
  {
    UnknownTokensVerbatim(text, map[]);
  }

  predicate IsWord(name: string) {
    |name| > 0 && forall i :: 0 <= i < |name| ==> IsWordChar(name[i])
  }

  /** A token whose name has a value is replaced by it; any other token is
      copied as it is; either way scanning resumes right after it. */
  lemma RenderToken(name: string, rest: string, values: map<string, string>)
    requires IsWord(name)
    ensures Render("{" + name + "}" + rest, values)
            == (if name in values && values[name] != "" then values[name] else "{" + name + "}")
               + Render(rest, values)
  {
    var t := "{" + name + "}" + rest;
    var k := |name| + 2;
    assert t[..k] == "{" + name + "}";
    assert IsToken(t[..k]);
    TokenIsFound(t, k);
    assert t[1..k - 1] == name;
    assert t[k..] == rest;
    RenderAtToken(t, k, values);
  }

  /** A character that cannot start a token is copied. */
  lemma RenderPlainChar(c: char, rest: string, values: map<string, string>)
    requires c != '{'
    ensures Render([c] + rest, values) == [c] + Render(rest, values)
  {
    assert ([c] + rest)[1..] == rest;
  }

  /** A `{` followed by another `{` is not a token start, and is copied. */
  lemma RenderBraceBeforeBrace(rest: string, values: map<string, string>)
    requires |rest| > 0 && rest[0] == '{'
    ensures Render("{" + rest, values) == "{" + Render(rest, values)
  {
    var t := "{" + rest;
    assert t[1..] == rest;
    assert WordRun(t[1..]) == 0;
  }

  /** The double-brace form is not itself a placeholder: only the inner
      single-brace token matches, so `{{firstName}}` previews as `{John}`. */
  lemma DoubleBracesKeepOuterBraces(name: string, values: map<string, string>)
    requires IsWord(name)
    ensures Render("{{" + name + "}}", values)
            == "{" + (if name in values && values[name] != "" then values[name] else "{" + name + "}") + "}"
  {
    var inner := "{" + name + "}" + "}";
    var v := if name in values && values[name] != "" then values[name] else "{" + name + "}";
    assert "{{" + name + "}}" == "{" + inner;
    RenderBraceBeforeBrace(inner, values);
    RenderToken(name, "}", values);
    assert "}" == ['}'] + "";
    RenderPlainChar('}', "", values);
    AppendAssoc("{", v, "}");
  }

  /** A word run stops at a `{`. */
  lemma {:induction false} WordRunStopsAtBrace(x: string, b: string)
    requires |b| > 0 && b[0] == '{'
    ensures WordRun(x + b) == WordRun(x)
  {
    if |x| > 0 && IsWordChar(x[0]) {
      assert (x + b)[1..] == x[1..] + b;
      WordRunStopsAtBrace(x[1..], b);
    } else if |x| == 0 {
      assert x + b == b;
    }
  }

  /** A token that starts before a `{` ends before it. */
  lemma TokenAtStopsAtBrace(x: string, b: string)
    requires |x| > 0 && |b| > 0 && b[0] == '{'
    ensures TokenAt(x + b) == TokenAt(x)
  {
    if x[0] == '{' {
      assert (x + b)[1..] == x[1..] + b;
      WordRunStopsAtBrace(x[1..], b);
      var k := WordRun(x[1..]);
      if 1 + k < |x| {
        assert (x + b)[1 + k] == x[1 + k];
      }
      match TokenAt(x)
      case Some(j) => assert (x + b)[..j] == x[..j];
      case None =>
    }
  }

  /** Rendering splits at a `{`: no token spans it. */
  lemma {:induction false} RenderSplitsAtBrace(a: string, b: string, values: map<string, string>)
    requires |b| > 0 && b[0] == '{'
    ensures Render(a + b, values) == Render(a, values) + Render(b, values)
    decreases |a|
  {
    if |a| == 0 {
      assert a + b == b;
    } else {
      TokenAtStopsAtBrace(a, b);
      if TokenAt(a).Some? {
        var k := TokenAt(a).value;
        RenderSplitsAtBrace(a[k..], b, values);
        SlicesOfConcat(a, b, k);
        TokenSplitsAtBrace(a, a + b, k, Render(b, values), values);
      } else {
        RenderSplitsAtBrace(a[1..], b, values);
        SlicesOfConcat(a, b, 1);
        CharSplitsAtBrace(a, a + b, Render(b, values), values);
      }
    }
  }

  /** How slicing `a + b` inside `a` looks. */
  lemma SlicesOfConcat(a: string, b: string, k: nat)
    requires 1 <= k <= |a|
    ensures (a + b)[0] == a[0] && (a + b)[..k] == a[..k] && (a + b)[k..] == a[k..] + b
    ensures k >= 2 ==> (a + b)[1..k - 1] == a[1..k - 1]
  {
  }

  /** The plain-character step of `RenderSplitsAtBrace`: when neither `a`
      nor `ab` starts with a token and they share their first character, the
      split carries over from the rest. */
  lemma CharSplitsAtBrace(a: string, ab: string, y: string, values: map<string, string>)
    requires |a| > 0 && |ab| > 0 && ab[0] == a[0]
    requires TokenAt(a) == None && TokenAt(ab) == None
    requires Render(ab[1..], values) == Render(a[1..], values) + y
    ensures Render(ab, values) == Render(a, values) + y
  {
    AppendAssoc([a[0]], Render(a[1..], values), y);
  }

  /** One step of `Render` over a character that does not start a token. */
  lemma RenderAtChar(t: string, values: map<string, string>)
    requires |t| > 0 && TokenAt(t) == None
    ensures Render(t, values) == [t[0]] + Render(t[1..], values)
  {
  }

  /** One step of `Render` over a token. */
  lemma RenderAtToken(t: string, k: nat, values: map<string, string>)
    requires TokenAt(t) == Some(k)
    ensures Render(t, values) == Substitute(t[1..k - 1], t[..k], values) + Render(t[k..], values)
  {
  }

  /** The token step of `RenderSplitsAtBrace`: when `a` and `ab` start with
      the same token, the split carries over from what follows it. */
  lemma TokenSplitsAtBrace(a: string, ab: string, k: nat, y: string, values: map<string, string>)
    requires 2 <= k <= |a| && k <= |ab|
    requires TokenAt(a) == Some(k) && TokenAt(ab) == Some(k)
    requires ab[..k] == a[..k] && ab[1..k - 1] == a[1..k - 1]
    requires Render(ab[k..], values) == Render(a[k..], values) + y
    ensures Render(ab, values) == Render(a, values) + y
  {
    var sub := Substitute(a[1..k - 1], a[..k], values);
    RenderAtToken(ab, k, values);
    RenderAtToken(a, k, values);
    var x := Render(a[k..], values);
    AppendAssoc(sub, x, y);
  }

  lemma AppendAssoc(p: string, q: string, r: string)
    ensures p + (q + r) == (p + q) + r
  {
  }

  /** The textarea's selection, in characters. */
  datatype Selection = Selection(start: int, end: int)

  /** The new content and where the cursor is put afterwards. */
  datatype Insertion = Insertion(content: string, cursor: int)

  /** `Math.min(Math.max(i, 0), |s|)`: how `substring` clamps an index. */
  function ClampIndex(s: string, i: int): (r: nat)
    ensures r <= |s|
    ensures 0 <= i <= |s| ==> r == i
  {
    if i < 0 then 0 else if i > |s| then |s| else i
  }

  /** `handleInsertVariable`: with no textarea nothing happens; otherwise the
      selection is replaced by `{variable}` and the cursor goes to
      `start + |variable| + 2`, right after the closing brace. */
  function InsertVariable(content: string, selection: Option<Selection>, variable: string): (r: Option<Insertion>)
    ensures r.Some? <==> selection.Some?
    ensures selection.Some? && 0 <= selection.value.start <= selection.value.end <= |content| ==>
              var start, end := selection.value.start, selection.value.end;
              var ins := r.value;
              && |ins.content| == |content| - (end - start) + |variable| + 2
              && ins.cursor == start + |variable| + 2
              && ins.content[..ins.cursor] == content[..start] + "{" + variable + "}"
              && ins.content[ins.cursor..] == content[end..]
  {
    match selection
    case None => None
    case Some(sel) =>
      var before := content[..ClampIndex(content, sel.start)];
      var after := content[ClampIndex(content, sel.end)..];
      var newContent := before + "{" + variable + "}" + after;
      assert 0 <= sel.start <= sel.end <= |content| ==>
        newContent[..sel.start + |variable| + 2] == before + "{" + variable + "}";
      Some(Insertion(newContent, sel.start + |variable| + 2))
  }

  /** A lead column inserted at the selection shows in the preview as its
      value, between the previews of the text around it. */
  lemma InsertedVariablePreviews(content: string, start: int, end: int, variable: string, values: map<string, string>)
    requires 0 <= start <= end <= |content|
    requires IsWord(variable) && variable in values && values[variable] != ""
    ensures var ins := InsertVariable(content, Some(Selection(start, end)), variable).value;
            Render(ins.content, values)
            == Render(content[..start], values) + values[variable] + Render(content[end..], values)
  {
    var before, after := content[..start], content[end..];
    var token := "{" + variable + "}";
    var ins := InsertVariable(content, Some(Selection(start, end)), variable).value;
    assert ins.content == before + (token + after);
    RenderSplitsAtBrace(before, token + after, values);
    assert token + after == "{" + variable + "}" + after;
    RenderToken(variable, after, values);
  }
}
