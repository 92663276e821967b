/** Recovering the JSON text from a language-model reply. Four places run the regular
    expression /```json\n([\s\S]*?)\n```/ over a reply and parse the captured group
    when there is a match, the whole reply otherwise: the refresh handler, the
    search-claims handler, the research handler and `generateScientificClaim`. */
module Extraction {
  import opened Wrappers
  import opened JsValues

  /** The literal that opens a fenced block: three backticks, `json`, a line feed. */
  const Opener: string := "```json\n"

  /** The literal that closes it: a line feed and three backticks. */
  const Closer: string := "\n```"

  /** `pat` occurs in `text` starting at index `i`. */
  predicate OccursAt(text: string, pat: string, i: nat) {
    i + |pat| <= |text| && text[i..i + |pat|] == pat
  }

  /** `pat` occurs nowhere in `text`. */
  ghost predicate Absent(text: string, pat: string) {
    forall k: nat :: !OccursAt(text, pat, k)
  }

  /** An opener at `open` and a closer at `close`, after it: a candidate match. */
  predicate IsFence(text: string, open: nat, close: nat) {
    OccursAt(text, Opener, open) && open + |Opener| <= close && OccursAt(text, Closer, close)
  }

  /** `text` holds no opener with a closer somewhere after it. */
  ghost predicate Unfenced(text: string) {
    forall i: nat, j: nat :: !IsFence(text, i, j)
  }

  /** The match the regular expression reports: the leftmost opener that has a
      closer after it, and, because `*?` is lazy, the first closer after that opener. */
  ghost predicate IsLeftmostLazy(text: string, open: nat, close: nat) {
    && IsFence(text, open, close)
    && (forall i: nat, j: nat :: i < open ==> !IsFence(text, i, j))
    && (forall k: nat :: open + |Opener| <= k < close ==> !OccursAt(text, Closer, k))
  }

  /** The position of a match: where its opener and its closer start. */
  datatype Fence = Fence(open: nat, close: nat)

  /** The first occurrence of `pat` at or after `from`. */
  function FindFrom(text: string, pat: string, from: nat): (r: Option<nat>)
    ensures r.Some? ==> from <= r.value && OccursAt(text, pat, r.value)
    ensures r.Some? ==> forall k: nat :: from <= k < r.value ==> !OccursAt(text, pat, k)
    ensures r.None? ==> forall k: nat :: from <= k ==> !OccursAt(text, pat, k)
    decreases |text| - from
  {
    if from + |pat| > |text| then None
    else if OccursAt(text, pat, from) then Some(from)
    else FindFrom(text, pat, from + 1)
  }

  /** The regular-expression engine's search from start position `start`: try to
      match the opener there, then extend the lazy group up to the first closer; on
      failure move the start one character to the right. */
  function MatchFrom(text: string, start: nat): (r: Option<Fence>)
    ensures r.Some? ==> start <= r.value.open && IsFence(text, r.value.open, r.value.close)
    ensures r.Some? ==> forall i: nat, j: nat :: start <= i < r.value.open ==> !IsFence(text, i, j)
    ensures r.Some? ==> forall k: nat :: r.value.open + |Opener| <= k < r.value.close ==> !OccursAt(text, Closer, k)
    ensures r.None? ==> forall i: nat, j: nat :: start <= i ==> !IsFence(text, i, j)
    decreases |text| - start
  {
    if start + |Opener| > |text| then None
    else if OccursAt(text, Opener, start) then
      match FindFrom(text, Closer, start + |Opener|)
      case Some(c) => Some(Fence(start, c))
      case None => MatchFrom(text, start + 1)
    else MatchFrom(text, start + 1)
  }

  /** `text.match(/```json\n([\s\S]*?)\n```/)`: the match, if there is one. */
  function FencedMatch(text: string): (r: Option<Fence>)
    ensures r.None? <==> Unfenced(text)
    ensures r.Some? ==> IsLeftmostLazy(text, r.value.open, r.value.close)
  {
    MatchFrom(text, 0)
  }

  /** The text handed to `JSON.parse`: the captured group when the reply holds a
      fenced block, the whole reply otherwise. */
  function ExtractPayload(text: string): (r: string)
    ensures r == text <==> Unfenced(text)
    ensures !Unfenced(text) ==> exists i: nat, j: nat :: IsLeftmostLazy(text, i, j) && r == text[i + |Opener|..j]
  {
    match FencedMatch(text)
    case Some(f) => text[f.open + |Opener|..f.close]
    case None => text
  }

  /** `jsonMatch ? JSON.parse(jsonMatch[1]) : JSON.parse(text)`, where `parse` stands
      for `JSON.parse` and `None` for the SyntaxError it throws. */
  function DecodeReply(text: string, parse: string -> Option<Value>): (r: Result<Value, JsError>)
    ensures Unfenced(text) ==> (r.Ok? <==> parse(text).Some?)
    ensures Unfenced(text) && r.Ok? ==> r.value == parse(text).value
    ensures !Unfenced(text) ==> exists i: nat, j: nat ::
      && IsLeftmostLazy(text, i, j)
      && (r.Ok? <==> parse(text[i + |Opener|..j]).Some?)
      && (r.Ok? ==> r.value == parse(text[i + |Opener|..j]).value)
    ensures r.Err? ==> r.error == SyntaxError
  {
    match parse(ExtractPayload(text))
    case Some(v) => Ok(v)
    case None => Err(SyntaxError)
  }

  // ---------------------------------------------------------------------------
  // Properties of the extraction

  /** There is only one leftmost-lazy match. */
  lemma LeftmostLazyUnique(text: string, i: nat, j: nat, i': nat, j': nat)
    requires IsLeftmostLazy(text, i, j) && IsLeftmostLazy(text, i', j')
    ensures i == i' && j == j'
  {
  }

  /** The payload is the text between the regular expression's match delimiters. */
  lemma PayloadOf(text: string, i: nat, j: nat)
    requires IsLeftmostLazy(text, i, j)
    ensures ExtractPayload(text) == text[i + |Opener|..j]
  {
    var p := ExtractPayload(text);
    var i2: nat, j2: nat :| IsLeftmostLazy(text, i2, j2) && p == text[i2 + |Opener|..j2];
    LeftmostLazyUnique(text, i2, j2, i, j);
  }

  /** The payload of a match never contains a closer: the lazy group stops at the
      first one. */
  lemma PayloadHasNoCloser(text: string)
    requires !Unfenced(text)
    ensures Absent(ExtractPayload(text), Closer)
  {
    var i, j := FencedMatch(text).value.open, FencedMatch(text).value.close;
    PayloadOf(text, i, j);
    forall k: nat | OccursAt(ExtractPayload(text), Closer, k)
      ensures false
    {
      OccursInSlice(text, i + |Opener|, j, Closer, k);
    }
  }

  /** A closer occurrence in `Opener + s + Closer + rest` that starts before the
      appended closer lies wholly inside `s`. */
  lemma CloserInsideWrapped(s: string, rest: string, k: nat)
    requires |Opener| <= k < |Opener| + |s|
    requires OccursAt(Opener + s + Closer + rest, Closer, k)
    ensures OccursAt(s, Closer, k - |Opener|)
  {
    var text := Opener + s + Closer + rest;
    var e := |Opener| + |s|;
    // A closer straddling the end of `s` would need a backtick where the appended
    // closer has its line feed, so the occurrence ends inside `s`.
    assert text[e] == '\n';
    assert forall m :: k < m < k + |Closer| ==> text[m] == text[k..k + |Closer|][m - k] == '`';
    assert k + |Closer| <= e;
    assert text[k..k + |Closer|] == s[k - |Opener|..k - |Opener| + |Closer|];
  }

  /** The literals wrapped around `s` form a fence at the very start. */
  lemma WrappedIsFence(s: string, rest: string)
    ensures IsFence(Opener + s + Closer + rest, 0, |Opener| + |s|)
  {
    var text := Opener + s + Closer + rest;
    var e := |Opener| + |s|;
    assert text[..|Opener|] == Opener;
    assert text[e..e + |Closer|] == Closer;
  }

  /** A closer inside `s` is a closer of the wrapped text, shifted by the opener. */
  lemma CloserShifts(s: string, rest: string, k: nat)
    requires OccursAt(s, Closer, k)
    ensures OccursAt(Opener + s + Closer + rest, Closer, |Opener| + k)
  {
    var text := Opener + s + Closer + rest;
    assert text[|Opener|..|Opener| + |s|] == s;
    OccursInSlice(text, |Opener|, |Opener| + |s|, Closer, k);
  }

  /** The first fenced block wins: whatever follows it is ignored. */
  lemma {:induction false} FirstFenceWins(s: string, rest: string)
    requires Absent(s, Closer)
    ensures ExtractPayload(Opener + s + Closer + rest) == s
  {
    var text := Opener + s + Closer + rest;
    var e := |Opener| + |s|;
    WrappedIsFence(s, rest);
    forall k: nat | |Opener| <= k < e
      ensures !OccursAt(text, Closer, k)
    {
      if OccursAt(text, Closer, k) {
        CloserInsideWrapped(s, rest, k);
      }
    }
    assert IsLeftmostLazy(text, 0, e);
    PayloadOf(text, 0, e);
    assert text[|Opener|..e] == s;
  }

  /** A closer inside `s` ends the lazy group early: the payload falls short of `s`. */
  lemma EmbeddedCloserCutsShort(s: string, k: nat)
    requires OccursAt(s, Closer, k)
    ensures |ExtractPayload(Opener + s + Closer)| < |s|
  {
    var text := Opener + s + Closer;
    assert text == Opener + s + Closer + [];
    WrappedIsFence(s, []);
    CloserShifts(s, [], k);
    var f := FencedMatch(text).value;
    assert f.open == 0;
    PayloadOf(text, f.open, f.close);
    assert f.close <= |Opener| + k;
  }

  /** Round trip: fencing `s` and extracting gives `s` back exactly when `s` holds no
      closer of its own. */
  lemma {:induction false} FenceRoundTrip(s: string)
    ensures ExtractPayload(Opener + s + Closer) == s <==> Absent(s, Closer)
  {
    if Absent(s, Closer) {
      assert Opener + s + Closer == Opener + s + Closer + [];
      FirstFenceWins(s, []);
    } else {
      var k: nat :| OccursAt(s, Closer, k);
      EmbeddedCloserCutsShort(s, k);
    }
  }

  /** An occurrence inside the slice `text[a..b]` is an occurrence in `text`, shifted
      by `a`, that ends by `b`. */
  lemma OccursInSlice(text: string, a: nat, b: nat, pat: string, k: nat)
    requires a <= b <= |text|
    ensures OccursAt(text[a..b], pat, k) <==> OccursAt(text, pat, a + k) && a + k + |pat| <= b
  {
    if a + k + |pat| <= b {
      var u := text[a..b];
      assert forall m :: k <= m < k + |pat| ==> u[m] == text[a + m];
      assert u[k..k + |pat|] == text[a + k..a + k + |pat|];
    }
  }

  /** A slice of a slice is a slice of the whole. */
  lemma SliceOfSlice(text: string, a: nat, b: nat, x: nat, y: nat)
    requires a <= b <= |text| && x <= y <= b - a
    ensures text[a..b][x..y] == text[a + x..a + y]
  {
    var u := text[a..b];
    assert forall m :: x <= m < y ==> u[m] == text[a + m];
  }

  /** Both literals start and end with a backtick except the opener's final line
      feed and the closer's leading one, so an occurrence that is followed by a
      non-whitespace character cannot reach into the whitespace `trim` removes. */
  lemma FenceInsideTrim(text: string, i: nat, j: nat)
    requires IsFence(text, i, j)
    ensures TrimStart(text) <= i && j + |Closer| <= TrimEnd(text)
  {
    assert text[i] == text[i..i + |Opener|][0] == '`';
    assert text[j + 3] == text[j..j + |Closer|][3] == '`';
    assert Trim(text) == text[TrimStart(text)..TrimEnd(text)];
  }

  /** A fence of the trimmed text is a fence of the text, shifted by the trimmed start. */
  lemma FenceFromTrimmed(text: string, i: nat, j: nat)
    requires IsFence(Trim(text), i, j)
    ensures IsFence(text, TrimStart(text) + i, TrimStart(text) + j)
  {
    assert Trim(text) == text[TrimStart(text)..TrimEnd(text)];
    OccursInSlice(text, TrimStart(text), TrimEnd(text), Opener, i);
    OccursInSlice(text, TrimStart(text), TrimEnd(text), Closer, j);
  }

  /** A fence of the text is a fence of the trimmed text. */
  lemma FenceToTrimmed(text: string, i: nat, j: nat)
    requires IsFence(text, i, j)
    ensures TrimStart(text) <= i && IsFence(Trim(text), i - TrimStart(text), j - TrimStart(text))
  {
    FenceInsideTrim(text, i, j);
    OccursInSlice(text, TrimStart(text), TrimEnd(text), Opener, i - TrimStart(text));
    OccursInSlice(text, TrimStart(text), TrimEnd(text), Closer, j - TrimStart(text));
  }

  /** The regular expression's match in the text is its match in the trimmed text. */
  lemma LeftmostLazyTrimmed(text: string, i: nat, j: nat)
    requires IsLeftmostLazy(text, i, j)
    ensures TrimStart(text) <= i && IsLeftmostLazy(Trim(text), i - TrimStart(text), j - TrimStart(text))
  {
    var a, b, t := TrimStart(text), TrimEnd(text), Trim(text);
    FenceToTrimmed(text, i, j);
    forall i0: nat, j0: nat | i0 < i - a
      ensures !IsFence(t, i0, j0)
    {
      if IsFence(t, i0, j0) {
        FenceFromTrimmed(text, i0, j0);
      }
    }
    forall k: nat | i - a + |Opener| <= k < j - a
      ensures !OccursAt(t, Closer, k)
    {
      OccursInSlice(text, a, b, Closer, k);
    }
  }

  /** Trimming never creates or removes a fenced block. */
  lemma TrimKeepsFenced(text: string)
    ensures Unfenced(Trim(text)) <==> Unfenced(text)
  {
    if !Unfenced(Trim(text)) {
      var i: nat, j: nat :| IsFence(Trim(text), i, j);
      FenceFromTrimmed(text, i, j);
    }
    if !Unfenced(text) {
      var i: nat, j: nat :| IsFence(text, i, j);
      FenceToTrimmed(text, i, j);
    }
  }

  /** Trimming the reply first, as the research paths do, changes nothing when the
      reply holds a fenced block: the fence and its payload lie inside the trimmed
      text. Only the unfenced fall-back sees the difference. */
  lemma TrimKeepsPayload(text: string)
    requires !Unfenced(text)
    ensures ExtractPayload(Trim(text)) == ExtractPayload(text)
  {
    var f := FencedMatch(text).value;
    PayloadOf(text, f.open, f.close);
    TrimmedPayload(text, f.open, f.close);
  }

  /** The payload of the trimmed text is the slice of the text between the match's
      delimiters. */
  lemma TrimmedPayload(text: string, i: nat, j: nat)
    requires IsLeftmostLazy(text, i, j)
    ensures ExtractPayload(Trim(text)) == text[i + |Opener|..j]
  {
    var a, b := TrimStart(text), TrimEnd(text);
    TrimmedPayloadShifted(text, i, j);
    SliceShift(text, a, b, i + |Opener|, j);
  }

  /** In the trimmed text the payload sits at the match's positions shifted by the
      trimmed start. */
  lemma TrimmedPayloadShifted(text: string, i: nat, j: nat)
    requires IsLeftmostLazy(text, i, j)
    ensures TrimStart(text) + |Opener| <= i + |Opener| <= j <= TrimEnd(text) <= |text|
    ensures Trim(text) == text[TrimStart(text)..TrimEnd(text)]
    ensures ExtractPayload(Trim(text))
         == Trim(text)[i + |Opener| - TrimStart(text)..j - TrimStart(text)]
  {
    FenceInsideTrim(text, i, j);
    LeftmostLazyTrimmed(text, i, j);
    PayloadOf(Trim(text), i - TrimStart(text), j - TrimStart(text));
  }

  /** Slicing `text[a..b]` at positions shifted by `a` is slicing `text` itself. */
  lemma SliceShift(text: string, a: nat, b: nat, x: nat, y: nat)
    requires a <= x <= y <= b <= |text|
    ensures text[a..b][x - a..y - a] == text[x..y]
  {
    SliceOfSlice(text, a, b, x - a, y - a);
  }

  /** Decoding the trimmed reply parses the same text as decoding the reply itself,
      unless there is no fenced block, in which case the trimmed reply is parsed. */
  lemma DecodeTrimmed(text: string, parse: string -> Option<Value>)
    ensures Unfenced(Trim(text)) <==> Unfenced(text)
    ensures !Unfenced(text) ==> DecodeReply(Trim(text), parse) == DecodeReply(text, parse)
  {
    TrimKeepsFenced(text);
    if !Unfenced(text) {
      TrimKeepsPayload(text);
    }
  }
}
