/** Descriptions shown to agents: first sentence, at most `TEXT_CAP` characters (src/schema_view.rs). */
module SchemaText {

  const TEXT_CAP := 200

  const ELLIPSIS: char := '\U{2026}'

  /** Unicode White_Space, the test behind `char::is_whitespace` and `str::trim`. */
  predicate IsWhitespace(c: char) {
    || '\U{9}' <= c <= '\U{D}' || c == ' ' || c == '\U{85}' || c == '\U{A0}' || c == '\U{1680}'
    || '\U{2000}' <= c <= '\U{200A}' || c == '\U{2028}' || c == '\U{2029}' || c == '\U{202F}'
    || c == '\U{205F}' || c == '\U{3000}'
  }

  predicate IsBreak(c: char) { c == '\n' || c == '\r' }

  predicate IsCjk(c: char) {
    '\U{4E00}' <= c <= '\U{9FFF}' || '\U{3400}' <= c <= '\U{4DBF}' || '\U{3000}' <= c <= '\U{303F}'
  }

  predicate IsWideStop(c: char) { c == '\U{3002}' || c == '\U{FF01}' || c == '\U{FF1F}' }

  predicate IsAsciiStop(c: char) { c == '.' || c == '!' || c == '?' }

  /** A character that may open the next sentence. `upper` is `char::is_uppercase`. */
  predicate IsStarter(upper: char -> bool, c: char) {
    upper(c) || IsCjk(c) || c == '"' || c == '\'' || c == '\U{201C}' || c == '\U{2018}' || c == '(' || c == '['
  }

  function TrimStart(s: string): (r: string)
    ensures |r| <= |s| && r == s[|s| - |r|..]
    ensures r != [] ==> !IsWhitespace(r[0])
    ensures forall i :: 0 <= i < |s| - |r| ==> IsWhitespace(s[i])
  {
    if s != [] && IsWhitespace(s[0]) then TrimStart(s[1..]) else s
  }

  function TrimEnd(s: string): (r: string)
    ensures |r| <= |s| && r == s[..|r|]
    ensures r != [] ==> !IsWhitespace(r[|r| - 1])
    ensures forall i :: |r| <= i < |s| ==> IsWhitespace(s[i])
  {
    if s != [] && IsWhitespace(s[|s| - 1]) then TrimEnd(s[..|s| - 1]) else s
  }

  function Trim(s: string): (r: string)
    ensures r != [] ==> !IsWhitespace(r[0]) && !IsWhitespace(r[|r| - 1])
  {
    var t := TrimEnd(s);
    TrimStart(t)
  }

  lemma TrimTrimmed(s: string)
    requires s != [] ==> !IsWhitespace(s[0]) && !IsWhitespace(s[|s| - 1])
    ensures Trim(s) == s
  {
  }

  /** The first position from `i` on that holds a line break or a visible character. */
  function FirstVisible(s: string, i: nat): (k: nat)
    requires i <= |s|
    ensures i <= k <= |s|
    ensures forall j :: i <= j < k ==> IsWhitespace(s[j]) && !IsBreak(s[j])
    ensures k < |s| ==> !IsWhitespace(s[k]) || IsBreak(s[k])
    decreases |s| - i
  {
    if i < |s| && IsWhitespace(s[i]) && !IsBreak(s[i]) then FirstVisible(s, i + 1) else i
  }

  /** Whether the text after an ASCII stop ends the sentence. */
  predicate SentenceEnd(upper: char -> bool, s: string, i: nat)
    requires i <= |s|
  {
    i == |s| || (IsWhitespace(s[i]) &&
                 var k := FirstVisible(s, i);
                 k == |s| || IsBreak(s[k]) || IsStarter(upper, s[k]))
  }

  predicate IsStop(upper: char -> bool, s: string, i: nat)
    requires i < |s|
  {
    IsBreak(s[i]) || IsWideStop(s[i]) || (IsAsciiStop(s[i]) && SentenceEnd(upper, s, i + 1))
  }

  function FirstStop(upper: char -> bool, s: string, i: nat): (k: nat)
    requires i <= |s|
    ensures i <= k <= |s|
    ensures forall j :: i <= j < k ==> !IsStop(upper, s, j)
    ensures k < |s| ==> IsStop(upper, s, k)
    decreases |s| - i
  {
    if i < |s| && !IsStop(upper, s, i) then FirstStop(upper, s, i + 1) else i
  }

  /** The text up to its first stop; a line break is not part of the sentence. */
  function FirstSentence(upper: char -> bool, s: string): string {
    var k := FirstStop(upper, s, 0);
    if k == |s| then s else if IsBreak(s[k]) then TrimEnd(s[..k]) else s[..k + 1]
  }

  function Shorten(s: string): (r: string)
    ensures |r| <= TEXT_CAP
  {
    if |s| <= TEXT_CAP then s else s[..TEXT_CAP - 1] + [ELLIPSIS]
  }

  function CapText(upper: char -> bool, text: string): string {
    Shorten(FirstSentence(upper, Trim(text)))
  }

  // ── The scanning loops ──

  method AsciiSentenceEnd(upper: char -> bool, rest: string) returns (r: bool)
    ensures r == SentenceEnd(upper, rest, 0)
  {
    if |rest| == 0 { return true; }
    if !IsWhitespace(rest[0]) { return false; }
    if IsBreak(rest[0]) { return true; }
    var i := 1;
    while i < |rest|
      invariant 1 <= i <= |rest|
      invariant FirstVisible(rest, 0) == FirstVisible(rest, i)
    {
      if IsBreak(rest[i]) { return true; }
      if !IsWhitespace(rest[i]) { return IsStarter(upper, rest[i]); }
      i := i + 1;
    }
    return true;
  }

  lemma FirstVisibleSuffix(s: string, i: nat, d: nat)
    requires d <= i <= |s|
    ensures FirstVisible(s, i) == d + FirstVisible(s[d..], i - d)
    decreases |s| - i
  {
  }

  method ScanFirstSentence(upper: char -> bool, text: string) returns (r: string)
    ensures r == FirstSentence(upper, text)
  {
    for i := 0 to |text|
      invariant FirstStop(upper, text, 0) == FirstStop(upper, text, i)
    {
      if IsBreak(text[i]) { return TrimEnd(text[..i]); }
      if IsWideStop(text[i]) { return text[..i + 1]; }
      if IsAsciiStop(text[i]) {
        var ends := AsciiSentenceEnd(upper, text[i + 1..]);
        FirstVisibleSuffix(text, i + 1, i + 1);
        if ends { return text[..i + 1]; }
      }
    }
    return text;
  }

  // ── What a sentence is ──

  /** Characters that may begin the next sentence: upper case, CJK and its punctuation, quotes and open brackets. */
  predicate Opens(upper: char -> bool, c: char) {
    || upper(c) || '\U{4E00}' <= c <= '\U{9FFF}' || '\U{3400}' <= c <= '\U{4DBF}' || '\U{3000}' <= c <= '\U{303F}'
    || c in {'"', '\'', '\U{201C}', '\U{2018}', '(', '['}
  }

  /**
   From `i` on there are only blanks up to `k`, and there the text or the line ends, or after a blank a
   sentence opens.
   */
  ghost predicate EndsAt(upper: char -> bool, t: string, i: nat, k: nat) {
    && i <= k <= |t| && (forall m :: i <= m < k ==> IsWhitespace(t[m]) && t[m] != '\n' && t[m] != '\r')
    && (k == |t| || t[k] == '\n' || t[k] == '\r' || (i < k && !IsWhitespace(t[k]) && Opens(upper, t[k])))
  }

  ghost predicate Ends(upper: char -> bool, t: string, i: nat) { exists k: nat :: EndsAt(upper, t, i, k) }

  /** A line break, a full-width stop, or a stop that such an end follows. */
  ghost predicate Stops(upper: char -> bool, t: string, j: nat)
    requires j < |t|
  {
    || t[j] in {'\n', '\r', '\U{3002}', '\U{FF01}', '\U{FF1F}'}
    || (t[j] in {'.', '!', '?'} && Ends(upper, t, j + 1))
  }

  lemma SentenceEndIff(upper: char -> bool, t: string, i: nat)
    requires i <= |t|
    ensures SentenceEnd(upper, t, i) <==> Ends(upper, t, i)
  {
    if SentenceEnd(upper, t, i) {
      assert EndsAt(upper, t, i, FirstVisible(t, i));
    }
    if k: nat :| EndsAt(upper, t, i, k) {
      assert k <= FirstVisible(t, i);
    }
  }

  lemma StopIff(upper: char -> bool, t: string, j: nat)
    requires j < |t|
    ensures IsStop(upper, t, j) <==> Stops(upper, t, j)
  {
    SentenceEndIff(upper, t, j + 1);
  }

  /**
   What capping does: the trimmed text up to its first stop, without a line break or the blanks before it; and of a
   sentence over 200 characters the first 199 and an ellipsis.
   */
  lemma CapTextIs(upper: char -> bool, text: string) returns (sentence: string, c: nat)
    ensures var t := Trim(text);
            && c <= |t| && (forall j :: 0 <= j < c ==> !Stops(upper, t, j)) && (c < |t| ==> Stops(upper, t, c))
            && sentence == (if c == |t| then t else if t[c] in {'\n', '\r'} then TrimEnd(t[..c]) else t[..c + 1])
            && CapText(upper, text) == if |sentence| <= 200 then sentence else sentence[..199] + ['\U{2026}']
  {
    var t := Trim(text);
    c := FirstStop(upper, t, 0);
    sentence := FirstSentence(upper, t);
    forall j | 0 <= j < |t| ensures IsStop(upper, t, j) <==> Stops(upper, t, j) { StopIff(upper, t, j); }
  }

  /** Trimming takes blanks off both ends and nothing else. */
  lemma TrimIs(s: string) returns (a: nat, b: nat)
    ensures a <= b <= |s| && Trim(s) == s[a..b]
    ensures forall i :: 0 <= i < a || b <= i < |s| ==> IsWhitespace(s[i])
    ensures a < b ==> !IsWhitespace(s[a]) && !IsWhitespace(s[b - 1])
  {
    b := |TrimEnd(s)|;
    a := b - |Trim(s)|;
  }

  // ── Stability ──

  /** Cutting after a visible character creates no stop before it. */
  lemma PrefixKeepsNonStop(upper: char -> bool, s: string, m: nat, j: nat)
    requires j + 1 < m <= |s| && !IsWhitespace(s[m - 1]) && !IsStop(upper, s, j)
    ensures !IsStop(upper, s[..m], j)
  {
  }

  lemma SameFirstVisible(s: string, r: string, i: nat, k: nat)
    requires i <= k < |s| && k < |r| && s[..k] == r[..k] && k == FirstVisible(s, i)
    requires !IsWhitespace(r[k])
    ensures FirstVisible(r, i) == k
  {
  }

  lemma SkipsTo(r: string, i: nat, n: nat)
    requires i <= n < |r| && !IsWhitespace(r[n])
    requires forall j :: i <= j < n ==> IsWhitespace(r[j]) && !IsBreak(r[j])
    ensures FirstVisible(r, i) == n
    decreases n - i
  {
  }

  /** Truncating with an ellipsis creates no stop either. */
  lemma TruncationKeepsNonStop(upper: char -> bool, s: string, n: nat, j: nat)
    requires j < n < |s| && !upper(ELLIPSIS) && !IsStop(upper, s, j)
    ensures !IsStop(upper, s[..n] + [ELLIPSIS], j)
  {
    var r := s[..n] + [ELLIPSIS];
    if IsAsciiStop(s[j]) {
      var k := FirstVisible(s, j + 1);
      if k < n {
        SameFirstVisible(s, r, j + 1, k);
      } else {
        forall x | j + 1 <= x < n ensures IsWhitespace(r[x]) && !IsBreak(r[x]) {
          assert r[x] == s[x];
        }
        SkipsTo(r, j + 1, n);
      }
    }
  }

  /** A text whose only possible stop is its last, visible character is its own first sentence. */
  lemma OwnFirstSentence(upper: char -> bool, r: string)
    requires r != [] ==> !IsWhitespace(r[|r| - 1])
    requires forall j :: 0 <= j < |r| - 1 ==> !IsStop(upper, r, j)
    ensures FirstSentence(upper, r) == r
  {
  }

  /** The first sentence of a trimmed text is trimmed, non-empty, and free of earlier stops. */
  lemma FirstSentenceShape(upper: char -> bool, t: string)
    requires t != [] && !IsWhitespace(t[0]) && !IsWhitespace(t[|t| - 1])
    ensures var s := FirstSentence(upper, t);
            && 0 < |s| <= |t| && s == t[..|s|] && !IsWhitespace(s[|s| - 1])
            && (forall j :: 0 <= j < |s| - 1 ==> !IsStop(upper, t, j))
            && (forall j :: 0 <= j < |s| ==> !IsBreak(s[j]))
  {
    var k := FirstStop(upper, t, 0);
    var s := FirstSentence(upper, t);
    if k < |t| && IsBreak(t[k]) {
      assert k > 0 && t[..k][0] == t[0];
      assert s == TrimEnd(t[..k]) && s != [];
    }
    forall j | 0 <= j < |s| ensures !IsBreak(s[j]) {
      assert s[j] == t[j];
      if j < k {
        assert !IsStop(upper, t, j);
      }
    }
  }

  lemma ShortenShape(s: string)
    requires s != [] && !IsWhitespace(s[|s| - 1]) && forall j :: 0 <= j < |s| ==> !IsBreak(s[j])
    ensures var r := Shorten(s);
            && r != [] && r[0] == s[0] && !IsWhitespace(r[|r| - 1])
            && (forall j :: 0 <= j < |r| ==> !IsBreak(r[j]))
            && (r == s || (|r| == TEXT_CAP && r == s[..TEXT_CAP - 1] + [ELLIPSIS]))
  {
  }

  /**
   A capped text has at most `TEXT_CAP` characters, no line break, is blank only for blank input,
   and begins and ends with a visible character.
   */
  lemma CapTextShape(upper: char -> bool, text: string)
    ensures var r := CapText(upper, text);
            && |r| <= TEXT_CAP
            && (r == [] <==> Trim(text) == [])
            && (r != [] ==> !IsWhitespace(r[0]) && !IsWhitespace(r[|r| - 1]))
            && (forall j :: 0 <= j < |r| ==> !IsBreak(r[j]))
  {
    var t := Trim(text);
    if t == [] {
      assert FirstSentence(upper, t) == [];
    } else {
      FirstSentenceShape(upper, t);
      ShortenShape(FirstSentence(upper, t));
    }
  }

  /** Capping neither blanks a text nor gives a blank one content. */
  lemma CappedBlankness(upper: char -> bool, text: string)
    ensures Trim(CapText(upper, text)) == [] <==> Trim(text) == []
  {
    CapTextShape(upper, text);
    TrimTrimmed(CapText(upper, text));
  }

  /** A capped text is the beginning of the trimmed text, with at most an ellipsis for the rest. */
  lemma CapTextPrefix(upper: char -> bool, text: string)
    ensures var r, t := CapText(upper, text), Trim(text);
            || r == t[..|r|]
            || (|r| == TEXT_CAP <= |t| && r == t[..TEXT_CAP - 1] + [ELLIPSIS])
  {
    FirstSentencePrefix(upper, Trim(text));
    ShortenedPrefix(FirstSentence(upper, Trim(text)), Trim(text));
  }

  lemma FirstSentencePrefix(upper: char -> bool, t: string)
    ensures FirstSentence(upper, t) <= t
  {
  }

  lemma ShortenedPrefix(s: string, t: string)
    requires s <= t
    ensures var r := Shorten(s); r <= t || (|r| == TEXT_CAP <= |t| && r == t[..TEXT_CAP - 1] + [ELLIPSIS])
  {
    if |s| > TEXT_CAP { assert s[..TEXT_CAP - 1] == t[..TEXT_CAP - 1]; }
  }

  /** Inside a first sentence no position is a stop of the sentence taken alone. */
  lemma FirstSentenceHasNoInnerStop(upper: char -> bool, t: string)
    requires t != [] && !IsWhitespace(t[0]) && !IsWhitespace(t[|t| - 1])
    ensures var s := FirstSentence(upper, t); forall j :: 0 <= j < |s| - 1 ==> !IsStop(upper, s, j)
  {
    FirstSentenceShape(upper, t);
    var s := FirstSentence(upper, t);
    forall j | 0 <= j < |s| - 1 ensures !IsStop(upper, s, j) {
      PrefixKeepsNonStop(upper, t, |s|, j);
    }
  }

  lemma ShortenedIsOwnFirstSentence(upper: char -> bool, s: string)
    requires !upper(ELLIPSIS) && (s != [] ==> !IsWhitespace(s[|s| - 1]))
    requires forall j :: 0 <= j < |s| - 1 ==> !IsStop(upper, s, j)
    ensures FirstSentence(upper, Shorten(s)) == Shorten(s)
  {
    var r := Shorten(s);
    if |s| > TEXT_CAP {
      forall j | 0 <= j < |r| - 1 ensures !IsStop(upper, r, j) {
        TruncationKeepsNonStop(upper, s, TEXT_CAP - 1, j);
      }
    }
    OwnFirstSentence(upper, r);
  }

  lemma CappedIsOwnFirstSentence(upper: char -> bool, text: string)
    requires !upper(ELLIPSIS)
    ensures FirstSentence(upper, CapText(upper, text)) == CapText(upper, text)
  {
    var t := Trim(text);
    if t != [] {
      FirstSentenceShape(upper, t);
      FirstSentenceHasNoInnerStop(upper, t);
      ShortenedIsOwnFirstSentence(upper, FirstSentence(upper, t));
    }
  }

  /** Capping a capped text changes nothing, for every Unicode text. */
  lemma CapTextIdempotent(upper: char -> bool, text: string)
    requires !upper(ELLIPSIS)
    ensures CapText(upper, CapText(upper, text)) == CapText(upper, text)
  {
    var r := CapText(upper, text);
    assert Trim(r) == r by {
      CapTextShape(upper, text);
      TrimTrimmed(r);
    }
    CappedIsOwnFirstSentence(upper, text);
  }
}
