/** Tool names and their wire form `domain__provider__tool` (src/naming.rs). */
module Naming {
  import opened Prelude
  import opened SchemaText

  const MAX_WIRE_NAME_LEN := 64

  datatype ToolNameError =
    | InvalidShape(text: string)
    | EmptySegment
    | InvalidSegment(segment: string)
    | Overlong(wire: string)

  datatype ToolName = ToolName(domain: string, provider: string, tool: string) {
    function Wire(): (w: string)
      ensures |w| == |domain| + |provider| + |tool| + 4
    {
      domain + "__" + provider + "__" + tool
    }

    /** The two-segment form `provider__tool`. */
    function TwoSegment(): string { provider + "__" + tool }
  }

  function Lower(c: char): char { if 'A' <= c <= 'Z' then (c as int + 32) as char else c }

  /** Case folding, with blanks turned into dashes. */
  function Fold(c: char): char { if Lower(c) == ' ' then '-' else Lower(c) }

  predicate SegmentChar(c: char) { 'a' <= c <= 'z' || '0' <= c <= '9' || 'A' <= c <= 'Z' || c == '-' || c == '_' }

  function Normalize(value: string): Result<string, ToolNameError> {
    var t := Trim(value);
    var s := Map(Fold, t);
    if s == [] then Err(EmptySegment)
    else if forall i :: 0 <= i < |s| ==> SegmentChar(s[i]) then Ok(s)
    else Err(InvalidSegment(s))
  }

  /** `ToolName::new`: the first failing segment decides the error, then the length. */
  function New(domain: string, provider: string, tool: string): Result<ToolName, ToolNameError> {
    var d := Normalize(domain);
    if d.Err? then Err(d.error) else
    var p := Normalize(provider);
    if p.Err? then Err(p.error) else
    var t := Normalize(tool);
    if t.Err? then Err(t.error) else
    var name := ToolName(d.value, p.value, t.value);
    if |name.Wire()| > MAX_WIRE_NAME_LEN then Err(Overlong(name.Wire())) else Ok(name)
  }

  /** The position of the first `__`, or the length. */
  function FirstSep(s: string): (k: nat)
    ensures k <= |s|
    ensures k < |s| ==> k + 1 < |s| && s[k] == '_' && s[k + 1] == '_'
    ensures forall i :: 0 <= i < k && i + 1 < |s| ==> !(s[i] == '_' && s[i + 1] == '_')
  {
    if |s| < 2 then |s|
    else if s[0] == '_' && s[1] == '_' then 0
    else var k := FirstSep(s[1..]); k + 1
  }

  /** `str::split("__")`: left to right, without overlap. */
  function Split(s: string): (parts: seq<string>)
    ensures parts != []
    decreases |s|
  {
    var k := FirstSep(s);
    if k == |s| then [s] else [s[..k]] + Split(s[k + 2..])
  }

  function Parse(value: string): Result<ToolName, ToolNameError> {
    var parts := Split(value);
    if |parts| != 3 then Err(InvalidShape(value)) else New(parts[0], parts[1], parts[2])
  }

  // ── Normalisation ──

  /** A segment as `new` leaves it. */
  predicate Normal(s: string) {
    s != [] && forall i :: 0 <= i < |s| ==> SegmentChar(s[i]) && !('A' <= s[i] <= 'Z')
  }

  predicate NormalName(n: ToolName) {
    Normal(n.domain) && Normal(n.provider) && Normal(n.tool) && |n.Wire()| <= MAX_WIRE_NAME_LEN
  }

  lemma FoldedIsLower(c: char)
    ensures !('A' <= Fold(c) <= 'Z')
  {
  }

  lemma NormalizeYieldsNormal(value: string)
    ensures Normalize(value).Ok? ==> Normal(Normalize(value).value)
  {
    var t := Trim(value);
    var s := Map(Fold, t);
    forall i | 0 <= i < |s| ensures !('A' <= s[i] <= 'Z') { FoldedIsLower(t[i]); }
    assert Normalize(value).Ok? ==> Normalize(value).value == s;
  }

  lemma NormalizeNormal(s: string)
    requires Normal(s)
    ensures Normalize(s) == Ok(s)
  {
    assert Map(Fold, s) == s by {
      forall i | 0 <= i < |s| ensures Fold(s[i]) == s[i] { assert SegmentChar(s[i]); }
    }
    assert Trim(s) == s by {
      assert SegmentChar(s[0]) && SegmentChar(s[|s| - 1]);
      TrimTrimmed(s);
    }
  }

  predicate Allowed(c: char) { 'a' <= c <= 'z' || '0' <= c <= '9' || c == '-' || c == '_' }

  /** Upper case becomes lower case, a blank a dash, and anything else stays. */
  predicate FoldsTo(c: char, d: char) {
    if 'A' <= c <= 'Z' then d as int == c as int + 32 else if c == ' ' then d == '-' else d == c
  }

  ghost predicate FoldedText(t: string, s: string) {
    |s| == |t| && forall i :: 0 <= i < |s| ==> Allowed(s[i]) && FoldsTo(t[i], s[i])
  }

  lemma FoldIs(c: char, d: char)
    ensures FoldsTo(c, d) <==> d == Fold(c)
    ensures Allowed(d) <==> SegmentChar(d) && !('A' <= d <= 'Z')
  {
  }

  lemma FoldedTextIff(t: string, s: string)
    ensures FoldedText(t, s) <==> s == Map(Fold, t) && forall i :: 0 <= i < |s| ==> SegmentChar(s[i])
  {
    forall i | 0 <= i < |s| && i < |t|
      ensures FoldsTo(t[i], s[i]) <==> s[i] == Fold(t[i])
      ensures Allowed(s[i]) <==> SegmentChar(s[i]) && !('A' <= s[i] <= 'Z')
      ensures !('A' <= Fold(t[i]) <= 'Z')
    {
      FoldIs(t[i], s[i]);
      FoldedIsLower(t[i]);
    }
  }

  /** What normalising does: trim, fold, and accept lower-case letters, digits, `-` and `_` only. */
  lemma NormalizeIff(value: string, s: string)
    ensures Normalize(value) == Ok(s) <==> s != [] && FoldedText(Trim(value), s)
  {
    FoldedTextIff(Trim(value), s);
  }

  /** The first segment that fails decides the error, and only then the length: 64 with both separators. */
  lemma NewErrs(domain: string, provider: string, tool: string)
    ensures var d, p, t, r := Normalize(domain), Normalize(provider), Normalize(tool), New(domain, provider, tool);
            && (d.Err? ==> r == Err(d.error)) && (d.Ok? && p.Err? ==> r == Err(p.error))
            && (d.Ok? && p.Ok? && t.Err? ==> r == Err(t.error))
            && (d.Ok? && p.Ok? && t.Ok? ==>
                  && (r.Ok? <==> |d.value| + |p.value| + |t.value| <= 60)
                  && (r.Ok? ==> r.value == ToolName(d.value, p.value, t.value)) && (r.Err? ==> r.error.Overlong?))
  {
  }

  /** Normalising twice is normalising once. */
  lemma NormalizeIdempotent(value: string)
    requires Normalize(value).Ok?
    ensures Normalize(Normalize(value).value) == Normalize(value)
  {
    NormalizeYieldsNormal(value);
    NormalizeNormal(Normalize(value).value);
  }

  /** `new` succeeds with exactly the normal names, and is the identity on them. */
  lemma NewYieldsNormalName(domain: string, provider: string, tool: string)
    ensures var r := New(domain, provider, tool); r.Ok? ==> NormalName(r.value)
  {
    NormalizeYieldsNormal(domain);
    NormalizeYieldsNormal(provider);
    NormalizeYieldsNormal(tool);
  }

  lemma NewOfNormalName(n: ToolName)
    requires NormalName(n)
    ensures New(n.domain, n.provider, n.tool) == Ok(n)
  {
    NormalizeNormal(n.domain);
    NormalizeNormal(n.provider);
    NormalizeNormal(n.tool);
  }

  // ── Splitting a wire name ──

  predicate HasSep(s: string) { FirstSep(s) < |s| }

  predicate EndsInUnderscore(s: string) { s != [] && s[|s| - 1] == '_' }

  /** The first separator of `x__rest` is the one after `x` iff `x` has none and does not end in `_`. */
  lemma {:induction false} FirstSepOfJoin(x: string, rest: string)
    ensures FirstSep(x + "__" + rest) <= |x|
    ensures FirstSep(x + "__" + rest) == |x| <==> !HasSep(x) && !EndsInUnderscore(x)
  {
    var s := x + "__" + rest;
    var k := FirstSep(s);
    assert s[|x|] == '_' && s[|x| + 1] == '_';
    assert forall i :: 0 <= i < |x| ==> s[i] == x[i];
    if HasSep(x) {
      assert s[FirstSep(x)] == '_' && s[FirstSep(x) + 1] == '_';
    } else if EndsInUnderscore(x) {
      assert s[|x| - 1] == '_';
    }
  }

  /** A segment that a following `__` does not blur. */
  predicate Clean(x: string) { !HasSep(x) && !EndsInUnderscore(x) }

  lemma SplitOfJoin(x: string, rest: string)
    ensures Clean(x) ==> Split(x + "__" + rest) == [x] + Split(rest)
    ensures !Clean(x) ==> Split(x + "__" + rest)[0] != x
  {
    var s := x + "__" + rest;
    var k := FirstSep(s);
    FirstSepOfJoin(x, rest);
    if k == |x| {
      assert s[..k] == x && s[k + 2..] == rest;
    } else {
      assert |s[..k]| != |x|;
    }
  }

  function Join(parts: seq<string>): string
    requires parts != []
  {
    if |parts| == 1 then parts[0] else parts[0] + "__" + Join(parts[1..])
  }

  /** Splitting loses nothing, and leaves no separator in any part. */
  lemma {:induction false} SplitRejoins(s: string)
    ensures Join(Split(s)) == s && forall j :: 0 <= j < |Split(s)| ==> !HasSep(Split(s)[j])
    decreases |s|
  {
    var k := FirstSep(s);
    if k < |s| {
      SplitRejoins(s[k + 2..]);
      var rest := Split(s[k + 2..]);
      assert ([s[..k]] + rest)[1..] == rest && s == s[..k] + "__" + s[k + 2..];
      assert FirstSep(s[..k]) == k;
    }
  }

  /** The names whose wire form splits back into their own segments. */
  predicate Splittable(n: ToolName) {
    Clean(n.domain) && Clean(n.provider) && !HasSep(n.tool)
  }

  lemma SplitAlone(t: string)
    ensures if HasSep(t) then |Split(t)| >= 2 else Split(t) == [t]
  {
  }

  lemma SplitTwice(d: string, p: string, t: string)
    ensures Clean(d) && Clean(p) ==> Split(d + "__" + (p + "__" + t)) == [d, p] + Split(t)
    ensures !Clean(d) || !Clean(p) ==>
              var parts := Split(d + "__" + (p + "__" + t)); |parts| < 2 || parts[0] != d || parts[1] != p
  {
    var rest := p + "__" + t;
    SplitOfJoin(d, rest);
    SplitOfJoin(p, t);
    if Clean(d) {
      var tail := Split(rest);
      assert ([d] + tail)[1] == tail[0];
      if Clean(p) {
        assert [d] + ([p] + Split(t)) == [d, p] + Split(t);
      }
    }
  }

  lemma SplitWire(n: ToolName)
    ensures var parts := Split(n.Wire());
            if Splittable(n) then parts == [n.domain, n.provider, n.tool]
            else |parts| != 3 || parts[0] != n.domain || parts[1] != n.provider
  {
    SplitTwice(n.domain, n.provider, n.tool);
    SplitAlone(n.tool);
    assert n.Wire() == n.domain + "__" + (n.provider + "__" + n.tool);
  }

  /** Splitting a text of normal characters yields such texts. */
  lemma {:induction false} SplitChars(s: string)
    requires forall i :: 0 <= i < |s| ==> SegmentChar(s[i]) && !('A' <= s[i] <= 'Z')
    ensures forall j :: 0 <= j < |Split(s)| ==> Split(s)[j] == [] || Normal(Split(s)[j])
    decreases |s|
  {
    var k := FirstSep(s);
    if k < |s| {
      SplitChars(s[k + 2..]);
    }
  }

  /**
   Parsing the wire form of a constructed name gives the name back exactly when no segment
   contains `__` and neither domain nor provider ends in `_`.
   */
  lemma ParseWire(n: ToolName)
    requires NormalName(n)
    ensures Parse(n.Wire()) == Ok(n) <==> Splittable(n)
  {
    var w := n.Wire();
    var parts := Split(w);
    SplitWire(n);
    if Splittable(n) {
      NewOfNormalName(n);
    } else if |parts| == 3 && Parse(w).Ok? {
      WireChars(n);
      SplitChars(w);
      NormalizeParts(parts[0], parts[1], parts[2]);
    }
  }

  /** For instance, an upstream tool called `c__d` has a wire name that does not parse back. */
  lemma SeparatorInToolDoesNotParse()
    ensures var n := ToolName("a", "b", "c__d"); NormalName(n) && Parse(n.Wire()) != Ok(n)
  {
    var n := ToolName("a", "b", "c__d");
    assert n.tool[1] == '_' && n.tool[2] == '_' && HasSep(n.tool);
    ParseWire(n);
  }

  lemma WireChars(n: ToolName)
    requires NormalName(n)
    ensures forall i :: 0 <= i < |n.Wire()| ==> SegmentChar(n.Wire()[i]) && !('A' <= n.Wire()[i] <= 'Z')
  {
  }

  lemma NormalizeParts(d: string, p: string, t: string)
    requires (d == [] || Normal(d)) && (p == [] || Normal(p)) && (t == [] || Normal(t))
    requires New(d, p, t).Ok?
    ensures New(d, p, t).value == ToolName(d, p, t)
  {
    assert Trim([]) == [];
    if d != [] { NormalizeNormal(d); }
    if p != [] { NormalizeNormal(p); }
    if t != [] { NormalizeNormal(t); }
  }

  /** Whatever text is parsed, an accepted name is normal and within the length bound. */
  lemma ParseYieldsNormalName(value: string)
    ensures Parse(value).Ok? ==> NormalName(Parse(value).value)
  {
    var parts := Split(value);
    if |parts| == 3 {
      NewYieldsNormalName(parts[0], parts[1], parts[2]);
    }
  }
}
