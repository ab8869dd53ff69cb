/** UTF-8 texts as bytes and slicing at character boundaries (src/shaping.rs, src/http/tools.rs). */
module Utf8 {

  newtype Byte = x: int | 0 <= x < 256

  type Bytes = seq<Byte>

  predicate IsTail(b: Byte) { 0x80 <= b <= 0xBF }

  /** Length of the character at the front, by the syntax in section 4 of RFC 3629; 0 if there is none. */
  function CharLen(s: Bytes): (n: nat)
    ensures n <= |s| && n <= 4
    ensures n > 0 ==> !IsTail(s[0]) && forall i :: 1 <= i < n ==> IsTail(s[i])
  {
    if |s| >= 1 && s[0] <= 0x7F then 1
    else if |s| >= 2 && 0xC2 <= s[0] <= 0xDF && IsTail(s[1]) then 2
    else if |s| >= 3 && IsTail(s[2]) &&
            (|| (s[0] == 0xE0 && 0xA0 <= s[1] <= 0xBF)
             || ((0xE1 <= s[0] <= 0xEC || 0xEE <= s[0] <= 0xEF) && IsTail(s[1]))
             || (s[0] == 0xED && 0x80 <= s[1] <= 0x9F)) then 3
    else if |s| >= 4 && IsTail(s[2]) && IsTail(s[3]) &&
            (|| (s[0] == 0xF0 && 0x90 <= s[1] <= 0xBF)
             || (0xF1 <= s[0] <= 0xF3 && IsTail(s[1]))
             || (s[0] == 0xF4 && 0x80 <= s[1] <= 0x8F)) then 4
    else 0
  }

  predicate Valid(s: Bytes) {
    s == [] || (CharLen(s) > 0 && Valid(s[CharLen(s)..]))
  }

  // ── Texts are the encodings of character numbers, section 3 of RFC 3629 ──

  /** The numbers that name a character: up to U+10FFFF, without the surrogates. */
  predicate IsScalar(n: nat) { n < 0xD800 || 0xE000 <= n < 0x11_0000 }

  function EncodeScalar(n: nat): Bytes
    requires IsScalar(n)
  {
    if n < 0x80 then [n as Byte]
    else if n < 0x800 then [(0xC0 + n / 0x40) as Byte, (0x80 + n % 0x40) as Byte]
    else if n < 0x1_0000 then [(0xE0 + n / 0x1000) as Byte, (0x80 + n / 0x40 % 0x40) as Byte, (0x80 + n % 0x40) as Byte]
    else [(0xF0 + n / 0x4_0000) as Byte, (0x80 + n / 0x1000 % 0x40) as Byte, (0x80 + n / 0x40 % 0x40) as Byte,
          (0x80 + n % 0x40) as Byte]
  }

  function EncodeAll(cs: seq<nat>): Bytes
    requires forall i :: 0 <= i < |cs| ==> IsScalar(cs[i])
  {
    if cs == [] then [] else EncodeScalar(cs[0]) + EncodeAll(cs[1..])
  }

  /** An encoded character is read as one character, whatever follows. */
  lemma EncodedIsChar(n: nat, rest: Bytes)
    requires IsScalar(n)
    ensures CharLen(EncodeScalar(n) + rest) == |EncodeScalar(n)| > 0
  {
    var s := EncodeScalar(n) + rest;
    if n < 0x80 {
    } else if n < 0x800 {
    } else if n < 0x1_0000 {
      assert n / 0x1000 == 0 ==> n / 0x40 % 0x40 >= 0x20;
      assert n / 0x1000 == 0xD ==> n / 0x40 % 0x40 < 0x20;
    } else {
      assert n / 0x4_0000 == 0 ==> n / 0x1000 % 0x40 >= 0x10;
      assert n / 0x4_0000 == 4 ==> n / 0x1000 % 0x40 < 0x10;
    }
  }

  /** The number of the character at the front. */
  function Decoded(s: Bytes): (n: nat)
    requires CharLen(s) > 0
    ensures IsScalar(n)
  {
    match CharLen(s)
    case 1 => s[0] as nat
    case 2 => (s[0] as nat - 0xC0) * 0x40 + (s[1] as nat - 0x80)
    case 3 => (s[0] as nat - 0xE0) * 0x1000 + (s[1] as nat - 0x80) * 0x40 + (s[2] as nat - 0x80)
    case _ =>
      var high := (s[0] as nat - 0xF0) * 0x4_0000 + (s[1] as nat - 0x80) * 0x1000;
      high + (s[2] as nat - 0x80) * 0x40 + (s[3] as nat - 0x80)
  }

  lemma SixBits(a: nat, b: nat)
    requires b < 0x40
    ensures (a * 0x40 + b) / 0x40 == a && (a * 0x40 + b) % 0x40 == b
  {
  }

  lemma TwelveBits(a: nat, b: nat, c: nat)
    requires b < 0x40 && c < 0x40
    ensures var n := a * 0x1000 + b * 0x40 + c; n / 0x1000 == a && n / 0x40 % 0x40 == b && n % 0x40 == c
  {
    SixBits(a * 0x40 + b, c);
    SixBits(a, b);
  }

  lemma EighteenBits(a: nat, b: nat, c: nat, d: nat)
    requires b < 0x40 && c < 0x40 && d < 0x40
    ensures var n := a * 0x4_0000 + b * 0x1000 + c * 0x40 + d;
            n / 0x4_0000 == a && n / 0x1000 % 0x40 == b && n / 0x40 % 0x40 == c && n % 0x40 == d
  {
    TwelveBits(a * 0x40 + b, c, d);
    SixBits(a, b);
  }

  /** And what is read as a character is the encoding of its number. */
  lemma CharIsEncoded(s: Bytes)
    requires CharLen(s) > 0
    ensures EncodeScalar(Decoded(s)) == s[..CharLen(s)]
  {
    match CharLen(s)
    case 1 =>
    case 2 => SixBits(s[0] as nat - 0xC0, s[1] as nat - 0x80);
    case 3 => TwelveBits(s[0] as nat - 0xE0, s[1] as nat - 0x80, s[2] as nat - 0x80);
    case _ => EighteenBits(s[0] as nat - 0xF0, s[1] as nat - 0x80, s[2] as nat - 0x80, s[3] as nat - 0x80);
  }

  lemma {:induction false} EncodedIsValid(cs: seq<nat>)
    requires forall i :: 0 <= i < |cs| ==> IsScalar(cs[i])
    ensures Valid(EncodeAll(cs))
  {
    if cs != [] {
      var rest := EncodeAll(cs[1..]);
      EncodedIsValid(cs[1..]);
      EncodedIsChar(cs[0], rest);
      assert EncodeAll(cs)[|EncodeScalar(cs[0])|..] == rest;
    }
  }

  /** A byte sequence is a text exactly when it encodes a sequence of characters. */
  lemma {:induction false} ValidIsEncoded(s: Bytes) returns (cs: seq<nat>)
    requires Valid(s)
    ensures (forall i :: 0 <= i < |cs| ==> IsScalar(cs[i])) && EncodeAll(cs) == s
  {
    if s == [] { return []; }
    var n := CharLen(s);
    CharIsEncoded(s);
    var rest := ValidIsEncoded(s[n..]);
    cs := [Decoded(s)] + rest;
    assert cs[1..] == rest && s == s[..n] + s[n..];
  }

  /** `str::is_char_boundary`. */
  predicate IsBoundary(s: Bytes, i: nat) {
    i == 0 || i == |s| || (i < |s| && !IsTail(s[i]))
  }

  lemma CharLenOfPrefix(s: Bytes, i: nat)
    requires 0 < CharLen(s) <= i <= |s|
    ensures CharLen(s[..i]) == CharLen(s)
  {
  }

  /** Cutting a text at a boundary leaves two texts. */
  lemma {:induction false} BoundarySplits(s: Bytes, i: nat)
    requires Valid(s) && i <= |s| && IsBoundary(s, i)
    ensures Valid(s[..i]) && Valid(s[i..])
    decreases |s|
  {
    if 0 < i {
      var n := CharLen(s);
      assert n <= i;
      var rest := s[n..];
      assert i < |s| ==> rest[i - n] == s[i];
      BoundarySplits(rest, i - n);
      CharLenOfPrefix(s, i);
      assert s[i..] == rest[i - n..] && s[..i][n..] == rest[..i - n];
    }
  }

  lemma StartsWithLead(s: Bytes)
    requires Valid(s) && s != []
    ensures !IsTail(s[0])
  {
  }

  /** Between a boundary and the next one lies one character, of at most four bytes. */
  lemma NextBoundary(s: Bytes, i: nat)
    requires Valid(s) && i < |s| && IsBoundary(s, i)
    ensures var n := CharLen(s[i..]);
            && 1 <= n <= 4 && i + n <= |s| && IsBoundary(s, i + n)
            && forall j :: i < j < i + n ==> !IsBoundary(s, j)
  {
    BoundarySplits(s, i);
    var rest := s[i..];
    var n := CharLen(rest);
    assert forall j :: 0 <= j < |rest| ==> rest[j] == s[i + j];
    if i + n < |s| {
      StartsWithLead(rest[n..]);
      assert rest[n..][0] == s[i + n];
    }
    forall j | i < j < i + n ensures !IsBoundary(s, j) {
      assert IsTail(rest[j - i]);
    }
  }

  // ── floor_char_boundary ──

  /** `r` is the greatest boundary that does not exceed `index`. */
  predicate IsFloor(s: Bytes, index: nat, r: nat) {
    r <= index && r <= |s| && IsBoundary(s, r) && forall j :: r < j <= index && j <= |s| ==> !IsBoundary(s, j)
  }

  function Floor(s: Bytes, index: nat): (r: nat)
    ensures IsFloor(s, index, r)
  {
    if index >= |s| then |s| else if IsBoundary(s, index) then index else Floor(s, index - 1)
  }

  method FloorCharBoundary(s: Bytes, index: nat) returns (r: nat)
    ensures r == Floor(s, index)
  {
    if index >= |s| { return |s|; }
    r := index;
    while r > 0 && !IsBoundary(s, r)
      invariant r <= index && Floor(s, r) == Floor(s, index)
    {
      r := r - 1;
    }
  }

  lemma FloorMonotone(s: Bytes, i: nat, j: nat)
    requires i <= j
    ensures Floor(s, i) <= Floor(s, j)
  {
  }

  lemma FloorOfBoundary(s: Bytes, i: nat)
    requires i <= |s| && IsBoundary(s, i)
    ensures Floor(s, i) == i
  {
  }

  function TruncateUtf8(s: Bytes, max: nat): Bytes {
    if |s| <= max then s else s[..Floor(s, max)]
  }

  lemma CharLenOfWhole(s: Bytes, i: nat)
    requires i <= |s| && CharLen(s[..i]) > 0
    ensures CharLen(s) == CharLen(s[..i])
  {
  }

  /** A valid prefix of a valid text ends at a boundary. */
  lemma {:induction false} ValidPrefixEndsAtBoundary(s: Bytes, i: nat)
    requires Valid(s) && i <= |s| && Valid(s[..i])
    ensures IsBoundary(s, i)
    decreases i
  {
    if 0 < i < |s| {
      var n := CharLen(s[..i]);
      CharLenOfWhole(s, i);
      var rest := s[n..];
      assert s[..i][n..] == rest[..i - n];
      ValidPrefixEndsAtBoundary(rest, i - n);
      assert rest[i - n] == s[i];
      if i == n { StartsWithLead(rest); }
    }
  }

  /** A truncated text is the longest valid text that fits and begins the original. */
  lemma TruncateIsLongestFit(s: Bytes, max: nat, other: nat)
    requires Valid(s) && other <= |s| && other <= max
    ensures var t := TruncateUtf8(s, max);
            && Valid(t) && t <= s && |t| <= max
            && (Valid(s[..other]) ==> other <= |t|)
  {
    BoundarySplits(s, Floor(s, max));
    if Valid(s[..other]) { ValidPrefixEndsAtBoundary(s, other); }
  }

  // ── Chunks and the continuation protocol ──

  datatype Chunk = Chunk(text: Bytes, offset: nat, totalLen: nat, hasMore: bool)

  function ChunkAt(s: Bytes, offset: nat, limit: nat): (c: Chunk)
    ensures c.hasMore ==> c.offset + |c.text| < |s|
  {
    if offset >= |s| then Chunk([], offset, |s|, false)
    else
      var end := if |s| <= offset + limit then |s| else offset + limit;
      var safeEnd, safeOffset := Floor(s, end), Floor(s, offset);
      FloorMonotone(s, offset, end);
      Chunk(s[safeOffset..safeEnd], safeOffset, |s|, safeEnd < |s|)
  }

  /** Any chunk, also one at a misaligned offset, is a text that lies in the body where it says. */
  lemma ChunkIsSlice(s: Bytes, offset: nat, limit: nat)
    requires Valid(s)
    ensures var c := ChunkAt(s, offset, limit);
            && Valid(c.text)
            && (offset < |s| ==>
                  && c.offset <= offset && c.offset + |c.text| <= |s|
                  && c.text == s[c.offset..c.offset + |c.text|]
                  && IsBoundary(s, c.offset) && IsBoundary(s, c.offset + |c.text|))
  {
    if offset < |s| {
      ChunkShape(s, offset, limit);
      SliceIsValid(s, Floor(s, offset), NextOffset(s, offset, limit));
    }
  }

  /** A chunk stays within its limit, and says truly whether there is more. */
  lemma ChunkIsWithinLimit(s: Bytes, offset: nat, limit: nat)
    ensures offset < |s| ==> NextOffset(s, offset, limit) <= offset + limit
    ensures var c := ChunkAt(s, offset, limit); c.totalLen == |s| && (c.hasMore <==> NextOffset(s, offset, limit) < |s|)
  {
  }

  lemma FloorIsNear(s: Bytes, index: nat)
    requires Valid(s) && index < |s|
    ensures index < Floor(s, index) + 4
  {
    NextBoundary(s, Floor(s, index));
  }

  /** It stops short of its limit only at the end of the body or because the next character does not fit. */
  lemma ChunkFillsItsLimit(s: Bytes, offset: nat, limit: nat)
    requires Valid(s) && offset < |s|
    ensures NextOffset(s, offset, limit) == |s| || offset + limit < NextOffset(s, offset, limit) + 4
  {
    ChunkShape(s, offset, limit);
    if offset + limit < |s| { FloorIsNear(s, offset + limit); }
  }

  lemma SliceIsValid(s: Bytes, a: nat, b: nat)
    requires Valid(s) && a <= b <= |s| && IsBoundary(s, a) && IsBoundary(s, b)
    ensures Valid(s[a..b])
  {
    BoundarySplits(s, b);
    assert IsBoundary(s[..b], a);
    BoundarySplits(s[..b], a);
    assert s[..b][a..] == s[a..b];
  }

  /** Where the client asks next. */
  function NextOffset(s: Bytes, offset: nat, limit: nat): nat {
    var c := ChunkAt(s, offset, limit);
    c.offset + |c.text|
  }

  /** Every request inside the body moves on. */
  ghost predicate Progresses(s: Bytes, limit: nat) {
    forall offset: nat :: offset < |s| ==> NextOffset(s, offset, limit) > offset
  }

  /** With room for the character it points into, a request moves on, also from a misaligned offset. */
  lemma ChunkAdvances(s: Bytes, offset: nat, limit: nat)
    requires Valid(s) && offset < |s| && CharLen(s[Floor(s, offset)..]) <= limit
    ensures NextOffset(s, offset, limit) > offset
  {
    NextBoundary(s, Floor(s, offset));
  }

  /** At a boundary the chunk is empty when the next character does not fit. */
  lemma ChunkStalls(s: Bytes, offset: nat, limit: nat)
    requires Valid(s) && offset < |s| && IsBoundary(s, offset) && CharLen(s[offset..]) > limit
    ensures ChunkAt(s, offset, limit) == Chunk([], offset, |s|, true)
  {
  }

  /** The protocol moves on from every offset exactly when each character of the body fits the limit. */
  lemma ProgressesIff(s: Bytes, limit: nat)
    requires Valid(s)
    ensures Progresses(s, limit) <==> forall i: nat :: i < |s| && IsBoundary(s, i) ==> CharLen(s[i..]) <= limit
  {
    if Progresses(s, limit) {
      forall i: nat | i < |s| && IsBoundary(s, i) ensures CharLen(s[i..]) <= limit {
        assert NextOffset(s, i, limit) > i;
        if CharLen(s[i..]) > limit { ChunkStalls(s, i, limit); }
      }
    }
    if forall i: nat :: i < |s| && IsBoundary(s, i) ==> CharLen(s[i..]) <= limit {
      forall offset: nat | offset < |s| ensures NextOffset(s, offset, limit) > offset {
        ChunkAdvances(s, offset, limit);
      }
    }
  }

  /** What a client collects by asking again at `offset + text length` while there is more. */
  ghost function Collect(s: Bytes, offset: nat, limit: nat): Bytes
    requires Progresses(s, limit)
    decreases |s| - offset
  {
    var c := ChunkAt(s, offset, limit);
    if c.hasMore then c.text + Collect(s, NextOffset(s, offset, limit), limit) else c.text
  }

  lemma ChunkShape(s: Bytes, offset: nat, limit: nat)
    ensures var c := ChunkAt(s, offset, limit);
            var next := NextOffset(s, offset, limit);
            if offset < |s| then
              c.offset == Floor(s, offset) <= next <= |s| && c.text == s[c.offset..next] && Floor(s, next) == next
                && (c.hasMore <==> next < |s|)
            else c.text == [] && !c.hasMore
  {
  }

  lemma {:induction false} CollectIsRest(s: Bytes, offset: nat, limit: nat)
    requires Progresses(s, limit) && offset <= |s|
    ensures Collect(s, offset, limit) == s[Floor(s, offset)..]
    decreases |s| - offset
  {
    ChunkShape(s, offset, limit);
    if ChunkAt(s, offset, limit).hasMore {
      var start, next := Floor(s, offset), NextOffset(s, offset, limit);
      CollectIsRest(s, next, limit);
      assert s[start..] == s[start..next] + s[next..];
    }
  }

  /** Reassembly: the truncated head followed by the collected chunks is the body, for every budget. */
  lemma HeadAndChunksReassemble(s: Bytes, budget: nat, limit: nat)
    requires Valid(s) && limit >= 4
    ensures Progresses(s, limit)
    ensures TruncateUtf8(s, budget) + Collect(s, |TruncateUtf8(s, budget)|, limit) == s
  {
    ProgressesIff(s, limit);
    HeadAndRest(s, budget, limit);
  }

  lemma HeadAndRest(s: Bytes, budget: nat, limit: nat)
    requires Progresses(s, limit)
    ensures TruncateUtf8(s, budget) + Collect(s, |TruncateUtf8(s, budget)|, limit) == s
  {
    var n := |TruncateUtf8(s, budget)|;
    CollectIsRest(s, n, limit);
    FloorOfBoundary(s, n);
    assert TruncateUtf8(s, budget) == s[..n];
  }

  // ── A conversation ──

  /** Replies to requests at `offset` and onwards, up to the one that says there is no more. */
  ghost predicate Replies(s: Bytes, offset: nat, limit: nat, replies: seq<Chunk>)
    decreases |replies|
  {
    && replies != [] && replies[0] == ChunkAt(s, offset, limit)
    && (if replies[0].hasMore then Replies(s, NextOffset(s, offset, limit), limit, replies[1..]) else |replies| == 1)
  }

  function Texts(replies: seq<Chunk>): Bytes {
    if replies == [] then [] else replies[0].text + Texts(replies[1..])
  }

  lemma {:induction false} RepliesCollect(s: Bytes, offset: nat, limit: nat, replies: seq<Chunk>)
    requires offset <= |s| && Replies(s, offset, limit, replies)
    ensures Texts(replies) == s[Floor(s, offset)..]
    decreases |replies|
  {
    ChunkShape(s, offset, limit);
    if replies[0].hasMore {
      var start, next := Floor(s, offset), NextOffset(s, offset, limit);
      RepliesCollect(s, next, limit, replies[1..]);
      assert s[start..] == s[start..next] + s[next..];
    } else {
      assert replies[1..] == [];
    }
  }

  /** Every conversation that comes to its end reassembles the body, whatever happened between its requests. */
  lemma RepliesReassemble(s: Bytes, budget: nat, limit: nat, replies: seq<Chunk>)
    requires Replies(s, |TruncateUtf8(s, budget)|, limit, replies)
    ensures TruncateUtf8(s, budget) + Texts(replies) == s
  {
    var n := |TruncateUtf8(s, budget)|;
    RepliesCollect(s, n, limit, replies);
    FloorOfBoundary(s, n);
    assert TruncateUtf8(s, budget) == s[..n];
  }

  /** The limit that the `asl__fetch` handler always passes. */
  const DEFAULT_BUDGET_BYTES := 48 * 1024

  /** With that limit every conversation ends. */
  lemma HandlerProgresses(s: Bytes)
    requires Valid(s)
    ensures Progresses(s, DEFAULT_BUDGET_BYTES)
  {
    ProgressesIff(s, DEFAULT_BUDGET_BYTES);
  }

  /** Four is the least limit that works for every text: below it a four-byte character repeats forever. */
  lemma NarrowLimitStalls(limit: nat)
    requires limit < 4
    ensures var grin: Bytes := [0xF0, 0x9F, 0x98, 0x80];
            && Valid(grin)
            && ChunkAt(grin, 0, limit) == Chunk([], 0, 4, true)
  {
  }
}
