/** The result cache behind `asl__fetch` (src/shaping.rs). Times are nanoseconds on one monotone clock. */
module ResultCache {
  import opened Prelude
  import opened Utf8

  const CACHE_TTL_SECS := 15 * 60

  const MAX_CACHE_ENTRIES := 64

  const MAX_CACHE_BYTES := 64 * 1024 * 1024

  datatype CachedResult = CachedResult(body: Bytes, createdAt: nat, proxyKey: string)

  datatype Outcome = Unchanged | Shaped(head: Bytes, cursor: string, totalLen: nat)

  /** `created_at.elapsed().as_secs() < CACHE_TTL_SECS`; elapsed time saturates at zero. */
  predicate Fresh(e: CachedResult, now: nat) {
    now < e.createdAt || (now - e.createdAt) / 1_000_000_000 < CACHE_TTL_SECS
  }

  /** An entry lives for fifteen minutes (times are nanoseconds). */
  lemma FreshIff(e: CachedResult, now: nat)
    ensures Fresh(e, now) <==> now < e.createdAt + 900_000_000_000
  {
  }

  // ── Cursor names `r{N}` ──

  function Decimal(n: nat): (s: string)
    ensures s != []
  {
    var digit := ['0' + (n % 10) as char];
    if n < 10 then digit else Decimal(n / 10) + digit
  }

  function CursorName(n: nat): string { "r" + Decimal(n) }

  lemma {:induction false} DecimalInjective(a: nat, b: nat)
    requires Decimal(a) == Decimal(b)
    ensures a == b
    decreases a + b, b
  {
    var x, y := Decimal(a), Decimal(b);
    assert x[|x| - 1] == '0' + (a % 10) as char && y[|y| - 1] == '0' + (b % 10) as char;
    if a >= 10 {
      assert |x| == |Decimal(a / 10)| + 1 && b >= 10;
      assert x[..|x| - 1] == Decimal(a / 10) && y[..|y| - 1] == Decimal(b / 10);
      DecimalInjective(a / 10, b / 10);
    } else if b >= 10 {
      DecimalInjective(b, a);
    }
  }

  lemma CursorNameInjective(a: nat, b: nat)
    requires CursorName(a) == CursorName(b)
    ensures a == b
  {
    assert CursorName(a)[1..] == Decimal(a) && CursorName(b)[1..] == Decimal(b);
    DecimalInjective(a, b);
  }

  /** How stores are named; all that the cache relies on is that no two share a name. */
  type Names = nat -> string

  ghost predicate Injective(name: Names) { forall i, j :: name(i) == name(j) ==> i == j }

  lemma CursorNamesInjective()
    ensures Injective(CursorName)
  {
    forall i: nat, j: nat | CursorName(i) == CursorName(j) ensures i == j { CursorNameInjective(i, j); }
  }

  // ── Bytes held by a map ──

  type Entries = map<string, CachedResult>

  ghost function TotalBytes(m: Entries): nat {
    if m == map[] then 0 else
    var k :| k in m;
    |m[k].body| + TotalBytes(m - {k})
  }

  /** The total does not depend on the order of summation. */
  lemma {:induction false} TotalWithout(m: Entries, k: string)
    requires k in m
    ensures TotalBytes(m) == |m[k].body| + TotalBytes(m - {k})
    decreases |m|
  {
    var j :| j in m && TotalBytes(m) == |m[j].body| + TotalBytes(m - {j});
    if j != k {
      TotalWithout(m - {j}, k);
      TotalWithout(m - {k}, j);
      assert m - {j} - {k} == m - {k} - {j};
    }
  }

  method SumBytes(m: Entries) returns (total: nat)
    ensures total == TotalBytes(m)
  {
    var rest := m;
    total := 0;
    while rest != map[]
      invariant total + TotalBytes(rest) == TotalBytes(m)
      decreases |rest|
    {
      var k :| k in rest;
      TotalWithout(rest, k);
      total := total + |rest[k].body|;
      rest := rest - {k};
    }
  }

  method OldestKey(m: Entries) returns (r: Option<string>)
    ensures r.None? <==> m == map[]
    ensures r.Some? ==> r.value in m && forall k :: k in m ==> m[r.value].createdAt <= m[k].createdAt
  {
    r := None;
    var todo := m.Keys;
    while todo != {}
      invariant todo <= m.Keys
      invariant r.None? ==> todo == m.Keys
      invariant r.Some? ==> r.value in m && forall k :: k in m && k !in todo ==> m[r.value].createdAt <= m[k].createdAt
    {
      var k :| k in todo;
      if r.None? || m[k].createdAt < m[r.value].createdAt { r := Some(k); }
      todo := todo - {k};
    }
  }

  // ── Parts of a map ──

  ghost predicate Part(m: Entries, whole: Entries) { forall k :: k in m ==> k in whole && m[k] == whole[k] }

  lemma RestSize(m: Entries, k: string)
    requires k in m
    ensures |m| == |m - {k}| + 1
  {
    assert m.Keys == (m - {k}).Keys + {k};
  }

  lemma {:induction false} PartTotal(m: Entries, whole: Entries)
    requires Part(m, whole)
    ensures |m| <= |whole| && TotalBytes(m) <= TotalBytes(whole)
    decreases |m|
  {
    if m != map[] {
      var k :| k in m;
      RestSize(m, k);
      RestSize(whole, k);
      PartTotal(m - {k}, whole - {k});
      TotalWithout(m, k);
      TotalWithout(whole, k);
    }
  }

  /** There is room for one more entry. */
  ghost predicate HasRoom(m: Entries) { |m| < MAX_CACHE_ENTRIES && TotalBytes(m) < MAX_CACHE_BYTES }

  /** No entry that went is newer than one that stayed. */
  ghost predicate OldestWent(was: Entries, m: Entries) {
    forall k, o :: k in was && k !in m && o in m ==> was[k].createdAt <= m[o].createdAt
  }

  /** There is room below 64 entries and 64 MiB, and not otherwise. */
  lemma HasRoomIff(m: Entries)
    ensures HasRoom(m) <==> |m| < 64 && TotalBytes(m) < 67_108_864
  {
  }

  /** `k` is the newest of the entries that went, and had it stayed there would be no room. */
  ghost predicate HadToGo(was: Entries, m: Entries, k: string) {
    && k in was && k !in m && !HasRoom(m[k := was[k]])
    && (forall g :: g in was && g !in m ==> was[g].createdAt <= was[k].createdAt)
  }

  /** What making room leaves: a part with room, the newest entries, and no more gone than had to go. */
  ghost predicate RoomMade(was: Entries, m: Entries) {
    Part(m, was) && HasRoom(m) && OldestWent(was, m) && (m == was || exists k :: HadToGo(was, m, k))
  }

  /** The entries stamped after `t`. */
  ghost function Newer(m: Entries, t: nat): Entries { map k | k in m && m[k].createdAt > t :: m[k] }

  lemma PartHasRoom(m: Entries, whole: Entries)
    requires Part(m, whole) && HasRoom(whole)
    ensures HasRoom(m)
  {
    PartTotal(m, whole);
  }

  /** Making room takes nothing newer than `t` exactly when there is room beside everything newer than `t`. */
  lemma NoneNewerWentIff(was: Entries, m: Entries, t: nat)
    requires RoomMade(was, m)
    ensures (forall g :: g in was && g !in m ==> was[g].createdAt <= t) <==> HasRoom(Newer(was, t))
  {
    if forall g :: g in was && g !in m ==> was[g].createdAt <= t {
      PartHasRoom(Newer(was, t), m);
    } else {
      var k :| HadToGo(was, m, k);
      var g :| g in was && g !in m && was[g].createdAt > t;
      assert was[g].createdAt <= was[k].createdAt;
      assert Part(m[k := was[k]], Newer(was, t));
      if HasRoom(Newer(was, t)) { PartHasRoom(m[k := was[k]], Newer(was, t)); }
    }
  }

  ghost function Retained(m: Entries, now: nat): Entries {
    map k | k in m && Fresh(m[k], now) :: m[k]
  }

  // ── Everything ever stored ──

  /** At most `MAX_CACHE_ENTRIES` entries, and all but the last one inserted fit the byte limit. */
  ghost predicate Bounded(entries: Entries, last: string) {
    |entries| <= MAX_CACHE_ENTRIES && TotalBytes(entries - {last}) < MAX_CACHE_BYTES
  }

  /** The cache holds the most recent of all stored records: nothing that is gone is newer than what is held. */
  ghost predicate Recent(stored: Entries, entries: Entries) { OldestWent(stored, entries) }

  lemma PartBounded(m: Entries, entries: Entries, last: string)
    requires Bounded(entries, last) && Part(m, entries)
    ensures Bounded(m, last)
  {
    PartTotal(m, entries);
    PartTotal(m - {last}, entries - {last});
  }

  /** Dropping the oldest of what is held keeps the cache recent. */
  lemma OldestWentRecent(m: Entries, entries: Entries, stored: Entries)
    requires Part(m, entries) && OldestWent(entries, m) && Part(entries, stored) && Recent(stored, entries)
    ensures Recent(stored, m)
  {
  }

  /** Expiry takes the oldest entries and no others. */
  lemma ExpiryTakesOldest(m: Entries, now: nat)
    ensures Part(Retained(m, now), m) && OldestWent(m, Retained(m, now))
  {
  }

  /** The record comes no earlier than anything gone, and fits beside everything newer than itself. */
  ghost predicate OnTime(stored: Entries, entries: Entries, e: CachedResult) {
    && (forall k :: k in stored && k !in entries ==> stored[k].createdAt <= e.createdAt)
    && HasRoom(Newer(entries, e.createdAt))
  }

  lemma InsertRecent(stored: Entries, m: Entries, cursor: string, e: CachedResult)
    requires Part(m, stored) && cursor !in stored && Recent(stored, m)
    ensures Recent(stored[cursor := e], m[cursor := e]) <==>
            forall k :: k in stored && k !in m ==> stored[k].createdAt <= e.createdAt
  {
    var s', m' := stored[cursor := e], m[cursor := e];
    if Recent(s', m') {
      forall k | k in stored && k !in m ensures stored[k].createdAt <= e.createdAt {
        assert k in s' && k !in m' && cursor in m';
      }
    }
  }

  /** Making room and inserting keeps the cache recent exactly when the record is on time. */
  lemma InsertRecentIff(stored: Entries, was: Entries, m: Entries, cursor: string, e: CachedResult)
    requires RoomMade(was, m) && Part(was, stored) && cursor !in stored && Recent(stored, was)
    ensures Recent(stored[cursor := e], m[cursor := e]) <==> OnTime(stored, was, e)
  {
    OldestWentRecent(m, was, stored);
    InsertRecent(stored, m, cursor, e);
    NoneNewerWentIff(was, m, e.createdAt);
    if forall k :: k in stored && k !in m ==> stored[k].createdAt <= e.createdAt {
      forall g | g in was && g !in m ensures was[g].createdAt <= e.createdAt { assert g in stored; }
    }
  }

  /** A record no older than anything stored is on time. */
  lemma LatestIsOnTime(stored: Entries, entries: Entries, e: CachedResult)
    requires Part(entries, stored) && forall k :: k in stored ==> stored[k].createdAt <= e.createdAt
    ensures OnTime(stored, entries, e)
  {
    assert Newer(entries, e.createdAt) == map[];
  }

  lemma InsertBounded(m: Entries, cursor: string, e: CachedResult)
    requires HasRoom(m) && cursor !in m
    ensures Bounded(m[cursor := e], cursor) && m[cursor := e] - {cursor} == m
  {
    assert m[cursor := e] - {cursor} == m && m[cursor := e].Keys == m.Keys + {cursor};
  }

  lemma InsertEffect(was: Entries, m: Entries, stored: Entries, cursor: string, e: CachedResult)
    requires RoomMade(was, m) && Part(was, stored) && cursor !in stored
    ensures Part(m[cursor := e], stored[cursor := e]) && Bounded(m[cursor := e], cursor)
            && m[cursor := e] - {cursor} == m
    ensures Recent(stored, was) ==> (Recent(stored[cursor := e], m[cursor := e]) <==> OnTime(stored, was, e))
  {
    InsertBounded(m, cursor, e);
    if Recent(stored, was) { InsertRecentIff(stored, was, m, cursor, e); }
  }

  /** In time order: an instant parts what a recent cache holds from what is gone. */
  lemma RecentIsSuffix(stored: Entries, entries: Entries) returns (from: nat)
    requires Part(entries, stored) && Recent(stored, entries)
    ensures forall k :: k in entries ==> from <= stored[k].createdAt
    ensures forall k :: k in stored && k !in entries ==> stored[k].createdAt <= from
    ensures (forall a, b :: a in stored && b in stored && a != b ==> stored[a].createdAt != stored[b].createdAt) ==>
              forall k :: k in stored ==> (k in entries <==> from <= stored[k].createdAt)
  {
    if entries == map[] {
      from := AfterAll(stored);
    } else {
      var oldest := Oldest(entries);
      from := entries[oldest].createdAt;
    }
  }

  lemma {:induction false} AfterAll(m: Entries) returns (t: nat)
    ensures forall k :: k in m ==> m[k].createdAt < t
    decreases |m|
  {
    if m == map[] { return 0; }
    var x :| x in m;
    var rest := m - {x};
    t := AfterAll(rest);
    t := if m[x].createdAt < t then t else m[x].createdAt + 1;
    forall k | k in m ensures m[k].createdAt < t { assert k == x || k in rest; }
  }

  lemma {:induction false} Oldest(m: Entries) returns (o: string)
    requires m != map[]
    ensures o in m && forall k :: k in m ==> m[o].createdAt <= m[k].createdAt
    decreases |m|
  {
    o :| o in m;
    var rest := m - {o};
    if rest != map[] {
      var p := Oldest(rest);
      forall k | k in m ensures m[p].createdAt <= m[k].createdAt || k == o { assert k == o || k in rest; }
      if m[p].createdAt < m[o].createdAt { o := p; }
    } else {
      forall k | k in m ensures k == o { assert k == o || k in rest; }
    }
  }

  /** Taking the oldest entry out of a full cache: it is the newest to go so far, and it had to. */
  lemma OldestHadToGo(was: Entries, full: Entries, k: string)
    requires Part(full, was) && OldestWent(was, full) && !HasRoom(full)
    requires k in full && forall o :: o in full ==> full[k].createdAt <= full[o].createdAt
    ensures Part(full - {k}, was) && OldestWent(was, full - {k}) && HadToGo(was, full - {k}, k)
  {
    assert full == (full - {k})[k := was[k]];
  }

  class ResultCache {
    /** `r{N}`. */
    const name: Names
    var entries: Entries
    var counter: nat
    /** Every record ever inserted, under its cursor, and the cursor of the last one. */
    ghost var stored: Entries
    ghost var last: string

    /**
     Holds between any two critical sections, in whatever order concurrent calls take them: every entry
     is a stored record under its own cursor, within both limits, and unused tickets name nothing.
     */
    ghost predicate Valid()
      reads this
    {
      Injective(name) && (forall n :: n >= counter ==> name(n) !in stored) && Part(entries, stored)
        && Bounded(entries, last)
    }

    constructor ()
      ensures Valid() && stored == map[] && entries == map[] && counter == 0
      ensures forall n :: name(n) == CursorName(n)
    {
      CursorNamesInjective();
      name := CursorName;
      entries, counter, stored, last := map[], 0, map[], "";
    }

    /** Expired entries go; they are the oldest. */
    method Sweep(now: nat)
      requires Valid()
      modifies this`entries
      ensures Valid() && entries == Retained(old(entries), now)
      ensures old(Recent(stored, entries)) ==> Recent(stored, entries)
    {
      ghost var left := Retained(entries, now);
      ExpiryTakesOldest(entries, now);
      PartBounded(left, entries, last);
      if Recent(stored, entries) { OldestWentRecent(left, entries, stored); }
      entries := map k | k in entries && Fresh(entries[k], now) :: entries[k];
    }

    /** The counter, read and advanced in one step. */
    method TakeTicket() returns (ticket: nat)
      requires Valid()
      modifies this`counter
      ensures Valid() && ticket == old(counter) && counter == old(counter) + 1 && name(ticket) !in stored
    {
      ticket := counter;
      counter := counter + 1;
    }

    /** The eviction loop: oldest first, until there is room, and no further. */
    method MakeRoom()
      modifies this`entries
      ensures RoomMade(old(entries), entries)
    {
      var total := SumBytes(entries);
      while |entries| >= MAX_CACHE_ENTRIES || total >= MAX_CACHE_BYTES
        invariant total == TotalBytes(entries) && Part(entries, old(entries)) && OldestWent(old(entries), entries)
        invariant entries == old(entries) || exists k :: HadToGo(old(entries), entries, k)
        decreases |entries|
      {
        var oldest := OldestKey(entries);
        if oldest.None? { break; }
        ghost var full := entries;
        entries := entries - {oldest.value};
        OldestHadToGo(old(entries), full, oldest.value);
        total := SumBytes(entries);
      }
    }

    /** The second critical section of `store`: make room, then insert what was stamped earlier. */
    method InsertEntry(ticket: nat, e: CachedResult)
      requires Valid() && ticket < counter && name(ticket) !in stored
      modifies this`entries, this`stored, this`last
      ensures Valid() && stored == old(stored)[name(ticket) := e] && last == name(ticket)
      ensures name(ticket) in entries && entries[name(ticket)] == e && RoomMade(old(entries), entries - {name(ticket)})
      ensures old(Recent(stored, entries)) ==>
                (Recent(stored, entries) <==> old(OnTime(stored, entries, e)))
    {
      ghost var was := entries;
      MakeRoom();
      InsertEffect(was, entries, stored, name(ticket), e);
      entries := entries[name(ticket) := e];
      stored, last := stored[name(ticket) := e], name(ticket);
    }

    /**
     `store` without interruption. The new entry is held afterwards, and the cache stays recent unless
     the clock ran backwards.
     */
    method Store(body: Bytes, proxyKey: string, now: nat) returns (cursor: string)
      requires Valid()
      modifies this
      ensures Valid() && cursor == name(old(counter)) && counter == old(counter) + 1 && cursor !in old(stored)
      ensures stored == old(stored)[cursor := CachedResult(body, now, proxyKey)]
      ensures cursor in entries && entries[cursor] == CachedResult(body, now, proxyKey)
      ensures RoomMade(Retained(old(entries), now), entries - {cursor})
      ensures old(Recent(stored, entries)) && (forall k :: k in old(stored) ==> old(stored)[k].createdAt <= now) ==>
              Recent(stored, entries)
    {
      Sweep(now);
      var ticket := TakeTicket();
      var e := CachedResult(body, now, proxyKey);
      if forall k :: k in stored ==> stored[k].createdAt <= now { LatestIsOnTime(stored, entries, e); }
      InsertEntry(ticket, e);
      return name(ticket);
    }

    /**
     The second critical section of `fetch`: a chunk of the body stored under this cursor by the same
     key, if fresh.
     */
    method Lookup(cursor: string, proxyKey: string, offset: nat, limit: nat, now: nat) returns (r: Option<Chunk>)
      requires Valid()
      ensures r.Some? <==> cursor in entries && stored[cursor].proxyKey == proxyKey && Fresh(stored[cursor], now)
      ensures r.Some? ==> r.value == ChunkAt(stored[cursor].body, offset, limit)
    {
      if cursor !in entries { return None; }
      var e := entries[cursor];
      if e.proxyKey != proxyKey || !Fresh(e, now) { return None; }
      return Some(ChunkAt(e.body, offset, limit));
    }

    /** `fetch` without interruption; the clock is read for the sweep and again for the entry. */
    method Fetch(cursor: string, proxyKey: string, offset: nat, limit: nat, sweepAt: nat, now: nat)
      returns (r: Option<Chunk>)
      requires Valid()
      modifies this`entries
      ensures Valid() && entries == Retained(old(entries), sweepAt)
      ensures old(Recent(stored, entries)) ==> Recent(stored, entries)
      ensures r.Some? <==> && cursor in old(entries) && stored[cursor].proxyKey == proxyKey
                           && Fresh(stored[cursor], sweepAt) && Fresh(stored[cursor], now)
      ensures r.Some? ==> r.value == ChunkAt(stored[cursor].body, offset, limit)
    {
      Sweep(sweepAt);
      r := Lookup(cursor, proxyKey, offset, limit, now);
    }

    /** `shape_result`: only a body over budget is cut and cached. */
    method ShapeResult(body: Bytes, budget: nat, proxyKey: string, now: nat) returns (r: Outcome)
      requires Valid()
      modifies this
      ensures Valid()
      ensures |body| <= budget ==> r == Unchanged && stored == old(stored) && entries == old(entries)
      ensures |body| > budget ==>
                && r == Shaped(TruncateUtf8(body, budget), name(old(counter)), |body|)
                && stored == old(stored)[r.cursor := CachedResult(body, now, proxyKey)] && r.cursor in entries
    {
      if |body| <= budget { return Unchanged; }
      var cursor := Store(body, proxyKey, now);
      return Shaped(TruncateUtf8(body, budget), cursor, |body|);
    }

    /** A client that fetches on from a head, asking at `clock(n)` for the `n`th time. */
    method ReadOn(cursor: string, proxyKey: string, head: Bytes, limit: nat, clock: nat -> nat)
      returns (all: Option<Bytes>)
      requires Valid() && cursor in stored && Progresses(stored[cursor].body, limit)
      requires head <= stored[cursor].body && IsBoundary(stored[cursor].body, |head|)
      modifies this`entries
      ensures Valid()
      ensures all.Some? ==> all.value == stored[cursor].body
      ensures cursor in old(entries) && stored[cursor].proxyKey == proxyKey ==>
                (forall n :: Fresh(stored[cursor], clock(n))) ==> all.Some?
    {
      ghost var body := stored[cursor].body;
      ghost var stays := cursor in entries && stored[cursor].proxyKey == proxyKey
        && forall n :: Fresh(stored[cursor], clock(n));
      var got, n := head, 0;
      while true
        invariant Valid() && got <= body && IsBoundary(body, |got|) && (stays ==> cursor in entries)
        decreases |body| - |got|
      {
        var c := Fetch(cursor, proxyKey, |got|, limit, clock(n), clock(n));
        if c.None? { return None; }
        ReadNext(body, got, limit);
        got, n := got + c.value.text, n + 1;
        if !c.value.hasMore { return Some(got); }
      }
    }

    /** End to end: a shaped result and its chunks are the body, as long as the entry does not expire meanwhile. */
    method ShapeAndReadOn(body: Bytes, budget: nat, proxyKey: string, now: nat, limit: nat, clock: nat -> nat)
      returns (all: Option<Bytes>)
      requires Valid() && Progresses(body, limit)
      modifies this
      ensures Valid()
      ensures all.Some? ==> all.value == body
      ensures (forall n :: Fresh(CachedResult(body, now, proxyKey), clock(n))) ==> all.Some?
    {
      var r := ShapeResult(body, budget, proxyKey, now);
      if r.Unchanged? { return Some(body); }
      all := ReadOn(r.cursor, proxyKey, r.head, limit, clock);
    }
  }

  /** A reply at a boundary extends what was read, to the end or by at least one character. */
  lemma ReadNext(body: Bytes, got: Bytes, limit: nat)
    requires got <= body && IsBoundary(body, |got|) && Progresses(body, limit)
    ensures var c := ChunkAt(body, |got|, limit);
            var more := got + c.text;
            && more <= body && IsBoundary(body, |more|)
            && (if c.hasMore then |got| < |more| else more == body)
  {
    ChunkShape(body, |got|, limit);
    FloorOfBoundary(body, |got|);
    var c := ChunkAt(body, |got|, limit);
    if |got| < |body| {
      var next := NextOffset(body, |got|, limit);
      assert got + c.text == body[..next];
    } else {
      assert got == body;
    }
  }

  // ── Every interleaving of the critical sections ──

  datatype CacheState = CacheState(entries: Entries, stored: Entries, last: string)

  const EMPTY := CacheState(map[], map[], "")

  /** The critical sections that change the cache: any sweep, and the insert of a record stamped at any time. */
  datatype Section = SweepAt(now: nat) | InsertOf(cursor: string, entry: CachedResult)

  /** What `Sweep` and `InsertEntry` promise, as a relation. */
  ghost predicate Becomes(s: CacheState, section: Section, s': CacheState) {
    match section
    case SweepAt(now) => s' == s.(entries := Retained(s.entries, now))
    case InsertOf(cursor, e) =>
      && cursor !in s.stored && s'.stored == s.stored[cursor := e] && s'.last == cursor
      && cursor in s'.entries && s'.entries[cursor] == e && RoomMade(s.entries, s'.entries - {cursor})
  }

  /** Concurrent calls take their critical sections in some order. */
  ghost predicate IsRun(states: seq<CacheState>, sections: seq<Section>) {
    && |states| == |sections| + 1 && states[0] == EMPTY
    && forall i :: 0 <= i < |sections| ==> Becomes(states[i], sections[i], states[i + 1])
  }

  ghost predicate Sound(s: CacheState) { Part(s.entries, s.stored) && Bounded(s.entries, s.last) }

  lemma SectionKeepsSound(s: CacheState, section: Section, s': CacheState)
    requires Sound(s) && Becomes(s, section, s')
    ensures Sound(s')
    ensures Recent(s.stored, s.entries) ==>
              (Recent(s'.stored, s'.entries) <==> (section.InsertOf? ==> OnTime(s.stored, s.entries, section.entry)))
  {
    match section
    case SweepAt(now) =>
      ExpiryTakesOldest(s.entries, now);
      PartBounded(s'.entries, s.entries, s.last);
      if Recent(s.stored, s.entries) { OldestWentRecent(s'.entries, s.entries, s.stored); }
    case InsertOf(cursor, e) =>
      var room := s'.entries - {cursor};
      assert s'.entries == room[cursor := e];
      InsertEffect(s.entries, room, s.stored, cursor, e);
  }

  /**
   In every interleaving, in every state: held entries are stored records, at most 64, all but the last
   insert under 64 MiB.
   */
  lemma {:induction false} RunKeepsSound(states: seq<CacheState>, sections: seq<Section>, n: nat)
    requires IsRun(states, sections) && n < |states|
    ensures Sound(states[n])
  {
    if n > 0 {
      RunKeepsSound(states, sections, n - 1);
      SectionKeepsSound(states[n - 1], sections[n - 1], states[n]);
    }
  }

  /** In numbers: never more than 64 entries, nor 64 MiB beside the last one inserted. */
  lemma RunKeepsLimits(states: seq<CacheState>, sections: seq<Section>, n: nat)
    requires IsRun(states, sections) && n < |states|
    ensures |states[n].entries| <= 64 && TotalBytes(states[n].entries - {states[n].last}) < 67_108_864
  {
    RunKeepsSound(states, sections, n);
  }

  /** Every record is on time when it is inserted. */
  ghost predicate AllOnTime(states: seq<CacheState>, sections: seq<Section>)
    requires |states| == |sections| + 1
  {
    forall i :: 0 <= i < |sections| && sections[i].InsertOf? ==>
        OnTime(states[i].stored, states[i].entries, sections[i].entry)
  }

  lemma {:induction false} OnTimeRunIsRecent(states: seq<CacheState>, sections: seq<Section>, n: nat)
    requires IsRun(states, sections) && n < |states| && AllOnTime(states, sections)
    ensures Recent(states[n].stored, states[n].entries)
  {
    if n > 0 {
      OnTimeRunIsRecent(states, sections, n - 1);
      RunKeepsSound(states, sections, n - 1);
      SectionKeepsSound(states[n - 1], sections[n - 1], states[n]);
    }
  }

  /**
   Cache history over every interleaving: what is held is the most recent of all stores in every state
   exactly when every record is on time at its insert.
   */
  lemma RunIsRecentIff(states: seq<CacheState>, sections: seq<Section>)
    requires IsRun(states, sections)
    ensures (forall n :: 0 <= n < |states| ==> Recent(states[n].stored, states[n].entries)) <==>
            AllOnTime(states, sections)
  {
    if AllOnTime(states, sections) {
      forall n | 0 <= n < |states| ensures Recent(states[n].stored, states[n].entries) {
        OnTimeRunIsRecent(states, sections, n);
      }
    }
    if forall n :: 0 <= n < |states| ==> Recent(states[n].stored, states[n].entries) {
      forall i | 0 <= i < |sections| && sections[i].InsertOf?
        ensures OnTime(states[i].stored, states[i].entries, sections[i].entry)
      {
        RunKeepsSound(states, sections, i);
        SectionKeepsSound(states[i], sections[i], states[i + 1]);
      }
    }
  }

  /** Records are inserted in the order of their stamps. */
  ghost predicate InStampOrder(sections: seq<Section>) {
    forall i, j :: 0 <= i < j < |sections| && sections[i].InsertOf? && sections[j].InsertOf? ==>
      sections[i].entry.createdAt <= sections[j].entry.createdAt
  }

  lemma {:induction false} StoredEarlier(states: seq<CacheState>, sections: seq<Section>, n: nat, t: nat)
    requires IsRun(states, sections) && n < |states|
    requires forall i :: 0 <= i < n && sections[i].InsertOf? ==> sections[i].entry.createdAt <= t
    ensures forall k :: k in states[n].stored ==> states[n].stored[k].createdAt <= t
  {
    if n > 0 {
      StoredEarlier(states, sections, n - 1, t);
      assert Becomes(states[n - 1], sections[n - 1], states[n]);
    }
  }

  /** In particular, with inserts in the order of their stamps the cache always holds the most recent stores. */
  lemma InOrderRunIsRecent(states: seq<CacheState>, sections: seq<Section>, n: nat)
    requires IsRun(states, sections) && InStampOrder(sections) && n < |states|
    ensures Sound(states[n]) && Recent(states[n].stored, states[n].entries)
  {
    forall i | 0 <= i < |sections| && sections[i].InsertOf?
      ensures OnTime(states[i].stored, states[i].entries, sections[i].entry)
    {
      StoredEarlier(states, sections, i, sections[i].entry.createdAt);
      RunKeepsSound(states, sections, i);
      LatestIsOnTime(states[i].stored, states[i].entries, sections[i].entry);
    }
    OnTimeRunIsRecent(states, sections, n);
    RunKeepsSound(states, sections, n);
  }

  /** And that is, in time order, a suffix of all stores so far. */
  lemma InOrderRunHoldsSuffix(states: seq<CacheState>, sections: seq<Section>, n: nat) returns (from: nat)
    requires IsRun(states, sections) && InStampOrder(sections) && n < |states|
    requires forall a, b :: a in states[n].stored && b in states[n].stored && a != b ==>
               states[n].stored[a].createdAt != states[n].stored[b].createdAt
    ensures forall k :: k in states[n].stored ==> (k in states[n].entries <==> from <= states[n].stored[k].createdAt)
  {
    InOrderRunIsRecent(states, sections, n);
    from := RecentIsSuffix(states[n].stored, states[n].entries);
  }

  // ── Whole calls one after the other ──

  datatype Call =
    | StoreCall(body: Bytes, proxyKey: string)
    | FetchCall(cursor: string, proxyKey: string, offset: nat, limit: nat)
    | SweepCall

  /** The store calls among `calls`, in order. */
  function Stores(calls: seq<Call>): (r: seq<Call>)
    ensures forall c :: c in r ==> c.StoreCall?
  {
    if calls == [] then []
    else
      var front, c := Stores(calls[..|calls| - 1]), calls[|calls| - 1];
      if c.StoreCall? then front + [c] else front
  }

  /** The `n`th store call left its body and key on record under the `n`th cursor. */
  ghost predicate OnRecord(name: Names, stored: Entries, stores: seq<Call>) {
    forall n :: 0 <= n < |stores| && stores[n].StoreCall? ==>
      name(n) in stored && stored[name(n)].body == stores[n].body && stored[name(n)].proxyKey == stores[n].proxyKey
  }

  /** One call, at a time no earlier than any store. */
  method Perform(cache: ResultCache, call: Call, now: nat, ghost stores: seq<Call>)
    requires cache.Valid() && Recent(cache.stored, cache.entries)
    requires forall k :: k in cache.stored ==> cache.stored[k].createdAt <= now
    requires cache.counter == |stores| && OnRecord(cache.name, cache.stored, stores)
    modifies cache
    ensures cache.Valid() && Recent(cache.stored, cache.entries)
    ensures forall k :: k in cache.stored ==> cache.stored[k].createdAt <= now
    ensures var all := if call.StoreCall? then stores + [call] else stores;
            cache.counter == |all| && OnRecord(cache.name, cache.stored, all)
  {
    match call
    case StoreCall(body, proxyKey) =>
      ghost var was := cache.stored;
      var cursor := cache.Store(body, proxyKey, now);
      forall n | 0 <= n < |stores| && stores[n].StoreCall? ensures cache.stored[cache.name(n)] == was[cache.name(n)] {
        assert cache.name(n) != cursor;
      }
    case FetchCall(cursor, proxyKey, offset, limit) =>
      var _ := cache.Fetch(cursor, proxyKey, offset, limit, now, now);
    case SweepCall => cache.Sweep(now);
  }

  /**
   Any calls at times that do not decrease: afterwards the cache holds the most recent of all stores,
   within both limits.
   */
  method RunCalls(calls: seq<Call>, clock: nat -> nat) returns (cache: ResultCache)
    requires forall i, j :: 0 <= i <= j ==> clock(i) <= clock(j)
    ensures fresh(cache) && cache.Valid() && Recent(cache.stored, cache.entries)
    ensures cache.counter == |Stores(calls)| && OnRecord(cache.name, cache.stored, Stores(calls))
  {
    cache := new ResultCache();
    for i := 0 to |calls|
      invariant fresh(cache) && cache.Valid() && Recent(cache.stored, cache.entries)
      invariant forall k :: k in cache.stored ==> cache.stored[k].createdAt <= clock(i)
      invariant cache.counter == |Stores(calls[..i])| && OnRecord(cache.name, cache.stored, Stores(calls[..i]))
    {
      assert calls[..i + 1][..i] == calls[..i] && clock(i) <= clock(i + 1);
      Perform(cache, calls[i], clock(i), Stores(calls[..i]));
    }
    assert calls[..|calls|] == calls;
  }

  /**
   The two critical sections can be overtaken: a body stamped earlier and inserted later evicts a newer
   one that fills the cache, and what is held is then not the most recent.
   */
  method LateInsertEvictsNewer(newer: Bytes, older: Bytes) returns (cache: ResultCache)
    requires |newer| >= MAX_CACHE_BYTES
    ensures fresh(cache) && cache.Valid() && !Recent(cache.stored, cache.entries)
  {
    cache := new ResultCache();
    var first := cache.TakeTicket();
    var second := cache.TakeTicket();
    var a, b := CachedResult(older, 1, "k"), CachedResult(newer, 2, "k");
    cache.InsertEntry(second, b);
    cache.InsertEntry(first, a);
    ghost var rest := cache.entries - {cache.name(first)};
    if cache.name(second) in rest { TotalWithout(rest, cache.name(second)); }
    assert cache.name(second) in cache.stored && cache.name(second) !in cache.entries;
  }
}
