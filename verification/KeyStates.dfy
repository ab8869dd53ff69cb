/**
 Lease and cooldown states of upstream keys as a state machine over the pool's operations
 (src/keys/state.rs, src/keys/strategy.rs, src/keys/pool.rs). Times are instants of one monotone clock.
 */
module KeyStates {
  import opened Prelude

  const DEFAULT_COOLDOWN := 60_000_000_000

  const U64_RANGE := 0x1_0000_0000_0000_0000

  const U32_MAX := 0xFFFF_FFFF

  datatype KeyState = Available | CoolingUntil(until: nat) | Leased(count: nat) {
    function Active(): nat { if Leased? then count else 0 }
  }

  datatype KeyEntry = KeyEntry(state: KeyState, weight: nat, ewma: Option<nat>)

  type Entries = map<nat, KeyEntry>

  datatype Strategy = RoundRobin | Random | LeastRequests | FastestResponse | Weighted

  /** The pool; `guards` counts the live lease guards of each key. */
  datatype Pool = Pool(entries: Entries, cursor: nat, guards: multiset<nat>)

  datatype PoolError = NoAvailableKey

  // ── Selection ──

  lemma DivUnique(x: int, n: int, q: int, r: int)
    requires n > 0 && x == q * n + r && 0 <= r < n
    ensures x / n == q && x % n == r
  {
    var d := x / n - q;
    assert d * n == r - x % n;
    assert d > 0 ==> d * n >= n;
    assert d < 0 ==> d * n <= -n;
  }

  predicate IsLeast(m: nat, s: set<nat>) { m in s && forall x :: x in s ==> m <= x }

  function Least(s: set<nat>): (m: nat)
    requires s != {}
    ensures IsLeast(m, s)
  {
    LeastExists(s);
    var m :| IsLeast(m, s);
    m
  }

  lemma {:induction false} LeastExists(s: set<nat>)
    requires s != {}
    ensures exists m :: IsLeast(m, s)
    decreases |s|
  {
    var x :| x in s;
    var rest := s - {x};
    assert forall y :: y in s ==> y == x || y in rest;
    if rest == {} {
      assert IsLeast(x, s);
    } else {
      LeastExists(rest);
      var m :| IsLeast(m, rest);
      assert IsLeast(if m <= x then m else x, s);
    }
  }

  /** `r` enumerates `ids` in increasing order. */
  ghost predicate Enumerates(r: seq<nat>, ids: set<nat>) {
    && |r| == |ids|
    && (forall x :: x in r <==> x in ids)
    && (forall i, j :: 0 <= i < j < |r| ==> r[i] < r[j])
  }

  lemma EnumeratesCons(m: nat, rest: seq<nat>, ids: set<nat>)
    requires IsLeast(m, ids) && Enumerates(rest, ids - {m})
    ensures Enumerates([m] + rest, ids)
  {
    forall i | 0 <= i < |rest| ensures m < rest[i] {
      assert rest[i] in rest;
    }
  }

  /** The ids in increasing order. */
  function InOrder(ids: set<nat>): (r: seq<nat>)
    ensures Enumerates(r, ids)
  {
    if ids == {} then [] else
    var m := Least(ids);
    var rest := InOrder(ids - {m});
    EnumeratesCons(m, rest, ids);
    [m] + rest
  }

  /** Keys that are not cooling. */
  function Ready(entries: Entries): set<nat> { set k | k in entries && !entries[k].state.CoolingUntil? }

  function Latency(e: KeyEntry): nat { if e.ewma.Some? then e.ewma.value else U32_MAX }

  /** `x % n`, by repeated subtraction. */
  function Residue(x: nat, n: nat): (r: nat)
    requires n > 0
    ensures r < n
  {
    if x < n then x else Residue(x - n, n)
  }

  lemma {:induction false} ResidueIsMod(x: nat, n: nat)
    requires n > 0
    ensures Residue(x, n) == x % n
  {
    if x < n {
      DivUnique(x, n, 0, x);
    } else {
      ResidueIsMod(x - n, n);
      assert x == ((x - n) / n + 1) * n + (x - n) % n;
      DivUnique(x, n, (x - n) / n + 1, (x - n) % n);
    }
  }

  /** What the strategies that minimise look at. */
  function Cost(strategy: Strategy, e: KeyEntry): nat {
    if strategy == LeastRequests then e.state.Active() else Latency(e)
  }

  /** The first position with the least cost, as `min_by_key` chooses it. */
  function FirstCheapest(strategy: Strategy, entries: Entries, ids: seq<nat>): (i: nat)
    requires ids != [] && forall k :: k in ids ==> k in entries
    ensures i < |ids|
    ensures forall k :: k in ids ==> Cost(strategy, entries[ids[i]]) <= Cost(strategy, entries[k])
    ensures forall j :: 0 <= j < i ==> Cost(strategy, entries[ids[i]]) < Cost(strategy, entries[ids[j]])
  {
    if |ids| == 1 then 0
    else
      var rest := ids[1..];
      var i := FirstCheapest(strategy, entries, rest);
      assert forall k :: k in ids ==> k == ids[0] || k in rest;
      if Cost(strategy, entries[ids[0]]) <= Cost(strategy, entries[rest[i]]) then 0 else i + 1
  }

  function Weights(entries: Entries, ids: seq<nat>): (weights: seq<nat>)
    requires forall k :: k in ids ==> k in entries
    ensures |weights| == |ids| && forall i :: 0 <= i < |ids| ==> weights[i] == entries[ids[i]].weight
  {
    seq(|ids|, i requires 0 <= i < |ids| => assert ids[i] in ids; entries[ids[i]].weight)
  }

  /** The first `n` weights, as the weighted strategy sums them: at least one each. */
  function Sum(weights: seq<nat>, n: nat): (total: nat)
    requires n <= |weights|
    ensures n <= total
  {
    if n == 0 then 0 else Sum(weights, n - 1) + if weights[n - 1] < 1 then 1 else weights[n - 1]
  }

  /** The position below `n` into whose stretch of the summed weights `x` falls. */
  function Drawn(weights: seq<nat>, n: nat, x: nat): (i: nat)
    requires n <= |weights| && x < Sum(weights, n)
    ensures i < n
  {
    if Sum(weights, n - 1) <= x then n - 1 else Drawn(weights, n - 1, x)
  }

  /** Weights that overflow fall back to the first key. */
  function PickByWeight(weights: seq<nat>, pick: nat): (i: nat)
    requires weights != []
    ensures i < |weights|
  {
    var total := Sum(weights, |weights|);
    if total > U32_MAX then 0 else Drawn(weights, |weights|, Residue(pick, total))
  }

  /**
   The chosen position among `ids`; `pick` is what the random strategies draw.
   */
  function Select(strategy: Strategy, entries: Entries, ids: seq<nat>, cursor: nat, pick: nat): (i: nat)
    requires ids != [] && forall k :: k in ids ==> k in entries
    ensures i < |ids|
    ensures strategy == LeastRequests || strategy == FastestResponse ==>
              forall k :: k in ids ==> Cost(strategy, entries[ids[i]]) <= Cost(strategy, entries[k])
  {
    match strategy
    case RoundRobin => Residue(cursor, |ids|)
    case LeastRequests => FirstCheapest(strategy, entries, ids)
    case FastestResponse => FirstCheapest(strategy, entries, ids)
    case Random => Residue(pick, |ids|)
    case Weighted => PickByWeight(Weights(entries, ids), pick)
  }

  // ── Operations ──

  function Expired(e: KeyEntry, now: nat): KeyEntry {
    if e.state.CoolingUntil? && now >= e.state.until then e.(state := Available) else e
  }

  function Expire(entries: Entries, now: nat): Entries { map k | k in entries :: Expired(entries[k], now) }

  function Lease(state: KeyState): KeyState {
    match state
    case Available => Leased(1)
    case Leased(count) => Leased(count + 1)
    case CoolingUntil(_) => state
  }

  /** A count of zero would wrap; `RunKeepsLeasesBacked` shows that it never occurs. */
  function Unlease(state: KeyState): KeyState {
    match state
    case Leased(count) => if count == 1 then Available else Leased(if count == 0 then U32_MAX else count - 1)
    case _ => state
  }

  function SetState(entries: Entries, k: nat, state: KeyState): Entries {
    if k in entries then entries[k := entries[k].(state := state)] else entries
  }

  /** The key that the strategy picks among those that are not cooling. */
  function Choose(entries: Entries, strategy: Strategy, cursor: nat, pick: nat): (r: Result<nat, PoolError>)
    ensures r.Ok? ==> r.value in entries && !entries[r.value].state.CoolingUntil?
  {
    var ids := InOrder(Ready(entries));
    if ids == [] then Err(NoAvailableKey)
    else
      ReadyAreEntries(entries, ids);
      Ok(ids[Select(strategy, entries, ids, cursor, pick)])
  }

  lemma ReadyAreEntries(entries: Entries, ids: seq<nat>)
    requires ids == InOrder(Ready(entries))
    ensures forall k :: k in ids ==> k in entries && !entries[k].state.CoolingUntil?
  {
  }

  lemma ChosenIs(strategy: Strategy, entries: Entries, ids: seq<nat>, cursor: nat, pick: nat, i: nat)
    requires ids == InOrder(Ready(entries)) && i < |ids| && forall k :: k in ids ==> k in entries
    ensures Choose(entries, strategy, cursor, pick) == Ok(ids[i]) <==> Select(strategy, entries, ids, cursor, pick) == i
  {
  }

  /** The round-robin cursor is a `u64` and wraps. */
  function Bump(cursor: nat): nat { (cursor + 1) % U64_RANGE }

  /** The key an acquire at `now` hands out. */
  function Acquired(p: Pool, strategy: Strategy, pick: nat, now: nat): Result<nat, PoolError> {
    Choose(Expire(p.entries, now), strategy, p.cursor, pick)
  }

  /** Lease the chosen key and hand out a guard for it. */
  function Granted(p: Pool, strategy: Strategy, got: Result<nat, PoolError>): Pool
    requires got.Ok? ==> got.value in p.entries
  {
    if got.Err? then p
    else Pool(SetState(p.entries, got.value, Lease(p.entries[got.value].state)),
              if strategy == RoundRobin then Bump(p.cursor) else p.cursor,
              p.guards + multiset{got.value})
  }

  function Acquire(p: Pool, strategy: Strategy, pick: nat, now: nat): Pool {
    Granted(p.(entries := Expire(p.entries, now)), strategy, Acquired(p, strategy, pick, now))
  }

  /** Dropping a guard. */
  function Release(p: Pool, k: nat): Pool {
    p.(entries := if k in p.entries then SetState(p.entries, k, Unlease(p.entries[k].state)) else p.entries,
       guards := p.guards - multiset{k})
  }

  function Cooldown(retryAfter: Option<nat>): nat { if retryAfter.Some? then retryAfter.value else DEFAULT_COOLDOWN }

  function MarkCooling(p: Pool, k: nat, retryAfter: Option<nat>, now: nat): Pool {
    p.(entries := SetState(p.entries, k, CoolingUntil(now + Cooldown(retryAfter))))
  }

  /** An entry after `restore_runtime` at `now`. */
  function Restored(e: KeyEntry, remaining: Option<nat>, ewma: Option<nat>, now: nat): KeyEntry {
    var cools := remaining.Some? && remaining.value > 0;
    e.(state := if cools then CoolingUntil(now + remaining.value) else e.state, ewma := ewma)
  }

  function RestoreRuntime(p: Pool, k: nat, remaining: Option<nat>, ewma: Option<nat>, now: nat): Pool {
    if k in p.entries then p.(entries := p.entries[k := Restored(p.entries[k], remaining, ewma, now)]) else p
  }

  function RecordLatency(p: Pool, k: nat, ewma: nat): Pool {
    if k in p.entries then p.(entries := p.entries[k := p.entries[k].(ewma := Some(ewma))]) else p
  }

  // ── Runs ──

  datatype Op =
    | AcquireOp(strategy: Strategy, pick: nat)
    | DropOp(key: nat)
    | MarkOp(key: nat, retryAfter: Option<nat>)
    | RestoreOp(key: nat, remaining: Option<nat>, ewma: Option<nat>)
    | LatencyOp(key: nat, value: nat)
    | ExpireOp

  /** An operation and the instant it reads. */
  datatype Event = Event(now: nat, op: Op)

  function Step(p: Pool, e: Event): Pool {
    match e.op
    case AcquireOp(strategy, pick) => Acquire(p, strategy, pick, e.now)
    case DropOp(key) => Release(p, key)
    case MarkOp(key, retryAfter) => MarkCooling(p, key, retryAfter, e.now)
    case RestoreOp(key, remaining, ewma) => RestoreRuntime(p, key, remaining, ewma, e.now)
    case LatencyOp(key, value) => RecordLatency(p, key, value)
    case ExpireOp => p.(entries := Expire(p.entries, e.now))
  }

  function Run(p: Pool, events: seq<Event>): Pool {
    if events == [] then p else Step(Run(p, events[..|events| - 1]), events[|events| - 1])
  }

  /** A guard is dropped only while it lives. */
  ghost predicate GuardsExist(p: Pool, events: seq<Event>) {
    forall i :: 0 <= i < |events| && events[i].op.DropOp? ==> events[i].op.key in Run(p, events[..i]).guards
  }

  // ── Leases ──

  /** A lease count is positive and every lease is backed by a live guard. */
  ghost predicate LeasesBacked(p: Pool) {
    forall k :: k in p.entries && p.entries[k].state.Leased? ==> 1 <= p.entries[k].state.count <= p.guards[k]
  }

  lemma ExpireKeepsLeasesBacked(p: Pool, now: nat)
    requires LeasesBacked(p)
    ensures LeasesBacked(p.(entries := Expire(p.entries, now)))
  {
  }

  lemma GrantKeepsLeasesBacked(p: Pool, strategy: Strategy, got: Result<nat, PoolError>)
    requires LeasesBacked(p) && (got.Ok? ==> got.value in p.entries)
    ensures LeasesBacked(Granted(p, strategy, got))
  {
  }

  lemma ReleaseKeepsLeasesBacked(p: Pool, k: nat)
    requires LeasesBacked(p) && k in p.guards
    ensures LeasesBacked(Release(p, k))
  {
  }

  lemma StepKeepsLeasesBacked(p: Pool, e: Event)
    requires LeasesBacked(p) && (e.op.DropOp? ==> e.op.key in p.guards)
    ensures LeasesBacked(Step(p, e))
  {
    match e.op
    case AcquireOp(strategy, pick) =>
      ExpireKeepsLeasesBacked(p, e.now);
      GrantKeepsLeasesBacked(p.(entries := Expire(p.entries, e.now)), strategy, Acquired(p, strategy, pick, e.now));
    case DropOp(key) => ReleaseKeepsLeasesBacked(p, key);
    case ExpireOp => ExpireKeepsLeasesBacked(p, e.now);
    case _ =>
  }

  lemma {:induction false} RunPrefix(p: Pool, events: seq<Event>)
    requires events != [] && GuardsExist(p, events)
    ensures GuardsExist(p, events[..|events| - 1])
    ensures events[|events| - 1].op.DropOp? ==> events[|events| - 1].op.key in Run(p, events[..|events| - 1]).guards
  {
    var front := events[..|events| - 1];
    forall i | 0 <= i < |front| && front[i].op.DropOp? ensures front[i].op.key in Run(p, front[..i]).guards {
      assert front[..i] == events[..i] && front[i] == events[i];
    }
  }

  /**
   Lease soundness over every run: counts never exceed live guards and a lease of zero never exists, so
   no release underflows.
   */
  lemma {:induction false} RunKeepsLeasesBacked(p: Pool, events: seq<Event>)
    requires LeasesBacked(p) && GuardsExist(p, events)
    ensures LeasesBacked(Run(p, events))
  {
    if events != [] {
      RunPrefix(p, events);
      RunKeepsLeasesBacked(p, events[..|events| - 1]);
      StepKeepsLeasesBacked(Run(p, events[..|events| - 1]), events[|events| - 1]);
    }
  }

  /** Nothing cools and the active count of every key is its number of live guards. */
  ghost predicate LeasesExact(p: Pool) {
    && (forall k :: k in p.entries ==> !p.entries[k].state.CoolingUntil? && p.entries[k].state.Active() == p.guards[k])
    && (forall k :: k in p.entries && p.entries[k].state.Leased? ==> p.entries[k].state.count >= 1)
  }

  lemma NothingExpires(p: Pool, now: nat)
    requires LeasesExact(p)
    ensures Expire(p.entries, now) == p.entries
  {
  }

  lemma ReleaseKeepsLeasesExact(p: Pool, k: nat)
    requires LeasesExact(p) && k in p.guards
    ensures LeasesExact(Release(p, k))
  {
  }

  lemma GrantKeepsLeasesExact(p: Pool, strategy: Strategy, got: Result<nat, PoolError>)
    requires LeasesExact(p) && (got.Ok? ==> got.value in p.entries)
    ensures LeasesExact(Granted(p, strategy, got))
  {
  }

  lemma LatencyKeepsLeasesExact(p: Pool, k: nat, ewma: nat)
    requires LeasesExact(p)
    ensures LeasesExact(RecordLatency(p, k, ewma))
  {
  }

  lemma StepKeepsLeasesExact(p: Pool, e: Event)
    requires LeasesExact(p) && !e.op.MarkOp? && !e.op.RestoreOp? && (e.op.DropOp? ==> e.op.key in p.guards)
    ensures LeasesExact(Step(p, e))
  {
    NothingExpires(p, e.now);
    match e.op
    case AcquireOp(strategy, pick) => GrantKeepsLeasesExact(p, strategy, Acquired(p, strategy, pick, e.now));
    case DropOp(key) => ReleaseKeepsLeasesExact(p, key);
    case LatencyOp(key, value) => LatencyKeepsLeasesExact(p, key, value);
    case ExpireOp =>
  }

  /** Without cooling or restore the counts are the live guards, exactly. */
  lemma {:induction false} RunKeepsLeasesExact(p: Pool, events: seq<Event>)
    requires LeasesExact(p) && GuardsExist(p, events)
    requires forall i :: 0 <= i < |events| ==> !events[i].op.MarkOp? && !events[i].op.RestoreOp?
    ensures LeasesExact(Run(p, events))
  {
    if events != [] {
      RunPrefix(p, events);
      RunKeepsLeasesExact(p, events[..|events| - 1]);
      StepKeepsLeasesExact(Run(p, events[..|events| - 1]), events[|events| - 1]);
    }
  }

  // ── Cooldowns ──

  /** An acquire fails exactly when every key is cooling with its deadline ahead. */
  lemma AcquireFailsIff(p: Pool, strategy: Strategy, pick: nat, now: nat)
    ensures Acquired(p, strategy, pick, now).Err? <==>
            forall k :: k in p.entries ==> p.entries[k].state.CoolingUntil? && now < p.entries[k].state.until
  {
    var entries := Expire(p.entries, now);
    var ids := InOrder(Ready(entries));
    if ids == [] {
      forall k | k in p.entries ensures p.entries[k].state.CoolingUntil? && now < p.entries[k].state.until {
        assert k !in ids && k !in Ready(entries);
      }
    } else {
      assert ids[0] in ids && ids[0] in Ready(entries);
    }
  }

  /** No acquire hands out a key whose deadline is ahead. */
  lemma AcquireSkipsCooling(p: Pool, strategy: Strategy, pick: nat, now: nat)
    requires Acquired(p, strategy, pick, now).Ok?
    ensures var k := Acquired(p, strategy, pick, now).value;
            k in p.entries && (p.entries[k].state.CoolingUntil? ==> p.entries[k].state.until <= now)
  {
  }

  predicate Touches(op: Op, k: nat) { (op.MarkOp? || op.RestoreOp?) && op.key == k }

  ghost predicate Cooling(p: Pool, k: nat, until: nat) { k in p.entries && p.entries[k].state == CoolingUntil(until) }

  lemma ExpireKeepsCooling(p: Pool, k: nat, until: nat, now: nat)
    requires Cooling(p, k, until) && now < until
    ensures Cooling(p.(entries := Expire(p.entries, now)), k, until)
  {
  }

  lemma GrantKeepsCooling(p: Pool, k: nat, until: nat, strategy: Strategy, got: Result<nat, PoolError>)
    requires Cooling(p, k, until) && (got.Ok? ==> got.value in p.entries && !p.entries[got.value].state.CoolingUntil?)
    ensures Cooling(Granted(p, strategy, got), k, until) && got != Ok(k)
  {
  }

  lemma StepKeepsCooling(p: Pool, k: nat, until: nat, e: Event)
    requires Cooling(p, k, until) && e.now < until && !Touches(e.op, k)
    ensures Cooling(Step(p, e), k, until)
    ensures e.op.AcquireOp? ==> Acquired(p, e.op.strategy, e.op.pick, e.now) != Ok(k)
  {
    match e.op
    case AcquireOp(strategy, pick) =>
      ExpireKeepsCooling(p, k, until, e.now);
      GrantKeepsCooling(p.(entries := Expire(p.entries, e.now)), k, until, strategy,
        Acquired(p, strategy, pick, e.now));
    case ExpireOp => ExpireKeepsCooling(p, k, until, e.now);
    case _ =>
  }

  /** A cooldown lasts: until its deadline, no acquire, guard drop, expiry or other key's event ends it. */
  lemma {:induction false} CooldownHolds(p: Pool, k: nat, until: nat, events: seq<Event>)
    requires Cooling(p, k, until)
    requires forall i :: 0 <= i < |events| ==> events[i].now < until && !Touches(events[i].op, k)
    ensures Cooling(Run(p, events), k, until)
  {
    if events != [] {
      CooldownHolds(p, k, until, events[..|events| - 1]);
      StepKeepsCooling(Run(p, events[..|events| - 1]), k, until, events[|events| - 1]);
    }
  }

  /** The key that an event hands out, if any. */
  function HandedOut(p: Pool, e: Event): Option<nat> {
    if e.op.AcquireOp? && Acquired(p, e.op.strategy, e.op.pick, e.now).Ok?
    then Some(Acquired(p, e.op.strategy, e.op.pick, e.now).value) else None
  }

  /** After `mark_cooling` the key is not handed out before the deadline, whatever else happens. */
  lemma MarkedKeyStaysOut(p: Pool, k: nat, retryAfter: Option<nat>, now: nat, events: seq<Event>)
    requires k in p.entries
    requires forall i :: 0 <= i < |events| ==> !Touches(events[i].op, k) && events[i].now < now + Cooldown(retryAfter)
    ensures forall i :: 0 <= i < |events| ==>
            HandedOut(Run(MarkCooling(p, k, retryAfter, now), events[..i]), events[i]) != Some(k)
  {
    var q, until := MarkCooling(p, k, retryAfter, now), now + Cooldown(retryAfter);
    forall i | 0 <= i < |events| ensures HandedOut(Run(q, events[..i]), events[i]) != Some(k) {
      CooldownHolds(q, k, until, events[..i]);
      StepKeepsCooling(Run(q, events[..i]), k, until, events[i]);
    }
  }

  /** The random strategy can hand out exactly the keys that are not cooling with their deadline ahead. */
  lemma RandomReachesIff(p: Pool, k: nat, now: nat)
    ensures (exists pick :: Acquired(p, Random, pick, now) == Ok(k)) <==>
            k in p.entries && (p.entries[k].state.CoolingUntil? ==> p.entries[k].state.until <= now)
  {
    var entries := Expire(p.entries, now);
    var ids := InOrder(Ready(entries));
    if k in p.entries && (p.entries[k].state.CoolingUntil? ==> p.entries[k].state.until <= now) {
      assert k in Ready(entries) && k in ids;
      var i :| 0 <= i < |ids| && ids[i] == k;
      assert Acquired(p, Random, i, now) == Ok(k);
    }
    if pick :| Acquired(p, Random, pick, now) == Ok(k) {
      AcquireSkipsCooling(p, Random, pick, now);
    }
  }

  lemma {:induction false} DrawnIff(weights: seq<nat>, n: nat, x: nat, i: nat)
    requires i < n <= |weights|
    ensures var from, w := Sum(weights, i), if weights[i] == 0 then 1 else weights[i];
            && from + w <= Sum(weights, n)
            && (x < Sum(weights, n) ==> (Drawn(weights, n, x) == i <==> from <= x < from + w))
  {
    if i < n - 1 { DrawnIff(weights, n - 1, x, i); }
  }

  /** The weighted strategy can hand out any ready key, but only the first if the weights do not fit 32 bits. */
  lemma WeightedReachesIff(entries: Entries, ids: seq<nat>, k: nat, cursor: nat)
    requires ids == InOrder(Ready(entries)) && forall j :: j in ids ==> j in entries
    ensures (exists pick :: Choose(entries, Weighted, cursor, pick) == Ok(k)) <==>
            k in ids && (Sum(Weights(entries, ids), |ids|) <= 0xFFFF_FFFF || k == ids[0])
  {
    var weights := Weights(entries, ids);
    if k in ids && (Sum(weights, |ids|) <= 0xFFFF_FFFF || k == ids[0]) {
      var i := IndexOf(ids, k);
      PickedBySum(weights, i);
      WeightedChoice(entries, ids, cursor, i, Sum(weights, i));
      assert Choose(entries, Weighted, cursor, Sum(weights, i)) == Ok(ids[i]);
    }
    if pick :| Choose(entries, Weighted, cursor, pick) == Ok(k) {
      ReadyAreEntries(entries, ids);
      if Sum(weights, |ids|) > 0xFFFF_FFFF { WeightedOverflow(entries, ids, cursor, pick); }
    }
  }

  lemma PickedBySum(weights: seq<nat>, i: nat)
    requires i < |weights| && (Sum(weights, |weights|) <= 0xFFFF_FFFF || i == 0)
    ensures PickByWeight(weights, Sum(weights, i)) == i
  {
    DrawnIff(weights, |weights|, Sum(weights, i), i);
  }

  /** Events from `from` on and before `deadline` that neither mark nor restore the key. */
  ghost predicate Quiet(events: seq<Event>, k: nat, from: nat, deadline: nat) {
    forall i :: 0 <= i < |events| ==> from <= events[i].now < deadline && !Touches(events[i].op, k)
  }

  /** No run of such events hands the key out. */
  ghost predicate StaysOut(p: Pool, k: nat, from: nat, deadline: nat) {
    forall events, t :: Quiet(events, k, from, deadline) && 0 <= t < |events| ==>
        HandedOut(Run(p, events[..t]), events[t]) != Some(k)
  }

  lemma CoolingStaysOut(p: Pool, k: nat, from: nat, deadline: nat, events: seq<Event>, t: nat)
    requires k in p.entries && p.entries[k].state.CoolingUntil? && p.entries[k].state.until >= deadline
    requires Quiet(events, k, from, deadline) && t < |events|
    ensures HandedOut(Run(p, events[..t]), events[t]) != Some(k)
  {
    var until := p.entries[k].state.until;
    CooldownHolds(p, k, until, events[..t]);
    StepKeepsCooling(Run(p, events[..t]), k, until, events[t]);
  }

  lemma FreeKeyGoesOut(p: Pool, k: nat, now: nat) returns (e: Event)
    requires k in p.entries && (p.entries[k].state.CoolingUntil? ==> p.entries[k].state.until <= now)
    ensures e.now == now && !Touches(e.op, k) && HandedOut(p, e) == Some(k)
  {
    RandomReachesIff(p, k, now);
    var pick :| Acquired(p, Random, pick, now) == Ok(k);
    e := Event(now, AcquireOp(Random, pick));
  }

  /** A key is safe from being handed out in a period exactly when it cools to the end of it. */
  lemma StaysOutIff(p: Pool, k: nat, from: nat, deadline: nat)
    requires k in p.entries
    ensures StaysOut(p, k, from, deadline) <==>
            from >= deadline || (p.entries[k].state.CoolingUntil? && p.entries[k].state.until >= deadline)
  {
    if p.entries[k].state.CoolingUntil? && p.entries[k].state.until >= deadline {
      forall events, t | Quiet(events, k, from, deadline) && 0 <= t < |events|
        ensures HandedOut(Run(p, events[..t]), events[t]) != Some(k)
      {
        CoolingStaysOut(p, k, from, deadline, events, t);
      }
    } else if from < deadline {
      var e := FreeKeyGoesOut(p, k, deadline - 1);
      OneEventGoesOut(p, k, from, deadline, e);
    }
  }

  lemma OneEventGoesOut(p: Pool, k: nat, from: nat, deadline: nat, e: Event)
    requires from <= e.now < deadline && !Touches(e.op, k) && HandedOut(p, e) == Some(k)
    ensures !StaysOut(p, k, from, deadline)
  {
    var events := [e];
    assert Quiet(events, k, from, deadline) && 0 <= 0 < |events|;
    assert events[..0] == [] && Run(p, events[..0]) == p && events[0] == e;
  }

  /**
   A mark keeps the key back for as long as the upstream asked, or for a minute if it did not say (times are
   nanoseconds): to the end of that and not longer.
   */
  lemma MarkedStaysOutIff(p: Pool, k: nat, retryAfter: Option<nat>, now: nat, deadline: nat)
    requires k in p.entries && now < deadline
    ensures StaysOut(MarkCooling(p, k, retryAfter, now), k, now, deadline) <==>
            deadline <= now + if retryAfter.Some? then retryAfter.value else 60_000_000_000
  {
    StaysOutIff(MarkCooling(p, k, retryAfter, now), k, now, deadline);
  }

  /** A mark changes nothing else: neither another key nor the weight, the latency, the cursor or the guards. */
  lemma MarkTouchesOneState(p: Pool, k: nat, retryAfter: Option<nat>, now: nat)
    ensures var q := MarkCooling(p, k, retryAfter, now);
            && q.cursor == p.cursor && q.guards == p.guards && q.entries.Keys == p.entries.Keys
            && (forall o :: o in p.entries ==>
              q.entries[o].weight == p.entries[o].weight && q.entries[o].ewma == p.entries[o].ewma)
            && (forall o :: o in p.entries && o != k ==> q.entries[o] == p.entries[o])
  {
  }

  /** With nothing left to cool a restore changes only the EWMA, and it never touches another key. */
  lemma RestoreTouchesOneKey(p: Pool, k: nat, remaining: Option<nat>, ewma: Option<nat>, now: nat)
    ensures var q := RestoreRuntime(p, k, remaining, ewma, now);
            && q.entries.Keys == p.entries.Keys && q.cursor == p.cursor && q.guards == p.guards
            && (forall j :: j in p.entries && j != k ==> q.entries[j] == p.entries[j])
            && (k in p.entries && remaining in {None, Some(0)} ==> q.entries[k].state == p.entries[k].state)
  {
  }

  /** Restoring writes the EWMA, and cools for what remains, if anything does. */
  lemma RestoredStaysOutIff(p: Pool, k: nat, remaining: Option<nat>, ewma: Option<nat>, now: nat, deadline: nat)
    requires k in p.entries && p.entries[k].state == Available && now < deadline
    ensures var q := RestoreRuntime(p, k, remaining, ewma, now);
            && k in q.entries && q.entries[k].ewma == ewma && q.entries[k].weight == p.entries[k].weight
            && (StaysOut(q, k, now, deadline) <==> remaining.Some? && deadline <= now + remaining.value)
  {
    StaysOutIff(RestoreRuntime(p, k, remaining, ewma, now), k, now, deadline);
  }

  /**
   The fastest-response choice: no ready key has a lower latency on record, and an unmeasured key counts
   as slowest.
   */
  lemma FastestIsChosen(entries: Entries, cursor: nat, pick: nat, other: nat)
    requires Choose(entries, FastestResponse, cursor, pick).Ok? && other in entries
             && !entries[other].state.CoolingUntil?
    requires entries[other].ewma.Some? && entries[other].ewma.value < 0xFFFF_FFFF
    ensures var k := Choose(entries, FastestResponse, cursor, pick).value;
            entries[k].ewma.Some? && entries[k].ewma.value <= entries[other].ewma.value
  {
    var ids := InOrder(Ready(entries));
    ReadyAreEntries(entries, ids);
    assert other in Ready(entries) && other in ids;
  }

  lemma FirstOfCheapest(strategy: Strategy, entries: Entries, ids: seq<nat>, cursor: nat, pick: nat, i: nat, j: nat)
    requires strategy == LeastRequests || strategy == FastestResponse
    requires i < |ids| && j < |ids| && forall k :: k in ids ==> k in entries
    requires Select(strategy, entries, ids, cursor, pick) == i
    requires Cost(strategy, entries[ids[j]]) == Cost(strategy, entries[ids[i]])
    ensures i <= j
  {
  }

  /** Among equally cheap ready keys the one with the smallest id is chosen. */
  lemma TiesGoToTheFirst(strategy: Strategy, entries: Entries, ids: seq<nat>, cursor: nat, pick: nat, i: nat, j: nat)
    requires strategy == LeastRequests || strategy == FastestResponse
    requires ids == InOrder(Ready(entries)) && i < |ids| && j < |ids| && forall k :: k in ids ==> k in entries
    requires Choose(entries, strategy, cursor, pick) == Ok(ids[i])
    requires Cost(strategy, entries[ids[i]]) == Cost(strategy, entries[ids[j]])
    ensures ids[i] <= ids[j]
  {
    ChosenIs(strategy, entries, ids, cursor, pick, i);
    FirstOfCheapest(strategy, entries, ids, cursor, pick, i, j);
  }

  ghost function IndexOf(ids: seq<nat>, k: nat): (i: nat)
    requires k in ids
    ensures i < |ids| && ids[i] == k
  {
    var i :| 0 <= i < |ids| && ids[i] == k; i
  }

  lemma {:induction false} StretchSize(s: set<nat>, from: nat, size: nat)
    requires forall x :: x in s <==> from <= x < from + size
    ensures |s| == size
  {
    if size > 0 {
      var last := from + size - 1;
      StretchSize(s - {last}, from, size - 1);
      assert last in s;
    } else {
      assert s == {};
    }
  }

  /** Of as many draws as the weights sum up to, each position gets as many as its weight, zero counting as one. */
  lemma DrawsByWeight(weights: seq<nat>, i: nat)
    requires i < |weights| && Sum(weights, |weights|) <= 0xFFFF_FFFF
    ensures |set x: nat | x < Sum(weights, |weights|) && PickByWeight(weights, x) == i|
            == if weights[i] == 0 then 1 else weights[i]
  {
    var n := |weights|;
    var s := set x: nat | x < Sum(weights, n) && PickByWeight(weights, x) == i;
    var from, size := Sum(weights, i), if weights[i] == 0 then 1 else weights[i];
    forall x: nat ensures x in s <==> from <= x < from + size { DrawnIff(weights, n, x, i); }
    StretchSize(s, from, size);
  }

  /** So it is for the ready keys. */
  lemma WeightedDrawsByWeight(entries: Entries, ids: seq<nat>, cursor: nat, i: nat)
    requires ids == InOrder(Ready(entries)) && i < |ids| && forall k :: k in ids ==> k in entries
    requires Sum(Weights(entries, ids), |ids|) <= 0xFFFF_FFFF
    ensures var total, w := Sum(Weights(entries, ids), |ids|), entries[ids[i]].weight;
            |set x: nat | x < total && Choose(entries, Weighted, cursor, x) == Ok(ids[i])| == if w == 0 then 1 else w
  {
    var weights := Weights(entries, ids);
    var total := Sum(weights, |ids|);
    forall x: nat ensures Choose(entries, Weighted, cursor, x) == Ok(ids[i]) <==> PickByWeight(weights, x) == i {
      WeightedChoice(entries, ids, cursor, i, x);
    }
    DrawsByWeight(weights, i);
    assert (set x: nat | x < total && Choose(entries, Weighted, cursor, x) == Ok(ids[i]))
        == (set x: nat | x < total && PickByWeight(weights, x) == i);
  }

  lemma WeightedChoice(entries: Entries, ids: seq<nat>, cursor: nat, i: nat, x: nat)
    requires ids == InOrder(Ready(entries)) && i < |ids| && forall k :: k in ids ==> k in entries
    ensures Choose(entries, Weighted, cursor, x) == Ok(ids[i]) <==> PickByWeight(Weights(entries, ids), x) == i
  {
    ChosenIs(Weighted, entries, ids, cursor, x, i);
  }

  lemma OrderOfTwo(a: nat, b: nat, ids: seq<nat>)
    requires a < b && Enumerates(ids, {a, b})
    ensures ids == [a, b]
  {
    assert a in ids && b in ids && |ids| == 2;
  }

  lemma WeightedOverflow(entries: Entries, ids: seq<nat>, cursor: nat, pick: nat)
    requires ids == InOrder(Ready(entries)) && ids != [] && forall k :: k in ids ==> k in entries
    requires Sum(Weights(entries, ids), |ids|) > 0xFFFF_FFFF
    ensures Choose(entries, Weighted, cursor, pick) == Ok(ids[0])
  {
  }

  /**
   Two weights that do not fit 32 bits together, zero counting as one, leave only the first key to the
   weighted strategy.
   */
  lemma OverflowingWeightsPickFirst(entries: Entries, cursor: nat, pick: nat)
    requires Ready(entries) == {1, 2} && entries[1].weight == 0xFFFF_FFFF && entries[2].weight == 0
    ensures Choose(entries, Weighted, cursor, pick) == Ok(1)
  {
    var ids := InOrder(Ready(entries));
    OrderOfTwo(1, 2, ids);
    var weights := Weights(entries, ids);
    assert weights == [0xFFFF_FFFF, 0];
    assert Sum(weights, 1) == 0xFFFF_FFFF;
    WeightedOverflow(entries, ids, cursor, pick);
  }
}
