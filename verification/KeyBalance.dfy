/** How evenly the deterministic strategies spread acquires over the keys (src/keys/strategy.rs, src/keys/pool.rs). */
module KeyBalance {
  import opened Prelude
  import opened KeyStates

  // ── Quotients ──

  /** Splitting a sum loses at most one in the quotient, and nothing when a part is a multiple. */
  lemma DivSum(a: nat, b: nat, n: nat)
    requires n > 0
    ensures b / n <= (a + b) / n - a / n <= b / n + (if b % n == 0 then 0 else 1)
  {
    var qa, ra, qb, rb := a / n, a % n, b / n, b % n;
    assert a + b == (qa + qb) * n + (ra + rb);
    if ra + rb < n {
      DivUnique(a + b, n, qa + qb, ra + rb);
    } else {
      assert a + b == (qa + qb + 1) * n + (ra + rb - n);
      DivUnique(a + b, n, qa + qb + 1, ra + rb - n);
    }
  }

  // ── A stable set of keys ──

  /** Up to the horizon nobody's cooldown ends: each key is ready, or cools beyond it. */
  ghost predicate Stable(p: Pool, horizon: nat) {
    forall k :: k in p.entries && p.entries[k].state.CoolingUntil? ==> p.entries[k].state.until > horizon
  }

  lemma ExpireStable(p: Pool, horizon: nat, now: nat)
    requires Stable(p, horizon) && now <= horizon
    ensures Expire(p.entries, now) == p.entries
  {
  }

  lemma GrantKeepsReady(p: Pool, horizon: nat, strategy: Strategy, got: Result<nat, PoolError>)
    requires Stable(p, horizon) && (got.Ok? ==> got.value in p.entries)
    ensures var q := Granted(p, strategy, got); Stable(q, horizon) && Ready(q.entries) == Ready(p.entries)
  {
  }

  lemma ReleaseKeepsReady(p: Pool, horizon: nat, k: nat)
    requires Stable(p, horizon)
    ensures var q := Release(p, k); Stable(q, horizon) && Ready(q.entries) == Ready(p.entries)
  {
  }

  /** Acquires and drops leave the set of ready keys as it is. */
  lemma StepKeepsReady(p: Pool, horizon: nat, e: Event)
    requires Stable(p, horizon) && e.now <= horizon && (e.op.AcquireOp? || e.op.DropOp?)
    ensures Stable(Step(p, e), horizon) && Ready(Step(p, e).entries) == Ready(p.entries)
  {
    if e.op.AcquireOp? {
      ExpireStable(p, horizon, e.now);
      GrantKeepsReady(p, horizon, e.op.strategy, Acquired(p, e.op.strategy, e.op.pick, e.now));
    } else {
      ReleaseKeepsReady(p, horizon, e.op.key);
    }
  }

  // ── Round robin ──

  predicate IsTurn(e: Event) { e.op.AcquireOp? && e.op.strategy == RoundRobin }

  ghost predicate RoundRobinRun(events: seq<Event>, horizon: nat) {
    forall i :: 0 <= i < |events| ==> events[i].now <= horizon && (IsTurn(events[i]) || events[i].op.DropOp?)
  }

  function Turns(events: seq<Event>): nat {
    if events == [] then 0 else (if IsTurn(events[0]) then 1 else 0) + Turns(events[1..])
  }

  type Stepper = (Pool, Event) -> Pool

  type Outcome = (Pool, Event) -> Option<nat>

  /** What a machine that moves by `step` gives out event by event. */
  function Trace(step: Stepper, out: Outcome, p: Pool, events: seq<Event>): seq<Option<nat>>
    decreases |events|
  {
    if events == [] then [] else [out(p, events[0])] + Trace(step, out, step(p, events[0]), events[1..])
  }

  /** What the events of a run hand out, in order. */
  function Outcomes(p: Pool, events: seq<Event>): seq<Option<nat>> { Trace(Step, HandedOut, p, events) }

  function Count(outcomes: seq<Option<nat>>, k: nat): nat {
    if outcomes == [] then 0 else (if outcomes[0] == Some(k) then 1 else 0) + Count(outcomes[1..], k)
  }

  /** How many cursor values below `x` fall on position `i` of a cycle of `n`. */
  function Visits(x: nat, n: nat, i: nat): nat
    requires i < n
  {
    if x == 0 then 0 else Visits(x - 1, n, i) + if Residue(x - 1, n) == i then 1 else 0
  }

  lemma ClosedFormStep(x: nat, n: nat, i: nat)
    requires i < n
    ensures (x + n - i) / n == (x + n - 1 - i) / n + if x % n == i then 1 else 0
  {
    var q, r := x / n, x % n;
    assert x == q * n + r;
    if r < i {
      DivUnique(x + n - 1 - i, n, q, r + n - 1 - i);
      DivUnique(x + n - i, n, q, r + n - i);
    } else if r == i {
      DivUnique(x + n - 1 - i, n, q, n - 1);
      assert x + n - i == (q + 1) * n;
      DivUnique(x + n - i, n, q + 1, 0);
    } else {
      assert x + n == (q + 1) * n + r;
      DivUnique(x + n - 1 - i, n, q + 1, r - 1 - i);
      DivUnique(x + n - i, n, q + 1, r - i);
    }
  }

  lemma {:induction false} VisitsClosedForm(x: nat, n: nat, i: nat)
    requires i < n
    ensures Visits(x, n, i) == (x + n - 1 - i) / n
  {
    if x == 0 {
      DivUnique(n - 1 - i, n, 0, n - 1 - i);
    } else {
      VisitsClosedForm(x - 1, n, i);
      ResidueIsMod(x - 1, n);
      ClosedFormStep(x - 1, n, i);
    }
  }

  /** A window of `m` consecutive cursor values visits each position `m / n` times, rounded down or up. */
  lemma WindowVisits(c: nat, m: nat, n: nat, i: nat)
    requires i < n
    ensures FairShare(Visits(c + m, n, i) - Visits(c, n, i), m, n)
  {
    VisitsClosedForm(c, n, i);
    VisitsClosedForm(c + m, n, i);
    DivSum(c + n - 1 - i, m, n);
  }

  lemma ChooseRoundRobin(entries: Entries, cursor: nat, pick: nat, ids: seq<nat>)
    requires ids == InOrder(Ready(entries)) && ids != []
    ensures Choose(entries, RoundRobin, cursor, pick) == Ok(ids[Residue(cursor, |ids|)])
  {
  }

  lemma BumpCounts(cursor: nat)
    requires cursor + 1 < U64_RANGE
    ensures Bump(cursor) == cursor + 1
  {
  }

  /** What a turn hands out when the cursor stands at `x`; other events hand out nothing. */
  function Expected(e: Event, x: nat, ids: seq<nat>): Option<nat>
    requires ids != []
  {
    if IsTurn(e) then Some(ids[Residue(x, |ids|)]) else None
  }

  /** One turn hands out the key at position `cursor % n` and moves the cursor by one; a drop does neither. */
  lemma TurnOutcome(q: Pool, horizon: nat, e: Event, ids: seq<nat>)
    requires Stable(q, horizon) && e.now <= horizon && (IsTurn(e) || e.op.DropOp?)
    requires ids == InOrder(Ready(q.entries)) && ids != [] && (IsTurn(e) ==> q.cursor + 1 < U64_RANGE)
    ensures HandedOut(q, e) == Expected(e, q.cursor, ids)
    ensures Step(q, e).cursor == q.cursor + if IsTurn(e) then 1 else 0
  {
    if IsTurn(e) {
      ExpireStable(q, horizon, e.now);
      ChooseRoundRobin(q.entries, q.cursor, e.op.pick, ids);
      BumpCounts(q.cursor);
    }
  }

  /** Turn by turn, the keys in cyclic order from cursor position `x` on. */
  function Cycle(events: seq<Event>, x: nat, ids: seq<nat>): seq<Option<nat>>
    requires ids != []
  {
    if events == [] then []
    else [Expected(events[0], x, ids)] + Cycle(events[1..], if IsTurn(events[0]) then x + 1 else x, ids)
  }

  /** Between turns and drops: these keys are ready and no cooldown ends before the horizon. */
  ghost predicate Turning(p: Pool, e: Event, horizon: nat, keys: set<nat>) {
    && Stable(p, horizon) && Ready(p.entries) == keys && e.now <= horizon
    && (if IsTurn(e) then p.cursor + 1 < U64_RANGE else e.op.DropOp?)
  }

  /** Each turn gives out the key under the cursor and moves the cursor by one; nothing else changes the picture. */
  ghost predicate TakesTurns(step: Stepper, out: Outcome, horizon: nat, keys: set<nat>, ids: seq<nat>)
    requires ids != []
  {
    forall p, e :: Turning(p, e, horizon, keys) ==>
      && out(p, e) == Expected(e, p.cursor, ids)
      && step(p, e).cursor == p.cursor + (if IsTurn(e) then 1 else 0)
      && Stable(step(p, e), horizon) && Ready(step(p, e).entries) == keys
  }

  lemma PoolTakesTurns(horizon: nat, keys: set<nat>, ids: seq<nat>)
    requires ids == InOrder(keys) && ids != []
    ensures TakesTurns(Step, HandedOut, horizon, keys, ids)
  {
    forall p, e | Turning(p, e, horizon, keys)
      ensures HandedOut(p, e) == Expected(e, p.cursor, ids)
              && Step(p, e).cursor == p.cursor + (if IsTurn(e) then 1 else 0)
      ensures Stable(Step(p, e), horizon) && Ready(Step(p, e).entries) == keys
    {
      TurnOutcome(p, horizon, e, ids);
      StepKeepsReady(p, horizon, e);
    }
  }

  lemma {:induction false} TurnsAreCyclic(step: Stepper, out: Outcome, p: Pool, events: seq<Event>, horizon: nat,
                                          keys: set<nat>, ids: seq<nat>)
    requires ids != [] && TakesTurns(step, out, horizon, keys, ids)
    requires Stable(p, horizon) && Ready(p.entries) == keys && RoundRobinRun(events, horizon)
             && p.cursor + Turns(events) < U64_RANGE
    ensures Trace(step, out, p, events) == Cycle(events, p.cursor, ids)
    decreases |events|
  {
    if events != [] {
      assert Turning(p, events[0], horizon, keys);
      TurnsAreCyclic(step, out, step(p, events[0]), events[1..], horizon, keys, ids);
    }
  }

  lemma RoundRobinIsCyclic(p: Pool, events: seq<Event>, horizon: nat, ids: seq<nat>)
    requires Stable(p, horizon) && RoundRobinRun(events, horizon)
    requires ids == InOrder(Ready(p.entries)) && ids != [] && p.cursor + Turns(events) < U64_RANGE
    ensures Outcomes(p, events) == Cycle(events, p.cursor, ids)
  {
    PoolTakesTurns(horizon, Ready(p.entries), ids);
    TurnsAreCyclic(Step, HandedOut, p, events, horizon, Ready(p.entries), ids);
  }

  /** In cyclic order key number `i` comes up once for every cursor value that falls on it. */
  lemma {:induction false} CycleCount(events: seq<Event>, x: nat, ids: seq<nat>, i: nat)
    requires i < |ids| && forall a, b :: 0 <= a < b < |ids| ==> ids[a] != ids[b]
    ensures Count(Cycle(events, x, ids), ids[i]) == Visits(x + Turns(events), |ids|, i) - Visits(x, |ids|, i)
  {
    if events != [] {
      var y := if IsTurn(events[0]) then x + 1 else x;
      CycleCount(events[1..], y, ids, i);
      assert Cycle(events, x, ids)[1..] == Cycle(events[1..], y, ids);
      assert i != Residue(x, |ids|) ==> ids[i] != ids[Residue(x, |ids|)];
    }
  }

  /** `picks` is `m / n` rounded down or up. */
  predicate FairShare(picks: int, m: nat, n: nat) {
    n > 0 && m / n <= picks <= m / n + (if m % n == 0 then 0 else 1)
  }

  lemma CycleIsFair(events: seq<Event>, c: nat, ids: seq<nat>, k: nat)
    requires k in ids && forall a, b :: 0 <= a < b < |ids| ==> ids[a] != ids[b]
    ensures FairShare(Count(Cycle(events, c, ids), k), Turns(events), |ids|)
  {
    var i :| 0 <= i < |ids| && ids[i] == k;
    CycleCount(events, c, ids, i);
    WindowVisits(c, Turns(events), |ids|, i);
  }

  /**
   Fairness: over any run of `m` round-robin acquires on `n` ready keys, with guards dropped at any
   point, every key is handed out `m / n` times, rounded down or up.
   */
  lemma RoundRobinFair(p: Pool, events: seq<Event>, horizon: nat, k: nat)
    requires Stable(p, horizon) && RoundRobinRun(events, horizon)
    requires k in Ready(p.entries) && p.cursor + Turns(events) < U64_RANGE
    ensures FairShare(Count(Outcomes(p, events), k), Turns(events), |Ready(p.entries)|)
  {
    var ids := InOrder(Ready(p.entries));
    assert k in ids;
    RoundRobinIsCyclic(p, events, horizon, ids);
    CycleIsFair(events, p.cursor, ids, k);
  }

  // ── Least requests ──

  ghost predicate Level(p: Pool) {
    forall a, b :: a in Ready(p.entries) && b in Ready(p.entries) ==>
        p.entries[a].state.Active() <= p.entries[b].state.Active() + 1
  }

  lemma ChooseLeast(entries: Entries, cursor: nat, pick: nat, b: nat)
    requires b in Ready(entries) && Choose(entries, LeastRequests, cursor, pick).Ok?
    ensures entries[Choose(entries, LeastRequests, cursor, pick).value].state.Active() <= entries[b].state.Active()
  {
  }

  lemma GrantKeepsLevel(p: Pool, strategy: Strategy, got: Result<nat, PoolError>)
    requires Level(p) && (got.Ok? ==> got.value in Ready(p.entries))
    requires got.Ok? ==> forall b :: b in Ready(p.entries) ==>
             p.entries[got.value].state.Active() <= p.entries[b].state.Active()
    ensures Level(Granted(p, strategy, got))
  {
  }

  lemma LeastRequestsKeepsLevel(p: Pool, horizon: nat, e: Event)
    requires Stable(p, horizon) && e.now <= horizon && Level(p) && e.op.AcquireOp? && e.op.strategy == LeastRequests
    ensures Level(Step(p, e))
  {
    ExpireStable(p, horizon, e.now);
    var got := Acquired(p, LeastRequests, e.op.pick, e.now);
    forall b | b in Ready(p.entries) && got.Ok?
      ensures p.entries[got.value].state.Active() <= p.entries[b].state.Active()
    {
      ChooseLeast(p.entries, p.cursor, e.op.pick, b);
    }
    GrantKeepsLevel(p, LeastRequests, got);
  }

  /** From level counts, any run of least-requests acquires keeps the counts within one of each other. */
  lemma {:induction false} LeastRequestsRunKeepsLevel(p: Pool, events: seq<Event>, horizon: nat)
    requires Stable(p, horizon) && Level(p)
    requires forall i :: 0 <= i < |events| ==>
             events[i].now <= horizon && events[i].op.AcquireOp? && events[i].op.strategy == LeastRequests
    ensures Stable(Run(p, events), horizon) && Level(Run(p, events))
  {
    if events != [] {
      var front := events[..|events| - 1];
      LeastRequestsRunKeepsLevel(p, front, horizon);
      StepKeepsReady(Run(p, front), horizon, events[|events| - 1]);
      LeastRequestsKeepsLevel(Run(p, front), horizon, events[|events| - 1]);
    }
  }
}
