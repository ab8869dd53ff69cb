/**
 Cooldown marks around a hot swap (src/admin/resource_keys.rs, src/keys/registry.rs, src/proxy/retry.rs).
 Requests in flight keep the pool they started with, so marks reach the old pool before the snapshot
 that the new one is built from, and after it.
 */
module KeyHotSwap {
  import opened Prelude
  import opened KeyStates
  import opened KeyCarry

  /** The new list of keys, the old one, and when the old pool is read and each new key restored. */
  datatype Plan = Plan(entries: Entries, refs: seq<string>, prevRefs: seq<string>, snapNow: nat, clock: nat -> nat)

  /** New key number `i` has the ref of old key number `j`, and refs do not repeat. */
  ghost predicate Kept(plan: Plan, prev: Pool, i: nat, j: nat) {
    && i < |plan.refs| && j < |plan.prevRefs| && plan.refs[i] == plan.prevRefs[j] && Distinct(plan.prevRefs)
    && Complete(prev.entries, plan.prevRefs) && i + 1 in plan.entries && plan.entries[i + 1].state == Available
    && plan.clock(i + 1) >= plan.snapNow
  }

  /** Both pools after the snapshot. */
  datatype Pools = Pools(prev: Pool, next: Pool)

  function Swap(plan: Plan, prev: Pool): Pools {
    var expired := Expire(prev.entries, plan.snapNow);
    Pools(prev.(entries := expired),
          Pool(Carry(plan.entries, plan.refs, expired, plan.prevRefs, plan.snapNow, plan.clock), 0, multiset{}))
  }

  /** An event on the pool that requests in flight still use, or on the new one. */
  datatype Side = Old(event: Event) | New(event: Event)

  function StepSide(s: Pools, e: Side): Pools {
    if e.Old? then s.(prev := Step(s.prev, e.event)) else s.(next := Step(s.next, e.event))
  }

  function RunSides(s: Pools, trace: seq<Side>): Pools {
    if trace == [] then s else StepSide(RunSides(s, trace[..|trace| - 1]), trace[|trace| - 1])
  }

  /** The old pool's mark of key `j` at `now`, and its deadline. */
  function Deadline(now: nat, retryAfter: Option<nat>): nat { now + Cooldown(retryAfter) }

  // ── Marks before the snapshot ──

  lemma ExpiredStillCools(prev: Pool, k: nat, until: nat, now: nat)
    requires Cooling(prev, k, until) && now < until
    ensures k in Expire(prev.entries, now) && Expire(prev.entries, now)[k].state == CoolingUntil(until)
  {
  }

  /**
   A mark before the snapshot is honoured: whatever happens in the old pool up to the snapshot, the
   new pool does not hand the key out before the deadline, in any run.
   */
  lemma EarlyMarkIsHonoured(plan: Plan, p: Pool, events: seq<Event>, now: nat, retryAfter: Option<nat>, i: nat, j: nat)
    requires j + 1 in p.entries && plan.snapNow < Deadline(now, retryAfter)
    requires forall n :: 0 <= n < |events| ==>
               events[n].now < Deadline(now, retryAfter) && !Touches(events[n].op, j + 1)
    requires Kept(plan, Run(MarkCooling(p, j + 1, retryAfter, now), events), i, j)
    ensures var prev := Run(MarkCooling(p, j + 1, retryAfter, now), events);
            StaysOut(Swap(plan, prev).next, i + 1, plan.clock(i + 1), Deadline(now, retryAfter))
  {
    var prev, until := Run(MarkCooling(p, j + 1, retryAfter, now), events), Deadline(now, retryAfter);
    CooldownHolds(MarkCooling(p, j + 1, retryAfter, now), j + 1, until, events);
    ExpiredStillCools(prev, j + 1, until, plan.snapNow);
    var expired := Expire(prev.entries, plan.snapNow);
    assert StillCooling(expired, plan.prevRefs, plan.refs[i], plan.snapNow, j);
    var next := Pool(plan.entries, 0, multiset{});
    CarriedKeyStaysOut(next, plan.refs, expired, plan.prevRefs, plan.snapNow, plan.clock, i, j);
  }

  // ── Marks after the snapshot ──

  /** `now` and `was`: what an entry may become without a mark or a restore of its own. */
  predicate NoNewCooling(was: Entries, now: Entries, k: nat) {
    k in was ==> k in now && (now[k].state.CoolingUntil? ==> now[k].state == was[k].state)
  }

  lemma ExpireNoNewCooling(p: Pool, now: nat, k: nat)
    ensures NoNewCooling(p.entries, Expire(p.entries, now), k)
  {
  }

  lemma GrantNoNewCooling(p: Pool, strategy: Strategy, got: Result<nat, PoolError>, k: nat)
    requires got.Ok? ==> got.value in p.entries
    ensures NoNewCooling(p.entries, Granted(p, strategy, got).entries, k)
  {
  }

  /** Without a mark or a restore of its own, a key that cools cooled before, to the same deadline. */
  lemma StepNoNewCooling(p: Pool, e: Event, k: nat)
    requires !Touches(e.op, k)
    ensures NoNewCooling(p.entries, Step(p, e).entries, k)
  {
    match e.op
    case AcquireOp(strategy, pick) =>
      ExpireNoNewCooling(p, e.now, k);
      GrantNoNewCooling(p.(entries := Expire(p.entries, e.now)), strategy, Acquired(p, strategy, pick, e.now), k);
    case ExpireOp => ExpireNoNewCooling(p, e.now, k);
    case _ =>
  }

  /** The new pool's key, after events that neither mark nor restore it and are over by `now`. */
  ghost predicate NewQuiet(trace: seq<Side>, k: nat, now: nat) {
    forall n :: 0 <= n < |trace| && trace[n].New? ==> trace[n].event.now <= now && !Touches(trace[n].event.op, k)
  }

  lemma {:induction false} RunNoNewCooling(s: Pools, trace: seq<Side>, k: nat, now: nat)
    requires k in s.next.entries && NewQuiet(trace, k, now)
    ensures NoNewCooling(s.next.entries, RunSides(s, trace).next.entries, k)
  {
    if trace != [] {
      var n := |trace| - 1;
      RunNoNewCooling(s, trace[..n], k, now);
      if trace[n].New? { StepNoNewCooling(RunSides(s, trace[..n]).next, trace[n].event, k); }
    }
  }

  lemma {:induction false} RunKeepsCooling(s: Pools, trace: seq<Side>, k: nat, until: nat, now: nat)
    requires Cooling(s.next, k, until) && NewQuiet(trace, k, now) && now < until
    ensures Cooling(RunSides(s, trace).next, k, until)
  {
    if trace != [] {
      var n := |trace| - 1;
      RunKeepsCooling(s, trace[..n], k, until, now);
      if trace[n].New? { StepKeepsCooling(RunSides(s, trace[..n]).next, k, until, trace[n].event); }
    }
  }

  /** What the snapshot left of the key's cooldown, counted from its restore, reaches the deadline. */
  predicate CarriedTo(plan: Plan, prev: Pool, i: nat, deadline: nat)
    requires i < |plan.refs|
  {
    LastCoolsUntil(Expire(prev.entries, plan.snapNow), plan.prevRefs, plan.refs[i], plan.snapNow, plan.clock(i + 1),
      deadline)
  }

  /**
   A mark after the snapshot stays in the old pool: whatever happened in either pool since, the new pool
   keeps the key back until the mark's deadline exactly when the snapshot already carried a cooldown
   that reaches it.
   */
  lemma LateMarkIsHonouredIff(plan: Plan, prev: Pool, trace: seq<Side>, now: nat, retryAfter: Option<nat>, i: nat,
                              j: nat)
    requires Kept(plan, prev, i, j) && NewQuiet(trace, i + 1, now) && now < Deadline(now, retryAfter)
    ensures var s := RunSides(Swap(plan, prev), trace + [Old(Event(now, MarkOp(j + 1, retryAfter)))]);
            StaysOut(s.next, i + 1, now, Deadline(now, retryAfter)) <==>
              CarriedTo(plan, prev, i, Deadline(now, retryAfter))
  {
    var s0, k, deadline := Swap(plan, prev), i + 1, Deadline(now, retryAfter);
    var expired := Expire(prev.entries, plan.snapNow);
    MarkLeavesNew(s0, trace, Event(now, MarkOp(j + 1, retryAfter)));
    CarriedState(plan.entries, plan.refs, expired, plan.prevRefs, plan.snapNow, plan.clock, i);
    RunNoNewCooling(s0, trace, k, now);
    StaysOutIff(RunSides(s0, trace).next, k, now, deadline);
    if CarriedTo(plan, prev, i, deadline) {
      RunKeepsCooling(s0, trace, k, s0.next.entries[k].state.until, now);
    }
  }

  lemma MarkLeavesNew(s: Pools, trace: seq<Side>, e: Event)
    ensures RunSides(s, trace + [Old(e)]).next == RunSides(s, trace).next
  {
    assert (trace + [Old(e)])[..|trace|] == trace;
  }

  lemma LeasedIsNotCarried(plan: Plan, prev: Pool, i: nat, j: nat, deadline: nat)
    requires Kept(plan, prev, i, j) && prev.entries[j + 1].state.Leased?
    ensures !CarriedTo(plan, prev, i, deadline)
  {
    var last := LastWith(plan.prevRefs, plan.refs[i]);
    assert last.Some? && plan.prevRefs[last.value - 1] == plan.prevRefs[j];
    assert last.value == j + 1;
  }

  /**
   In particular a request that holds its key across the snapshot marks in vain: a key that did not cool
   then is handed out by some run of the new pool before the mark's deadline.
   */
  lemma LeasedMarkIsLost(plan: Plan, prev: Pool, trace: seq<Side>, now: nat, retryAfter: Option<nat>, i: nat, j: nat)
    requires Kept(plan, prev, i, j) && NewQuiet(trace, i + 1, now) && now < Deadline(now, retryAfter)
    requires prev.entries[j + 1].state.Leased?
    ensures var s := RunSides(Swap(plan, prev), trace + [Old(Event(now, MarkOp(j + 1, retryAfter)))]);
            !StaysOut(s.next, i + 1, now, Deadline(now, retryAfter))
  {
    LateMarkIsHonouredIff(plan, prev, trace, now, retryAfter, i, j);
    LeasedIsNotCarried(plan, prev, i, j, Deadline(now, retryAfter));
  }
}
