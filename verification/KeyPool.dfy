/**
 The key pool as a locked object, and the hot swap of the resources' pools (src/keys/pool.rs,
 src/keys/registry.rs).
 */
module KeyPool {
  import opened Prelude
  import opened Sorting
  import opened KeyStates
  import opened KeyCarry

  predicate NatLe(a: nat, b: nat) { a <= b }

  lemma {:induction false} IncreasingUnique(xs: seq<nat>, ys: seq<nat>)
    requires forall i, j :: 0 <= i < j < |xs| ==> xs[i] < xs[j]
    requires forall i, j :: 0 <= i < j < |ys| ==> ys[i] < ys[j]
    requires forall x :: x in xs <==> x in ys
    ensures xs == ys
  {
    if xs == [] {
      assert forall i :: 0 <= i < |ys| ==> ys[i] in xs;
    } else {
      assert xs[0] in ys && ys != [] && ys[0] in xs;
      var xt, yt := xs[1..], ys[1..];
      forall x ensures x in xt <==> x in yt {
        assert x in xs <==> x == xs[0] || x in xt;
        assert x in ys <==> x == ys[0] || x in yt;
      }
      IncreasingUnique(xt, yt);
      assert xs == [xs[0]] + xt && ys == [ys[0]] + yt;
    }
  }

  class KeyPool {
    var entries: Entries
    var rrCursor: nat
    /** Live guards per key. */
    ghost var guards: multiset<nat>

    ghost function Value(): Pool
      reads this
    {
      Pool(entries, rrCursor, guards)
    }

    constructor ()
      ensures Value() == Pool(map[], 0, multiset{})
    {
      entries, rrCursor, guards := map[], 0, multiset{};
    }

    method Insert(id: nat, weight: nat)
      modifies this`entries
      ensures entries == old(entries)[id := KeyEntry(Available, weight, None)]
    {
      entries := entries[id := KeyEntry(Available, weight, None)];
    }

    method ExpireCooling(now: nat)
      modifies this`entries
      ensures entries == Expire(old(entries), now)
    {
      var todo := entries.Keys;
      while todo != {}
        invariant todo <= entries.Keys == old(entries).Keys
        invariant forall k :: k in entries ==>
            entries[k] == if k in todo then old(entries)[k] else Expired(old(entries)[k], now)
      {
        var k :| k in todo;
        if entries[k].state.CoolingUntil? && now >= entries[k].state.until {
          entries := entries[k := entries[k].(state := Available)];
        }
        todo := todo - {k};
      }
    }

    /** The candidate snapshot: ids that are not cooling, sorted. */
    method CollectReady() returns (ids: seq<nat>)
      ensures ids == InOrder(Ready(entries))
    {
      ids := [];
      var todo := entries.Keys;
      while todo != {}
        invariant todo <= entries.Keys && Distinct(ids)
        invariant forall k :: k in ids <==> k in Ready(entries) && k !in todo
      {
        var k :| k in todo;
        if !entries[k].state.CoolingUntil? { ids := ids + [k]; }
        todo := todo - {k};
      }
      var sorted := SortBy(NatLe, ids);
      SortBySorted(NatLe, ids);
      DistinctPermutation(ids, sorted);
      forall i, j | 0 <= i < j < |sorted| ensures sorted[i] < sorted[j] { assert NatLe(sorted[i], sorted[j]); }
      IncreasingUnique(sorted, InOrder(Ready(entries)));
      ids := sorted;
    }

    method ChooseKey(strategy: Strategy, pick: nat) returns (r: Result<nat, PoolError>)
      ensures r == Choose(entries, strategy, rrCursor, pick)
    {
      var ids := CollectReady();
      if ids == [] { return Err(NoAvailableKey); }
      ReadyAreEntries(entries, ids);
      ResidueIsMod(rrCursor, |ids|);
      var i := if strategy == RoundRobin then rrCursor % |ids| else Select(strategy, entries, ids, rrCursor, pick);
      return Ok(ids[i]);
    }

    /** `acquire`: the returned key is the guard's; it stays alive until `Drop`. */
    method Acquire(strategy: Strategy, pick: nat, now: nat) returns (r: Result<nat, PoolError>)
      modifies this
      ensures r == Acquired(old(Value()), strategy, pick, now)
      ensures Value() == KeyStates.Acquire(old(Value()), strategy, pick, now)
    {
      ExpireCooling(now);
      r := ChooseKey(strategy, pick);
      if r.Err? { return; }
      if strategy == RoundRobin { rrCursor := (rrCursor + 1) % U64_RANGE; }
      entries := entries[r.value := entries[r.value].(state := Lease(entries[r.value].state))];
      guards := guards + multiset{r.value};
    }

    /** Dropping a live guard. */
    method Drop(key: nat)
      requires key in guards
      modifies this
      ensures Value() == Release(old(Value()), key)
    {
      if key in entries { entries := entries[key := entries[key].(state := Unlease(entries[key].state))]; }
      guards := guards - multiset{key};
    }

    method MarkCooling(key: nat, retryAfter: Option<nat>, now: nat)
      modifies this
      ensures Value() == KeyStates.MarkCooling(old(Value()), key, retryAfter, now)
    {
      if key in entries { entries := entries[key := entries[key].(state := CoolingUntil(now + Cooldown(retryAfter)))]; }
    }

    method RestoreRuntime(key: nat, remaining: Option<nat>, ewma: Option<nat>, now: nat)
      modifies this
      ensures Value() == KeyStates.RestoreRuntime(old(Value()), key, remaining, ewma, now)
      ensures entries == if key in old(entries)
              then old(entries)[key := Restored(old(entries)[key], remaining, ewma, now)] else old(entries)
    {
      if key !in entries { return; }
      if remaining.Some? && remaining.value > 0 {
        entries := entries[key := entries[key].(state := CoolingUntil(now + remaining.value))];
      }
      entries := entries[key := entries[key].(ewma := ewma)];
    }
  }

  class ResourceKeyPool {
    const refs: seq<string>
    const pool: KeyPool

    /** Keys get the ids `1..n` in list order. */
    ghost predicate Valid()
      reads this, pool
    {
      forall k :: k in pool.entries <==> 1 <= k <= |refs|
    }

    constructor (keys: seq<(string, nat)>)
      ensures Valid() && fresh(pool) && refs == Map((k: (string, nat)) => k.0, keys)
      ensures forall k :: k in pool.entries ==> pool.entries[k] == KeyEntry(Available, keys[k - 1].1, None)
    {
      pool := new KeyPool();
      refs := Map((k: (string, nat)) => k.0, keys);
      new;
      for i := 0 to |keys|
        invariant fresh(pool)
        invariant forall k :: k in pool.entries <==> 1 <= k <= i
        invariant forall k :: k in pool.entries ==> pool.entries[k] == KeyEntry(Available, keys[k - 1].1, None)
      {
        pool.Insert(i + 1, keys[i].1);
      }
    }

    /** Old state by ref: the loop of inserts that builds the lookup map. */
    method SnapshotByRef(now: nat) returns (byRef: map<string, KeyEntry>)
      requires Valid()
      modifies pool
      ensures Valid() && pool.entries == Expire(old(pool.entries), now)
      ensures forall r :: r in byRef <==> r in refs
      ensures forall r :: r in byRef ==> LastWith(refs, r).Some? && LastWith(refs, r).value in pool.entries
                                         && byRef[r] == pool.entries[LastWith(refs, r).value]
    {
      pool.ExpireCooling(now);
      byRef := map[];
      for i := 0 to |refs|
        invariant Valid() && pool.entries == Expire(old(pool.entries), now)
        invariant forall r :: r in byRef <==> r in refs[..i]
        invariant forall r :: r in byRef ==>
            LastWith(refs[..i], r).Some? && LastWith(refs[..i], r).value in pool.entries
                                             && byRef[r] == pool.entries[LastWith(refs[..i], r).value]
      {
        assert refs[..i + 1][..i] == refs[..i];
        byRef := byRef[refs[i] := pool.entries[i + 1]];
      }
      assert refs[..|refs|] == refs;
    }

    /** The turn of new key number `i`: it takes over if its ref has a snapshot. */
    method RestoreKey(i: nat, byRef: map<string, KeyEntry>, snapNow: nat, now: nat)
      requires Valid() && i < |refs|
      modifies pool
      ensures Valid() && pool.entries ==
              old(pool.entries)[i + 1 := TakenOver(old(pool.entries)[i + 1], refs[i], byRef, snapNow, now)]
    {
      if refs[i] in byRef {
        var e := byRef[refs[i]];
        pool.RestoreRuntime(i + 1, Remaining(e, snapNow), e.ewma, now);
      }
    }

    /** `carry_runtime_from` for one resource. */
    method CarryRuntimeFrom(prev: ResourceKeyPool, snapNow: nat, clock: nat -> nat)
      requires Valid() && prev.Valid() && pool != prev.pool
      modifies pool, prev.pool
      ensures Valid() && prev.Valid() && prev.pool.entries == Expire(old(prev.pool.entries), snapNow)
      ensures pool.entries == Carry(old(pool.entries), refs, prev.pool.entries, prev.refs, snapNow, clock)
    {
      var byRef := prev.SnapshotByRef(snapNow);
      ghost var was, before := pool.entries, prev.pool.entries;
      CarriedNone(was, refs, before, prev.refs, snapNow, clock);
      for i := 0 to |refs|
        invariant Valid() && prev.pool.entries == before
        invariant pool.entries == CarriedUpTo(was, refs, before, prev.refs, snapNow, clock, i)
      {
        CarriedStep(was, refs, before, prev.refs, snapNow, clock, i);
        TakenOverIsCarried(was[i + 1], refs[i], byRef, before, prev.refs, snapNow, clock(i + 1));
        RestoreKey(i, byRef, snapNow, clock(i + 1));
      }
      CarriedAll(was, refs, before, prev.refs, snapNow, clock);
    }
  }

  /** The pools of all resources. */
  class KeyPoolRegistry {
    const pools: map<string, ResourceKeyPool>

    ghost predicate Valid()
      reads this, set id | id in pools :: pools[id], set id | id in pools :: pools[id].pool
    {
      && (forall id :: id in pools ==> pools[id].Valid())
      && (forall a, b :: a in pools && b in pools && a != b ==> pools[a].pool != pools[b].pool)
    }

    constructor (pools: map<string, ResourceKeyPool>)
      ensures this.pools == pools
    {
      this.pools := pools;
    }

    /** `carry_runtime_from`: each resource that had a pool before carries from it, the others are left alone. */
    method CarryRuntimeFrom(prev: KeyPoolRegistry, snap: string -> nat, clock: string -> nat -> nat)
      requires Valid() && prev.Valid()
      requires forall a, b :: a in pools && b in prev.pools ==> pools[a].pool != prev.pools[b].pool
      modifies set id | id in pools :: pools[id].pool, set id | id in prev.pools :: prev.pools[id].pool
      ensures Valid() && prev.Valid()
      ensures forall id :: id in pools && id !in prev.pools ==> pools[id].pool.entries == old(pools[id].pool.entries)
      ensures forall id :: id in prev.pools && id !in pools ==>
              prev.pools[id].pool.entries == old(prev.pools[id].pool.entries)
      ensures forall id :: id in pools && id in prev.pools ==>
                && prev.pools[id].pool.entries == Expire(old(prev.pools[id].pool.entries), snap(id))
                && pools[id].pool.entries == Carry(old(pools[id].pool.entries), pools[id].refs,
                  prev.pools[id].pool.entries, prev.pools[id].refs, snap(id), clock(id))
    {
      var todo := pools.Keys;
      while todo != {}
        invariant todo <= pools.Keys && Valid() && prev.Valid()
        invariant forall id :: id in pools && (id in todo || id !in prev.pools) ==>
            pools[id].pool.entries == old(pools[id].pool.entries)
        invariant forall id :: id in prev.pools && (id in todo || id !in pools) ==>
            prev.pools[id].pool.entries == old(prev.pools[id].pool.entries)
        invariant forall id :: id in pools && id in prev.pools && id !in todo ==>
                    && prev.pools[id].pool.entries == Expire(old(prev.pools[id].pool.entries), snap(id))
                    && pools[id].pool.entries == Carry(old(pools[id].pool.entries), pools[id].refs,
                      prev.pools[id].pool.entries, prev.pools[id].refs, snap(id), clock(id))
      {
        var id :| id in todo;
        if id in prev.pools {
          pools[id].CarryRuntimeFrom(prev.pools[id], snap(id), clock(id));
        }
        todo := todo - {id};
      }
    }
  }
}
