/** What a rebuilt key pool takes over from the pool it replaces (src/keys/registry.rs, src/keys/pool.rs). */
module KeyCarry {
  import opened Prelude
  import opened KeyStates

  /** The id of the last key with this secret ref: later snapshots overwrite earlier ones in the lookup map. */
  function LastWith(refs: seq<string>, ref: string): (r: Option<nat>)
    ensures r.None? ==> ref !in refs
    ensures r.Some? ==> 1 <= r.value <= |refs| && refs[r.value - 1] == ref
    ensures r.Some? ==> forall j :: r.value <= j < |refs| ==> refs[j] != ref
  {
    if refs == [] then None
    else if refs[|refs| - 1] == ref then Some(|refs|)
    else LastWith(refs[..|refs| - 1], ref)
  }

  /** What is left of a cooldown at the time of the snapshot. */
  function Remaining(e: KeyEntry, now: nat): Option<nat> {
    if e.state.CoolingUntil? && now < e.state.until then Some(e.state.until - now) else None
  }

  /** New key `k` takes over from the old key with the same ref; restore `k` reads the clock at `clock(k)`. */
  function CarriedEntry(e: KeyEntry, ref: string, prev: Entries, prevRefs: seq<string>, snapNow: nat,
                        now: nat): KeyEntry {
    var j := LastWith(prevRefs, ref);
    if j.Some? && j.value in prev then Restored(e, Remaining(prev[j.value], snapNow), prev[j.value].ewma, now) else e
  }

  function Carry(entries: Entries, refs: seq<string>, prev: Entries, prevRefs: seq<string>, snapNow: nat,
                 clock: nat -> nat): Entries {
    map k | k in entries ::
      if 1 <= k <= |refs| then CarriedEntry(entries[k], refs[k - 1], prev, prevRefs, snapNow, clock(k)) else entries[k]
  }

  /** The carry as far as new key number `i`. */
  function CarriedUpTo(entries: Entries, refs: seq<string>, prev: Entries, prevRefs: seq<string>,
                       snapNow: nat, clock: nat -> nat, i: nat): Entries {
    map k | k in entries ::
      if 1 <= k <= |refs| && k <= i then CarriedEntry(entries[k], refs[k - 1], prev, prevRefs, snapNow, clock(k))
          else entries[k]
  }

  /** One more key takes over, if its ref was there before. */
  lemma CarriedStep(entries: Entries, refs: seq<string>, prev: Entries, prevRefs: seq<string>,
                    snapNow: nat, clock: nat -> nat, i: nat)
    requires i < |refs| && i + 1 in entries
    ensures var now, after := CarriedUpTo(entries, refs, prev, prevRefs, snapNow, clock, i),
                              CarriedUpTo(entries, refs, prev, prevRefs, snapNow, clock, i + 1);
            && now[i + 1] == entries[i + 1]
            && after == now[i + 1 := CarriedEntry(entries[i + 1], refs[i], prev, prevRefs, snapNow, clock(i + 1))]
  {
  }

  lemma CarriedNone(entries: Entries, refs: seq<string>, prev: Entries, prevRefs: seq<string>,
                    snapNow: nat, clock: nat -> nat)
    ensures CarriedUpTo(entries, refs, prev, prevRefs, snapNow, clock, 0) == entries
  {
  }

  lemma CarriedAll(entries: Entries, refs: seq<string>, prev: Entries, prevRefs: seq<string>,
                   snapNow: nat, clock: nat -> nat)
    ensures CarriedUpTo(entries, refs, prev, prevRefs, snapNow, clock, |refs|) ==
            Carry(entries, refs, prev, prevRefs, snapNow, clock)
  {
  }

  /** An entry after its turn, given the old states by ref. */
  function TakenOver(e: KeyEntry, ref: string, byRef: map<string, KeyEntry>, snapNow: nat, now: nat): KeyEntry {
    if ref in byRef then Restored(e, Remaining(byRef[ref], snapNow), byRef[ref].ewma, now) else e
  }

  lemma TakenOverIsCarried(e: KeyEntry, ref: string, byRef: map<string, KeyEntry>, prev: Entries, prevRefs: seq<string>,
                           snapNow: nat, now: nat)
    requires ref in byRef <==> ref in prevRefs
    requires ref in byRef ==> var last := LastWith(prevRefs, ref);
                              last.Some? && last.value in prev && byRef[ref] == prev[last.value]
    ensures TakenOver(e, ref, byRef, snapNow, now) == CarriedEntry(e, ref, prev, prevRefs, snapNow, now)
  {
  }

  /** The old pool has an entry for every ref. */
  ghost predicate Complete(prev: Entries, prevRefs: seq<string>) {
    forall k :: 1 <= k <= |prevRefs| ==> k in prev
  }

  /** Old key number `j` had this ref and was cooling at the snapshot. */
  predicate StillCooling(prev: Entries, prevRefs: seq<string>, ref: string, snapNow: nat, j: nat) {
    j < |prevRefs| && prevRefs[j] == ref && j + 1 in prev && Remaining(prev[j + 1], snapNow).Some?
  }

  /** What is left for the last old key with this ref, counted from the restore at `now`, reaches `deadline`. */
  predicate LastCoolsUntil(prev: Entries, prevRefs: seq<string>, ref: string, snapNow: nat, now: nat, deadline: nat) {
    var last := LastWith(prevRefs, ref);
    last.Some? && last.value in prev && Remaining(prev[last.value], snapNow).Some?
    && now + Remaining(prev[last.value], snapNow).value >= deadline
  }

  /** The carried key: the last old key's EWMA, and its remaining cooldown counted from the restore. */
  lemma CarriedState(entries: Entries, refs: seq<string>, prev: Entries, prevRefs: seq<string>, snapNow: nat,
                     clock: nat -> nat, i: nat)
    requires i < |refs| && refs[i] in prevRefs && i + 1 in entries && entries[i + 1].state == Available
             && Complete(prev, prevRefs)
    ensures var e, last := Carry(entries, refs, prev, prevRefs, snapNow, clock)[i + 1], LastWith(prevRefs, refs[i]);
            && last.Some? && e.ewma == prev[last.value].ewma && e.weight == entries[i + 1].weight
            && e.state == (if Remaining(prev[last.value], snapNow).Some?
                           then CoolingUntil(clock(i + 1) + Remaining(prev[last.value], snapNow).value) else Available)
  {
  }

  /**
   Cooldown safety for any list of refs, repeated ones included: the carried key honours the deadline
   of every old key with its ref that was still cooling, exactly when the last of them reaches all
   those deadlines; and it has the EWMA of all of them exactly when they agree.
   */
  lemma CarryKeepsDeadlinesIff(entries: Entries, refs: seq<string>, prev: Entries, prevRefs: seq<string>, snapNow: nat,
                               clock: nat -> nat, i: nat)
    requires i < |refs| && refs[i] in prevRefs && i + 1 in entries && entries[i + 1].state == Available
             && Complete(prev, prevRefs)
    ensures var e := Carry(entries, refs, prev, prevRefs, snapNow, clock)[i + 1];
            (forall j: nat :: StillCooling(prev, prevRefs, refs[i], snapNow, j) ==>
              e.state.CoolingUntil? && e.state.until >= prev[j + 1].state.until) <==>
            (forall j: nat :: StillCooling(prev, prevRefs, refs[i], snapNow, j) ==>
              LastCoolsUntil(prev, prevRefs, refs[i], snapNow, clock(i + 1), prev[j + 1].state.until))
    ensures var e := Carry(entries, refs, prev, prevRefs, snapNow, clock)[i + 1];
            (forall j :: 0 <= j < |prevRefs| && prevRefs[j] == refs[i] ==> e.ewma == prev[j + 1].ewma) <==>
            (forall a, b :: 0 <= a < |prevRefs| && 0 <= b < |prevRefs| && prevRefs[a] == refs[i] == prevRefs[b] ==>
               prev[a + 1].ewma == prev[b + 1].ewma)
  {
    CarriedState(entries, refs, prev, prevRefs, snapNow, clock, i);
  }

  /**
   Cooldown safety across a hot swap: whatever the new order of the keys, a kept secret ref has the
   same EWMA as before, cools exactly if it still cooled, and then until a deadline no earlier.
   */
  lemma CarryKeepsCooldown(entries: Entries, refs: seq<string>, prev: Entries, prevRefs: seq<string>, snapNow: nat,
                           clock: nat -> nat, i: nat, j: nat)
    requires i < |refs| && j < |prevRefs| && refs[i] == prevRefs[j] && Distinct(prevRefs)
    requires i + 1 in entries && entries[i + 1].state == Available && j + 1 in prev && clock(i + 1) >= snapNow
    ensures var e, e0 := Carry(entries, refs, prev, prevRefs, snapNow, clock)[i + 1], prev[j + 1];
            && e.ewma == e0.ewma
            && (e.state.CoolingUntil? <==> e0.state.CoolingUntil? && snapNow < e0.state.until)
            && (e.state.CoolingUntil? ==> e.state.until >= e0.state.until)
            && !e.state.Leased?
  {
  }

  /**
   In terms of runs: from the restore until the deadline of an old key with its ref, no run of the
   rebuilt pool hands the key out, exactly when that deadline has passed or the last old key reaches it.
   */
  lemma CarriedStaysOutIff(p: Pool, refs: seq<string>, prev: Entries, prevRefs: seq<string>, snapNow: nat,
                           clock: nat -> nat, i: nat, j: nat)
    requires i < |refs| && i + 1 in p.entries && p.entries[i + 1].state == Available && Complete(prev, prevRefs)
    requires StillCooling(prev, prevRefs, refs[i], snapNow, j)
    ensures var q := p.(entries := Carry(p.entries, refs, prev, prevRefs, snapNow, clock));
            var now, deadline := clock(i + 1), prev[j + 1].state.until;
            StaysOut(q, i + 1, now, deadline) <==>
              now >= deadline || LastCoolsUntil(prev, prevRefs, refs[i], snapNow, now, deadline)
  {
    CarriedState(p.entries, refs, prev, prevRefs, snapNow, clock, i);
    var q := p.(entries := Carry(p.entries, refs, prev, prevRefs, snapNow, clock));
    StaysOutIff(q, i + 1, clock(i + 1), prev[j + 1].state.until);
  }

  /** With distinct refs the condition always holds, whatever the new order of the keys. */
  lemma CarriedKeyStaysOut(p: Pool, refs: seq<string>, prev: Entries, prevRefs: seq<string>, snapNow: nat,
                           clock: nat -> nat, i: nat, j: nat)
    requires i < |refs| && i + 1 in p.entries && p.entries[i + 1].state == Available && Complete(prev, prevRefs)
    requires StillCooling(prev, prevRefs, refs[i], snapNow, j) && Distinct(prevRefs) && clock(i + 1) >= snapNow
    ensures var q := p.(entries := Carry(p.entries, refs, prev, prevRefs, snapNow, clock));
            StaysOut(q, i + 1, clock(i + 1), prev[j + 1].state.until)
  {
    CarriedStaysOutIff(p, refs, prev, prevRefs, snapNow, clock, i, j);
    assert LastWith(prevRefs, refs[i]) == Some(j + 1);
  }

  /** For instance, a cooling key followed by an available one with the same ref comes back available. */
  lemma RepeatedRefLosesCooldown(until: nat, now: nat, clock: nat -> nat)
    requires now < until
    ensures var prev: Entries := map[1 := KeyEntry(CoolingUntil(until), 1, None), 2 := KeyEntry(Available, 1, None)];
            var entries: Entries := map[1 := KeyEntry(Available, 1, None)];
            Carry(entries, ["r"], prev, ["r", "r"], now, clock)[1].state == Available
  {
    var prev: Entries := map[1 := KeyEntry(CoolingUntil(until), 1, None), 2 := KeyEntry(Available, 1, None)];
    var entries: Entries := map[1 := KeyEntry(Available, 1, None)];
    CarriedState(entries, ["r"], prev, ["r", "r"], now, clock, 0);
  }

  /** And of two cooling keys with one ref, the later one's shorter cooldown replaces the longer one. */
  lemma RepeatedRefShortensCooldown(longer: nat, shorter: nat, now: nat, clock: nat -> nat)
    requires now < shorter && clock(1) + (shorter - now) < longer
    ensures var prev: Entries := map[1 := KeyEntry(CoolingUntil(longer), 1, None), 2 :=
            KeyEntry(CoolingUntil(shorter), 1, None)];
            var entries: Entries := map[1 := KeyEntry(Available, 1, None)];
            var q := Pool(Carry(entries, ["r"], prev, ["r", "r"], now, clock), 0, multiset{});
            q.entries[1].state == CoolingUntil(clock(1) + (shorter - now)) && !StaysOut(q, 1, clock(1), longer)
  {
    var prev: Entries := map[1 := KeyEntry(CoolingUntil(longer), 1, None), 2 :=
        KeyEntry(CoolingUntil(shorter), 1, None)];
    var entries: Entries := map[1 := KeyEntry(Available, 1, None)];
    CarriedState(entries, ["r"], prev, ["r", "r"], now, clock, 0);
    StaysOutIff(Pool(Carry(entries, ["r"], prev, ["r", "r"], now, clock), 0, multiset{}), 1, clock(1), longer);
  }
}
