/**
 Tool definition drift and quarantine (src/integrity.rs). The fingerprint is a parameter; times of
 first sight and last change decide nothing and are left out.
 */
module Integrity {
  import opened Prelude
  import opened Json

  /** `name` is the wire name. */
  datatype Descriptor = Descriptor(name: string, description: string, inputSchema: Json)

  type Fingerprint = Descriptor -> string

  datatype Pin = Pin(fp: string, readOnly: Option<bool>, destructive: Option<bool>)

  type Pins = map<string, Pin>

  datatype Drift =
    | ToolChanged(name: string, oldFp: string, newFp: string)
    | ToolAdded(name: string)
    | ToolRemoved(name: string)
    | HintFlipped(name: string, hint: string, oldHint: Option<bool>, newHint: Option<bool>)

  datatype IntegrityPolicy = Warn | Quarantine | Block

  /** A hint under `annotations`, else at the top level. */
  function ReadHint(schema: Json, key: string): Option<bool> {
    var annotations := Get(schema, "annotations");
    var nested := AsBool(if annotations.Some? then Get(annotations.value, key) else None);
    if nested.Some? then nested else AsBool(Get(schema, key))
  }

  function PinOf(fp: Fingerprint, d: Descriptor): Pin {
    Pin(fp(d), ReadHint(d.inputSchema, "readOnlyHint"), ReadHint(d.inputSchema, "destructiveHint"))
  }

  /** A hint is read from `annotations` if it is a boolean there, else from the top level. */
  lemma HintIsRead(schema: Json, key: string)
    ensures schema.Obj? && "annotations" in schema.fields && schema.fields["annotations"].Obj?
            && key in schema.fields["annotations"].fields && schema.fields["annotations"].fields[key].Bool? ==>
              ReadHint(schema, key) == Some(schema.fields["annotations"].fields[key].b)
    ensures schema.Obj? && key in schema.fields && schema.fields[key].Bool?
            && ("annotations" in schema.fields && schema.fields["annotations"].Obj? ==>
                  key !in schema.fields["annotations"].fields || !schema.fields["annotations"].fields[key].Bool?) ==>
              ReadHint(schema, key) == Some(schema.fields[key].b)
    ensures ReadHint(schema, key).Some? ==>
              schema.Obj? && (|| (key in schema.fields && schema.fields[key].Bool?)
                              || ("annotations" in schema.fields && schema.fields["annotations"].Obj?
                                  && key in schema.fields["annotations"].fields
                                  && schema.fields["annotations"].fields[key].Bool?))
  {
  }

  // ── Pinning ──

  /** Tools already pinned are skipped. */
  function PinAll(fp: Fingerprint, pins: Pins, tools: seq<Descriptor>): Pins {
    if tools == [] then pins
    else
      var before := PinAll(fp, pins, tools[..|tools| - 1]);
      var d := tools[|tools| - 1];
      if d.name in before then before else before[d.name := PinOf(fp, d)]
  }

  function Rebased(fp: Fingerprint, tools: seq<Descriptor>): Pins { PinAll(fp, map[], tools) }

  function Names(tools: seq<Descriptor>): seq<string> { Map((d: Descriptor) => d.name, tools) }

  /** A baseline holds one pin per name, taken from a descriptor of that name. */
  lemma {:induction false} RebasedPins(fp: Fingerprint, tools: seq<Descriptor>)
    ensures forall d :: d in tools ==> d.name in Rebased(fp, tools)
    ensures forall n :: n in Rebased(fp, tools) ==>
            exists d :: d in tools && d.name == n && Rebased(fp, tools)[n] == PinOf(fp, d)
  {
    if tools != [] {
      var front, d := tools[..|tools| - 1], tools[|tools| - 1];
      RebasedPins(fp, front);
      assert tools == front + [d];
      var pins := Rebased(fp, tools);
      forall n | n in pins ensures exists x :: x in tools && x.name == n && pins[n] == PinOf(fp, x) {
        if n in Rebased(fp, front) {
          var x :| x in front && x.name == n && Rebased(fp, front)[n] == PinOf(fp, x);
          assert x in tools;
        } else {
          assert d in tools;
        }
      }
    }
  }

  lemma {:induction false} NotPinned(fp: Fingerprint, tools: seq<Descriptor>, name: string)
    requires forall j :: 0 <= j < |tools| ==> tools[j].name != name
    ensures name !in Rebased(fp, tools)
  {
    if tools != [] { NotPinned(fp, tools[..|tools| - 1], name); }
  }

  lemma {:induction false} FirstIsPinned(fp: Fingerprint, tools: seq<Descriptor>, i: nat)
    requires i < |tools| && forall j :: 0 <= j < i ==> tools[j].name != tools[i].name
    ensures tools[i].name in Rebased(fp, tools) && Rebased(fp, tools)[tools[i].name] == PinOf(fp, tools[i])
  {
    var front := tools[..|tools| - 1];
    if i < |front| {
      FirstIsPinned(fp, front, i);
      assert front[i] == tools[i];
    } else {
      NotPinned(fp, front, tools[i].name);
    }
  }

  /** Of several tools with one name the first is pinned, with its fingerprint and both hints. */
  lemma RebasedIsFirst(fp: Fingerprint, tools: seq<Descriptor>, i: nat)
    requires i < |tools| && forall j :: 0 <= j < i ==> tools[j].name != tools[i].name
    ensures tools[i].name in Rebased(fp, tools)
    ensures Rebased(fp, tools)[tools[i].name] ==
            Pin(fp(tools[i]), ReadHint(tools[i].inputSchema, "readOnlyHint"),
              ReadHint(tools[i].inputSchema, "destructiveHint"))
  {
    FirstIsPinned(fp, tools, i);
  }

  // ── Drift events ──

  /** The events that comparing one listed tool with the baseline yields. */
  function DriftOf(fp: Fingerprint, pins: Pins, d: Descriptor): seq<Drift> {
    if d.name !in pins then [ToolAdded(d.name)]
    else
      var was, now := pins[d.name], PinOf(fp, d);
      (if now.fp != was.fp then [ToolChanged(d.name, was.fp, now.fp)] else [])
      + (if now.readOnly != was.readOnly then [HintFlipped(d.name, "readOnlyHint", was.readOnly, now.readOnly)] else [])
      + (if now.destructive != was.destructive
        then [HintFlipped(d.name, "destructiveHint", was.destructive, now.destructive)] else [])
  }

  /** A listed tool drifts when it is new or differs from its pin. */
  predicate Drifts(fp: Fingerprint, pins: Pins, d: Descriptor) {
    d.name !in pins || pins[d.name] != PinOf(fp, d)
  }

  lemma DriftOfIff(fp: Fingerprint, pins: Pins, d: Descriptor)
    ensures DriftOf(fp, pins, d) != [] <==> Drifts(fp, pins, d)
    ensures forall e :: e in DriftOf(fp, pins, d) ==> e.name == d.name && !e.ToolRemoved?
  {
  }

  /** Which events a listed tool causes, with the values before and after. */
  lemma DriftEventIff(fp: Fingerprint, pins: Pins, d: Descriptor, e: Drift)
    ensures var ro, de := ReadHint(d.inputSchema, "readOnlyHint"), ReadHint(d.inputSchema, "destructiveHint");
            e in DriftOf(fp, pins, d) <==>
              if d.name !in pins then e == ToolAdded(d.name)
              else
                || (e == ToolChanged(d.name, pins[d.name].fp, fp(d)) && pins[d.name].fp != fp(d))
                || (e == HintFlipped(d.name, "readOnlyHint", pins[d.name].readOnly, ro) && pins[d.name].readOnly != ro)
                || (e == HintFlipped(d.name, "destructiveHint", pins[d.name].destructive, de)
                  && pins[d.name].destructive != de)
  {
  }

  ghost predicate IsDriftEvent(fp: Fingerprint, pins: Pins, tools: seq<Descriptor>, e: Drift) {
    || (exists d :: d in tools && e in DriftOf(fp, pins, d))
    || (e.ToolRemoved? && e.name in pins && e.name !in Names(tools))
  }

  /** The events of the listed tools, in the order of the list. */
  function DriftAll(fp: Fingerprint, pins: Pins, tools: seq<Descriptor>): seq<Drift> {
    if tools == [] then [] else DriftAll(fp, pins, tools[..|tools| - 1]) + DriftOf(fp, pins, tools[|tools| - 1])
  }

  /** Of one tool the change is reported before the hints, and `readOnlyHint` first. */
  lemma EventsInOrder(fp: Fingerprint, pins: Pins, d: Descriptor, i: nat, j: nat)
    requires i < j < |DriftOf(fp, pins, d)|
    ensures var r := DriftOf(fp, pins, d);
            r[j].HintFlipped? && (r[i].ToolChanged? || (r[i].HintFlipped? && r[i].hint == "readOnlyHint"))
  {
  }

  /** Tools are reported in their order. */
  lemma {:induction false} DriftInOrder(fp: Fingerprint, pins: Pins, xs: seq<Descriptor>, ys: seq<Descriptor>)
    ensures DriftAll(fp, pins, xs + ys) == DriftAll(fp, pins, xs) + DriftAll(fp, pins, ys)
  {
    if ys == [] {
      assert xs + ys == xs;
    } else {
      DriftInOrder(fp, pins, xs, ys[..|ys| - 1]);
      DriftJoined(fp, pins, xs, ys[..|ys| - 1], ys[|ys| - 1], ys);
    }
  }

  lemma DriftJoined(fp: Fingerprint, pins: Pins, xs: seq<Descriptor>, front: seq<Descriptor>, d: Descriptor,
                    ys: seq<Descriptor>)
    requires ys == front + [d] && DriftAll(fp, pins, xs + front) == DriftAll(fp, pins, xs) + DriftAll(fp, pins, front)
    ensures DriftAll(fp, pins, xs + ys) == DriftAll(fp, pins, xs) + DriftAll(fp, pins, ys)
  {
    DriftAllStep(fp, pins, xs + front, d);
    DriftAllStep(fp, pins, front, d);
    assert xs + ys == xs + front + [d];
    Rejoin(DriftAll(fp, pins, xs + ys), DriftAll(fp, pins, ys), DriftAll(fp, pins, xs), DriftAll(fp, pins, front),
           DriftOf(fp, pins, d));
  }

  lemma Rejoin<T>(all: seq<T>, rest: seq<T>, a: seq<T>, b: seq<T>, c: seq<T>)
    requires all == a + b + c && rest == b + c
    ensures all == a + rest
  {
  }

  lemma DriftAllStep(fp: Fingerprint, pins: Pins, xs: seq<Descriptor>, d: Descriptor)
    ensures DriftAll(fp, pins, xs + [d]) == DriftAll(fp, pins, xs) + DriftOf(fp, pins, d)
  {
    assert (xs + [d])[..|xs|] == xs;
  }

  /** One removal for each pinned name that is not listed, in any order. */
  ghost predicate AreRemovals(pins: Pins, tools: seq<Descriptor>, removals: seq<Drift>) {
    Distinct(removals) && forall e :: e in removals <==> e.ToolRemoved? && e.name in pins && e.name !in Names(tools)
  }

  /** What a check reports: listed tools first, in order, then the removals. */
  ghost predicate IsReport(fp: Fingerprint, pins: Pins, tools: seq<Descriptor>, events: seq<Drift>) {
    exists removals :: AreRemovals(pins, tools, removals) && events == DriftAll(fp, pins, tools) + removals
  }

  lemma {:induction false} DriftAllMembers(fp: Fingerprint, pins: Pins, tools: seq<Descriptor>, e: Drift)
    ensures e in DriftAll(fp, pins, tools) <==> exists d :: d in tools && e in DriftOf(fp, pins, d)
  {
    if tools != [] {
      var front, d := tools[..|tools| - 1], tools[|tools| - 1];
      DriftAllMembers(fp, pins, front, e);
      assert tools == front + [d];
      if x :| x in front && e in DriftOf(fp, pins, x) { assert x in tools; }
      assert d in tools;
    }
  }

  lemma ReportMembers(fp: Fingerprint, pins: Pins, tools: seq<Descriptor>, events: seq<Drift>, e: Drift)
    requires IsReport(fp, pins, tools, events)
    ensures e in events <==> IsDriftEvent(fp, pins, tools, e)
  {
    DriftAllMembers(fp, pins, tools, e);
    var removals :| AreRemovals(pins, tools, removals) && events == DriftAll(fp, pins, tools) + removals;
  }

  class IntegrityBaseline {
    var pins: Pins

    constructor ()
      ensures pins == map[]
    {
      pins := map[];
    }

    method PinTools(fp: Fingerprint, tools: seq<Descriptor>)
      modifies this
      ensures pins == PinAll(fp, old(pins), tools)
    {
      for i := 0 to |tools|
        invariant pins == PinAll(fp, old(pins), tools[..i])
      {
        assert tools[..i + 1][..i] == tools[..i];
        if tools[i].name !in pins { pins := pins[tools[i].name := PinOf(fp, tools[i])]; }
      }
      assert tools[..|tools|] == tools;
    }

    method Check(fp: Fingerprint, tools: seq<Descriptor>) returns (events: seq<Drift>)
      ensures IsReport(fp, pins, tools, events)
    {
      events := [];
      var seen: set<string> := {};
      for i := 0 to |tools|
        invariant forall n :: n in seen <==> n in Names(tools[..i])
        invariant events == DriftAll(fp, pins, tools[..i])
      {
        assert tools[..i + 1][..i] == tools[..i];
        assert Names(tools[..i + 1]) == Names(tools[..i]) + [tools[i].name];
        seen := seen + {tools[i].name};
        events := events + DriftOf(fp, pins, tools[i]);
      }
      assert tools[..|tools|] == tools;
      ghost var removals: seq<Drift> := [];
      var todo := pins.Keys;
      while todo != {}
        invariant todo <= pins.Keys && events == DriftAll(fp, pins, tools) + removals && Distinct(removals)
        invariant forall e :: e in removals <==>
            e.ToolRemoved? && e.name in pins && e.name !in todo && e.name !in Names(tools)
      {
        var n :| n in todo;
        if n !in seen {
          events := events + [ToolRemoved(n)];
          removals := removals + [ToolRemoved(n)];
        }
        todo := todo - {n};
      }
      assert AreRemovals(pins, tools, removals);
    }

    method Rebase(fp: Fingerprint, tools: seq<Descriptor>)
      modifies this
      ensures pins == Rebased(fp, tools)
    {
      pins := map[];
      PinTools(fp, tools);
    }
  }

  /** Checking right after rebasing on the same tools finds nothing exactly when same-named tools agree. */
  lemma CheckAfterRebaseIff(fp: Fingerprint, tools: seq<Descriptor>)
    ensures (forall e :: !IsDriftEvent(fp, Rebased(fp, tools), tools, e)) <==>
            forall a, b :: a in tools && b in tools && a.name == b.name ==> PinOf(fp, a) == PinOf(fp, b)
  {
    var pins := Rebased(fp, tools);
    RebasedPins(fp, tools);
    if forall e :: !IsDriftEvent(fp, pins, tools, e) {
      forall d | d in tools ensures pins[d.name] == PinOf(fp, d) {
        DriftOfIff(fp, pins, d);
        if DriftOf(fp, pins, d) != [] { assert IsDriftEvent(fp, pins, tools, DriftOf(fp, pins, d)[0]); }
      }
    }
    if forall a, b :: a in tools && b in tools && a.name == b.name ==> PinOf(fp, a) == PinOf(fp, b) {
      forall e ensures !IsDriftEvent(fp, pins, tools, e) {
        forall d | d in tools ensures e !in DriftOf(fp, pins, d) { DriftOfIff(fp, pins, d); }
        if e.name in pins {
          var d :| d in tools && d.name == e.name;
          var i :| 0 <= i < |tools| && tools[i] == d;
          assert Names(tools)[i] == e.name;
        }
      }
    }
  }

  /** For instance, of two tools with one name and different definitions the second always counts as changed. */
  lemma SameNameDrifts(fp: Fingerprint, a: Descriptor, b: Descriptor)
    requires a.name == b.name && PinOf(fp, a) != PinOf(fp, b)
    ensures exists e :: IsDriftEvent(fp, Rebased(fp, [a, b]), [a, b], e)
  {
    CheckAfterRebaseIff(fp, [a, b]);
    assert a in [a, b] && b in [a, b];
  }

  // ── check_drift ──

  /** `(server id, descriptor)` pairs of a registry snapshot. */
  type Snapshot = seq<(string, Descriptor)>

  type Policies = string -> Option<IntegrityPolicy>

  function Descriptors(s: Snapshot): seq<Descriptor> { Map((p: (string, Descriptor)) => p.1, s) }

  ghost predicate DistinctNames(s: Snapshot) { Distinct(Names(Descriptors(s))) }

  /** Drift of this server's tools leads to quarantine. */
  predicate Strict(policies: Policies, serverId: string) {
    serverId != "" && policies(serverId).Some? && policies(serverId).value != Warn
  }

  /** The server listing this name first, or the empty id. */
  function OwnerOf(s: Snapshot, name: string): string {
    if s == [] then "" else if s[0].1.name == name then s[0].0 else OwnerOf(s[1..], name)
  }

  /** Quarantine and block are strict, warn and an unknown or empty server are not. */
  lemma StrictIff(policies: Policies, serverId: string)
    ensures Strict(policies, serverId) <==> serverId != "" && policies(serverId) in {Some(Quarantine), Some(Block)}
  {
  }

  /** The owner of a name is the first server that lists it. */
  lemma {:induction false} OwnerIsFirst(s: Snapshot, i: nat)
    requires i < |s| && forall j :: 0 <= j < i ==> s[j].1.name != s[i].1.name
    ensures OwnerOf(s, s[i].1.name) == s[i].0
  {
    if i > 0 { OwnerIsFirst(s[1..], i - 1); }
  }

  lemma {:induction false} NoOwner(s: Snapshot, name: string)
    requires forall p :: p in s ==> p.1.name != name
    ensures OwnerOf(s, name) == ""
  {
    if s != [] { NoOwner(s[1..], name); }
  }

  /** The name drifts in this snapshot and its owner is strict. */
  ghost predicate CaughtIn(fp: Fingerprint, policies: Policies, pins: Pins, s: Snapshot, name: string) {
    Strict(policies, OwnerOf(s, name)) && exists p :: p in s && p.1.name == name && Drifts(fp, pins, p.1)
  }

  /** One of the first `i` events names the tool, and a strict server owns it. */
  ghost predicate Flagged(policies: Policies, s: Snapshot, events: seq<Drift>, i: nat, name: string)
    requires i <= |events|
  {
    Strict(policies, OwnerOf(s, name)) && exists j :: 0 <= j < i && events[j].name == name
  }

  /** The loop over the events: names owned by a strict server go into the quarantine map with its policy. */
  method Isolate(policies: Policies, s: Snapshot, events: seq<Drift>, quarantined: map<string, IntegrityPolicy>)
    returns (q: map<string, IntegrityPolicy>)
    ensures forall n :: n in q <==> n in quarantined || Flagged(policies, s, events, |events|, n)
    ensures forall n :: n in q ==>
              if Flagged(policies, s, events, |events|, n) then policies(OwnerOf(s, n)) == Some(q[n])
              else n in quarantined && q[n] == quarantined[n]
  {
    q := quarantined;
    for i := 0 to |events|
      invariant forall n :: n in q <==> n in quarantined || Flagged(policies, s, events, i, n)
      invariant forall n :: n in q ==>
                  if Flagged(policies, s, events, i, n) then policies(OwnerOf(s, n)) == Some(q[n])
                  else n in quarantined && q[n] == quarantined[n]
    {
      var name := events[i].name;
      var owner := OwnerOf(s, name);
      if owner != "" {
        var policy := policies(owner);
        if policy.Some? && policy.value != Warn { q := q[name := policy.value]; }
      }
    }
  }

  /**
   `check_drift`: compare, quarantine what drifted under a strict server, and take the snapshot as the
   new baseline.
   */
  method CheckDrift(fp: Fingerprint, policies: Policies, baseline: IntegrityBaseline, s: Snapshot,
                    quarantined: map<string, IntegrityPolicy>)
    returns (q: map<string, IntegrityPolicy>)
    modifies baseline
    ensures baseline.pins == Rebased(fp, Descriptors(s))
    ensures forall n :: n in q <==> n in quarantined || CaughtIn(fp, policies, old(baseline.pins), s, n)
    ensures forall n :: n in q ==>
              if CaughtIn(fp, policies, old(baseline.pins), s, n) then policies(OwnerOf(s, n)) == Some(q[n])
              else n in quarantined && q[n] == quarantined[n]
  {
    var descriptors := Descriptors(s);
    var events := baseline.Check(fp, descriptors);
    q := Isolate(policies, s, events, quarantined);
    ghost var pins := baseline.pins;
    forall e
      ensures e in events <==> IsDriftEvent(fp, pins, descriptors, e)
    {
      ReportMembers(fp, pins, descriptors, events, e);
    }
    forall n ensures CaughtIn(fp, policies, pins, s, n) <==> Flagged(policies, s, events, |events|, n) {
      CaughtIff(fp, policies, pins, s, events, n);
    }
    baseline.Rebase(fp, descriptors);
  }

  lemma CaughtHasEvent(fp: Fingerprint, pins: Pins, s: Snapshot, p: (string, Descriptor)) returns (e: Drift)
    requires p in s && Drifts(fp, pins, p.1)
    ensures IsDriftEvent(fp, pins, Descriptors(s), e) && e.name == p.1.name
  {
    var i :| 0 <= i < |s| && s[i] == p;
    DriftOfIff(fp, pins, p.1);
    e := DriftOf(fp, pins, p.1)[0];
    assert Descriptors(s)[i] == p.1 && e in DriftOf(fp, pins, p.1);
  }

  lemma OwnedIsListed(s: Snapshot, n: string)
    requires OwnerOf(s, n) != ""
    ensures n in Names(Descriptors(s))
  {
    if forall p :: p in s ==> p.1.name != n {
      NoOwner(s, n);
    }
    var p :| p in s && p.1.name == n;
    var i :| 0 <= i < |s| && s[i] == p;
    assert Names(Descriptors(s))[i] == n;
  }

  lemma EventIsCaught(fp: Fingerprint, policies: Policies, pins: Pins, s: Snapshot, e: Drift)
    requires IsDriftEvent(fp, pins, Descriptors(s), e) && Strict(policies, OwnerOf(s, e.name))
    ensures CaughtIn(fp, policies, pins, s, e.name)
  {
    OwnedIsListed(s, e.name);
    var d :| d in Descriptors(s) && e in DriftOf(fp, pins, d);
    DriftOfIff(fp, pins, d);
    var i :| 0 <= i < |s| && Descriptors(s)[i] == d;
    assert s[i] in s && s[i].1 == d;
  }

  lemma CaughtIff(fp: Fingerprint, policies: Policies, pins: Pins, s: Snapshot, events: seq<Drift>, n: string)
    requires forall e :: e in events <==> IsDriftEvent(fp, pins, Descriptors(s), e)
    ensures CaughtIn(fp, policies, pins, s, n) <==> Flagged(policies, s, events, |events|, n)
  {
    if CaughtIn(fp, policies, pins, s, n) {
      var p :| p in s && p.1.name == n && Drifts(fp, pins, p.1);
      var e := CaughtHasEvent(fp, pins, s, p);
      assert e in events;
    }
    if Flagged(policies, s, events, |events|, n) {
      var j :| 0 <= j < |events| && events[j].name == n;
      assert events[j] in events;
      EventIsCaught(fp, policies, pins, s, events[j]);
    }
  }

  // ── Histories ──

  /** At refresh `i` the name drifts under a strict server. */
  ghost predicate CaughtAt(fp: Fingerprint, policies: Policies, history: seq<Snapshot>, i: nat, name: string)
    requires 1 <= i < |history|
  {
    CaughtIn(fp, policies, Rebased(fp, Descriptors(history[i - 1])), history[i], name)
  }

  /** One of the refreshes before the `k`th caught the name. */
  ghost predicate CaughtBefore(fp: Fingerprint, policies: Policies, history: seq<Snapshot>, k: nat, name: string)
    requires k <= |history|
  {
    exists i :: 1 <= i < k && CaughtAt(fp, policies, history, i, name)
  }

  ghost predicate Quarantined(fp: Fingerprint, policies: Policies, history: seq<Snapshot>, name: string) {
    CaughtBefore(fp, policies, history, |history|, name)
  }

  lemma CaughtBeforeStep(fp: Fingerprint, policies: Policies, history: seq<Snapshot>, k: nat, name: string)
    requires 1 <= k < |history|
    ensures CaughtBefore(fp, policies, history, k + 1, name) <==>
            CaughtBefore(fp, policies, history, k, name) || CaughtAt(fp, policies, history, k, name)
  {
  }

  /** Pinning the first snapshot and checking every later one quarantines exactly the names that were ever caught. */
  method Refreshes(fp: Fingerprint, policies: Policies, history: seq<Snapshot>)
    returns (q: map<string, IntegrityPolicy>)
    requires history != []
    ensures forall n :: n in q <==> Quarantined(fp, policies, history, n)
  {
    var baseline := new IntegrityBaseline();
    baseline.Rebase(fp, Descriptors(history[0]));
    q := map[];
    for k := 1 to |history|
      invariant fresh(baseline) && baseline.pins == Rebased(fp, Descriptors(history[k - 1]))
      invariant forall n :: n in q <==> CaughtBefore(fp, policies, history, k, n)
    {
      forall n ensures CaughtBefore(fp, policies, history, k + 1, n) <==>
                       CaughtBefore(fp, policies, history, k, n) || CaughtAt(fp, policies, history, k, n)
      {
        CaughtBeforeStep(fp, policies, history, k, n);
      }
      q := CheckDrift(fp, policies, baseline, history[k], q);
    }
  }

  /** The tool is listed with this pin. */
  ghost predicate ListedAs(fp: Fingerprint, s: Snapshot, name: string, pin: Pin) {
    exists p :: p in s && p.1.name == name && PinOf(fp, p.1) == pin
  }

  /** The name is listed at `i` and is new there or differs from the snapshot before. */
  ghost predicate DriftsAt(fp: Fingerprint, history: seq<Snapshot>, i: nat, name: string)
    requires 1 <= i < |history|
  {
    exists p :: p in history[i] && p.1.name == name && Drifts(fp, Rebased(fp, Descriptors(history[i - 1])), p.1)
  }

  /** Taking this snapshot as the baseline pins the name so: what its first listing says. */
  ghost predicate PinnedAs(fp: Fingerprint, s: Snapshot, name: string, pin: Pin) {
    name in Rebased(fp, Descriptors(s)) && Rebased(fp, Descriptors(s))[name] == pin
  }

  /** The name is listed, and every listing of it says the same. */
  ghost predicate OnlyListedAs(fp: Fingerprint, s: Snapshot, name: string, pin: Pin) {
    ListedAs(fp, s, name, pin) && forall p :: p in s && p.1.name == name ==> PinOf(fp, p.1) == pin
  }

  /** Pinned at the start, and in every later snapshot listed so and not otherwise. */
  ghost predicate Trusted(fp: Fingerprint, history: seq<Snapshot>, name: string, pin: Pin)
    requires history != []
  {
    PinnedAs(fp, history[0], name, pin) && forall k :: 1 <= k < |history| ==> OnlyListedAs(fp, history[k], name, pin)
  }

  lemma PinnedIsListed(fp: Fingerprint, s: Snapshot, name: string, pin: Pin)
    requires PinnedAs(fp, s, name, pin)
    ensures ListedAs(fp, s, name, pin)
  {
    RebasedPins(fp, Descriptors(s));
    var x :| x in Descriptors(s) && x.name == name && PinOf(fp, x) == pin;
    var i :| 0 <= i < |s| && Descriptors(s)[i] == x;
    assert s[i] in s && s[i].1 == x;
  }

  lemma OnlyListedIsPinned(fp: Fingerprint, s: Snapshot, name: string, pin: Pin)
    requires OnlyListedAs(fp, s, name, pin)
    ensures PinnedAs(fp, s, name, pin)
  {
    RebasedPins(fp, Descriptors(s));
    var p :| p in s && p.1.name == name;
    var i :| 0 <= i < |s| && s[i] == p;
    assert Descriptors(s)[i] == p.1;
    forall x | x in Descriptors(s) && x.name == name ensures PinOf(fp, x) == pin {
      var j :| 0 <= j < |s| && Descriptors(s)[j] == x;
      assert s[j] in s && s[j].1 == x;
    }
  }

  /** A tool pinned by the last snapshot that did not drift there was pinned alike by the one before. */
  lemma NotDriftingBack(fp: Fingerprint, history: seq<Snapshot>, n: nat, name: string, pin: Pin)
    requires 1 <= n < |history| && PinnedAs(fp, history[n], name, pin) && !DriftsAt(fp, history, n, name)
    ensures OnlyListedAs(fp, history[n], name, pin) && PinnedAs(fp, history[n - 1], name, pin)
  {
    PinnedIsListed(fp, history[n], name, pin);
    var p :| p in history[n] && p.1.name == name && PinOf(fp, p.1) == pin;
    assert !Drifts(fp, Rebased(fp, Descriptors(history[n - 1])), p.1);
  }

  lemma {:induction false} NeverDriftedTrusted(fp: Fingerprint, history: seq<Snapshot>, name: string, pin: Pin, n: nat)
    requires n < |history| && PinnedAs(fp, history[n], name, pin)
    requires forall i :: 1 <= i <= n ==> !DriftsAt(fp, history, i, name)
    ensures PinnedAs(fp, history[0], name, pin) && forall k :: 1 <= k <= n ==> OnlyListedAs(fp, history[k], name, pin)
  {
    if n > 0 {
      NotDriftingBack(fp, history, n, name, pin);
      NeverDriftedTrusted(fp, history, name, pin, n - 1);
    }
  }

  lemma TrustedDoesNotDrift(fp: Fingerprint, history: seq<Snapshot>, name: string, pin: Pin, i: nat)
    requires 1 <= i < |history| && Trusted(fp, history, name, pin)
    ensures !DriftsAt(fp, history, i, name)
  {
    if i > 1 { OnlyListedIsPinned(fp, history[i - 1], name, pin); }
    assert OnlyListedAs(fp, history[i], name, pin);
  }

  ghost predicate EverDrifted(fp: Fingerprint, history: seq<Snapshot>, name: string) {
    exists i :: 1 <= i < |history| && DriftsAt(fp, history, i, name)
  }

  ghost predicate EverDriftedUnderStrict(fp: Fingerprint, policies: Policies, history: seq<Snapshot>, name: string) {
    exists i :: 1 <= i < |history| && DriftsAt(fp, history, i, name) && Strict(policies, OwnerOf(history[i], name))
  }

  /** A name is quarantined exactly when some refresh saw it drift while a strict server owned it. */
  lemma QuarantinedIff(fp: Fingerprint, policies: Policies, history: seq<Snapshot>, name: string)
    ensures Quarantined(fp, policies, history, name) <==> EverDriftedUnderStrict(fp, policies, history, name)
  {
    forall i | 1 <= i < |history|
      ensures CaughtAt(fp, policies, history, i, name) <==>
              DriftsAt(fp, history, i, name) && Strict(policies, OwnerOf(history[i], name))
    {
    }
  }

  /** A definition that the last snapshot pins was trusted throughout exactly when its name never drifted. */
  lemma TrustedIff(fp: Fingerprint, history: seq<Snapshot>, name: string, pin: Pin)
    requires history != [] && PinnedAs(fp, history[|history| - 1], name, pin)
    ensures Trusted(fp, history, name, pin) <==> !EverDrifted(fp, history, name)
  {
    if Trusted(fp, history, name, pin) {
      forall i | 1 <= i < |history| ensures !DriftsAt(fp, history, i, name) {
        TrustedDoesNotDrift(fp, history, name, pin, i);
      }
    }
    if !EverDrifted(fp, history, name) { NeverDriftedTrusted(fp, history, name, pin, |history| - 1); }
  }

  /**
   Trusted-definition safety, exactly and for any snapshots: the definition listed at the end is
   quarantined or was trusted throughout, if and only if the name never drifted or drifted at least
   once while a strict server owned it.
   */
  lemma TrustedOrQuarantinedIff(fp: Fingerprint, policies: Policies, history: seq<Snapshot>, name: string, pin: Pin)
    requires history != [] && PinnedAs(fp, history[|history| - 1], name, pin)
    ensures (Quarantined(fp, policies, history, name) || Trusted(fp, history, name, pin)) <==>
            (EverDrifted(fp, history, name) ==> EverDriftedUnderStrict(fp, policies, history, name))
  {
    QuarantinedIff(fp, policies, history, name);
    TrustedIff(fp, history, name, pin);
  }

  /** In particular it is safe for a name whose owner is strict whenever a refresh lists it. */
  lemma TrustedOrQuarantined(fp: Fingerprint, policies: Policies, history: seq<Snapshot>, name: string, pin: Pin)
    requires history != [] && PinnedAs(fp, history[|history| - 1], name, pin)
    requires forall i, p :: 1 <= i < |history| && p in history[i] && p.1.name == name ==>
               Strict(policies, OwnerOf(history[i], name))
    ensures Quarantined(fp, policies, history, name) || Trusted(fp, history, name, pin)
  {
    TrustedOrQuarantinedIff(fp, policies, history, name, pin);
    if EverDrifted(fp, history, name) {
      var i :| 1 <= i < |history| && DriftsAt(fp, history, i, name);
      assert Strict(policies, OwnerOf(history[i], name));
    }
  }

  /** In a snapshot with distinct names, being listed, pinned and only listed so are one. */
  lemma DistinctListing(fp: Fingerprint, s: Snapshot, name: string, pin: Pin)
    requires DistinctNames(s)
    ensures ListedAs(fp, s, name, pin) <==> OnlyListedAs(fp, s, name, pin)
    ensures ListedAs(fp, s, name, pin) <==> PinnedAs(fp, s, name, pin)
  {
    if ListedAs(fp, s, name, pin) {
      var o :| o in s && o.1.name == name && PinOf(fp, o.1) == pin;
      var k :| 0 <= k < |s| && s[k] == o;
      forall p | p in s && p.1.name == name ensures PinOf(fp, p.1) == pin {
        var i :| 0 <= i < |s| && s[i] == p;
        assert Names(Descriptors(s))[i] == Names(Descriptors(s))[k];
      }
      OnlyListedIsPinned(fp, s, name, pin);
    }
    if PinnedAs(fp, s, name, pin) { PinnedIsListed(fp, s, name, pin); }
  }

  /** With distinct names, trusted throughout means listed with this fingerprint and these hints in every snapshot. */
  lemma TrustedWhenDistinct(fp: Fingerprint, history: seq<Snapshot>, name: string, pin: Pin)
    requires history != [] && forall i :: 0 <= i < |history| ==> DistinctNames(history[i])
    ensures Trusted(fp, history, name, pin) <==> forall k :: 0 <= k < |history| ==> ListedAs(fp, history[k], name, pin)
  {
    forall k | 0 <= k < |history|
      ensures ListedAs(fp, history[k], name, pin) <==> OnlyListedAs(fp, history[k], name, pin)
      ensures ListedAs(fp, history[k], name, pin) <==> PinnedAs(fp, history[k], name, pin)
    {
      DistinctListing(fp, history[k], name, pin);
    }
  }

  /**
   Without the condition on owners safety fails: a tool that appears under a lax server and then moves,
   unchanged, to a strict one is listed there, new since the initial pin, and not quarantined.
   */
  lemma OwnerChangeEscapes(fp: Fingerprint, policies: Policies, lax: string, strict: string, d: Descriptor)
    requires !Strict(policies, lax) && Strict(policies, strict)
    ensures var history: seq<Snapshot> := [[], [(lax, d)], [(strict, d)]];
            && (forall i :: 0 <= i < 3 ==> DistinctNames(history[i]))
            && PinnedAs(fp, history[2], d.name, PinOf(fp, d)) && OwnerOf(history[2], d.name) == strict
            && !Quarantined(fp, policies, history, d.name)
            && !Trusted(fp, history, d.name, PinOf(fp, d))
  {
    var history: seq<Snapshot> := [[], [(lax, d)], [(strict, d)]];
    var s1: Snapshot := [(lax, d)];
    assert Descriptors(s1) == [d];
    RebasedPins(fp, [d]);
    var s2: Snapshot := [(strict, d)];
    assert Descriptors(s2) == [d] && (strict, d) in s2;
    assert !CaughtAt(fp, policies, history, 2, d.name);
    assert !CaughtAt(fp, policies, history, 1, d.name);
  }

  // ── The fingerprint's preimage ──

  /** The hashed text: name, description and serialized schema on lines of their own. */
  function Preimage(name: string, description: string, schema: string): string {
    name + "\n" + description + "\n" + schema
  }

  predicate OneLine(s: string) { '\n' !in s }

  lemma FirstLine(a: string, x: string, b: string, y: string)
    requires OneLine(a) && OneLine(b) && a + "\n" + x == b + "\n" + y
    ensures a == b && x == y
  {
    var p, q := a + "\n" + x, b + "\n" + y;
    assert p[|a|] == '\n' && q[|b|] == '\n';
    assert forall i :: 0 <= i < |a| ==> p[i] == a[i] && a[i] in a;
    assert forall i :: 0 <= i < |b| ==> q[i] == b[i] && b[i] in b;
    assert |a| == |b| && a == p[..|a|] && b == q[..|b|] && x == p[|a| + 1..] && y == q[|b| + 1..];
  }

  lemma LastLine(x: string, a: string, y: string, b: string)
    requires OneLine(a) && OneLine(b) && x + "\n" + a == y + "\n" + b
    ensures a == b && x == y
  {
    var p, q := x + "\n" + a, y + "\n" + b;
    assert p[|x|] == '\n' && q[|y|] == '\n';
    assert forall i :: |x| < i < |p| ==> p[i] == a[i - |x| - 1] && a[i - |x| - 1] in a;
    assert forall i :: |y| < i < |q| ==> q[i] == b[i - |y| - 1] && b[i - |y| - 1] in b;
    assert |x| == |y| && x == p[..|x|] && y == q[..|y|] && a == p[|x| + 1..] && b == q[|y| + 1..];
  }

  /** Names and serialized schemas have no line break, so the text determines all three parts. */
  lemma PreimageInjective(n1: string, d1: string, s1: string, n2: string, d2: string, s2: string)
    requires OneLine(n1) && OneLine(n2) && OneLine(s1) && OneLine(s2) && Preimage(n1, d1, s1) == Preimage(n2, d2, s2)
    ensures n1 == n2 && d1 == d2 && s1 == s2
  {
    var r1, r2 := d1 + "\n" + s1, d2 + "\n" + s2;
    assert Preimage(n1, d1, s1) == n1 + "\n" + r1 && Preimage(n2, d2, s2) == n2 + "\n" + r2;
    FirstLine(n1, r1, n2, r2);
    LastLine(d1, s1, d2, s2);
  }
}
