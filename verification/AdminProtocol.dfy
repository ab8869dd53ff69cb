/**
 Catalog writers under the admin write lock, as a step system over any number of tasks
 (src/http/state.rs, src/admin/crud.rs, src/admin/metadata.rs, src/admin/mcp.rs, src/http/lifecycle.rs).

 A step is what a task does between two awaits. Upstream calls happen before the lock is taken, so
 the registry may change at any moment; the set of servers only changes under the lock.
 */
module AdminProtocol {
  import opened Prelude
  import opened Catalog

  datatype Edit = Put(wire: string, description: string) | Delete(wire: string)

  datatype Config = Config(apiTools: seq<Tool>, mcpIds: set<string>)

  /** Tools and server ids of the MCP registry. */
  datatype Registry = Registry(tools: seq<Tool>, ids: set<string>)

  /** A metadata edit, a configuration write, or a registry sync (refresh, reconnect, probe). */
  datatype Job = EditJob(edit: Edit) | SwapJob | SyncJob

  datatype Pc =
    | Idle
    | Waiting(job: Job)                            // everything outside the lock is done
    | Locked(job: Job)                             // lock taken, nothing read yet
    | Planned(next: Config)                        // new configuration made from the snapshot
    | Built(next: Config, newCatalog: Catalog)     // old catalog read, new one built
    | Half(next: Config, newCatalog: Catalog)      // configuration replaced, catalog not yet
    | Fetched(tools: seq<Tool>)                    // registry tools read
    | Done                                         // written, lock not yet released

  /**
   `up` and `log` are history: the tools as the configuration or the last sync described them, and
   the edits in the order in which they reached the catalog.
   */
  datatype State = State(
    lock: Option<nat>, pcs: map<nat, Pc>, config: Config, catalog: Catalog, registry: Registry,
    up: seq<Tool>, log: seq<Edit>)

  datatype Action =
    | Begin(job: Job)
    | Lock
    | WriteEdit
    | Plan(next: Config)
    | ChangeServers(ids: set<string>)
    | Build
    | InstallConfig
    | InstallCatalog
    | Fail
    | Resync
    | ReadRegistry
    | WriteSync
    | Unlock
    | ChangeRegistry(tools: seq<Tool>)

  predicate Critical(pc: Pc) { !pc.Idle? && !pc.Waiting? }

  function PcOf(s: State, task: nat): Pc { if task in s.pcs then s.pcs[task] else Idle }

  function ApplyEdit(c: Catalog, edit: Edit): Catalog {
    match edit
    case Put(wire, description) => SetOverride(c, wire, description)
    case Delete(wire) => RemoveOverride(c, wire)
  }

  /** The tools a swap brings together. */
  function SwapTools(up: seq<Tool>, next: Config): seq<Tool> {
    Sort(next.apiTools) + Filter(Within(next.mcpIds), up)
  }

  function SyncTools(up: seq<Tool>, tools: seq<Tool>, ids: set<string>): seq<Tool> {
    Filter(OutsideOf(ids), up) + tools
  }

  ghost predicate Enabled(s: State, task: nat, a: Action) {
    var pc := PcOf(s, task);
    match a
    case Begin(_) => pc.Idle?
    case Lock => pc.Waiting? && s.lock.None?
    case WriteEdit => pc.Locked? && pc.job.EditJob?
    case Plan(_) => pc.Locked? && pc.job.SwapJob?
    case ChangeServers(_) => pc.Planned?
    case Build => pc.Planned?
    case InstallConfig => pc.Built?
    case InstallCatalog => pc.Half?
    case Fail => pc.Planned?
    case Resync => pc.Done?
    case ReadRegistry => pc.Locked? && pc.job.SyncJob?
    case WriteSync => pc.Fetched?
    case Unlock => pc.Done?
    case ChangeRegistry(_) => true
  }

  function At(s: State, task: nat, pc: Pc): State { s.(pcs := s.pcs[task := pc]) }

  function Next(s: State, task: nat, a: Action): State {
    var pc := PcOf(s, task);
    match a
    case Begin(job) => At(s, task, Waiting(job))
    case Lock => if pc.Waiting? then At(s, task, Locked(pc.job)).(lock := Some(task)) else s
    case WriteEdit =>
      if pc.Locked? && pc.job.EditJob? then
        At(s, task, Done).(catalog := ApplyEdit(s.catalog, pc.job.edit), log := s.log + [pc.job.edit])
      else s
    case Plan(next) => At(s, task, Planned(next))
    case ChangeServers(ids) => s.(registry := s.registry.(ids := ids))
    case Build => if pc.Planned? then At(s, task, Built(pc.next, Swap(s.catalog, pc.next.apiTools, pc.next.mcpIds)))
      else s
    case InstallConfig => if pc.Built? then At(s, task, Half(pc.next, pc.newCatalog)).(config := pc.next) else s
    case InstallCatalog =>
      if pc.Half? then
        At(s, task, Done).(catalog := pc.newCatalog, up := SwapUpstream(s.up, pc.next.apiTools, pc.next.mcpIds))
      else s
    case Fail => At(s, task, Done)
    case Resync => At(s, task, Locked(SyncJob))
    case ReadRegistry => At(s, task, Fetched(s.registry.tools))
    case WriteSync =>
      if pc.Fetched? then
        At(s, task, Done).(catalog := Replace(s.catalog, pc.tools, s.registry.ids),
                           up := Sort(SyncTools(s.up, pc.tools, s.registry.ids)))
      else s
    case Unlock => At(s, task, Idle).(lock := None)
    case ChangeRegistry(tools) => s.(registry := s.registry.(tools := tools))
  }

  // ── What every step keeps ──

  /** The overrides that a sequence of completed edits leaves. */
  function Replay(base: Overrides, log: seq<Edit>): Overrides {
    if log == [] then base else Edited(Replay(base, log[..|log| - 1]), log[|log| - 1])
  }

  function Edited(ov: Overrides, edit: Edit): Overrides {
    if edit.Put? then ov[edit.wire := edit.description] else ov - {edit.wire}
  }

  ghost predicate MutualExclusion(s: State) {
    forall task: nat :: Critical(PcOf(s, task)) ==> s.lock == Some(task)
  }

  /** A catalog built and not yet installed is still the one that would be built now. */
  ghost predicate BuiltIsCurrent(s: State) { forall task :: BuildIsCurrent(s, PcOf(s, task)) }

  ghost predicate BuildIsCurrent(s: State, pc: Pc) {
    pc.Built? || pc.Half? ==> pc.newCatalog == Swap(s.catalog, pc.next.apiTools, pc.next.mcpIds)
  }

  /** What holds in every state, whatever names the tools have. */
  ghost predicate Inv(s: State, base: Overrides) {
    && SameTools(s.catalog.tools, s.up)
    && s.catalog.overrides == Replay(base, s.log)
    && MutualExclusion(s)
    && BuiltIsCurrent(s)
  }

  lemma EditRepresents(c: Catalog, up: seq<Tool>, edit: Edit)
    requires Represents(c, up)
    ensures Represents(ApplyEdit(c, edit), up)
  {
    match edit
    case Put(wire, description) => SetOverrideRepresents(c, up, wire, description);
    case Delete(wire) => RemoveOverrideRepresents(c, up, wire);
  }

  lemma EditKeepsTools(c: Catalog, edit: Edit)
    ensures SameTools(ApplyEdit(c, edit).tools, c.tools)
    ensures ApplyEdit(c, edit).overrides == Edited(c.overrides, edit)
  {
  }

  lemma ReplayAppend(base: Overrides, log: seq<Edit>, edit: Edit)
    ensures Replay(base, log + [edit]) == Edited(Replay(base, log), edit)
  {
  }

  /** No step loses an edit; and the catalog lists the tools of the history list, in its order. */
  lemma StepKeepsHistory(s: State, task: nat, a: Action, base: Overrides)
    requires Inv(s, base) && Enabled(s, task, a)
    ensures SameTools(Next(s, task, a).catalog.tools, Next(s, task, a).up)
    ensures Next(s, task, a).catalog.overrides == Replay(base, Next(s, task, a).log)
  {
    var pc := PcOf(s, task);
    match a
    case WriteEdit =>
      EditKeepsTools(s.catalog, pc.job.edit);
      ReplayAppend(base, s.log, pc.job.edit);
    case InstallCatalog => SwapKeepsTools(s.catalog, s.up, pc.next.apiTools, pc.next.mcpIds);
    case WriteSync => ReplaceKeepsTools(s.catalog, s.up, pc.tools, s.registry.ids);
    case _ =>
  }

  lemma OtherPc(s: State, task: nat, a: Action, t: nat)
    requires t != task
    ensures PcOf(Next(s, task, a), t) == PcOf(s, t)
  {
  }

  lemma AloneInside(s: State, task: nat, t: nat)
    requires MutualExclusion(s) && Critical(PcOf(s, task)) && t != task
    ensures !Critical(PcOf(s, t))
  {
  }

  lemma StepKeepsMutex(s: State, task: nat, a: Action)
    requires MutualExclusion(s) && Enabled(s, task, a)
    ensures MutualExclusion(Next(s, task, a))
  {
    forall t | Critical(PcOf(Next(s, task, a), t)) ensures Next(s, task, a).lock == Some(t) {
      if t != task { OtherPc(s, task, a, t); }
    }
  }

  /** The catalog changes only at the hands of a task inside the lock. */
  lemma WriterIsInside(s: State, task: nat, a: Action)
    requires Enabled(s, task, a)
    ensures Next(s, task, a).catalog == s.catalog || Critical(PcOf(s, task))
  {
  }

  lemma OwnBuildIsCurrent(s: State, task: nat, a: Action)
    requires BuildIsCurrent(s, PcOf(s, task)) && Enabled(s, task, a)
    ensures BuildIsCurrent(Next(s, task, a), PcOf(Next(s, task, a), task))
  {
  }

  /** Only the lock holder writes the catalog, so nobody else's built catalog goes stale. */
  lemma StepKeepsExclusion(s: State, task: nat, a: Action, base: Overrides)
    requires Inv(s, base) && Enabled(s, task, a)
    ensures MutualExclusion(Next(s, task, a))
    ensures BuiltIsCurrent(Next(s, task, a))
  {
    StepKeepsMutex(s, task, a);
    WriterIsInside(s, task, a);
    forall t ensures BuildIsCurrent(Next(s, task, a), PcOf(Next(s, task, a), t)) {
      assert BuildIsCurrent(s, PcOf(s, t));
      if t == task {
        OwnBuildIsCurrent(s, task, a);
      } else {
        OtherPc(s, task, a, t);
        if Critical(PcOf(s, task)) { AloneInside(s, task, t); }
      }
    }
  }

  lemma StepKeepsInv(s: State, task: nat, a: Action, base: Overrides)
    requires Inv(s, base) && Enabled(s, task, a)
    ensures Inv(Next(s, task, a), base)
  {
    StepKeepsHistory(s, task, a, base);
    StepKeepsExclusion(s, task, a, base);
  }

  /** A step after which the names are distinct keeps "override, else upstream". */
  lemma StepKeepsOverlay(s: State, task: nat, a: Action, base: Overrides)
    requires Inv(s, base) && Enabled(s, task, a) && Represents(s.catalog, s.up) && DistinctWires(Next(s, task, a).up)
    ensures Represents(Next(s, task, a).catalog, Next(s, task, a).up)
  {
    var pc := PcOf(s, task);
    match a
    case WriteEdit => EditRepresents(s.catalog, s.up, pc.job.edit);
    case InstallCatalog =>
      SortedDistinct(SwapTools(s.up, pc.next));
      SwapRepresents(s.catalog, s.up, pc.next.apiTools, pc.next.mcpIds);
    case WriteSync =>
      SortedDistinct(SyncTools(s.up, pc.tools, s.registry.ids));
      ReplaceRepresents(s.catalog, s.up, pc.tools, s.registry.ids);
    case _ =>
  }

  // ── Runs ──

  type Trace = seq<(nat, Action)>

  function Run(s: State, trace: Trace): State
    decreases |trace|
  {
    if trace == [] then s else Run(Next(s, trace[0].0, trace[0].1), trace[1..])
  }

  ghost predicate Legal(s: State, trace: Trace)
    decreases |trace|
  {
    trace == [] || (Enabled(s, trace[0].0, trace[0].1) && Legal(Next(s, trace[0].0, trace[0].1), trace[1..]))
  }

  /** A gateway that has loaded its overrides and started no task. */
  ghost predicate Initial(s: State) {
    Represents(s.catalog, s.up) && s.lock.None? && s.pcs == map[] && s.log == []
  }

  lemma {:induction false} RunKeepsInv(s: State, trace: Trace, base: Overrides)
    requires Inv(s, base) && Legal(s, trace)
    ensures Inv(Run(s, trace), base)
    decreases |trace|
  {
    if trace != [] {
      StepKeepsInv(s, trace[0].0, trace[0].1, base);
      RunKeepsInv(Next(s, trace[0].0, trace[0].1), trace[1..], base);
    }
  }

  /**
   No edit is lost: in every interleaving, whatever names the tools have, the overrides are exactly
   the initial ones with the edits that reached the catalog applied in that order. Which tools the
   catalog lists is the subject of the section below.
   */
  lemma NoEditIsLost(s: State, trace: Trace)
    requires Initial(s) && Legal(s, trace)
    ensures Run(s, trace).catalog.overrides == Replay(s.catalog.overrides, Run(s, trace).log)
    ensures SameTools(Run(s, trace).catalog.tools, Run(s, trace).up)
  {
    assert SameTools(s.catalog.tools, s.up);
    RunKeepsInv(s, trace, s.catalog.overrides);
  }

  /** In every state of the run the tools brought together have distinct names. */
  ghost predicate NamesStayDistinct(s: State, trace: Trace)
    decreases |trace|
  {
    DistinctWires(s.up) && (trace == [] || NamesStayDistinct(Next(s, trace[0].0, trace[0].1), trace[1..]))
  }

  lemma {:induction false} RunKeepsOverlay(s: State, trace: Trace, base: Overrides)
    requires Inv(s, base) && Legal(s, trace) && Represents(s.catalog, s.up) && NamesStayDistinct(s, trace)
    ensures Represents(Run(s, trace).catalog, Run(s, trace).up)
    decreases |trace|
  {
    if trace != [] {
      StepKeepsInv(s, trace[0].0, trace[0].1, base);
      StepKeepsOverlay(s, trace[0].0, trace[0].1, base);
      RunKeepsOverlay(Next(s, trace[0].0, trace[0].1), trace[1..], base);
    }
  }

  /**
   Overlay under concurrency: in every interleaving that keeps names distinct, every listed tool shows
   its override or else its upstream text.
   */
  lemma OverlaySurvivesInterleaving(s: State, trace: Trace)
    requires Initial(s) && Legal(s, trace) && NamesStayDistinct(s, trace)
    ensures var s' := Run(s, trace);
            && |s'.catalog.tools| == |s'.up|
            && (forall i :: 0 <= i < |s'.up| ==>
                  s'.catalog.tools[i] == if s'.up[i].wire in s'.catalog.overrides
                                         then s'.up[i].(description := s'.catalog.overrides[s'.up[i].wire])
                                         else s'.up[i])
  {
    assert SameTools(s.catalog.tools, s.up);
    RunKeepsOverlay(s, trace, s.catalog.overrides);
  }

  /** The lock does its job: at most one task is between taking and releasing it. */
  lemma AtMostOneWriter(s: State, trace: Trace, a: nat, b: nat)
    requires Initial(s) && Legal(s, trace)
    requires Critical(PcOf(Run(s, trace), a)) && Critical(PcOf(Run(s, trace), b))
    ensures a == b
  {
    assert SameTools(s.catalog.tools, s.up);
    RunKeepsInv(s, trace, s.catalog.overrides);
  }

  /** After a put that no later edit of the same tool followed, the tool shows the put text. */
  lemma {:induction false} LastEditWins(base: Overrides, log: seq<Edit>, k: nat)
    requires k < |log| && forall j :: k < j < |log| ==> log[j].wire != log[k].wire
    ensures var ov := Replay(base, log);
            if log[k].Put? then log[k].wire in ov && ov[log[k].wire] == log[k].description else log[k].wire !in ov
  {
    if k < |log| - 1 {
      LastEditWins(base, log[..|log| - 1], k);
    }
  }

  // ── The catalog and the configuration ──

  /** Whether a tool is listed after a step that finds it listed or not. */
  ghost predicate ListedAfter(s: State, task: nat, a: Action, t: Tool) {
    var pc, before := PcOf(s, task), Offers(s.catalog.tools, t);
    if a.InstallCatalog? && pc.Half? then Offers(pc.next.apiTools, t) || (before && t.resourceId in pc.next.mcpIds)
    else if a.WriteSync? && pc.Fetched? then Offers(pc.tools, t) || (before && t.resourceId !in s.registry.ids)
    else before
  }

  /** Tools come and go by installs and syncs only, and by these exactly so. */
  lemma StepListsIff(s: State, task: nat, a: Action, base: Overrides, t: Tool)
    requires Inv(s, base) && Enabled(s, task, a)
    ensures Offers(Next(s, task, a).catalog.tools, t) <==> ListedAfter(s, task, a, t)
  {
    var pc := PcOf(s, task);
    match a
    case InstallCatalog => SwapOffersIff(s.catalog, pc.next.apiTools, pc.next.mcpIds, t);
    case WriteSync => ReplaceOffersIff(s.catalog, pc.tools, s.registry.ids, t);
    case WriteEdit =>
      EditKeepsTools(s.catalog, pc.job.edit);
      OffersSame(s.catalog.tools, Next(s, task, a).catalog.tools, t);
      OffersSame(Next(s, task, a).catalog.tools, s.catalog.tools, t);
    case _ =>
  }

  /** The configuration is replaced and its catalog is not installed yet. */
  ghost predicate Installing(s: State) { exists task :: PcOf(s, task).Half? }

  ghost predicate ConfigListed(s: State) { forall t :: t in s.config.apiTools ==> Offers(s.catalog.tools, t) }

  /**
   Every API tool of the configuration is listed, except between the two halves of an install of that
   configuration.
   */
  ghost predicate Agrees(s: State) {
    && (forall task :: PcOf(s, task).Half? ==> PcOf(s, task).next == s.config)
    && (!Installing(s) ==> ConfigListed(s))
  }

  /** The sync cuts no API tool, or the registry brings it back itself. */
  ghost predicate SparesApi(s: State, task: nat) {
    PcOf(s, task).Fetched? ==>
      forall t :: t in s.config.apiTools ==> t.resourceId !in s.registry.ids || Offers(PcOf(s, task).tools, t)
  }

  lemma OwnHalfStays(s: State, task: nat, a: Action)
    requires Enabled(s, task, a) && !a.InstallConfig? && !a.InstallCatalog?
    ensures PcOf(Next(s, task, a), task).Half? <==> PcOf(s, task).Half?
    ensures PcOf(s, task).Half? ==> PcOf(Next(s, task, a), task) == PcOf(s, task)
    ensures Next(s, task, a).config == s.config
  {
  }

  /** Other steps than the two of an install leave the install as it is. */
  lemma HalvesStay(s: State, task: nat, a: Action, t: nat)
    requires Enabled(s, task, a) && !a.InstallConfig? && !a.InstallCatalog?
    ensures PcOf(Next(s, task, a), t).Half? <==> PcOf(s, t).Half?
    ensures PcOf(s, t).Half? ==> PcOf(Next(s, task, a), t) == PcOf(s, t)
  {
    if t == task { OwnHalfStays(s, task, a); } else { OtherPc(s, task, a, t); }
  }

  lemma InstallingStays(s: State, task: nat, a: Action)
    requires Enabled(s, task, a) && !a.InstallConfig? && !a.InstallCatalog?
    ensures Installing(Next(s, task, a)) <==> Installing(s)
    ensures (forall t :: PcOf(s, t).Half? ==> PcOf(s, t).next == s.config) ==>
              forall t :: PcOf(Next(s, task, a), t).Half? ==> PcOf(Next(s, task, a), t).next == Next(s, task, a).config
  {
    OwnHalfStays(s, task, a);
    forall t ensures PcOf(Next(s, task, a), t).Half? <==> PcOf(s, t).Half?
      ensures PcOf(s, t).Half? ==> PcOf(Next(s, task, a), t) == PcOf(s, t)
    {
      HalvesStay(s, task, a, t);
    }
  }

  lemma NobodyInstalls(s: State, task: nat)
    requires MutualExclusion(s) && Critical(PcOf(s, task)) && !PcOf(s, task).Half?
    ensures !Installing(s)
  {
    forall t ensures !PcOf(s, t).Half? {
      if t != task { AloneInside(s, task, t); }
    }
  }

  /** One sync: the configuration is still listed afterwards exactly when the sync spares the API tools. */
  lemma SyncKeepsConfigIff(s: State, task: nat, base: Overrides)
    requires Inv(s, base) && Enabled(s, task, WriteSync) && Agrees(s)
    ensures Agrees(Next(s, task, WriteSync)) <==> SparesApi(s, task)
  {
    NobodyInstalls(s, task);
    InstallingStays(s, task, WriteSync);
    forall t ensures Offers(Next(s, task, WriteSync).catalog.tools, t) <==> ListedAfter(s, task, WriteSync, t) {
      StepListsIff(s, task, WriteSync, base, t);
    }
  }

  lemma InstallAgrees(s: State, task: nat, base: Overrides)
    requires Inv(s, base) && Enabled(s, task, InstallCatalog) && Agrees(s)
    ensures Agrees(Next(s, task, InstallCatalog))
  {
    var s' := Next(s, task, InstallCatalog);
    forall t | t in s'.config.apiTools ensures Offers(s'.catalog.tools, t) {
      StepListsIff(s, task, InstallCatalog, base, t);
    }
    forall t ensures !PcOf(s', t).Half? {
      if t != task {
        OtherPc(s, task, InstallCatalog, t);
        AloneInside(s, task, t);
      }
    }
  }

  lemma ConfigInstallAgrees(s: State, task: nat)
    requires MutualExclusion(s) && Enabled(s, task, InstallConfig)
    ensures Agrees(Next(s, task, InstallConfig))
  {
    var s' := Next(s, task, InstallConfig);
    forall t | t != task ensures !PcOf(s', t).Half? {
      OtherPc(s, task, InstallConfig, t);
      AloneInside(s, task, t);
    }
    assert PcOf(s', task).Half? && PcOf(s', task).next == s'.config;
  }

  /** Every other step keeps the agreement. */
  lemma OtherStepAgrees(s: State, task: nat, a: Action, base: Overrides)
    requires Inv(s, base) && Enabled(s, task, a) && Agrees(s) && !a.WriteSync? && !a.InstallCatalog?
             && !a.InstallConfig?
    ensures Agrees(Next(s, task, a))
  {
    InstallingStays(s, task, a);
    OwnHalfStays(s, task, a);
    if !Installing(s) {
      forall t | t in s.config.apiTools ensures Offers(Next(s, task, a).catalog.tools, t) {
        StepListsIff(s, task, a, base, t);
      }
    }
  }

  lemma StepAgreesIff(s: State, task: nat, a: Action, base: Overrides)
    requires Inv(s, base) && Enabled(s, task, a) && Agrees(s)
    ensures Agrees(Next(s, task, a)) <==> (a.WriteSync? ==> SparesApi(s, task))
  {
    if a.WriteSync? {
      SyncKeepsConfigIff(s, task, base);
    } else if a.InstallCatalog? {
      InstallAgrees(s, task, base);
    } else if a.InstallConfig? {
      ConfigInstallAgrees(s, task);
    } else {
      OtherStepAgrees(s, task, a, base);
    }
  }

  /** In every state of the run the catalog lists the configuration's tools. */
  ghost predicate AgreesThroughout(s: State, trace: Trace)
    decreases |trace|
  {
    Agrees(s) && (trace == [] || AgreesThroughout(Next(s, trace[0].0, trace[0].1), trace[1..]))
  }

  ghost predicate EverySyncSparesApi(s: State, trace: Trace)
    decreases |trace|
  {
    trace == [] ||
    (&& (trace[0].1.WriteSync? ==> SparesApi(s, trace[0].0))
     && EverySyncSparesApi(Next(s, trace[0].0, trace[0].1), trace[1..]))
  }

  /**
   The catalog keeps up with the configuration: in every interleaving, all API tools of the current
   configuration are listed in every state outside an install, exactly when every sync spares them.
   */
  lemma {:induction false} ConfigStaysListedIff(s: State, trace: Trace, base: Overrides)
    requires Inv(s, base) && Legal(s, trace) && Agrees(s)
    ensures AgreesThroughout(s, trace) <==> EverySyncSparesApi(s, trace)
    decreases |trace|
  {
    if trace != [] {
      var s' := Next(s, trace[0].0, trace[0].1);
      StepKeepsInv(s, trace[0].0, trace[0].1, base);
      StepAgreesIff(s, trace[0].0, trace[0].1, base);
      if Agrees(s') {
        ConfigStaysListedIff(s', trace[1..], base);
      } else {
        assert trace[0].1.WriteSync? && !SparesApi(s, trace[0].0);
      }
    }
  }

  /** A gateway whose only API tool bears the id of a server that offers nothing. */
  function SharedIdState(t: Tool): State {
    State(None, map[], Config([t], {t.resourceId}), FromTools([t]), Registry([], {t.resourceId}), Sort([t]), [])
  }

  /** The sync of one task, from start to end. */
  function SyncTrace(task: nat): Trace {
    [(task, Begin(SyncJob)), (task, Lock), (task, ReadRegistry), (task, WriteSync), (task, Unlock)]
  }

  lemma SyncRuns(s: State, task: nat)
    requires s.lock.None? && PcOf(s, task).Idle?
    ensures Legal(s, SyncTrace(task))
    ensures Run(s, SyncTrace(task)).config == s.config
    ensures Run(s, SyncTrace(task)).catalog == Replace(s.catalog, s.registry.tools, s.registry.ids)
  {
    var s1 := Next(s, task, Begin(SyncJob));
    var s2 := Next(s1, task, Lock);
    var s3 := Next(s2, task, ReadRegistry);
    var s4 := Next(s3, task, WriteSync);
    var rest1 := [(task, Unlock)] + [];
    var rest2 := [(task, WriteSync)] + rest1;
    var rest3 := [(task, ReadRegistry)] + rest2;
    var rest4 := [(task, Lock)] + rest3;
    LegalStep(s4, (task, Unlock), []);
    LegalStep(s3, (task, WriteSync), rest1);
    LegalStep(s2, (task, ReadRegistry), rest2);
    LegalStep(s1, (task, Lock), rest3);
    LegalStep(s, (task, Begin(SyncJob)), rest4);
    assert SyncTrace(task) == [(task, Begin(SyncJob))] + rest4;
  }

  /** For instance, one sync then drops the configured tool from the catalog. */
  lemma SyncDropsConfiguredTool(t: Tool, task: nat)
    ensures var s := SharedIdState(t);
            && Initial(s) && Agrees(s) && Legal(s, SyncTrace(task))
            && Run(s, SyncTrace(task)).config.apiTools == [t] && Run(s, SyncTrace(task)).catalog.tools == []
  {
    var s := SharedIdState(t);
    FromToolsRepresents([t]);
    OffersSort([t], t);
    assert t in [t] && Offers([t], t);
    SyncRuns(s, task);
    FilterNone(OutsideOf({t.resourceId}), Sort([t]));
    assert Replace(s.catalog, [], {t.resourceId}).tools == Sort([] + Map(Overlaid(map[]), []));
  }

  lemma LegalStep(s: State, step: (nat, Action), rest: Trace)
    requires Enabled(s, step.0, step.1) && Legal(Next(s, step.0, step.1), rest)
    ensures Legal(s, [step] + rest) && Run(s, [step] + rest) == Run(Next(s, step.0, step.1), rest)
  {
    assert ([step] + rest)[1..] == rest;
  }

  // ── Without the lock ──

  /** The same steps by tasks that do not wait for the lock. */
  ghost predicate LegalWithoutLock(s: State, trace: Trace)
    decreases |trace|
  {
    trace == [] ||
    (&& (if trace[0].1.Lock? then PcOf(s, trace[0].0).Waiting? else Enabled(s, trace[0].0, trace[0].1))
     && LegalWithoutLock(Next(s, trace[0].0, trace[0].1), trace[1..]))
  }

  /** An edit written between a swap's read of the catalog and its install. */
  function Overtaken(swapper: nat, editor: nat, next: Config, edit: Edit): Trace {
    [(swapper, Begin(SwapJob)), (editor, Begin(EditJob(edit))), (swapper, Lock), (editor, Lock), (swapper, Plan(next)),
     (swapper, Build), (editor, WriteEdit), (swapper, InstallConfig), (swapper, InstallCatalog)]
  }

  lemma FirstStep(s: State, step: (nat, Action), rest: Trace)
    ensures Run(s, [step] + rest) == Run(Next(s, step.0, step.1), rest)
    ensures (if step.1.Lock? then PcOf(s, step.0).Waiting? else Enabled(s, step.0, step.1))
            && LegalWithoutLock(Next(s, step.0, step.1), rest) ==>
              LegalWithoutLock(s, [step] + rest)
  {
    assert ([step] + rest)[1..] == rest;
  }

  /** The second half of that trace, from the state in which the swap has built its catalog. */
  lemma LostEdit(s: State, swapper: nat, editor: nat, next: Config, edit: Edit, built: Catalog)
    requires swapper != editor && PcOf(s, swapper) == Built(next, built) && PcOf(s, editor) == Locked(EditJob(edit))
    ensures var rest := [(editor, WriteEdit), (swapper, InstallConfig), (swapper, InstallCatalog)];
            && LegalWithoutLock(s, rest)
            && Run(s, rest).log == s.log + [edit] && Run(s, rest).catalog == built
  {
    var s1 := Next(s, editor, WriteEdit);
    var s2 := Next(s1, swapper, InstallConfig);
    FirstStep(s2, (swapper, InstallCatalog), []);
    FirstStep(s1, (swapper, InstallConfig), [(swapper, InstallCatalog)]);
    FirstStep(s, (editor, WriteEdit), [(swapper, InstallConfig), (swapper, InstallCatalog)]);
    assert [(editor, WriteEdit), (swapper, InstallConfig), (swapper, InstallCatalog)]
        == [(editor, WriteEdit)] + [(swapper, InstallConfig), (swapper, InstallCatalog)];
    assert [(swapper, InstallConfig), (swapper, InstallCatalog)] ==
        [(swapper, InstallConfig)] + [(swapper, InstallCatalog)];
    assert [(swapper, InstallCatalog)] == [(swapper, InstallCatalog)] + [];
  }

  /** Both tasks are inside; the swap reads, the edit is written, the swap installs. */
  lemma OvertakenInside(s: State, swapper: nat, editor: nat, next: Config, edit: Edit)
    requires swapper != editor && PcOf(s, swapper) == Locked(SwapJob) && PcOf(s, editor) == Locked(EditJob(edit))
    ensures var rest := [(swapper, Plan(next)), (swapper, Build), (editor, WriteEdit), (swapper, InstallConfig),
            (swapper, InstallCatalog)];
            && LegalWithoutLock(s, rest)
            && Run(s, rest).log == s.log + [edit] && Run(s, rest).catalog == Swap(s.catalog, next.apiTools, next.mcpIds)
  {
    var rest := [(editor, WriteEdit), (swapper, InstallConfig), (swapper, InstallCatalog)];
    var s1 := Next(s, swapper, Plan(next));
    var s2 := Next(s1, swapper, Build);
    LostEdit(s2, swapper, editor, next, edit, Swap(s.catalog, next.apiTools, next.mcpIds));
    FirstStep(s1, (swapper, Build), rest);
    FirstStep(s, (swapper, Plan(next)), [(swapper, Build)] + rest);
    assert [(swapper, Plan(next)), (swapper, Build), (editor, WriteEdit), (swapper, InstallConfig),
        (swapper, InstallCatalog)]
        == [(swapper, Plan(next))] + ([(swapper, Build)] + rest);
  }

  /** Without the lock both tasks get inside. */
  lemma BothInside(s: State, swapper: nat, editor: nat, edit: Edit, rest: Trace)
    requires Initial(s) && swapper != editor
    ensures var start := [(swapper, Begin(SwapJob)), (editor, Begin(EditJob(edit))), (swapper, Lock), (editor, Lock)];
            exists s' :: && PcOf(s', swapper) == Locked(SwapJob) && PcOf(s', editor) == Locked(EditJob(edit))
                         && s'.catalog == s.catalog && s'.log == s.log
                         && Run(s, start + rest) == Run(s', rest)
                         && (LegalWithoutLock(s', rest) ==> LegalWithoutLock(s, start + rest))
  {
    var s1 := Next(s, swapper, Begin(SwapJob));
    var s2 := Next(s1, editor, Begin(EditJob(edit)));
    var s3 := Next(s2, swapper, Lock);
    var s4 := Next(s3, editor, Lock);
    var rest1 := [(editor, Lock)] + rest;
    var rest2 := [(swapper, Lock)] + rest1;
    var rest3 := [(editor, Begin(EditJob(edit)))] + rest2;
    FirstStep(s3, (editor, Lock), rest);
    FirstStep(s2, (swapper, Lock), rest1);
    FirstStep(s1, (editor, Begin(EditJob(edit))), rest2);
    FirstStep(s, (swapper, Begin(SwapJob)), rest3);
    var start := [(swapper, Begin(SwapJob)), (editor, Begin(EditJob(edit))), (swapper, Lock), (editor, Lock)];
    assert start + rest == [(swapper, Begin(SwapJob))] + rest3;
    assert PcOf(s4, swapper) == Locked(SwapJob) && PcOf(s4, editor) == Locked(EditJob(edit))
        && Run(s, start + rest) == Run(s4, rest);
  }

  /**
   Why the lock is needed: without it the swap installs what it read before the edit. The edit reached
   the catalog and is gone afterwards, unless it changed nothing.
   */
  lemma WithoutLockEditIsLost(s: State, swapper: nat, editor: nat, next: Config, edit: Edit)
    requires Initial(s) && swapper != editor
    ensures var trace := Overtaken(swapper, editor, next, edit);
            var s', ov := Run(s, trace), s.catalog.overrides;
            && LegalWithoutLock(s, trace) && s'.log == [edit]
            && (s'.catalog.overrides == Replay(ov, s'.log) <==>
                if edit.Put? then edit.wire in ov && ov[edit.wire] == edit.description else edit.wire !in ov)
  {
    var start := [(swapper, Begin(SwapJob)), (editor, Begin(EditJob(edit))), (swapper, Lock), (editor, Lock)];
    var rest := [(swapper, Plan(next)), (swapper, Build), (editor, WriteEdit), (swapper, InstallConfig),
        (swapper, InstallCatalog)];
    assert Overtaken(swapper, editor, next, edit) == start + rest;
    BothInside(s, swapper, editor, edit, rest);
    var s1 :| && PcOf(s1, swapper) == Locked(SwapJob) && PcOf(s1, editor) == Locked(EditJob(edit))
              && s1.catalog == s.catalog && s1.log == s.log && Run(s, start + rest) == Run(s1, rest)
              && (LegalWithoutLock(s1, rest) ==> LegalWithoutLock(s, start + rest));
    OvertakenInside(s1, swapper, editor, next, edit);
    ReplayAppend(s.catalog.overrides, [], edit);
    EditChanges(s.catalog.overrides, edit);
  }

  lemma EditChanges(ov: Overrides, edit: Edit)
    ensures Edited(ov, edit) == ov <==>
            if edit.Put? then edit.wire in ov && ov[edit.wire] == edit.description else edit.wire !in ov
  {
    if edit.Put? {
      assert edit.wire in Edited(ov, edit) && Edited(ov, edit)[edit.wire] == edit.description;
    } else {
      assert edit.wire !in Edited(ov, edit);
    }
  }
}
