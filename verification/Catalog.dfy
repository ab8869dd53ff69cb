/** The tool catalog with its description overlay (src/catalog/mod.rs, src/admin/crud.rs). */
module Catalog {
  import opened Prelude
  import opened Sorting

  type Overrides = map<string, string>

  /** The part of a `WrappedTool` that the overlay reads or writes; the other fields ride along unchanged. */
  datatype Tool = Tool(wire: string, resourceId: string, description: string)

  function WireOf(t: Tool): string { t.wire }

  function Wires(tools: seq<Tool>): seq<string> { Map(WireOf, tools) }

  ghost predicate DistinctWires(tools: seq<Tool>) { Distinct(Wires(tools)) }

  /** The three fields of `ToolCatalog`; `tools` carry the description an agent sees. */
  datatype Catalog = Catalog(tools: seq<Tool>, overrides: Overrides, originals: map<string, string>)

  predicate WireLe(a: Tool, b: Tool) { StringLe(a.wire, b.wire) }

  function Sort(tools: seq<Tool>): seq<Tool> { SortBy(WireLe, tools) }

  // ── The operations on values ──

  /** Override, else what upstream said. */
  function Overlaid(ov: Overrides): Tool -> Tool {
    (t: Tool) => if t.wire in ov then t.(description := ov[t.wire]) else t
  }

  function Restored(originals: map<string, string>): Tool -> Tool {
    (t: Tool) => if t.wire in originals then t.(description := originals[t.wire]) else t
  }

  /** The originals recorded by overlaying `tools` in order. */
  function Recorded(ov: Overrides, originals: map<string, string>, tools: seq<Tool>): map<string, string> {
    if tools == [] then originals
    else
      var t := tools[|tools| - 1];
      var before := Recorded(ov, originals, tools[..|tools| - 1]);
      if t.wire in ov then before[t.wire := t.description] else before
  }

  function Extend(c: Catalog, tools: seq<Tool>): Catalog {
    Catalog(Sort(c.tools + Map(Overlaid(c.overrides), tools)), c.overrides, Recorded(c.overrides, c.originals, tools))
  }

  function OutsideOf(ids: set<string>): Tool -> bool { (t: Tool) => t.resourceId !in ids }

  function Within(ids: set<string>): Tool -> bool { (t: Tool) => t.resourceId in ids }

  function Replace(c: Catalog, tools: seq<Tool>, ids: set<string>): Catalog {
    Extend(c.(tools := Filter(OutsideOf(ids), c.tools)), tools)
  }

  /** The position of the first tool with this wire name, or the length. */
  function Find(tools: seq<Tool>, wire: string): (i: nat)
    ensures i <= |tools| && (i < |tools| ==> tools[i].wire == wire) && forall j :: 0 <= j < i ==> tools[j].wire != wire
  {
    FirstWith(WireOf, tools, wire)
  }

  function Describe(tools: seq<Tool>, i: nat, description: string): seq<Tool>
    requires i < |tools|
  {
    tools[i := tools[i].(description := description)]
  }

  function SetOverride(c: Catalog, wire: string, description: string): Catalog {
    var ov := c.overrides[wire := description];
    var i := Find(c.tools, wire);
    if i == |c.tools| then c.(overrides := ov)
    else Catalog(Describe(c.tools, i, description), ov,
                 if wire in c.originals then c.originals else c.originals[wire := c.tools[i].description])
  }

  function RemoveOverride(c: Catalog, wire: string): Catalog {
    var i := Find(c.tools, wire);
    Catalog(if wire in c.originals && i < |c.tools| then Describe(c.tools, i, c.originals[wire]) else c.tools,
            c.overrides - {wire}, c.originals - {wire})
  }

  /** Undo the applied overrides, front to back, consuming each recorded original. */
  function RestoreAll(tools: seq<Tool>, originals: map<string, string>): seq<Tool> {
    if tools == [] then []
    else [Restored(originals)(tools[0])] + RestoreAll(tools[1..], originals - {tools[0].wire})
  }

  function Load(c: Catalog, ov: Overrides): Catalog {
    var plain := RestoreAll(c.tools, c.originals);
    Catalog(Map(Overlaid(ov), plain), ov, Recorded(ov, map[], plain))
  }

  function FromTools(tools: seq<Tool>): Catalog { Catalog(Sort(tools), map[], map[]) }

  /** `swap_config_and_catalog`: a fresh catalog that carries the overrides and the tools of the kept servers. */
  function Swap(prev: Catalog, apiTools: seq<Tool>, mcpIds: set<string>): Catalog {
    Extend(Load(FromTools(apiTools), prev.overrides), Carried(prev, mcpIds))
  }

  /** The kept servers' tools with their upstream descriptions put back. */
  function Carried(prev: Catalog, mcpIds: set<string>): seq<Tool> {
    Map(Restored(prev.originals), Filter(Within(mcpIds), prev.tools))
  }

  // ── What a catalog stands for ──

  /**
   `c` shows the upstream tools `up` through its overrides: each tool shows override-else-upstream,
   the upstream text of every overridden tool on the list is on record, and nothing is on record
   for a name without an override.
   */
  ghost predicate Represents(c: Catalog, up: seq<Tool>) {
    && DistinctWires(up)
    && c.tools == Map(Overlaid(c.overrides), up)
    && c.originals.Keys <= c.overrides.Keys
    && (forall t :: t in up && t.wire in c.overrides ==>
          t.wire in c.originals && c.originals[t.wire] == t.description)
  }

  /** The upstream texts can be read back from the catalog alone. */
  lemma UpstreamDetermined(c: Catalog, up: seq<Tool>)
    requires Represents(c, up)
    ensures Map(Restored(c.originals), c.tools) == up
  {
  }

  lemma WiresOfOverlaid(ov: Overrides, up: seq<Tool>)
    ensures Wires(Map(Overlaid(ov), up)) == Wires(up)
  {
  }

  /** Setting an override keeps the upstream side as it is. */
  lemma SetOverrideRepresents(c: Catalog, up: seq<Tool>, wire: string, description: string)
    requires Represents(c, up)
    ensures Represents(SetOverride(c, wire, description), up)
  {
  }

  /** Removing one gives the current upstream text back. */
  lemma RemoveOverrideRepresents(c: Catalog, up: seq<Tool>, wire: string)
    requires Represents(c, up)
    ensures Represents(RemoveOverride(c, wire), up)
  {
  }

  // ── The whole-list operations ──

  lemma SortedDistinct(ts: seq<Tool>)
    ensures DistinctWires(Sort(ts)) <==> DistinctWires(ts)
  {
    SortMapMultiset(WireLe, WireOf, ts);
    DistinctPermutation(Wires(Sort(ts)), Wires(ts));
  }

  lemma DistinctParts(xs: seq<Tool>, ys: seq<Tool>)
    requires DistinctWires(xs + ys)
    ensures DistinctWires(xs) && DistinctWires(ys)
    ensures forall t :: t in xs ==> t.wire !in Wires(ys)
  {
    var all := Wires(xs + ys);
    assert Wires(xs) == all[..|xs|] && Wires(ys) == all[|xs|..];
    forall t | t in xs ensures t.wire !in Wires(ys) {
      var i :| 0 <= i < |xs| && xs[i] == t;
      assert all[i] == t.wire;
    }
  }

  /** Recording keeps what it does not touch, and holds the text of every overridden tool it saw. */
  lemma {:induction false} RecordedFacts(ov: Overrides, originals: map<string, string>, ts: seq<Tool>)
    requires DistinctWires(ts)
    ensures var r := Recorded(ov, originals, ts);
            && (forall t :: t in ts && t.wire in ov ==> t.wire in r && r[t.wire] == t.description)
            && (forall w :: w in originals && w !in Wires(ts) ==> w in r && r[w] == originals[w])
            && r.Keys <= originals.Keys + ov.Keys
  {
    if ts != [] {
      var n := |ts| - 1;
      var before := ts[..n];
      assert ts == before + [ts[n]];
      DistinctParts(before, [ts[n]]);
      assert Wires([ts[n]]) == [ts[n].wire];
      assert Wires(ts) == Wires(before) + [ts[n].wire];
      RecordedFacts(ov, originals, before);
    }
  }

  /** Extending the catalog extends the upstream side; names must stay distinct. */
  lemma ExtendRepresents(c: Catalog, up: seq<Tool>, ts: seq<Tool>)
    requires Represents(c, up) && DistinctWires(up + ts)
    ensures Represents(Extend(c, ts), Sort(up + ts))
  {
    SortedDistinct(up + ts);
    SortMap(WireLe, Overlaid(c.overrides), up + ts);
    MapAppend(Overlaid(c.overrides), up, ts);
    DistinctParts(up, ts);
    RecordedFacts(c.overrides, c.originals, ts);
  }

  /** A sub-selection of the upstream side is represented by the same selection of the catalog. */
  lemma RetainRepresents(c: Catalog, up: seq<Tool>, ids: set<string>)
    requires Represents(c, up)
    ensures DistinctWires(Filter(OutsideOf(ids), up))
    ensures Represents(c.(tools := Filter(OutsideOf(ids), c.tools)), Filter(OutsideOf(ids), up))
  {
    FilterMap(OutsideOf(ids), Overlaid(c.overrides), up);
    FilterDistinct(OutsideOf(ids), WireOf, up);
  }

  /** Replacing the servers' tools leaves the other tools and every override in place. */
  lemma ReplaceRepresents(c: Catalog, up: seq<Tool>, ts: seq<Tool>, ids: set<string>)
    requires Represents(c, up) && DistinctWires(Filter(OutsideOf(ids), up) + ts)
    ensures Represents(Replace(c, ts, ids), Sort(Filter(OutsideOf(ids), up) + ts))
  {
    RetainRepresents(c, up, ids);
    ExtendRepresents(c.(tools := Filter(OutsideOf(ids), c.tools)), Filter(OutsideOf(ids), up), ts);
  }

  lemma {:induction false} RestoreAllRestores(ts: seq<Tool>, originals: map<string, string>)
    requires DistinctWires(ts)
    ensures RestoreAll(ts, originals) == Map(Restored(originals), ts)
  {
    if ts != [] {
      var rest, less := ts[1..], originals - {ts[0].wire};
      assert Wires(rest) == Wires(ts)[1..];
      RestoreAllRestores(rest, less);
      forall i | 0 <= i < |rest| ensures Restored(less)(rest[i]) == Restored(originals)(rest[i]) {
        assert Wires(ts)[0] != Wires(ts)[i + 1];
      }
      assert Map(Restored(less), rest) == Map(Restored(originals), ts)[1..];
    }
  }

  /** Loading replaces the override set and nothing else. */
  lemma LoadRepresents(c: Catalog, up: seq<Tool>, ov: Overrides)
    requires Represents(c, up)
    ensures Represents(Load(c, ov), up)
  {
    WiresOfOverlaid(c.overrides, up);
    RestoreAllRestores(c.tools, c.originals);
    UpstreamDetermined(c, up);
    RecordedFacts(ov, map[], up);
  }

  lemma FromToolsRepresents(ts: seq<Tool>)
    requires DistinctWires(ts)
    ensures Represents(FromTools(ts), Sort(ts))
  {
    SortedDistinct(ts);
    assert Map(Overlaid(map[]), Sort(ts)) == Sort(ts);
  }

  // ── Swapping the configuration ──

  /** What the new catalog shows: the new API tools and the kept servers' tools, all as upstream describes them. */
  function SwapUpstream(up: seq<Tool>, apiTools: seq<Tool>, mcpIds: set<string>): seq<Tool> {
    Sort(Sort(apiTools) + Filter(Within(mcpIds), up))
  }

  lemma CarriedIsUpstream(c: Catalog, up: seq<Tool>, mcpIds: set<string>)
    requires Represents(c, up)
    ensures Carried(c, mcpIds) == Filter(Within(mcpIds), up)
  {
    FilterMap(Within(mcpIds), Overlaid(c.overrides), up);
    var kept := Filter(Within(mcpIds), up);
    forall i | 0 <= i < |kept| ensures Restored(c.originals)(Overlaid(c.overrides)(kept[i])) == kept[i] {
      assert kept[i] in up;
    }
  }

  /** A swap keeps every override and every kept tool's upstream text. */
  lemma SwapRepresents(c: Catalog, up: seq<Tool>, apiTools: seq<Tool>, mcpIds: set<string>)
    requires Represents(c, up) && DistinctWires(Sort(apiTools) + Filter(Within(mcpIds), up))
    ensures Represents(Swap(c, apiTools, mcpIds), SwapUpstream(up, apiTools, mcpIds))
    ensures Swap(c, apiTools, mcpIds).overrides == c.overrides
  {
    var kept := Filter(Within(mcpIds), up);
    DistinctParts(Sort(apiTools), kept);
    SortedDistinct(apiTools);
    FromToolsRepresents(apiTools);
    LoadRepresents(FromTools(apiTools), Sort(apiTools), c.overrides);
    CarriedIsUpstream(c, up, mcpIds);
    ExtendRepresents(Load(FromTools(apiTools), c.overrides), Sort(apiTools), kept);
  }

  /**
   What a swap needs of its inputs, checkable before it: the new API tools have distinct names, and
   none of them bears the name of a live tool whose resource id is a kept server's. Exactly then are
   the names distinct afterwards.
   */
  lemma SwapKeepsNamesDistinctIff(up: seq<Tool>, apiTools: seq<Tool>, mcpIds: set<string>)
    requires DistinctWires(up)
    ensures DistinctWires(SwapUpstream(up, apiTools, mcpIds)) <==>
            DistinctWires(apiTools) && forall a, k :: a in apiTools && k in up && k.resourceId in mcpIds ==>
              a.wire != k.wire
  {
    var kept := Filter(Within(mcpIds), up);
    SortedDistinct(Sort(apiTools) + kept);
    SortedDistinct(apiTools);
    FilterDistinct(Within(mcpIds), WireOf, up);
    if DistinctWires(Sort(apiTools) + kept) {
      DistinctParts(Sort(apiTools), kept);
      forall a, k | a in apiTools && k in up && k.resourceId in mcpIds ensures a.wire != k.wire {
        assert a in Sort(apiTools) && k in kept;
        WireListed(kept, k);
      }
    }
    if DistinctWires(apiTools) && forall a, k :: a in apiTools && k in up && k.resourceId in mcpIds ==>
        a.wire != k.wire {
      DistinctJoin(Sort(apiTools), kept);
    }
  }

  /**
   A swap that leaves the API tools and the servers alone (a proxy key write, say) keeps the names
   distinct exactly when no API tool's resource id is also a server's. A configuration file may give
   an API resource and a server one id: the API tools are then carried along as if a server had
   supplied them.
   */
  lemma UnchangedSwapKeepsNamesDistinctIff(apiTools: seq<Tool>, mcpTools: seq<Tool>, mcpIds: set<string>)
    requires DistinctWires(apiTools + mcpTools) && forall t :: t in mcpTools ==> t.resourceId in mcpIds
    ensures DistinctWires(SwapUpstream(Sort(apiTools + mcpTools), apiTools, mcpIds)) <==>
            forall t :: t in apiTools ==> t.resourceId !in mcpIds
  {
    var live := Sort(apiTools + mcpTools);
    SortedDistinct(apiTools + mcpTools);
    SwapKeepsNamesDistinctIff(live, apiTools, mcpIds);
    DistinctParts(apiTools, mcpTools);
    if forall t :: t in apiTools ==> t.resourceId !in mcpIds {
      forall a, k | a in apiTools && k in live && k.resourceId in mcpIds ensures a.wire != k.wire {
        assert k in mcpTools;
        WireListed(mcpTools, k);
      }
    } else {
      var t :| t in apiTools && t.resourceId in mcpIds;
      assert t in live;
    }
  }

  /** For instance, one API tool under a shared id is listed twice after a swap that changes nothing. */
  lemma SharedIdDoublesTool(t: Tool)
    ensures !DistinctWires(SwapUpstream(Sort([t]), [t], {t.resourceId}))
  {
    assert t in [t] && [t] + [] == [t];
    UnchangedSwapKeepsNamesDistinctIff([t], [], {t.resourceId});
  }

  /** And with disjoint ids, a resource update that renames its tools can take a live server tool's name. */
  lemma RenamedResourceTakesName(live: Tool, renamed: Tool)
    requires live.wire == renamed.wire && live.resourceId != renamed.resourceId
    ensures !DistinctWires(SwapUpstream([live], [renamed], {live.resourceId}))
  {
    SwapKeepsNamesDistinctIff([live], [renamed], {live.resourceId});
    assert live in [live] && renamed in [renamed];
  }

  lemma WireListed(ts: seq<Tool>, t: Tool)
    requires t in ts
    ensures t.wire in Wires(ts)
  {
  }

  lemma DistinctJoin(xs: seq<Tool>, ys: seq<Tool>)
    requires DistinctWires(xs) && DistinctWires(ys)
    requires forall a, k :: a in xs && k in ys ==> a.wire != k.wire
    ensures DistinctWires(xs + ys)
  {
  }

  // ── What holds whatever the names ──

  /** A tool without its description. */
  function Erase(t: Tool): Tool { t.(description := "") }

  /** The same tools in the same order, but for their descriptions. */
  ghost predicate SameTools(a: seq<Tool>, b: seq<Tool>) { Map(Erase, a) == Map(Erase, b) }

  lemma SortSame(a: seq<Tool>, b: seq<Tool>)
    requires SameTools(a, b)
    ensures SameTools(Sort(a), Sort(b))
  {
    SortMap(WireLe, Erase, a);
    SortMap(WireLe, Erase, b);
  }

  lemma JoinSame(a: seq<Tool>, b: seq<Tool>, x: seq<Tool>, y: seq<Tool>)
    requires SameTools(a, b) && SameTools(x, y)
    ensures SameTools(a + x, b + y)
  {
    MapAppend(Erase, a, x);
    MapAppend(Erase, b, y);
  }

  lemma FilterSame(p: Tool -> bool, a: seq<Tool>, b: seq<Tool>)
    requires SameTools(a, b) && forall t :: p(Erase(t)) == p(t)
    ensures SameTools(Filter(p, a), Filter(p, b))
  {
    FilterMap(p, Erase, a);
    FilterMap(p, Erase, b);
  }

  lemma ExtendKeepsTools(c: Catalog, up: seq<Tool>, ts: seq<Tool>)
    requires SameTools(c.tools, up)
    ensures SameTools(Extend(c, ts).tools, Sort(up + ts))
  {
    assert SameTools(Map(Overlaid(c.overrides), ts), ts);
    JoinSame(c.tools, up, Map(Overlaid(c.overrides), ts), ts);
    SortSame(c.tools + Map(Overlaid(c.overrides), ts), up + ts);
  }

  lemma ReplaceKeepsTools(c: Catalog, up: seq<Tool>, ts: seq<Tool>, ids: set<string>)
    requires SameTools(c.tools, up)
    ensures SameTools(Replace(c, ts, ids).tools, Sort(Filter(OutsideOf(ids), up) + ts))
  {
    FilterSame(OutsideOf(ids), c.tools, up);
    ExtendKeepsTools(c.(tools := Filter(OutsideOf(ids), c.tools)), Filter(OutsideOf(ids), up), ts);
  }

  lemma {:induction false} RestoreAllKeepsTools(ts: seq<Tool>, originals: map<string, string>)
    ensures SameTools(RestoreAll(ts, originals), ts)
  {
    if ts != [] {
      RestoreAllKeepsTools(ts[1..], originals - {ts[0].wire});
      JoinSame([Restored(originals)(ts[0])], [ts[0]], RestoreAll(ts[1..], originals - {ts[0].wire}), ts[1..]);
      assert ts == [ts[0]] + ts[1..];
    }
  }

  lemma LoadKeepsTools(c: Catalog, ov: Overrides)
    ensures SameTools(Load(c, ov).tools, c.tools)
  {
    RestoreAllKeepsTools(c.tools, c.originals);
    assert SameTools(Load(c, ov).tools, RestoreAll(c.tools, c.originals));
  }

  /** A swap lists the new API tools and the kept servers' tools, each as often as it is offered. */
  lemma SwapKeepsTools(c: Catalog, up: seq<Tool>, apiTools: seq<Tool>, mcpIds: set<string>)
    requires SameTools(c.tools, up)
    ensures SameTools(Swap(c, apiTools, mcpIds).tools, SwapUpstream(up, apiTools, mcpIds))
  {
    var base := Load(FromTools(apiTools), c.overrides);
    var kept := Filter(Within(mcpIds), up);
    LoadKeepsTools(FromTools(apiTools), c.overrides);
    FilterSame(Within(mcpIds), c.tools, up);
    assert SameTools(Carried(c, mcpIds), Filter(Within(mcpIds), c.tools));
    ExtendKeepsTools(base, Sort(apiTools), Carried(c, mcpIds));
    JoinSame(Sort(apiTools), Sort(apiTools), Carried(c, mcpIds), kept);
    SortSame(Sort(apiTools) + Carried(c, mcpIds), Sort(apiTools) + kept);
  }

  /** Some tool of the list is `t`, but for its description. */
  ghost predicate Offers(ts: seq<Tool>, t: Tool) { exists u :: u in ts && Erase(u) == Erase(t) }

  lemma OffersSame(a: seq<Tool>, b: seq<Tool>, t: Tool)
    requires SameTools(a, b)
    ensures Offers(a, t) ==> Offers(b, t)
  {
    if Offers(a, t) {
      var u :| u in a && Erase(u) == Erase(t);
      var i :| 0 <= i < |a| && a[i] == u;
      assert Map(Erase, a)[i] == Map(Erase, b)[i] && b[i] in b;
    }
  }

  lemma OffersJoin(a: seq<Tool>, b: seq<Tool>, t: Tool)
    ensures Offers(Sort(a + b), t) <==> Offers(a, t) || Offers(b, t)
  {
    if u :| u in a + b && Erase(u) == Erase(t) { assert u in Sort(a + b); }
    if u :| u in Sort(a + b) && Erase(u) == Erase(t) { assert u in a + b; }
  }

  lemma OffersSort(a: seq<Tool>, t: Tool)
    ensures Offers(Sort(a), t) <==> Offers(a, t)
  {
    assert a + [] == a;
    OffersJoin(a, [], t);
  }

  lemma OffersFilter(p: Tool -> bool, a: seq<Tool>, t: Tool)
    requires forall x :: p(Erase(x)) == p(x)
    ensures Offers(Filter(p, a), t) <==> Offers(a, t) && p(t)
  {
    if u :| u in a && Erase(u) == Erase(t) {
      assert p(u) == p(Erase(u)) == p(t);
      assert p(t) ==> u in Filter(p, a);
    }
    if u :| u in Filter(p, a) && Erase(u) == Erase(t) { assert p(u) == p(Erase(u)) == p(t); }
  }

  /** After a swap a tool is listed exactly if the new configuration has it, or it was listed and its server is kept. */
  lemma SwapOffersIff(c: Catalog, apiTools: seq<Tool>, mcpIds: set<string>, t: Tool)
    ensures Offers(Swap(c, apiTools, mcpIds).tools, t) <==>
            Offers(apiTools, t) || (Offers(c.tools, t) && t.resourceId in mcpIds)
  {
    var listed := SwapUpstream(c.tools, apiTools, mcpIds);
    SwapKeepsTools(c, c.tools, apiTools, mcpIds);
    OffersSame(Swap(c, apiTools, mcpIds).tools, listed, t);
    OffersSame(listed, Swap(c, apiTools, mcpIds).tools, t);
    OffersJoin(Sort(apiTools), Filter(Within(mcpIds), c.tools), t);
    OffersSort(apiTools, t);
    OffersFilter(Within(mcpIds), c.tools, t);
  }

  /** After a sync exactly if the registry has it, or it was listed under an id that is no server's. */
  lemma ReplaceOffersIff(c: Catalog, ts: seq<Tool>, ids: set<string>, t: Tool)
    ensures Offers(Replace(c, ts, ids).tools, t) <==> Offers(ts, t) || (Offers(c.tools, t) && t.resourceId !in ids)
  {
    var listed := Sort(Filter(OutsideOf(ids), c.tools) + ts);
    ReplaceKeepsTools(c, c.tools, ts, ids);
    OffersSame(Replace(c, ts, ids).tools, listed, t);
    OffersSame(listed, Replace(c, ts, ids).tools, t);
    OffersJoin(Filter(OutsideOf(ids), c.tools), ts, t);
    OffersFilter(OutsideOf(ids), c.tools, t);
  }

  // ── Names that occur twice ──

  /** An edit rewrites the first tool of its name and no other. */
  lemma EditsTouchFirst(c: Catalog, wire: string, description: string, i: nat)
    requires i < |c.tools|
    ensures var first := c.tools[i].wire == wire && forall j :: 0 <= j < i ==> c.tools[j].wire != wire;
            var t, edited, removed := c.tools[i], SetOverride(c, wire, description), RemoveOverride(c, wire);
            && |edited.tools| == |removed.tools| == |c.tools|
            && edited.tools[i] == (if first then t.(description := description) else t)
            && removed.tools[i] == if first && wire in c.originals then t.(description := c.originals[wire]) else t
  {
  }

  /** Loading takes a recorded text back once, to the first tool of its name. */
  lemma {:induction false} RestoreAllAt(ts: seq<Tool>, originals: map<string, string>, i: nat)
    requires i < |ts|
    ensures var t, all := ts[i], RestoreAll(ts, originals);
            && |all| == |ts|
            && all[i] == if t.wire in originals && (forall j :: 0 <= j < i ==> ts[j].wire != t.wire)
               then t.(description := originals[t.wire]) else t
  {
    if i > 0 {
      RestoreAllAt(ts[1..], originals - {ts[0].wire}, i - 1);
      assert forall j :: 0 <= j < i ==> ts[j].wire == (if j == 0 then ts[0] else ts[1..][j - 1]).wire;
      assert forall j :: 0 <= j < i - 1 ==> ts[1..][j] == ts[j + 1];
    } else if |ts| > 1 {
      RestoreAllAt(ts[1..], originals - {ts[0].wire}, 0);
    }
  }

  /** Of several overridden tools of one name the last one's text is on record. */
  lemma {:induction false} RecordedIsLast(ov: Overrides, originals: map<string, string>, ts: seq<Tool>, i: nat)
    requires i < |ts| && ts[i].wire in ov && forall j :: i < j < |ts| ==> ts[j].wire != ts[i].wire
    ensures var r := Recorded(ov, originals, ts); ts[i].wire in r && r[ts[i].wire] == ts[i].description
  {
    if i < |ts| - 1 { RecordedIsLast(ov, originals, ts[..|ts| - 1], i); }
  }

  // ── Every run of catalog operations ──

  datatype Op =
    | ExtendOp(tools: seq<Tool>)
    | ReplaceOp(tools: seq<Tool>, ids: set<string>)
    | SetOp(wire: string, description: string)
    | RemoveOp(wire: string)
    | LoadOp(overrides: Overrides)

  function Apply(c: Catalog, op: Op): Catalog {
    match op
    case ExtendOp(tools) => Extend(c, tools)
    case ReplaceOp(tools, ids) => Replace(c, tools, ids)
    case SetOp(wire, description) => SetOverride(c, wire, description)
    case RemoveOp(wire) => RemoveOverride(c, wire)
    case LoadOp(overrides) => Load(c, overrides)
  }

  /** What an operation does to the tools as upstream describes them. */
  function ApplyUpstream(up: seq<Tool>, op: Op): seq<Tool> {
    match op
    case ExtendOp(tools) => Sort(up + tools)
    case ReplaceOp(tools, ids) => Sort(Filter(OutsideOf(ids), up) + tools)
    case _ => up
  }

  /** What it does to the administrators' texts. */
  function ApplyOverrides(ov: Overrides, op: Op): Overrides {
    match op
    case SetOp(wire, description) => ov[wire := description]
    case RemoveOp(wire) => ov - {wire}
    case LoadOp(overrides) => overrides
    case _ => ov
  }

  function Run(c: Catalog, ops: seq<Op>): Catalog {
    if ops == [] then c else Apply(Run(c, ops[..|ops| - 1]), ops[|ops| - 1])
  }

  function RunUpstream(up: seq<Tool>, ops: seq<Op>): seq<Tool> {
    if ops == [] then up else ApplyUpstream(RunUpstream(up, ops[..|ops| - 1]), ops[|ops| - 1])
  }

  function RunOverrides(ov: Overrides, ops: seq<Op>): Overrides {
    if ops == [] then ov else ApplyOverrides(RunOverrides(ov, ops[..|ops| - 1]), ops[|ops| - 1])
  }

  /** Every list brought in along the way keeps wire names distinct. */
  ghost predicate NamesStayDistinct(up: seq<Tool>, ops: seq<Op>) {
    forall i :: 0 <= i <= |ops| ==> DistinctWires(RunUpstream(up, ops[..i]))
  }

  lemma ApplyToOverrides(c: Catalog, op: Op)
    ensures Apply(c, op).overrides == ApplyOverrides(c.overrides, op)
  {
  }

  lemma ApplyRepresents(c: Catalog, up: seq<Tool>, op: Op)
    requires Represents(c, up) && DistinctWires(ApplyUpstream(up, op))
    ensures Represents(Apply(c, op), ApplyUpstream(up, op))
  {
    match op
    case ExtendOp(tools) =>
      SortedDistinct(up + tools);
      ExtendRepresents(c, up, tools);
    case ReplaceOp(tools, ids) =>
      SortedDistinct(Filter(OutsideOf(ids), up) + tools);
      ReplaceRepresents(c, up, tools, ids);
    case SetOp(wire, description) => SetOverrideRepresents(c, up, wire, description);
    case RemoveOp(wire) => RemoveOverrideRepresents(c, up, wire);
    case LoadOp(overrides) => LoadRepresents(c, up, overrides);
  }

  /** Refinement: after every run the catalog shows the upstream texts of the run through the overrides of the run. */
  lemma {:induction false} RunRepresents(c: Catalog, up: seq<Tool>, ops: seq<Op>)
    requires Represents(c, up) && NamesStayDistinct(up, ops)
    ensures Represents(Run(c, ops), RunUpstream(up, ops))
    ensures Run(c, ops).overrides == RunOverrides(c.overrides, ops)
  {
    if ops != [] {
      var front := ops[..|ops| - 1];
      forall i | 0 <= i <= |front| ensures DistinctWires(RunUpstream(up, front[..i])) {
        assert front[..i] == ops[..i];
      }
      RunRepresents(c, up, front);
      assert ops[..|ops|] == ops;
      ApplyRepresents(Run(c, front), RunUpstream(up, front), ops[|ops| - 1]);
      ApplyToOverrides(Run(c, front), ops[|ops| - 1]);
    }
  }

  /** Removing an override after any run shows the tool exactly as upstream describes it now. */
  lemma RemovedShowsCurrentUpstream(c: Catalog, up: seq<Tool>, ops: seq<Op>, t: Tool)
    requires Represents(c, up) && NamesStayDistinct(up, ops) && t in RunUpstream(up, ops)
    ensures t in RemoveOverride(Run(c, ops), t.wire).tools
  {
    RunRepresents(c, up, ops);
    var now := RunUpstream(up, ops);
    RemoveOverrideRepresents(Run(c, ops), now, t.wire);
    var i :| 0 <= i < |now| && now[i] == t;
    assert RemoveOverride(Run(c, ops), t.wire).tools[i] == t;
  }

  // ── Order ──

  /** The tools are in the order of their wire names. */
  ghost predicate InNameOrder(tools: seq<Tool>) {
    forall i, j :: 0 <= i < j < |tools| ==> StringLe(tools[i].wire, tools[j].wire)
  }

  lemma SortOrders(tools: seq<Tool>)
    ensures InNameOrder(Sort(tools)) && multiset(Sort(tools)) == multiset(tools)
  {
    StringLeOrder();
    assert TotalPreorder(WireLe) by {
      forall a, b ensures WireLe(a, b) || WireLe(b, a) { StringLeTotal(a.wire, b.wire); }
      forall a, b, c | WireLe(a, b) && WireLe(b, c) ensures WireLe(a, c) { StringLeTransitive(a.wire, b.wire, c.wire); }
    }
    SortBySorted(WireLe, tools);
    forall i, j | 0 <= i < j < |Sort(tools)| ensures StringLe(Sort(tools)[i].wire, Sort(tools)[j].wire) {
      assert WireLe(Sort(tools)[i], Sort(tools)[j]);
    }
  }

  lemma SameToolsSameOrder(a: seq<Tool>, b: seq<Tool>)
    requires SameTools(a, b) && InNameOrder(b)
    ensures InNameOrder(a)
  {
    forall i | 0 <= i < |a| ensures a[i].wire == b[i].wire { assert Map(Erase, a)[i] == Map(Erase, b)[i]; }
  }

  /** Every operation leaves the tools in the order of their wire names. */
  lemma ApplyKeepsOrder(c: Catalog, op: Op)
    requires InNameOrder(c.tools)
    ensures InNameOrder(Apply(c, op).tools)
  {
    match op
    case ExtendOp(tools) => SortOrders(c.tools + Map(Overlaid(c.overrides), tools));
    case ReplaceOp(tools, ids) =>
      SortOrders(Filter(OutsideOf(ids), c.tools) + Map(Overlaid(c.overrides), tools));
    case LoadOp(overrides) =>
      LoadKeepsTools(c, overrides);
      SameToolsSameOrder(Load(c, overrides).tools, c.tools);
    case SetOp(wire, description) =>
    case RemoveOp(wire) =>
  }

  lemma {:induction false} RunKeepsOrder(c: Catalog, ops: seq<Op>)
    requires InNameOrder(c.tools)
    ensures InNameOrder(Run(c, ops).tools)
  {
    if ops != [] {
      RunKeepsOrder(c, ops[..|ops| - 1]);
      ApplyKeepsOrder(Run(c, ops[..|ops| - 1]), ops[|ops| - 1]);
    }
  }

  /** And so does a swap, which starts from scratch. */
  lemma SwapOrders(prev: Catalog, apiTools: seq<Tool>, mcpIds: set<string>)
    ensures InNameOrder(Swap(prev, apiTools, mcpIds).tools)
  {
    var base := Load(FromTools(apiTools), prev.overrides);
    SortOrders(base.tools + Map(Overlaid(prev.overrides), Carried(prev, mcpIds)));
  }

}
