/** The catalog as the object whose fields are updated in place (src/catalog/mod.rs, src/admin/crud.rs). */
module ToolCatalog {
  import opened Prelude
  import C = Catalog

  type Tool = C.Tool

  lemma RestoreStep(all: seq<Tool>, done: seq<Tool>, was: seq<Tool>, i: nat, originals: map<string, string>)
    requires i < |was| && all == done + C.RestoreAll(was[i..], originals)
    ensures all == (done + [C.Restored(originals)(was[i])]) + C.RestoreAll(was[i + 1..], originals - {was[i].wire})
  {
  }

  class ToolCatalog {
    var tools: seq<Tool>
    var overrides: C.Overrides
    var originals: map<string, string>

    ghost function Value(): C.Catalog
      reads this
    {
      C.Catalog(tools, overrides, originals)
    }

    constructor FromConfig(apiTools: seq<Tool>)
      ensures Value() == C.FromTools(apiTools)
    {
      tools := C.Sort(apiTools);
      overrides, originals := map[], map[];
    }

    /** `overlay_tool`: records the upstream text and returns the tool as shown. */
    method OverlayTool(t: Tool) returns (shown: Tool)
      modifies this`originals
      ensures shown == C.Overlaid(overrides)(t)
      ensures originals == if t.wire in overrides then old(originals)[t.wire := t.description] else old(originals)
    {
      if t.wire in overrides {
        originals := originals[t.wire := t.description];
        return t.(description := overrides[t.wire]);
      }
      return t;
    }

    method ExtendWithMcpTools(newTools: seq<Tool>)
      modifies this
      ensures Value() == C.Extend(old(Value()), newTools)
    {
      for i := 0 to |newTools|
        invariant overrides == old(overrides)
        invariant tools == old(tools) + Map(C.Overlaid(overrides), newTools[..i])
        invariant originals == C.Recorded(overrides, old(originals), newTools[..i])
      {
        var shown := OverlayTool(newTools[i]);
        tools := tools + [shown];
        assert newTools[..i + 1][..i] == newTools[..i];
        assert Map(C.Overlaid(overrides), newTools[..i + 1]) == Map(C.Overlaid(overrides), newTools[..i]) + [shown];
      }
      assert newTools[..|newTools|] == newTools;
      tools := C.Sort(tools);
    }

    method ReplaceMcpTools(newTools: seq<Tool>, ids: set<string>)
      modifies this
      ensures Value() == C.Replace(old(Value()), newTools, ids)
    {
      tools := Filter(C.OutsideOf(ids), tools);
      ExtendWithMcpTools(newTools);
    }

    method FindTool(wire: string) returns (i: nat)
      ensures i == C.Find(tools, wire)
    {
      i := 0;
      while i < |tools| && tools[i].wire != wire
        invariant i <= |tools| && C.Find(tools, wire) == i + C.Find(tools[i..], wire)
      {
        assert tools[i..][1..] == tools[i + 1..];
        i := i + 1;
      }
    }

    method SetDescriptionOverride(wire: string, description: string)
      modifies this
      ensures Value() == C.SetOverride(old(Value()), wire, description)
    {
      overrides := overrides[wire := description];
      var i := FindTool(wire);
      if i < |tools| {
        if wire !in originals { originals := originals[wire := tools[i].description]; }
        tools := tools[i := tools[i].(description := description)];
      }
    }

    method RemoveDescriptionOverride(wire: string)
      modifies this
      ensures Value() == C.RemoveOverride(old(Value()), wire)
    {
      overrides := overrides - {wire};
      if wire in originals {
        var original := originals[wire];
        originals := originals - {wire};
        var i := FindTool(wire);
        if i < |tools| { tools := tools[i := tools[i].(description := original)]; }
      }
    }

    /** The first half of loading: undo what is applied. */
    method RestoreTools()
      modifies this`tools, this`originals
      ensures tools == C.RestoreAll(old(tools), old(originals)) && originals == map[]
    {
      ghost var was, all := tools, C.RestoreAll(tools, originals);
      ghost var done: seq<Tool> := [];
      assert was[0..] == was;
      for i := 0 to |tools|
        invariant |tools| == |was| && |done| == i && all == done + C.RestoreAll(was[i..], originals)
        invariant forall j :: 0 <= j < |was| ==> tools[j] == if j < i then done[j] else was[j]
      {
        var t := tools[i];
        RestoreStep(all, done, was, i, originals);
        done := done + [C.Restored(originals)(t)];
        if t.wire in originals {
          tools := tools[i := t.(description := originals[t.wire])];
          originals := originals - {t.wire};
        } else {
          assert originals - {t.wire} == originals;
        }
      }
      assert tools == done;
      originals := map[];
    }

    /** The second half: replay the overrides over upstream texts. */
    method OverlayAll()
      requires originals == map[]
      modifies this`tools, this`originals
      ensures tools == Map(C.Overlaid(overrides), old(tools)) && originals == C.Recorded(overrides, map[], old(tools))
    {
      ghost var plain := tools;
      for i := 0 to |tools|
        invariant |tools| == |plain|
        invariant forall j :: 0 <= j < |tools| ==>
            tools[j] == if j < i then C.Overlaid(overrides)(plain[j]) else plain[j]
        invariant originals == C.Recorded(overrides, map[], plain[..i])
      {
        assert plain[..i + 1][..i] == plain[..i];
        var shown := OverlayTool(tools[i]);
        tools := tools[i := shown];
      }
      assert plain[..|plain|] == plain;
    }

    method LoadDescriptionOverrides(newOverrides: C.Overrides)
      modifies this
      ensures Value() == C.Load(old(Value()), newOverrides)
    {
      RestoreTools();
      overrides := newOverrides;
      OverlayAll();
    }

    /** The tools of the given servers with their upstream descriptions. */
    method CarryTools(ids: set<string>) returns (carried: seq<Tool>)
      ensures carried == C.Carried(Value(), ids)
    {
      carried := [];
      for i := 0 to |tools|
        invariant carried == Map(C.Restored(originals), Filter(C.Within(ids), tools[..i]))
      {
        FilterStep(C.Within(ids), tools, i);
        var t := tools[i];
        if t.resourceId in ids {
          MapAppend(C.Restored(originals), Filter(C.Within(ids), tools[..i]), [t]);
          if t.wire in originals { t := t.(description := originals[t.wire]); }
          carried := carried + [t];
        }
      }
      assert tools[..|tools|] == tools;
    }
  }

  /** The shared state that an admin write replaces. */
  class AppState {
    var catalog: ToolCatalog

    constructor (catalog: ToolCatalog)
      ensures this.catalog == catalog
    {
      this.catalog := catalog;
    }

    /**
     `swap_config_and_catalog`: builds a new catalog beside the live one and installs it; the live one
     is left as it was.
     */
    method SwapCatalog(apiTools: seq<Tool>, mcpIds: set<string>)
      modifies this
      ensures fresh(catalog) && catalog.Value() == C.Swap(old(catalog.Value()), apiTools, mcpIds)
      ensures unchanged(old(catalog))
    {
      var next := new ToolCatalog.FromConfig(apiTools);
      next.LoadDescriptionOverrides(catalog.overrides);
      var carried := catalog.CarryTools(mcpIds);
      next.ExtendWithMcpTools(carried);
      catalog := next;
    }
  }
}
