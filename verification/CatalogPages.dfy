/** Paged listing and keyword search (src/catalog/query.rs, src/discovery.rs). */
module CatalogPages {
  import opened Prelude
  import opened Sorting
  import opened Json
  import opened Naming
  import opened Policy
  import opened CatalogQuery

  // ── Scope of a key, computed by a loop that stops at the first failing check ──

  lemma VisibleStep(e: Engine, key: ProxyKey, tools: seq<WrappedTool>, i: nat)
    requires i < |tools|
    ensures Visible(e, key, tools[..i + 1]) == Visible(e, key, tools[..i]) + if CanUse(e, key, tools[i]) == Ok(true)
            then [tools[i]] else []
    ensures ScopeOk(e, key, tools[..i + 1]) <==> ScopeOk(e, key, tools[..i]) && CanUse(e, key, tools[i]).Ok?
    ensures ScopeOk(e, key, tools) ==> CanUse(e, key, tools[i]).Ok?
  {
    FilterStep(InScope(e, key), tools, i);
    assert tools[..i + 1] == tools[..i] + [tools[i]];
    assert tools[i] in tools;
  }

  method CollectVisible(e: Engine, key: ProxyKey, tools: seq<WrappedTool>)
    returns (r: Result<seq<WrappedTool>, PolicyError>)
    ensures r == if ScopeOk(e, key, tools) then Ok(Visible(e, key, tools)) else Err(InvalidRegex)
  {
    var visible := [];
    for i := 0 to |tools|
      invariant visible == Visible(e, key, tools[..i])
      invariant ScopeOk(e, key, tools[..i])
    {
      VisibleStep(e, key, tools, i);
      var scope := CanUse(e, key, tools[i]);
      if scope.Err? { return Err(scope.error); }
      if scope.value { visible := visible + [tools[i]]; }
    }
    assert tools[..|tools|] == tools;
    return Ok(visible);
  }

  // ── list_for_key ──

  datatype ListFilter = ListFilter(
    only: Option<string>, exclude: Option<string>, domain: Option<string>, provider: Option<string>,
      tool: Option<string>)

  datatype ListQuery = ListQuery(filter: ListFilter, limit: Option<nat>, cursor: Option<nat>)

  datatype ToolPage = ToolPage(tools: seq<WrappedTool>, nextCursor: Option<nat>)

  predicate Compiles(e: Engine, pattern: Option<string>) { pattern.Some? ==> e.valid(pattern.value) }

  predicate FilterCompiles(e: Engine, f: ListFilter) {
    Compiles(e, f.only) && Compiles(e, f.exclude) && Compiles(e, f.domain) && Compiles(e, f.provider)
      && Compiles(e, f.tool)
  }

  predicate Passes(e: Engine, f: ListFilter, t: WrappedTool) {
    && (f.only.Some? ==> e.matches(f.only.value, t.name.Wire()))
    && !(f.exclude.Some? && e.matches(f.exclude.value, t.name.Wire()))
    && (f.domain.Some? ==> e.matches(f.domain.value, t.name.domain))
    && (f.provider.Some? ==> e.matches(f.provider.value, t.name.provider))
    && (f.tool.Some? ==> e.matches(f.tool.value, t.name.tool))
  }

  function PassTest(e: Engine, f: ListFilter): WrappedTool -> bool { (t: WrappedTool) => Passes(e, f, t) }

  /** A tool as a page shows it; the name is computed on everything the key can see, not on what the request kept. */
  function Shown(tools: seq<WrappedTool>, visible: seq<WrappedTool>): WrappedTool -> WrappedTool {
    (t: WrappedTool) => t.(exposedName := Some(ExposedName(tools, visible, t)))
  }

  /** Everything there is to list: the scoped tools that pass the filter, in catalog order. */
  function Listed(e: Engine, tools: seq<WrappedTool>, key: ProxyKey, f: ListFilter): seq<WrappedTool> {
    var visible := Visible(e, key, tools);
    Map(Shown(tools, visible), Filter(PassTest(e, f), visible))
  }

  function PageSize(key: ProxyKey, q: ListQuery): (n: nat)
    ensures n >= 1
  {
    var n := if q.limit.Some? then q.limit.value else key.pageSize;
    if n < 1 then 1 else n
  }

  function Min(a: nat, b: nat): nat { if a <= b then a else b }

  function PageOf(shown: seq<WrappedTool>, cursor: nat, size: nat): ToolPage {
    var from, to := Min(cursor, |shown|), Min(cursor + size, |shown|);
    ToolPage(shown[from..to], if to < |shown| then Some(cursor + (to - from)) else None)
  }

  function ListFor(e: Engine, tools: seq<WrappedTool>, key: ProxyKey, q: ListQuery): Result<ToolPage, CatalogError> {
    if !FilterCompiles(e, q.filter) then Err(Regex)
    else if !ScopeOk(e, key, tools) then Err(Scope(InvalidRegex))
    else
      var cursor := if q.cursor.Some? then q.cursor.value else 0;
      Ok(PageOf(Listed(e, tools, key, q.filter), cursor, PageSize(key, q)))
  }

  method ListForKey(e: Engine, tools: seq<WrappedTool>, key: ProxyKey, q: ListQuery)
    returns (r: Result<ToolPage, CatalogError>)
    ensures r == ListFor(e, tools, key, q)
  {
    if !FilterCompiles(e, q.filter) { return Err(Regex); }
    var scoped := CollectVisible(e, key, tools);
    if scoped.Err? { return Err(Scope(scoped.error)); }
    var visible := scoped.value;
    var filtered := Filter(PassTest(e, q.filter), visible);
    var cursor, limit := if q.cursor.Some? then q.cursor.value else 0, PageSize(key, q);
    return Ok(PageOf(Map(Shown(tools, visible), filtered), cursor, limit));
  }

  /**
   A listing is refused for one of its five patterns before any tool is looked at, and otherwise exactly if the
   scope check of some tool in the catalog fails, even of one the filter would drop.
   */
  lemma ListingRefusedIff(e: Engine, tools: seq<WrappedTool>, key: ProxyKey, q: ListQuery)
    ensures var f := q.filter;
            var bad := exists p :: Some(p) in [f.only, f.exclude, f.domain, f.provider, f.tool] && !e.valid(p);
            var r := ListFor(e, tools, key, q);
            && (r == Err(Regex) <==> bad)
            && (r == Err(Scope(InvalidRegex)) <==>
                  !bad && exists t :: t in tools && KeyCanUseName(e, key, t.name.Wire(), t.resourceId).Err?)
            && (r.Err? ==> r.error in {Regex, Scope(InvalidRegex)})
  {
    var patterns := [q.filter.only, q.filter.exclude, q.filter.domain, q.filter.provider, q.filter.tool];
    if !FilterCompiles(e, q.filter) {
      var p :| p in patterns && p.Some? && !e.valid(p.value);
      assert Some(p.value) in patterns;
    }
  }

  // ── Following cursors ──

  /** Every request up to the end is answered with the page of `all` that starts at its cursor. */
  ghost predicate Serves<E(!new)>(request: nat -> Result<ToolPage, E>, all: seq<WrappedTool>, size: nat) {
    forall c: nat :: c <= |all| ==> request(c) == Ok(PageOf(all, c, size))
  }

  /**
   What a client collects by asking again with each returned cursor; `all` and `size` bound the number
   of requests.
   */
  ghost function Follow<E(!new)>(request: nat -> Result<ToolPage, E>, all: seq<WrappedTool>, size: nat,
                          cursor: nat): seq<WrappedTool>
    requires size >= 1 && Serves(request, all, size) && cursor <= |all|
    decreases |all| - cursor
  {
    var page := request(cursor).value;
    page.tools + if page.nextCursor.Some? then Follow(request, all, size, page.nextCursor.value) else []
  }

  lemma PageShape(all: seq<WrappedTool>, c: nat, size: nat)
    requires size >= 1 && c <= |all|
    ensures PageOf(all, c, size) == if c + size < |all| then ToolPage(all[c..c + size], Some(c + size))
            else ToolPage(all[c..], None)
  {
  }

  lemma {:induction false} FollowCollects<E(!new)>(request: nat -> Result<ToolPage, E>, all: seq<WrappedTool>,
                                            size: nat, cursor: nat)
    requires size >= 1 && Serves(request, all, size) && cursor <= |all|
    ensures Follow(request, all, size, cursor) == all[cursor..]
    decreases |all| - cursor
  {
    assert request(cursor) == Ok(PageOf(all, cursor, size));
    PageShape(all, cursor, size);
    if cursor + size < |all| {
      FollowCollects(request, all, size, cursor + size);
      assert all[cursor..] == all[cursor..cursor + size] + all[cursor + size..];
    }
  }

  /** The list request of a client that keeps its filter and page size. */
  function ListRequest(e: Engine, tools: seq<WrappedTool>, key: ProxyKey,
                       q: ListQuery): nat -> Result<ToolPage, CatalogError> {
    (c: nat) => ListFor(e, tools, key, q.(cursor := Some(c)))
  }

  function ShownName(t: WrappedTool): Option<string> { t.exposedName }

  lemma ListedWires(e: Engine, tools: seq<WrappedTool>, key: ProxyKey, f: ListFilter)
    requires DistinctWires(tools)
    ensures DistinctWires(Listed(e, tools, key, f))
  {
    FilterDistinct(InScope(e, key), WireOf, tools);
    FilterDistinct(PassTest(e, f), WireOf, Visible(e, key, tools));
    assert Wires(Listed(e, tools, key, f)) == Wires(Filter(PassTest(e, f), Visible(e, key, tools)));
  }

  lemma ListedNames(e: Engine, tools: seq<WrappedTool>, key: ProxyKey, f: ListFilter)
    requires DistinctWires(tools) && ScopeOk(e, key, tools)
    ensures Distinct(Map(ShownName, Listed(e, tools, key, f)))
  {
    var visible := Visible(e, key, tools);
    var passing := Filter(PassTest(e, f), visible);
    ListedWires(e, tools, key, f);
    forall i, j | 0 <= i < j < |passing|
      ensures ExposedName(tools, visible, passing[i]) != ExposedName(tools, visible, passing[j])
    {
      assert Wires(Listed(e, tools, key, f))[i] != Wires(Listed(e, tools, key, f))[j];
      assert passing[i] in passing && passing[j] in passing;
      ExposedNamesDistinct(e, tools, key, passing[i], passing[j]);
    }
  }

  /**
   Paging partition: requesting page after page terminates and collects the scoped tools that pass the
   filter, whatever the page size; in a catalog with distinct names each tool and each shown name comes once.
   */
  lemma ListPagesPartition(e: Engine, tools: seq<WrappedTool>, key: ProxyKey, q: ListQuery)
    requires FilterCompiles(e, q.filter) && ScopeOk(e, key, tools)
    ensures var request, all := ListRequest(e, tools, key, q), Listed(e, tools, key, q.filter);
            && ListFor(e, tools, key, q.(cursor := None)) == request(0)
            && Serves(request, all, PageSize(key, q)) && Follow(request, all, PageSize(key, q), 0) == all
            && (DistinctWires(tools) ==> DistinctWires(all) && Distinct(Map(ShownName, all)))
  {
    var all := Listed(e, tools, key, q.filter);
    FollowCollects(ListRequest(e, tools, key, q), all, PageSize(key, q), 0);
    assert all[0..] == all;
    if DistinctWires(tools) {
      ListedWires(e, tools, key, q.filter);
      ListedNames(e, tools, key, q.filter);
    }
  }

  // ── What the filters keep ──

  const NO_FILTER := ListFilter(None, None, None, None, None)

  /** Without a filter everything in scope is listed. */
  lemma UnfilteredListsScope(e: Engine, tools: seq<WrappedTool>, key: ProxyKey)
    ensures Listed(e, tools, key, NO_FILTER) == Map(Shown(tools, Visible(e, key, tools)), Visible(e, key, tools))
  {
    FilterAll(PassTest(e, NO_FILTER), Visible(e, key, tools));
  }

  lemma {:induction false} FilterAll(p: WrappedTool -> bool, xs: seq<WrappedTool>)
    requires forall x :: x in xs ==> p(x)
    ensures Filter(p, xs) == xs
  {
    if xs != [] { FilterAll(p, xs[1..]); }
  }

  /** The tools of a listing that a test on their names keeps. */
  function Kept(test: ToolName -> bool, listed: seq<WrappedTool>): seq<WrappedTool> {
    Filter((t: WrappedTool) => test(t.name), listed)
  }

  lemma NarrowedListing(e: Engine, tools: seq<WrappedTool>, key: ProxyKey, f: ListFilter, g: ListFilter,
                        test: ToolName -> bool)
    requires forall t :: Passes(e, g, t) <==> Passes(e, f, t) && test(t.name)
    ensures Listed(e, tools, key, g) == Kept(test, Listed(e, tools, key, f))
  {
    var visible := Visible(e, key, tools);
    var shown, kept := Shown(tools, visible), (t: WrappedTool) => test(t.name);
    FilterFilter(kept, PassTest(e, f), PassTest(e, g), visible);
    FilterMap(kept, shown, Filter(PassTest(e, f), visible));
  }

  /** Each part of a request filter keeps, of what the others list, exactly the tools it speaks of. */
  lemma FilterParts(e: Engine, tools: seq<WrappedTool>, key: ProxyKey, f: ListFilter, p: string)
    ensures f.only.None? ==>
              Listed(e, tools, key, f.(only := Some(p))) ==
              Kept((n: ToolName) => e.matches(p, n.domain + "__" + n.provider + "__" + n.tool),
                Listed(e, tools, key, f))
    ensures f.exclude.None? ==>
              Listed(e, tools, key, f.(exclude := Some(p))) ==
              Kept((n: ToolName) => !e.matches(p, n.domain + "__" + n.provider + "__" + n.tool),
                Listed(e, tools, key, f))
    ensures f.domain.None? ==>
              Listed(e, tools, key, f.(domain := Some(p))) ==
              Kept((n: ToolName) => e.matches(p, n.domain), Listed(e, tools, key, f))
    ensures f.provider.None? ==>
              Listed(e, tools, key, f.(provider := Some(p))) ==
              Kept((n: ToolName) => e.matches(p, n.provider), Listed(e, tools, key, f))
    ensures f.tool.None? ==>
              Listed(e, tools, key, f.(tool := Some(p))) ==
              Kept((n: ToolName) => e.matches(p, n.tool), Listed(e, tools, key, f))
  {
    if f.only.None? {
      NarrowedListing(e, tools, key, f, f.(only := Some(p)),
                      (n: ToolName) => e.matches(p, n.domain + "__" + n.provider + "__" + n.tool));
    }
    if f.exclude.None? {
      NarrowedListing(e, tools, key, f, f.(exclude := Some(p)),
                      (n: ToolName) => !e.matches(p, n.domain + "__" + n.provider + "__" + n.tool));
    }
    if f.domain.None? {
      NarrowedListing(e, tools, key, f, f.(domain := Some(p)), (n: ToolName) => e.matches(p, n.domain));
    }
    if f.provider.None? {
      NarrowedListing(e, tools, key, f, f.(provider := Some(p)), (n: ToolName) => e.matches(p, n.provider));
    }
    if f.tool.None? { NarrowedListing(e, tools, key, f, f.(tool := Some(p)), (n: ToolName) => e.matches(p, n.tool)); }
  }

  /**
   A page has as many tools as asked for, by default the key's page size and never none, unless the list
   ends first.
   */
  lemma PageHasItsSize(e: Engine, tools: seq<WrappedTool>, key: ProxyKey, q: ListQuery)
    requires ListFor(e, tools, key, q).Ok?
    ensures var page, all := ListFor(e, tools, key, q).value, |Listed(e, tools, key, q.filter)|;
            var asked := if q.limit.Some? then q.limit.value else key.pageSize;
            var size, from := if asked == 0 then 1 else asked, if q.cursor.Some? then q.cursor.value else 0;
            && |page.tools| == (if from >= all then 0 else if from + size <= all then size else all - from)
            && (page.nextCursor.Some? <==> from + size < all)
  {
  }

  /** Request filters never rename: two requests that list the same tool show it alike, and the name resolves to it. */
  lemma FiltersNeverRename(e: Engine, tools: seq<WrappedTool>, key: ProxyKey, q1: ListQuery, q2: ListQuery,
                           a: WrappedTool, b: WrappedTool)
    requires DistinctWires(tools)
    requires ListFor(e, tools, key, q1).Ok? && a in ListFor(e, tools, key, q1).value.tools
    requires ListFor(e, tools, key, q2).Ok? && b in ListFor(e, tools, key, q2).value.tools
    requires a.name == b.name
    ensures a == b && a.exposedName.Some?
    ensures exists t :: && t in tools && t.name == a.name
                        && Resolve(e, tools, a.exposedName.value, NO_QUALIFIERS, key) == Ok(Some(t))
  {
    var s := ListedFrom(e, tools, key, q1, a);
    var t := ListedFrom(e, tools, key, q2, b);
    SameWireSameTool(tools, s, t);
    ExposedNameResolves(e, tools, key, s);
  }

  /** A listed entry is some visible tool with its exposed name filled in. */
  lemma ListedFrom(e: Engine, tools: seq<WrappedTool>, key: ProxyKey, q: ListQuery, a: WrappedTool)
    returns (t: WrappedTool)
    requires ListFor(e, tools, key, q).Ok? && a in ListFor(e, tools, key, q).value.tools
    ensures t in tools && t in Visible(e, key, tools) && t.name == a.name
    ensures a == t.(exposedName := Some(ExposedName(tools, Visible(e, key, tools), t)))
  {
    var visible := Visible(e, key, tools);
    var passing, all := Filter(PassTest(e, q.filter), visible), Listed(e, tools, key, q.filter);
    assert a in all;
    var i :| 0 <= i < |all| && all[i] == a;
    t := passing[i];
    assert t in passing;
  }

  // ── Keyword search ──

  predicate Contains(s: string, part: string) {
    part <= s || (s != [] && Contains(s[1..], part))
  }

  /** 4 exact, 3 prefix, 2 in the name, 1 in the description, 0 no match. `lower` is `str::to_lowercase`. */
  function Score(lower: string -> string, query: string, t: WrappedTool): nat {
    var wire, part := lower(t.name.Wire()), lower(query);
    if wire == part then 4
    else if part <= wire then 3
    else if Contains(wire, part) then 2
    else if Contains(lower(t.description), part) then 1
    else 0
  }

  /** The empty query keeps every visible tool; otherwise only those with a score. */
  function Matching(lower: string -> string, query: string): WrappedTool -> bool {
    (t: WrappedTool) => query == [] || Score(lower, query, t) > 0
  }

  /** Higher score first, then the smaller wire name. */
  predicate Before(lower: string -> string, query: string, a: WrappedTool, b: WrappedTool) {
    if query == [] || Score(lower, query, a) == Score(lower, query, b) then StringLe(a.name.Wire(), b.name.Wire())
    else Score(lower, query, a) > Score(lower, query, b)
  }

  function RankOrder(lower: string -> string, query: string): (WrappedTool, WrappedTool) -> bool {
    (a: WrappedTool, b: WrappedTool) => Before(lower, query, a, b)
  }

  lemma RankOrderTotal(lower: string -> string, query: string)
    ensures TotalPreorder(RankOrder(lower, query))
  {
    StringLeOrder();
    var le := RankOrder(lower, query);
    forall a, b ensures le(a, b) || le(b, a) {
      assert StringLe(a.name.Wire(), b.name.Wire()) || StringLe(b.name.Wire(), a.name.Wire());
    }
    forall a, b, c | le(a, b) && le(b, c) ensures le(a, c) {
      if Before(lower, query, a, b) && Before(lower, query, b, c) && StringLe(a.name.Wire(), b.name.Wire())
          && StringLe(b.name.Wire(), c.name.Wire()) {
        assert StringLe(a.name.Wire(), c.name.Wire());
      }
    }
  }

  /** Every visible tool that matches, best first: what a search means, whichever pages of it are asked for. */
  function SearchResults(e: Engine, lower: string -> string, tools: seq<WrappedTool>, query: string,
                         key: ProxyKey): seq<WrappedTool> {
    SortBy(RankOrder(lower, query), Filter(Matching(lower, query), Visible(e, key, tools)))
  }

  function Take(xs: seq<WrappedTool>, n: nat): seq<WrappedTool> { xs[..Min(n, |xs|)] }

  /** `search_for_key`: score every visible tool, drop the misses, sort, cut. */
  method Search(e: Engine, lower: string -> string, tools: seq<WrappedTool>, query: string, key: ProxyKey, limit: nat)
    returns (r: Result<seq<WrappedTool>, PolicyError>)
    ensures r == if ScopeOk(e, key, tools) then Ok(Take(SearchResults(e, lower, tools, query, key), limit))
            else Err(InvalidRegex)
  {
    var scoped := CollectVisible(e, key, tools);
    if scoped.Err? { return Err(scoped.error); }
    var scored := CollectMatching(lower, query, scoped.value);
    return Ok(Take(SortBy(RankOrder(lower, query), scored), limit));
  }

  method CollectMatching(lower: string -> string, query: string, visible: seq<WrappedTool>)
    returns (scored: seq<WrappedTool>)
    ensures scored == Filter(Matching(lower, query), visible)
  {
    scored := [];
    for i := 0 to |visible|
      invariant scored == Filter(Matching(lower, query), visible[..i])
    {
      FilterStep(Matching(lower, query), visible, i);
      if query == [] || Score(lower, query, visible[i]) > 0 { scored := scored + [visible[i]]; }
    }
    assert visible[..|visible|] == visible;
  }

  /** The results are the matching visible tools, each as often as it is listed, by score and then by name. */
  lemma SearchResultsRanked(e: Engine, lower: string -> string, tools: seq<WrappedTool>, query: string, key: ProxyKey)
    ensures var r := SearchResults(e, lower, tools, query, key);
            && multiset(r) == multiset(Filter(Matching(lower, query), Visible(e, key, tools)))
            && (forall i, j :: 0 <= i < j < |r| ==> Before(lower, query, r[i], r[j]))
            && (DistinctWires(tools) ==> DistinctWires(r))
  {
    var le, found := RankOrder(lower, query), Filter(Matching(lower, query), Visible(e, key, tools));
    RankOrderTotal(lower, query);
    SortBySorted(le, found);
    forall i, j | 0 <= i < j < |SortBy(le, found)|
      ensures Before(lower, query, SortBy(le, found)[i], SortBy(le, found)[j])
    {
      assert le(SortBy(le, found)[i], SortBy(le, found)[j]);
    }
    if DistinctWires(tools) {
      FilterDistinct(InScope(e, key), WireOf, tools);
      FilterDistinct(Matching(lower, query), WireOf, Visible(e, key, tools));
      SortMapMultiset(le, WireOf, found);
      DistinctPermutation(Wires(SortBy(le, found)), Wires(found));
    }
  }

  predicate OccursAt(s: string, part: string, i: nat) { i + |part| <= |s| && s[i..i + |part|] == part }

  /** `part` occurs somewhere in `s`. */
  ghost predicate Occurs(s: string, part: string) { exists i: nat :: OccursAt(s, part, i) }

  lemma OccursInTail(s: string, part: string, i: nat)
    requires s != []
    ensures OccursAt(s[1..], part, i) <==> OccursAt(s, part, i + 1)
  {
    if i + 1 + |part| <= |s| { assert s[i + 1..i + 1 + |part|] == s[1..][i..i + |part|]; }
  }

  lemma {:induction false} ContainsIff(s: string, part: string)
    ensures Contains(s, part) <==> Occurs(s, part)
  {
    assert part <= s <==> OccursAt(s, part, 0);
    if s != [] {
      ContainsIff(s[1..], part);
      if i: nat :| OccursAt(s[1..], part, i) { OccursInTail(s, part, i); }
      if i: nat :| OccursAt(s, part, i) {
        if i > 0 { OccursInTail(s, part, i - 1); }
      }
    }
  }

  /** A tool is found exactly if the lower-cased query occurs in its lower-cased wire name or description. */
  lemma FoundIff(lower: string -> string, query: string, t: WrappedTool)
    requires query != []
    ensures Matching(lower, query)(t) <==>
            Occurs(lower(t.name.Wire()), lower(query)) || Occurs(lower(t.description), lower(query))
  {
    var wire, part := lower(t.name.Wire()), lower(query);
    ContainsIff(wire, part);
    ContainsIff(lower(t.description), part);
    if part <= wire { assert OccursAt(wire, part, 0); }
  }

  /**
   Exact names come before all other hits, names that begin with the query before those that contain it
   elsewhere, and names that contain it before descriptions that do.
   */
  lemma BetterHitsFirst(lower: string -> string, query: string, a: WrappedTool, b: WrappedTool)
    requires query != [] && Matching(lower, query)(a) && Matching(lower, query)(b)
    ensures var part, x, y := lower(query), lower(a.name.Wire()), lower(b.name.Wire());
            && (x == part != y ==> !Before(lower, query, b, a))
            && (part <= x && !(part <= y) ==> !Before(lower, query, b, a))
            && (Occurs(x, part) && !Occurs(y, part) ==> !Before(lower, query, b, a))
            && (Occurs(x, part) && Occurs(y, part) && x != part && y != part && (part <= x <==> part <= y) ==>
                  (Before(lower, query, a, b) <==> StringLe(a.name.Wire(), b.name.Wire())))
  {
    var part, x, y := lower(query), lower(a.name.Wire()), lower(b.name.Wire());
    ContainsIff(x, part);
    ContainsIff(y, part);
    if part <= x { assert OccursAt(x, part, 0); }
    if part <= y { assert OccursAt(y, part, 0); }
  }

  // ── handle_search ──

  datatype SearchError = InvalidPagination | Denied(error: PolicyError)

  datatype SearchOptions = SearchOptions(limit: nat, cursor: nat)

  const U64_RANGE := 0x1_0000_0000_0000_0000

  /** `Value::as_u64`: a non-negative integer below 2^64. */
  function AsU64(v: Json): Option<nat> {
    if v.Num? && v.n.Floor as real == v.n && 0.0 <= v.n && v.n.Floor < U64_RANGE then Some(v.n.Floor) else None
  }

  function ParseOptions(args: Json): (r: Result<SearchOptions, SearchError>)
    ensures r.Ok? ==> 1 <= r.value.limit <= 50
  {
    var limit := Get(args, "limit");
    var n := if limit.None? then Some(10) else AsU64(limit.value);
    var cursor := Get(args, "cursor");
    var c := if cursor.None? then Some(0) else AsU64(cursor.value);
    if n.None? || !(1 <= n.value <= 50) || c.None? then Err(InvalidPagination) else Ok(SearchOptions(n.value, c.value))
  }

  /** The request has this entry. */
  ghost predicate Says(args: Json, key: string, v: Json) { args.Obj? && key in args.fields && args.fields[key] == v }

  ghost predicate SaysNothing(args: Json, key: string) { args.Obj? ==> key !in args.fields }

  /**
   A missing limit is 10, a missing cursor 0; a limit outside 1..=50 or anything but an unsigned integer
   of 64 bits is refused.
   */
  lemma ParseOptionsIff(args: Json, o: SearchOptions)
    ensures ParseOptions(args) == Ok(o) <==>
            && 1 <= o.limit <= 50 && o.cursor <= 18_446_744_073_709_551_615
            && (Says(args, "limit", Num(o.limit as real)) || (SaysNothing(args, "limit") && o.limit == 10))
            && (Says(args, "cursor", Num(o.cursor as real)) || (SaysNothing(args, "cursor") && o.cursor == 0))
  {
    assert (o.limit as real).Floor == o.limit && (o.cursor as real).Floor == o.cursor;
  }

  function QueryOf(args: Json): string {
    var q := Get(args, "query");
    if q.Some? && q.value.Str? then q.value.s else ""
  }

  function SearchPage(results: seq<WrappedTool>, o: SearchOptions): Result<ToolPage, SearchError> {
    if o.cursor > |results| then Err(InvalidPagination)
    else
      var end := Min(o.cursor + o.limit, |results|);
      Ok(ToolPage(results[o.cursor..end], if end < |results| then Some(end) else None))
  }

  /** One search request: parse, search again, cut the page. */
  function HandleSearch(e: Engine, lower: string -> string, tools: seq<WrappedTool>, key: ProxyKey,
                        args: Json): Result<ToolPage, SearchError> {
    var o := ParseOptions(args);
    if o.Err? then Err(o.error)
    else if !ScopeOk(e, key, tools) then Err(Denied(InvalidRegex))
    else SearchPage(SearchResults(e, lower, tools, QueryOf(args), key), o.value)
  }

  /** A request is refused exactly for its options, a failing scope check or a cursor behind the last result. */
  lemma SearchAnswerIff(e: Engine, lower: string -> string, tools: seq<WrappedTool>, key: ProxyKey, args: Json,
                        query: string)
    requires Says(args, "query", Str(query)) || (query == "" && forall s :: !Says(args, "query", Str(s)))
    ensures var o, r, all :=
            ParseOptions(args), HandleSearch(e, lower, tools, key, args), SearchResults(e, lower, tools, query, key);
            && (r == Err(InvalidPagination) <==> o.Err? || (ScopeOk(e, key, tools) && o.value.cursor > |all|))
            && (r == Err(Denied(InvalidRegex)) <==> o.Ok? && !ScopeOk(e, key, tools))
            && (r.Ok? ==> o.Ok? && r == Ok(PageOf(all, o.value.cursor, o.value.limit)))
  {
    if QueryOf(args) != query { assert Says(args, "query", Str(QueryOf(args))); }
    var o := ParseOptions(args);
    var all := SearchResults(e, lower, tools, query, key);
    if o.Ok? && o.value.cursor <= |all| { SearchPageIsPage(all, o.value); }
  }

  /** The same request with the cursor of the next page. */
  function NextArgs(args: Json, cursor: nat): Json {
    Obj((if args.Obj? then args.fields else map[])["cursor" := Num(cursor as real)])
  }

  /** A returned cursor is accepted and asks for the same query and page size. */
  lemma NextArgsParse(args: Json, cursor: nat)
    requires cursor < U64_RANGE && ParseOptions(args).Ok?
    ensures ParseOptions(NextArgs(args, cursor)) == Ok(SearchOptions(ParseOptions(args).value.limit, cursor))
    ensures QueryOf(NextArgs(args, cursor)) == QueryOf(args)
  {
    assert (cursor as real).Floor == cursor;
  }

  /** The search request of a client that keeps its query and page size. */
  function SearchRequest(e: Engine, lower: string -> string, tools: seq<WrappedTool>, key: ProxyKey,
                         args: Json): nat -> Result<ToolPage, SearchError> {
    (c: nat) => HandleSearch(e, lower, tools, key, NextArgs(args, c))
  }

  /** Searching again answers every cursor from the one list of results. */
  lemma SearchServes(e: Engine, lower: string -> string, tools: seq<WrappedTool>, key: ProxyKey, args: Json)
    requires ParseOptions(args).Ok? && ScopeOk(e, key, tools)
             && |SearchResults(e, lower, tools, QueryOf(args), key)| < U64_RANGE
    ensures Serves(SearchRequest(e, lower, tools, key, args), SearchResults(e, lower, tools, QueryOf(args), key),
            ParseOptions(args).value.limit)
  {
    var results, limit := SearchResults(e, lower, tools, QueryOf(args), key), ParseOptions(args).value.limit;
    forall c: nat | c <= |results|
      ensures HandleSearch(e, lower, tools, key, NextArgs(args, c)) == Ok(PageOf(results, c, limit))
    {
      NextArgsParse(args, c);
      SearchPageIsPage(results, SearchOptions(limit, c));
    }
  }

  lemma SearchPageIsPage(results: seq<WrappedTool>, o: SearchOptions)
    requires o.cursor <= |results|
    ensures SearchPage(results, o) == Ok(PageOf(results, o.cursor, o.limit))
  {
  }

  /** A request without a cursor is the request for the first page. */
  lemma FirstSearch(e: Engine, lower: string -> string, tools: seq<WrappedTool>, key: ProxyKey, args: Json)
    requires ParseOptions(args).Ok? && ParseOptions(args).value.cursor == 0
    ensures HandleSearch(e, lower, tools, key, args) == HandleSearch(e, lower, tools, key, NextArgs(args, 0))
  {
    NextArgsParse(args, 0);
  }

  /**
   Search paging partition: for every accepted request, searching again with each returned cursor
   terminates and collects the visible matching tools, best score first and then by name; in a catalog
   with distinct names each comes once.
   */
  lemma SearchPagesPartition(e: Engine, lower: string -> string, tools: seq<WrappedTool>, key: ProxyKey, args: Json)
    requires ParseOptions(args).Ok? && ScopeOk(e, key, tools)
             && |SearchResults(e, lower, tools, QueryOf(args), key)| < U64_RANGE
    ensures var request, query, limit :=
            SearchRequest(e, lower, tools, key, args), QueryOf(args), ParseOptions(args).value.limit;
            var results := SearchResults(e, lower, tools, query, key);
            && (ParseOptions(args).value.cursor == 0 ==> HandleSearch(e, lower, tools, key, args) == request(0))
            && Serves(request, results, limit) && Follow(request, results, limit, 0) == results
            && multiset(results) == multiset(Filter(Matching(lower, query), Visible(e, key, tools)))
            && (forall i, j :: 0 <= i < j < |results| ==> Before(lower, query, results[i], results[j]))
            && (DistinctWires(tools) ==> DistinctWires(results))
  {
    var results := SearchResults(e, lower, tools, QueryOf(args), key);
    if ParseOptions(args).value.cursor == 0 { FirstSearch(e, lower, tools, key, args); }
    SearchServes(e, lower, tools, key, args);
    FollowCollects(SearchRequest(e, lower, tools, key, args), results, ParseOptions(args).value.limit, 0);
    assert results[0..] == results;
    SearchResultsRanked(e, lower, tools, QueryOf(args), key);
  }
}
