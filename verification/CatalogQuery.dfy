/** Listing, name resolution and search over the tool catalog (src/catalog/query.rs, src/discovery.rs). */
module CatalogQuery {
  import opened Prelude
  import opened Sorting
  import opened Json
  import opened Naming
  import opened Policy

  const AMBIGUITY_CANDIDATE_LIMIT := 8

  const META_TOOL_PREFIX := "asl__"

  const META_TOOLS := ["asl__status", "asl__search", "asl__describe", "asl__call", "asl__batch", "asl__fetch"]

  datatype WrappedTool = WrappedTool(
    name: ToolName,
    resourceId: string,
    description: string,
    upstreamPath: string,
    inputSchema: Json,
    exposedName: Option<string>)

  datatype CatalogError = Regex | Scope(error: PolicyError) | AmbiguousToolName(name: string, candidates: seq<string>)

  datatype Qualifiers = Qualifiers(domain: Option<string>, provider: Option<string>)

  const NO_QUALIFIERS := Qualifiers(None, None)

  predicate QualifiersMatch(q: Qualifiers, name: ToolName) {
    (q.domain.None? || q.domain.value == name.domain) && (q.provider.None? || q.provider.value == name.provider)
  }

  function StripPrefix(s: string, prefix: string): Option<string> {
    if prefix <= s then Some(s[|prefix|..]) else None
  }

  predicate TwoSegmentMatches(t: ToolName, name: string) {
    var rest := StripPrefix(name, t.provider);
    rest.Some? && StripPrefix(rest.value, "__") == Some(t.tool)
  }

  /** Stripping `provider` and then `__` accepts exactly the joined form, whatever `__` the segments contain. */
  lemma TwoSegmentMatchesIff(t: ToolName, name: string)
    ensures TwoSegmentMatches(t, name) <==> name == t.provider + "__" + t.tool
  {
  }

  // ── Scope ──

  function CanUse(e: Engine, key: ProxyKey, t: WrappedTool): Result<bool, PolicyError> {
    KeyCanUseName(e, key, t.name.Wire(), t.resourceId)
  }

  function InScope(e: Engine, key: ProxyKey): WrappedTool -> bool { (t: WrappedTool) => CanUse(e, key, t) == Ok(true) }

  /** No scope check of this key on these tools hits an invalid regular expression. */
  predicate ScopeOk(e: Engine, key: ProxyKey, tools: seq<WrappedTool>) {
    forall t :: t in tools ==> CanUse(e, key, t).Ok?
  }

  function Visible(e: Engine, key: ProxyKey, tools: seq<WrappedTool>): seq<WrappedTool> {
    Filter(InScope(e, key), tools)
  }

  function WireOf(t: WrappedTool): string { t.name.Wire() }

  function Wires(tools: seq<WrappedTool>): seq<string> { Map(WireOf, tools) }

  ghost predicate DistinctWires(tools: seq<WrappedTool>) { Distinct(Wires(tools)) }

  lemma SameWireSameTool(tools: seq<WrappedTool>, a: WrappedTool, b: WrappedTool)
    requires DistinctWires(tools) && a in tools && b in tools && a.name.Wire() == b.name.Wire()
    ensures a == b
  {
  }

  // ── One resolution tier ──

  /** The form of name a tier looks for. */
  datatype Form = Canonical | TwoSegment | Bare

  predicate HasForm(form: Form, name: string, t: WrappedTool) {
    match form
    case Canonical => t.name.Wire() == name
    case TwoSegment => TwoSegmentMatches(t.name, name)
    case Bare => t.name.tool == name
  }

  predicate Hit(form: Form, name: string, q: Qualifiers, t: WrappedTool) {
    HasForm(form, name, t) && QualifiersMatch(q, t.name)
  }

  /** The canonical tier ranges over the whole catalog, the others over the key's scope. */
  predicate IsCandidate(e: Engine, form: Form, name: string, q: Qualifiers, key: ProxyKey, t: WrappedTool) {
    Hit(form, name, q, t) && (form == Canonical || CanUse(e, key, t) == Ok(true))
  }

  function CandidateTest(e: Engine, form: Form, name: string, q: Qualifiers, key: ProxyKey): WrappedTool -> bool {
    (t: WrappedTool) => IsCandidate(e, form, name, q, key, t)
  }

  function HitTest(form: Form, name: string, q: Qualifiers): WrappedTool -> bool {
    (t: WrappedTool) => Hit(form, name, q, t)
  }

  function Candidates(e: Engine, tools: seq<WrappedTool>, form: Form, name: string, q: Qualifiers,
                      key: ProxyKey): seq<WrappedTool> {
    Filter(CandidateTest(e, form, name, q, key), tools)
  }

  function Decide(name: string, candidates: seq<WrappedTool>): Result<Option<WrappedTool>, CatalogError> {
    if |candidates| == 0 then Ok(None)
    else if |candidates| == 1 then Ok(Some(candidates[0]))
    else
      var names := SortBy(StringLe, Wires(candidates));
      Err(AmbiguousToolName(name, if |names| <= AMBIGUITY_CANDIDATE_LIMIT then names
        else names[..AMBIGUITY_CANDIDATE_LIMIT]))
  }

  /** `names` are the smallest of the candidates' wire names: they begin a sorted arrangement of all of them. */
  ghost predicate SmallestNames(names: seq<string>, wires: seq<string>) {
    && |names| == (if |wires| <= 8 then |wires| else 8)
    && exists rest :: multiset(names + rest) == multiset(wires) && Sorted(StringLe, names + rest)
  }

  /** A tier is decided exactly when it has at most one candidate; otherwise the error names the smallest ones. */
  lemma AmbiguityReport(name: string, candidates: seq<WrappedTool>)
    ensures Decide(name, candidates).Ok? <==> |candidates| <= 1
    ensures Decide(name, candidates).Err? ==>
              && Decide(name, candidates).error.AmbiguousToolName? && Decide(name, candidates).error.name == name
              && SmallestNames(Decide(name, candidates).error.candidates, Wires(candidates))
  {
    if |candidates| > 1 {
      StringLeOrder();
      var sorted, names := SortBy(StringLe, Wires(candidates)), Decide(name, candidates).error.candidates;
      SortBySorted(StringLe, Wires(candidates));
      assert names + sorted[|names|..] == sorted;
    }
  }

  /** The tier reaches this tool's scope check and the check fails. */
  predicate Fails(e: Engine, form: Form, name: string, q: Qualifiers, key: ProxyKey, t: WrappedTool) {
    Hit(form, name, q, t) && form != Canonical && CanUse(e, key, t).Err?
  }

  predicate TierOk(e: Engine, tools: seq<WrappedTool>, form: Form, name: string, q: Qualifiers, key: ProxyKey) {
    forall t :: t in tools ==> !Fails(e, form, name, q, key, t)
  }

  function Tier(e: Engine, tools: seq<WrappedTool>, form: Form, name: string, q: Qualifiers,
                key: ProxyKey): Result<Option<WrappedTool>, CatalogError> {
    if TierOk(e, tools, form, name, q, key) then Decide(name, Candidates(e, tools, form, name, q, key))
    else Err(Scope(InvalidRegex))
  }

  /** One turn of the loop: whether the tool is a candidate, or that its scope check fails. */
  method Judge(e: Engine, form: Form, name: string, q: Qualifiers, key: ProxyKey, t: WrappedTool)
    returns (r: Result<bool, PolicyError>)
    ensures r == if Fails(e, form, name, q, key, t) then Err(InvalidRegex)
            else Ok(IsCandidate(e, form, name, q, key, t))
  {
    if !HasForm(form, name, t) || !QualifiersMatch(q, t.name) { return Ok(false); }
    if form == Canonical { return Ok(true); }
    var scope := CanUse(e, key, t);
    match scope
    case Err(error) =>
      assert error.InvalidRegex? && Fails(e, form, name, q, key, t);
      return Err(error);
    case Ok(allowed) =>
      assert !Fails(e, form, name, q, key, t) && (IsCandidate(e, form, name, q, key, t) <==> allowed);
      return Ok(allowed);
  }

  lemma TierStep(e: Engine, tools: seq<WrappedTool>, form: Form, name: string, q: Qualifiers, key: ProxyKey, i: nat)
    requires i < |tools|
    ensures Candidates(e, tools[..i + 1], form, name, q, key) ==
            Candidates(e, tools[..i], form, name, q, key) + if IsCandidate(e, form, name, q, key, tools[i])
              then [tools[i]] else []
    ensures TierOk(e, tools[..i + 1], form, name, q, key) <==>
            TierOk(e, tools[..i], form, name, q, key) && !Fails(e, form, name, q, key, tools[i])
    ensures TierOk(e, tools, form, name, q, key) ==> !Fails(e, form, name, q, key, tools[i])
  {
    FilterStep(CandidateTest(e, form, name, q, key), tools, i);
    assert tools[..i + 1] == tools[..i] + [tools[i]];
    assert tools[i] in tools;
  }

  method CollectCandidates(e: Engine, tools: seq<WrappedTool>, form: Form, name: string, q: Qualifiers, key: ProxyKey)
    returns (r: Result<seq<WrappedTool>, PolicyError>)
    ensures r == if TierOk(e, tools, form, name, q, key) then Ok(Candidates(e, tools, form, name, q, key))
            else Err(InvalidRegex)
  {
    var candidates := [];
    for i := 0 to |tools|
      invariant candidates == Candidates(e, tools[..i], form, name, q, key)
      invariant TierOk(e, tools[..i], form, name, q, key)
    {
      TierStep(e, tools, form, name, q, key, i);
      var verdict := Judge(e, form, name, q, key, tools[i]);
      if verdict.Err? { return Err(verdict.error); }
      if verdict.value { candidates := candidates + [tools[i]]; }
    }
    assert tools[..|tools|] == tools;
    return Ok(candidates);
  }

  method ResolveTier(e: Engine, tools: seq<WrappedTool>, form: Form, name: string, q: Qualifiers, key: ProxyKey)
    returns (r: Result<Option<WrappedTool>, CatalogError>)
    ensures r == Tier(e, tools, form, name, q, key)
  {
    var candidates := CollectCandidates(e, tools, form, name, q, key);
    if candidates.Err? { return Err(Scope(candidates.error)); }
    return Decide(name, candidates.value);
  }

  // ── Three-tier resolution ──

  function Resolve(e: Engine, tools: seq<WrappedTool>, name: string, q: Qualifiers,
                   key: ProxyKey): Result<Option<WrappedTool>, CatalogError> {
    var r0 := Tier(e, tools, Canonical, name, q, key);
    if r0 != Ok(None) then r0 else
    var r1 := Tier(e, tools, TwoSegment, name, q, key);
    if r1 != Ok(None) then r1 else Tier(e, tools, Bare, name, q, key)
  }

  method ResolveForKey(e: Engine, tools: seq<WrappedTool>, name: string, q: Qualifiers, key: ProxyKey)
    returns (r: Result<Option<WrappedTool>, CatalogError>)
    ensures r == Resolve(e, tools, name, q, key)
  {
    r := ResolveTier(e, tools, Canonical, name, q, key);
    if r != Ok(None) { return; }
    r := ResolveTier(e, tools, TwoSegment, name, q, key);
    if r != Ok(None) { return; }
    r := ResolveTier(e, tools, Bare, name, q, key);
  }

  // ── What resolution means ──

  /** How a tool is spelled in the form a tier looks for. */
  function Spelled(form: Form, t: WrappedTool): string {
    match form
    case Canonical => t.name.domain + "__" + t.name.provider + "__" + t.name.tool
    case TwoSegment => t.name.provider + "__" + t.name.tool
    case Bare => t.name.tool
  }

  /** The tool has the name in this form and the domain and provider asked for; a short form must be in scope. */
  ghost predicate Contends(e: Engine, tools: seq<WrappedTool>, name: string, q: Qualifiers, key: ProxyKey, form: Form,
                           t: WrappedTool) {
    && t in tools && Spelled(form, t) == name
    && (q.domain.Some? ==> t.name.domain == q.domain.value)
      && (q.provider.Some? ==> t.name.provider == q.provider.value)
    && (form == Canonical || CanUse(e, key, t) == Ok(true))
  }

  ghost predicate Nobody(e: Engine, tools: seq<WrappedTool>, name: string, q: Qualifiers, key: ProxyKey, form: Form) {
    forall o :: !Contends(e, tools, name, q, key, form, o)
  }

  /** `t` contends and nobody else does. */
  ghost predicate Sole(e: Engine, tools: seq<WrappedTool>, name: string, q: Qualifiers, key: ProxyKey, form: Form,
                       t: WrappedTool) {
    && Contends(e, tools, name, q, key, form, t)
    && forall o :: Contends(e, tools, name, q, key, form, o) ==> o == t
  }

  lemma CandidateContends(e: Engine, tools: seq<WrappedTool>, name: string, q: Qualifiers, key: ProxyKey, form: Form,
                          t: WrappedTool)
    requires t in tools
    ensures IsCandidate(e, form, name, q, key, t) <==> Contends(e, tools, name, q, key, form, t)
  {
    TwoSegmentMatchesIff(t.name, name);
  }

  lemma ManyCandidates(p: WrappedTool -> bool, tools: seq<WrappedTool>, a: WrappedTool, b: WrappedTool)
    requires a in tools && b in tools && a != b && p(a) && p(b)
    ensures |Filter(p, tools)| >= 2
  {
    var r := Filter(p, tools);
    assert a in r && b in r;
    var i :| 0 <= i < |r| && r[i] == a;
    var j :| 0 <= j < |r| && r[j] == b;
  }

  /** A tier hits exactly the sole contender, passes if there is none, and errs as ambiguous if there are several. */
  lemma TierIff(e: Engine, tools: seq<WrappedTool>, name: string, q: Qualifiers, key: ProxyKey, form: Form,
                t: WrappedTool)
    requires DistinctWires(tools) && ScopeOk(e, key, tools)
    ensures Tier(e, tools, form, name, q, key) == Ok(Some(t)) <==> Sole(e, tools, name, q, key, form, t)
    ensures Tier(e, tools, form, name, q, key) == Ok(None) <==> Nobody(e, tools, name, q, key, form)
  {
    var p := CandidateTest(e, form, name, q, key);
    forall o | o in tools ensures p(o) <==> Contends(e, tools, name, q, key, form, o) {
      CandidateContends(e, tools, name, q, key, form, o);
    }
    var found := Filter(p, tools);
    if Nobody(e, tools, name, q, key, form) {
      FilterNone(p, tools);
    } else {
      var o :| Contends(e, tools, name, q, key, form, o);
      assert o in found;
      if x :| Contends(e, tools, name, q, key, form, x) && x != o {
        ManyCandidates(p, tools, o, x);
      } else {
        TierForOne(e, tools, form, name, q, key, o);
      }
    }
  }

  /** Nobody contends in a form that is tried before this one. */
  ghost predicate FirstContested(e: Engine, tools: seq<WrappedTool>, name: string, q: Qualifiers, key: ProxyKey,
                                 form: Form) {
    && (form != Canonical ==> Nobody(e, tools, name, q, key, Canonical))
    && (form == Bare ==> Nobody(e, tools, name, q, key, TwoSegment))
  }

  /**
   Resolution, said without its tiers: a name resolves to `t` exactly when `t` is the sole contender in some form
   and nobody contends in a fuller one; it resolves to nothing exactly when nobody contends in any.
   */
  lemma ResolveIff(e: Engine, tools: seq<WrappedTool>, name: string, q: Qualifiers, key: ProxyKey, t: WrappedTool)
    requires DistinctWires(tools) && ScopeOk(e, key, tools)
    ensures Resolve(e, tools, name, q, key) == Ok(Some(t)) <==>
            exists form :: Sole(e, tools, name, q, key, form, t) && FirstContested(e, tools, name, q, key, form)
    ensures Resolve(e, tools, name, q, key) == Ok(None) <==> forall form :: Nobody(e, tools, name, q, key, form)
  {
    TierIff(e, tools, name, q, key, Canonical, t);
    TierIff(e, tools, name, q, key, TwoSegment, t);
    TierIff(e, tools, name, q, key, Bare, t);
  }

  // ── Exposed names ──

  predicate Uses(name: string, t: WrappedTool) { t.name.tool == name || TwoSegmentMatches(t.name, name) }

  function Users(name: string, visible: seq<WrappedTool>): seq<WrappedTool> {
    Filter((t: WrappedTool) => Uses(name, t), visible)
  }

  /** A short name that may be shown: not reserved, no tool's canonical name, one visible user. */
  predicate Usable(tools: seq<WrappedTool>, visible: seq<WrappedTool>, name: string) {
    && !(META_TOOL_PREFIX <= name)
    && (forall t :: t in tools ==> t.name.Wire() != name)
    && |Users(name, visible)| == 1
  }

  function ExposedName(tools: seq<WrappedTool>, visible: seq<WrappedTool>, tool: WrappedTool): string {
    if Usable(tools, visible, tool.name.tool) then tool.name.tool
    else if Usable(tools, visible, tool.name.TwoSegment()) then tool.name.TwoSegment()
    else tool.name.Wire()
  }

  lemma ToolOccursOnce(tools: seq<WrappedTool>, t: WrappedTool)
    requires DistinctWires(tools) && t in tools
    ensures multiset(tools)[t] == 1
  {
    assert Distinct(tools) by {
      forall i, j | 0 <= i < j < |tools| ensures tools[i] != tools[j] {
        assert Wires(tools)[i] != Wires(tools)[j];
      }
    }
    DistinctMultiset(tools);
  }

  /** A tier in which nothing but `t` can be a candidate decides for `t` or for nobody. */
  lemma TierForOne(e: Engine, tools: seq<WrappedTool>, form: Form, name: string, q: Qualifiers, key: ProxyKey,
                   t: WrappedTool)
    requires DistinctWires(tools) && t in tools && TierOk(e, tools, form, name, q, key)
    requires forall y :: y in tools && IsCandidate(e, form, name, q, key, y) ==> y == t
    ensures Tier(e, tools, form, name, q, key) == if IsCandidate(e, form, name, q, key, t) then Ok(Some(t))
            else Ok(None)
  {
    var candidate := CandidateTest(e, form, name, q, key);
    if candidate(t) {
      ToolOccursOnce(tools, t);
      FilterOne(candidate, tools, t);
    } else {
      FilterNone(candidate, tools);
    }
  }

  /** A canonical name resolves to its tool, whatever the key. */
  lemma CanonicalResolves(e: Engine, tools: seq<WrappedTool>, key: ProxyKey, t: WrappedTool)
    requires DistinctWires(tools) && t in tools
    ensures Resolve(e, tools, t.name.Wire(), NO_QUALIFIERS, key) == Ok(Some(t))
  {
    forall y | y in tools && y.name.Wire() == t.name.Wire() ensures y == t { SameWireSameTool(tools, y, t); }
    TierForOne(e, tools, Canonical, t.name.Wire(), NO_QUALIFIERS, key, t);
  }

  /** In each tier only the one visible user can be a candidate for a usable short name. */
  lemma OnlyUserIsCandidate(e: Engine, tools: seq<WrappedTool>, key: ProxyKey, t: WrappedTool, name: string, form: Form,
                            y: WrappedTool)
    requires t in Visible(e, key, tools) && Uses(name, t) && Usable(tools, Visible(e, key, tools), name)
    requires y in tools && IsCandidate(e, form, name, NO_QUALIFIERS, key, y)
    ensures y == t && form != Canonical
  {
    var users := Users(name, Visible(e, key, tools));
    assert t in users && users == [t];
    if form != Canonical { assert y in Visible(e, key, tools) && y in users; }
  }

  lemma TierForUser(e: Engine, tools: seq<WrappedTool>, key: ProxyKey, t: WrappedTool, name: string, form: Form)
    requires DistinctWires(tools) && t in Visible(e, key, tools) && ScopeOk(e, key, tools)
    requires Uses(name, t) && Usable(tools, Visible(e, key, tools), name)
    ensures Tier(e, tools, form, name, NO_QUALIFIERS, key) ==
            if form != Canonical && HasForm(form, name, t) then Ok(Some(t)) else Ok(None)
  {
    forall y | y in tools && IsCandidate(e, form, name, NO_QUALIFIERS, key, y) ensures y == t {
      OnlyUserIsCandidate(e, tools, key, t, name, form, y);
    }
    TierForOne(e, tools, form, name, NO_QUALIFIERS, key, t);
  }

  /** With one visible user and no canonical namesake, a short name resolves to that user. */
  lemma ShortNameResolves(e: Engine, tools: seq<WrappedTool>, key: ProxyKey, t: WrappedTool, name: string)
    requires DistinctWires(tools) && t in Visible(e, key, tools) && ScopeOk(e, key, tools)
    requires Uses(name, t) && Usable(tools, Visible(e, key, tools), name)
    ensures Resolve(e, tools, name, NO_QUALIFIERS, key) == Ok(Some(t))
  {
    TierForUser(e, tools, key, t, name, Canonical);
    TierForUser(e, tools, key, t, name, TwoSegment);
    TierForUser(e, tools, key, t, name, Bare);
  }

  /**
   Round trip: every tool a key can see resolves, by the name shown for it, to itself,
   in any catalog with distinct wire names and however many `__` the segments contain.
   */
  lemma ExposedNameResolves(e: Engine, tools: seq<WrappedTool>, key: ProxyKey, t: WrappedTool)
    requires DistinctWires(tools) && ScopeOk(e, key, tools) && t in Visible(e, key, tools)
    ensures Resolve(e, tools, ExposedName(tools, Visible(e, key, tools), t), NO_QUALIFIERS, key) == Ok(Some(t))
  {
    var visible := Visible(e, key, tools);
    var name := ExposedName(tools, visible, t);
    TwoSegmentMatchesIff(t.name, t.name.TwoSegment());
    if name == t.name.Wire() {
      CanonicalResolves(e, tools, key, t);
    } else {
      ShortNameResolves(e, tools, key, t, name);
    }
  }

  /** Two tools a key can see never show the same name. */
  lemma ExposedNamesDistinct(e: Engine, tools: seq<WrappedTool>, key: ProxyKey, a: WrappedTool, b: WrappedTool)
    requires DistinctWires(tools) && ScopeOk(e, key, tools) && a in Visible(e, key, tools)
             && b in Visible(e, key, tools)
    ensures ExposedName(tools, Visible(e, key, tools), a) == ExposedName(tools, Visible(e, key, tools), b) ==> a == b
  {
    ExposedNameResolves(e, tools, key, a);
    ExposedNameResolves(e, tools, key, b);
  }

  /** The shown name is one of the three spellings. */
  lemma ExposedNameForms(tools: seq<WrappedTool>, visible: seq<WrappedTool>, t: WrappedTool)
    ensures exists form :: ExposedName(tools, visible, t) == Spelled(form, t)
  {
    assert Spelled(Bare, t) == t.name.tool && Spelled(TwoSegment, t) == t.name.TwoSegment();
    assert Spelled(Canonical, t) == t.name.Wire();
  }

  /**
   And the shortest that can be: a shorter spelling is reserved for meta-tools, is some tool's canonical name, or
   is also a spelling of another visible tool.
   */
  lemma ExposedNameIsShortest(tools: seq<WrappedTool>, visible: seq<WrappedTool>, t: WrappedTool, s: string)
    requires DistinctWires(visible) && t in visible && (s == t.name.tool || s == t.name.provider + "__" + t.name.tool)
    requires |s| < |ExposedName(tools, visible, t)|
    ensures || "asl__" <= s
            || (exists o :: o in tools && o.name.domain + "__" + o.name.provider + "__" + o.name.tool == s)
            || (exists o :: o in visible && o != t && (o.name.tool == s || o.name.provider + "__" + o.name.tool == s))
  {
    if forall o :: o in visible && o != t ==> o.name.tool != s && o.name.provider + "__" + o.name.tool != s {
      SoleUser(visible, t, s);
    }
  }

  lemma SoleUser(visible: seq<WrappedTool>, t: WrappedTool, s: string)
    requires DistinctWires(visible) && t in visible && (s == t.name.tool || s == t.name.provider + "__" + t.name.tool)
    requires forall o :: o in visible && o != t ==> o.name.tool != s && o.name.provider + "__" + o.name.tool != s
    ensures |Users(s, visible)| == 1
  {
    forall o | o in visible ensures Uses(s, o) <==> o == t { TwoSegmentMatchesIff(o.name, s); }
    ToolOccursOnce(visible, t);
    FilterOne((o: WrappedTool) => Uses(s, o), visible, t);
  }

  predicate SepAt(s: string, k: nat) { k + 1 < |s| && s[k] == '_' && s[k + 1] == '_' }

  /**
   No short name takes the meta-tools' prefix, and no name shown for a tool is a meta-tool's: a canonical name has
   two separators, a meta-tool name one.
   */
  lemma ExposedNameIsNotMeta(tools: seq<WrappedTool>, visible: seq<WrappedTool>, t: WrappedTool)
    ensures var name := ExposedName(tools, visible, t);
            && name !in META_TOOLS
            && ("asl__" <= name ==> name == t.name.domain + "__" + t.name.provider + "__" + t.name.tool)
  {
    var name := ExposedName(tools, visible, t);
    if name in META_TOOLS {
      OneSep(name);
      WireHasTwoSeps(t.name);
    }
  }

  lemma WireHasTwoSeps(n: ToolName)
    ensures SepAt(n.Wire(), |n.domain|) && SepAt(n.Wire(), |n.domain| + 2 + |n.provider|)
  {
  }

  lemma OneSep(m: string)
    requires m in META_TOOLS
    ensures META_TOOL_PREFIX <= m && forall k: nat :: SepAt(m, k) ==> k == 3
  {
  }

  // ── Scope non-interference ──

  /** With working regular expressions a short-name tier depends on the visible tools alone. */
  lemma TierOfVisible(e: Engine, tools: seq<WrappedTool>, form: Form, name: string, q: Qualifiers, key: ProxyKey)
    requires ScopeOk(e, key, tools) && form != Canonical
    ensures Tier(e, tools, form, name, q, key) ==
            Decide(name, Filter(HitTest(form, name, q), Visible(e, key, tools)))
  {
    FilterFilter(HitTest(form, name, q), InScope(e, key), CandidateTest(e, form, name, q, key), tools);
  }

  lemma NoCanonicalHit(e: Engine, tools: seq<WrappedTool>, name: string, q: Qualifiers, key: ProxyKey)
    requires NoCanonical(tools, name)
    ensures Tier(e, tools, Canonical, name, q, key) == Ok(None)
  {
    FilterNone(CandidateTest(e, Canonical, name, q, key), tools);
  }

  ghost predicate NoCanonical(tools: seq<WrappedTool>, name: string) {
    forall t :: t in tools ==> t.name.Wire() != name
  }

  /** A name that is no canonical name resolves the same way in catalogs whose visible tools agree. */
  lemma NonInterference(e: Engine, key: ProxyKey, a: seq<WrappedTool>, b: seq<WrappedTool>, name: string, q: Qualifiers)
    requires ScopeOk(e, key, a) && ScopeOk(e, key, b)
    requires NoCanonical(a, name) && NoCanonical(b, name)
    requires Visible(e, key, a) == Visible(e, key, b)
    ensures Resolve(e, a, name, q, key) == Resolve(e, b, name, q, key)
  {
    NoCanonicalHit(e, a, name, q, key);
    NoCanonicalHit(e, b, name, q, key);
    TierOfVisible(e, a, TwoSegment, name, q, key);
    TierOfVisible(e, b, TwoSegment, name, q, key);
    TierOfVisible(e, a, Bare, name, q, key);
    TierOfVisible(e, b, Bare, name, q, key);
  }

  ghost predicate Interferes(e: Engine, key: ProxyKey, a: seq<WrappedTool>, b: seq<WrappedTool>, name: string,
                             q: Qualifiers) {
    && NoCanonical(a, name) && NoCanonical(b, name) && Visible(e, key, a) == Visible(e, key, b)
    && Resolve(e, a, name, q, key) != Resolve(e, b, name, q, key)
  }

  /** A hidden tool whose scope check fails turns "not found" into an error for its bare name. */
  lemma HiddenNamesakeErrs(e: Engine, key: ProxyKey, t: WrappedTool)
    requires CanUse(e, key, t).Err?
    ensures Visible(e, key, [t]) == [] && NoCanonical([t], t.name.tool)
    ensures Resolve(e, [], t.name.tool, NO_QUALIFIERS, key) == Ok(None)
    ensures Resolve(e, [t], t.name.tool, NO_QUALIFIERS, key) == Err(Scope(InvalidRegex))
  {
    var name := t.name.tool;
    TwoSegmentMatchesIff(t.name, name);
    FilterNone(InScope(e, key), [t]);
    NoCanonicalHit(e, [t], name, NO_QUALIFIERS, key);
    FilterNone(CandidateTest(e, TwoSegment, name, NO_QUALIFIERS, key), [t]);
    assert t in [t] && Fails(e, Bare, name, NO_QUALIFIERS, key, t);
  }

  /**
   Out-of-scope tools influence short-name resolution exactly for the keys with a scope check that
   fails: an invalid pattern turns the presence of a hidden namesake into an error.
   */
  lemma NonInterferenceIff(e: Engine, key: ProxyKey)
    ensures (exists a, b, name, q :: Interferes(e, key, a, b, name, q)) <==> exists t :: CanUse(e, key, t).Err?
  {
    if t :| CanUse(e, key, t).Err? {
      HiddenNamesakeErrs(e, key, t);
      assert Interferes(e, key, [], [t], t.name.tool, NO_QUALIFIERS);
    }
    if a, b, name, q :| Interferes(e, key, a, b, name, q) && forall t :: CanUse(e, key, t).Ok? {
      NonInterference(e, key, a, b, name, q);
    }
  }

  /** Which scope checks fail: those that reach a pattern list that does not compile. */
  lemma ScopeCheckErrs(e: Engine, key: ProxyKey, t: WrappedTool)
    ensures CanUse(e, key, t).Err? <==>
            var denied, allowed := Map(Translate, key.deniedTools), Map(Translate, key.allowedTools);
            || (key.deniedTools != [] && !e.compiles(denied))
            || (&& (key.deniedTools == [] || !e.hits(denied, t.name.Wire()))
                && t.resourceId !in key.allowedServers && t.name.Wire() !in key.allowedToolNames
                && key.allowedTools != [] && !e.compiles(allowed))
  {
  }
}
