/**
 Validation of JSON instances against the `$ref`-free part of JSON Schema draft 2020-12 that the
 projection touches (sections 10.2 and 10.3 of JSON Schema Core, section 6 of JSON Schema
 Validation), and the proof that projecting a schema does not change what it accepts.

 `matches(pattern, text)` is the regular expression engine. Keywords with a value of the wrong
 shape, annotations and unknown keywords constrain nothing; `unevaluated*` is not interpreted.
 */
module JsonSchema {
  import opened Prelude
  import opened Json
  import opened SchemaView

  type Regex = (string, string) -> bool

  // ── Access to subschemas; every one is smaller than the schema it sits in ──

  function Named(s: Json, key: string): (r: map<string, Json>)
    ensures forall q :: q in r ==> (s decreases to r[q])
  {
    var v := Get(s, key);
    if v.Some? && v.value.Obj? then v.value.fields else map[]
  }

  predicate HasList(s: Json, key: string) {
    var v := Get(s, key); v.Some? && v.value.Arr?
  }

  function List(s: Json, key: string): (r: seq<Json>)
    ensures forall j :: 0 <= j < |r| ==> (s decreases to r[j])
  {
    if HasList(s, key) then Get(s, key).value.items else []
  }

  // ── Section 6 of JSON Schema Validation: assertions that look at no subschema ──

  predicate IsInteger(x: real) { x.Floor as real == x }

  predicate HasType(t: string, i: Json) {
    match i
    case Null => t == "null"
    case Bool(_) => t == "boolean"
    case Num(n) => t == "number" || (t == "integer" && IsInteger(n))
    case Str(_) => t == "string"
    case Arr(_) => t == "array"
    case Obj(_) => t == "object"
  }

  ghost predicate NumberAssertion(key: string, n: real, x: real) {
    if key == "multipleOf" then n > 0.0 ==> IsInteger(x / n)
    else if key == "maximum" then x <= n
    else if key == "exclusiveMaximum" then x < n
    else if key == "minimum" then x >= n
    else if key == "exclusiveMinimum" then x > n
    else true
  }

  ghost predicate SizeAssertion(key: string, n: real, i: Json) {
    if key == "maxLength" then i.Str? ==> |i.s| as real <= n
    else if key == "minLength" then i.Str? ==> |i.s| as real >= n
    else if key == "maxItems" then i.Arr? ==> |i.items| as real <= n
    else if key == "minItems" then i.Arr? ==> |i.items| as real >= n
    else if key == "maxProperties" then i.Obj? ==> |i.fields| as real <= n
    else if key == "minProperties" then i.Obj? ==> |i.fields| as real >= n
    else true
  }

  ghost predicate AllPresent(names: seq<Json>, fields: map<string, Json>) {
    forall j :: 0 <= j < |names| && names[j].Str? ==> names[j].s in fields
  }

  ghost predicate Assertion(matches: Regex, key: string, v: Json, i: Json) {
    match v
    case Num(n) => SizeAssertion(key, n, i) && (i.Num? ==> NumberAssertion(key, n, i.n)) && (key == "const" ==> i == v)
    case Str(t) =>
      if key == "type" then HasType(t, i) else if key == "pattern" then i.Str? ==> matches(t, i.s)
      else key == "const" ==> i == v
    case Arr(vs) =>
      if key == "type" then exists j :: 0 <= j < |vs| && vs[j].Str? && HasType(vs[j].s, i)
      else if key == "enum" then i in vs
      else if key == "required" then i.Obj? ==> AllPresent(vs, i.fields)
      else key == "const" ==> i == v
    case Bool(b) =>
      if key == "uniqueItems" then b && i.Arr? ==> Distinct(i.items) else key == "const" ==> i == v
    case Obj(deps) =>
      if key == "dependentRequired" then
        i.Obj? ==> forall q :: q in deps && q in i.fields && deps[q].Arr? ==> AllPresent(deps[q].items, i.fields)
      else key == "const" ==> i == v
    case Null => key == "const" ==> i == v
  }

  ghost predicate Assertions(matches: Regex, s: Json, i: Json)
    requires s.Obj?
  {
    forall k :: k in s.fields ==> Assertion(matches, k, s.fields[k], i)
  }

  /** The keywords of section 6 that the validator reads. */
  const ASSERTION_KEYS := {
    "type", "enum", "const", "multipleOf", "maximum", "exclusiveMaximum", "minimum", "exclusiveMinimum",
    "maxLength", "minLength", "pattern", "maxItems", "minItems", "uniqueItems", "maxProperties", "minProperties",
    "required", "dependentRequired"
  }

  /** Any other keyword asserts nothing by itself. */
  lemma OtherKeysAssertNothing(matches: Regex, key: string, v: Json, i: Json)
    requires key !in ASSERTION_KEYS
    ensures Assertion(matches, key, v, i)
  {
  }

  // ── Sections 10.2 and 10.3 of JSON Schema Core: applicators ──

  ghost predicate Valid(matches: Regex, s: Json, i: Json)
    decreases s, 2
  {
    match s
    case Bool(b) => b
    case Obj(_) => Assertions(matches, s, i) && ObjectRules(matches, s, i) && ItemRules(matches, s, i)
                   && ContainsRule(matches, s, i) && UnionRules(matches, s, i) && ConditionRules(matches, s, i)
    case _ => true
  }

  /** A property that neither `properties` nor `patternProperties` speaks about. */
  ghost predicate Extra(matches: Regex, s: Json, q: string) {
    q !in Named(s, "properties") && forall r :: r in Named(s, "patternProperties") ==> !matches(r, q)
  }

  ghost predicate ObjectRules(matches: Regex, s: Json, i: Json)
    decreases s, 0
  {
    i.Obj? ==>
      && (forall q :: q in Named(s, "properties") && q in i.fields ==>
        Valid(matches, Named(s, "properties")[q], i.fields[q]))
      && (forall r, q :: r in Named(s, "patternProperties") && q in i.fields && matches(r, q) ==>
            Valid(matches, Named(s, "patternProperties")[r], i.fields[q]))
      && (Get(s, "additionalProperties").Some? ==>
            forall q :: q in i.fields && Extra(matches, s, q) ==>
                Valid(matches, Get(s, "additionalProperties").value, i.fields[q]))
      && (Get(s, "propertyNames").Some? ==> forall q :: q in i.fields ==>
        Valid(matches, Get(s, "propertyNames").value, Str(q)))
      && (forall q :: q in Named(s, "dependentSchemas") && q in i.fields ==>
        Valid(matches, Named(s, "dependentSchemas")[q], i))
  }

  /** Positions of `i` accepted by `c`. */
  ghost function Accepted(matches: Regex, c: Json, i: Json): set<int>
    requires i.Arr?
    decreases c, 3
  {
    set j | 0 <= j < |i.items| && Valid(matches, c, i.items[j])
  }

  ghost predicate CountBound(s: Json, key: string, default: real, count: nat, atLeast: bool) {
    var n := if Get(s, key).Some? && Get(s, key).value.Num? then Get(s, key).value.n else default;
    if atLeast then count as real >= n else n >= 0.0 ==> count as real <= n
  }

  ghost predicate ItemRules(matches: Regex, s: Json, i: Json)
    decreases s, 0
  {
    i.Arr? ==>
      && (forall j :: 0 <= j < |List(s, "prefixItems")| && j < |i.items| ==>
        Valid(matches, List(s, "prefixItems")[j], i.items[j]))
      && (if HasList(s, "items") then
            forall j :: 0 <= j < |List(s, "items")| && j < |i.items| ==> Valid(matches, List(s, "items")[j], i.items[j])
          else Get(s, "items").Some? ==>
            forall j :: |List(s, "prefixItems")| <= j < |i.items| ==> Valid(matches, Get(s, "items").value, i.items[j]))
  }

  ghost predicate ContainsRule(matches: Regex, s: Json, i: Json)
    decreases s, 0
  {
    i.Arr? && Get(s, "contains").Some? ==>
      var n := |Accepted(matches, Get(s, "contains").value, i)|;
      CountBound(s, "minContains", 1.0, n, true) && CountBound(s, "maxContains", -1.0, n, false)
  }

  /** The branches of a list of schemas that accept `i`. */
  ghost function Branches(matches: Regex, s: Json, key: string, i: Json): set<int>
    decreases s, 0
  {
    set j | 0 <= j < |List(s, key)| && Valid(matches, List(s, key)[j], i)
  }

  ghost predicate UnionRules(matches: Regex, s: Json, i: Json)
    decreases s, 1
  {
    && (forall j :: 0 <= j < |List(s, "allOf")| ==> j in Branches(matches, s, "allOf", i))
    && (HasList(s, "anyOf") ==> Branches(matches, s, "anyOf", i) != {})
    && (HasList(s, "oneOf") ==> |Branches(matches, s, "oneOf", i)| == 1)
  }

  ghost predicate ConditionRules(matches: Regex, s: Json, i: Json)
    decreases s, 0
  {
    && (Get(s, "not").Some? ==> !Valid(matches, Get(s, "not").value, i))
    && (Get(s, "if").Some? ==>
          if Valid(matches, Get(s, "if").value, i)
          then Get(s, "then").Some? ==> Valid(matches, Get(s, "then").value, i)
          else Get(s, "else").Some? ==> Valid(matches, Get(s, "else").value, i))
  }

  // ── The validator tells instances apart ──

  lemma NoApplicators(s: Json, key: string)
    requires s.Obj? && s.fields.Keys <= ASSERTION_KEYS && key !in ASSERTION_KEYS
    ensures Get(s, key).None? && Named(s, key) == map[] && !HasList(s, key) && List(s, key) == []
  {
  }

  lemma NoObjectRules(matches: Regex, s: Json, i: Json)
    requires s.Obj? && s.fields.Keys <= ASSERTION_KEYS
    ensures ObjectRules(matches, s, i)
  {
    NoApplicators(s, "properties");
    NoApplicators(s, "patternProperties");
    NoApplicators(s, "additionalProperties");
    NoApplicators(s, "propertyNames");
    NoApplicators(s, "dependentSchemas");
  }

  lemma NoItemRules(matches: Regex, s: Json, i: Json)
    requires s.Obj? && s.fields.Keys <= ASSERTION_KEYS
    ensures ItemRules(matches, s, i) && ContainsRule(matches, s, i)
  {
    NoApplicators(s, "prefixItems");
    NoApplicators(s, "items");
    NoApplicators(s, "contains");
  }

  lemma NoUnionRules(matches: Regex, s: Json, i: Json)
    requires s.Obj? && s.fields.Keys <= ASSERTION_KEYS
    ensures UnionRules(matches, s, i) && ConditionRules(matches, s, i)
  {
    NoApplicators(s, "allOf");
    NoApplicators(s, "anyOf");
    NoApplicators(s, "oneOf");
    NoApplicators(s, "not");
    NoApplicators(s, "if");
  }

  /** A schema of one assertion accepts exactly the instances that meet it. */
  lemma OneAssertion(matches: Regex, key: string, v: Json, i: Json)
    requires key in ASSERTION_KEYS
    ensures Valid(matches, Obj(map[key := v]), i) <==> Assertion(matches, key, v, i)
  {
    var s := Obj(map[key := v]);
    assert key in s.fields && s.fields[key] == v;
    NoObjectRules(matches, s, i);
    NoItemRules(matches, s, i);
    NoUnionRules(matches, s, i);
    assert Assertions(matches, s, i) <==> Assertion(matches, key, v, i);
  }

  /** So `required` rejects the object without the property and accepts the one with it. */
  lemma RequiredDiscriminates(matches: Regex, q: string, v: Json)
    ensures Valid(matches, Obj(map["required" := Arr([Str(q)])]), Obj(map[q := v]))
    ensures !Valid(matches, Obj(map["required" := Arr([Str(q)])]), Obj(map[]))
  {
    OneAssertion(matches, "required", Arr([Str(q)]), Obj(map[q := v]));
    OneAssertion(matches, "required", Arr([Str(q)]), Obj(map[]));
    assert [Str(q)][0] == Str(q);
  }

  // ── Projection preserves meaning ──

  /** Two schemas accept the same instances. */
  ghost predicate Equiv(matches: Regex, a: Json, b: Json) {
    forall i :: Valid(matches, a, i) <==> Valid(matches, b, i)
  }

  ghost predicate NamedEquiv(matches: Regex, a: Json, b: Json, key: string) {
    && Named(a, key).Keys == Named(b, key).Keys
    && forall q :: q in Named(a, key) ==> Equiv(matches, Named(a, key)[q], Named(b, key)[q])
  }

  ghost predicate ListEquiv(matches: Regex, a: Json, b: Json, key: string) {
    && HasList(a, key) == HasList(b, key)
    && |List(a, key)| == |List(b, key)|
    && forall j :: 0 <= j < |List(a, key)| ==> Equiv(matches, List(a, key)[j], List(b, key)[j])
  }

  ghost predicate SingleEquiv(matches: Regex, a: Json, b: Json, key: string) {
    && Get(a, key).Some? == Get(b, key).Some?
    && (Get(a, key).Some? ==> Equiv(matches, Get(a, key).value, Get(b, key).value))
  }

  /** An absent `additionalProperties` means `true`. */
  function AdditionalOf(s: Json): Json {
    if Get(s, "additionalProperties").Some? then Get(s, "additionalProperties").value else Bool(true)
  }

  lemma ObjectRulesEquiv(matches: Regex, a: Json, b: Json, i: Json)
    requires NamedEquiv(matches, a, b, "properties") && NamedEquiv(matches, a, b, "patternProperties")
    requires NamedEquiv(matches, a, b, "dependentSchemas") && SingleEquiv(matches, a, b, "propertyNames")
    requires Equiv(matches, AdditionalOf(a), AdditionalOf(b))
    ensures ObjectRules(matches, a, i) ==> ObjectRules(matches, b, i)
  {
    if i.Obj? && ObjectRules(matches, a, i) {
      if Get(b, "additionalProperties").Some? {
        forall q | q in i.fields && Extra(matches, b, q) ensures Valid(matches, AdditionalOf(b), i.fields[q]) {
          assert Extra(matches, a, q);
          assert Valid(matches, AdditionalOf(a), i.fields[q]);
        }
      }
    }
  }

  lemma ItemRulesEquiv(matches: Regex, a: Json, b: Json, i: Json)
    requires ListEquiv(matches, a, b, "prefixItems") && ListEquiv(matches, a, b, "items")
    requires !HasList(a, "items") ==> SingleEquiv(matches, a, b, "items")
    ensures ItemRules(matches, a, i) ==> ItemRules(matches, b, i)
  {
  }

  lemma ContainsEquiv(matches: Regex, a: Json, b: Json, i: Json)
    requires SingleEquiv(matches, a, b, "contains")
    requires Get(a, "minContains") == Get(b, "minContains") && Get(a, "maxContains") == Get(b, "maxContains")
    ensures ContainsRule(matches, a, i) <==> ContainsRule(matches, b, i)
  {
    if i.Arr? && Get(a, "contains").Some? {
      assert Accepted(matches, Get(a, "contains").value, i) == Accepted(matches, Get(b, "contains").value, i);
    }
  }

  lemma ConditionRulesEquiv(matches: Regex, a: Json, b: Json, i: Json)
    requires SingleEquiv(matches, a, b, "not") && SingleEquiv(matches, a, b, "if")
    requires SingleEquiv(matches, a, b, "then") && SingleEquiv(matches, a, b, "else")
    ensures ConditionRules(matches, a, i) ==> ConditionRules(matches, b, i)
  {
  }

  /** Under the keys that are never stripped, a projected node holds the projected entry. */
  lemma GetProjected(upper: char -> bool, s: Json, name: Option<string>, key: string)
    requires KindOf(key) !in {Boilerplate, Title, Description, Additional}
    ensures Get(ProjectNode(upper, s, name), key) ==
            if Get(s, key).Some? then Some(ProjectEntry(upper, key, Get(s, key).value)) else None
  {
  }

  /** No keyword that the validator reads is stripped or rewritten. */
  lemma AssertionKeysAreVerbatim(key: string)
    requires key in ASSERTION_KEYS
    ensures KindOf(key) == Verbatim
  {
  }

  lemma AssertionsSame(upper: char -> bool, matches: Regex, s: Json, name: Option<string>, i: Json)
    requires s.Obj?
    ensures Assertions(matches, ProjectNode(upper, s, name), i) <==> Assertions(matches, s, i)
  {
    var p := ProjectNode(upper, s, name);
    forall k ensures k in p.fields && k in ASSERTION_KEYS <==> k in s.fields && k in ASSERTION_KEYS
      ensures k in s.fields && k in ASSERTION_KEYS ==> k in p.fields && p.fields[k] == s.fields[k]
    {
      if k in ASSERTION_KEYS {
        AssertionKeysAreVerbatim(k);
        GetProjected(upper, s, name, k);
      }
    }
    if Assertions(matches, p, i) {
      forall k | k in s.fields ensures Assertion(matches, k, s.fields[k], i) {
        if k !in ASSERTION_KEYS { OtherKeysAssertNothing(matches, k, s.fields[k], i); } else { assert k in p.fields; }
      }
    }
    if Assertions(matches, s, i) {
      forall k | k in p.fields ensures Assertion(matches, k, p.fields[k], i) {
        if k !in ASSERTION_KEYS { OtherKeysAssertNothing(matches, k, p.fields[k], i); } else { assert k in s.fields; }
      }
    }
  }

  lemma {:induction false} NamedPreserved(upper: char -> bool, matches: Regex, s: Json, name: Option<string>,
                                          key: string)
    requires s.Obj? && KindOf(key) == KeyKind.Named
    ensures NamedEquiv(matches, s, ProjectNode(upper, s, name), key)
    decreases s, 0, 0
  {
    GetProjected(upper, s, name, key);
    forall q | q in Named(s, key)
      ensures Equiv(matches, Named(s, key)[q], ProjectNode(upper, Named(s, key)[q], Some(q)))
    {
      NodePreserved(upper, matches, Named(s, key)[q], Some(q));
    }
  }

  lemma {:induction false} ListPreserved(upper: char -> bool, matches: Regex, s: Json, name: Option<string>,
                                         key: string)
    requires s.Obj? && (KindOf(key) == Listed || KindOf(key) == Items)
    ensures ListEquiv(matches, s, ProjectNode(upper, s, name), key)
    decreases s, 0, 0
  {
    GetProjected(upper, s, name, key);
    forall j | 0 <= j < |List(s, key)|
      ensures Equiv(matches, List(s, key)[j], ProjectNode(upper, List(s, key)[j], None))
    {
      NodePreserved(upper, matches, List(s, key)[j], None);
    }
  }

  lemma {:induction false} SinglePreserved(upper: char -> bool, matches: Regex, s: Json, name: Option<string>,
                                           key: string)
    requires s.Obj? && (KindOf(key) == Single || (KindOf(key) == Items && !HasList(s, key)))
    ensures SingleEquiv(matches, s, ProjectNode(upper, s, name), key)
    decreases s, 0, 0
  {
    GetProjected(upper, s, name, key);
    if key in s.fields {
      NodePreserved(upper, matches, s.fields[key], None);
    }
  }

  lemma {:induction false} AdditionalPreserved(upper: char -> bool, matches: Regex, s: Json, name: Option<string>)
    requires s.Obj?
    ensures Equiv(matches, AdditionalOf(s), AdditionalOf(ProjectNode(upper, s, name)))
    decreases s, 0, 0
  {
    var key := "additionalProperties";
    assert KindOf(key) == Additional;
    if key in s.fields {
      NodePreserved(upper, matches, s.fields[key], None);
    }
  }

  lemma {:induction false} ObjectPreserved(upper: char -> bool, matches: Regex, s: Json, name: Option<string>, i: Json)
    requires s.Obj?
    ensures ObjectRules(matches, s, i) <==> ObjectRules(matches, ProjectNode(upper, s, name), i)
    decreases s, 0, 1
  {
    var p := ProjectNode(upper, s, name);
    NamedPreserved(upper, matches, s, name, "properties");
    NamedPreserved(upper, matches, s, name, "patternProperties");
    NamedPreserved(upper, matches, s, name, "dependentSchemas");
    SinglePreserved(upper, matches, s, name, "propertyNames");
    AdditionalPreserved(upper, matches, s, name);
    ObjectRulesEquiv(matches, s, p, i);
    ObjectRulesEquiv(matches, p, s, i);
  }

  lemma {:induction false} ItemPreserved(upper: char -> bool, matches: Regex, s: Json, name: Option<string>, i: Json)
    requires s.Obj?
    ensures ItemRules(matches, s, i) <==> ItemRules(matches, ProjectNode(upper, s, name), i)
    decreases s, 0, 1
  {
    var p := ProjectNode(upper, s, name);
    ListPreserved(upper, matches, s, name, "prefixItems");
    ListPreserved(upper, matches, s, name, "items");
    if !HasList(s, "items") { SinglePreserved(upper, matches, s, name, "items"); }
    ItemRulesEquiv(matches, s, p, i);
    ItemRulesEquiv(matches, p, s, i);
  }

  lemma {:induction false} ContainsPreserved(upper: char -> bool, matches: Regex, s: Json, name: Option<string>,
                                             i: Json)
    requires s.Obj?
    ensures ContainsRule(matches, s, i) <==> ContainsRule(matches, ProjectNode(upper, s, name), i)
    decreases s, 0, 1
  {
    SinglePreserved(upper, matches, s, name, "contains");
    GetProjected(upper, s, name, "minContains");
    GetProjected(upper, s, name, "maxContains");
    ContainsEquiv(matches, s, ProjectNode(upper, s, name), i);
  }

  lemma {:induction false} BranchesPreserved(upper: char -> bool, matches: Regex, s: Json, name: Option<string>,
                                             key: string, i: Json)
    requires s.Obj? && KindOf(key) == Listed
    ensures var p := ProjectNode(upper, s, name);
            && HasList(s, key) == HasList(p, key) && |List(s, key)| == |List(p, key)|
            && Branches(matches, s, key, i) == Branches(matches, p, key, i)
    decreases s, 0, 1
  {
    ListPreserved(upper, matches, s, name, key);
  }

  lemma {:induction false} UnionPreserved(upper: char -> bool, matches: Regex, s: Json, name: Option<string>, i: Json)
    requires s.Obj?
    ensures UnionRules(matches, s, i) <==> UnionRules(matches, ProjectNode(upper, s, name), i)
    decreases s, 0, 2
  {
    BranchesPreserved(upper, matches, s, name, "allOf", i);
    BranchesPreserved(upper, matches, s, name, "anyOf", i);
    BranchesPreserved(upper, matches, s, name, "oneOf", i);
  }

  lemma {:induction false} ConditionPreserved(upper: char -> bool, matches: Regex, s: Json, name: Option<string>,
                                              i: Json)
    requires s.Obj?
    ensures ConditionRules(matches, s, i) <==> ConditionRules(matches, ProjectNode(upper, s, name), i)
    decreases s, 0, 1
  {
    var p := ProjectNode(upper, s, name);
    SinglePreserved(upper, matches, s, name, "not");
    SinglePreserved(upper, matches, s, name, "if");
    SinglePreserved(upper, matches, s, name, "then");
    SinglePreserved(upper, matches, s, name, "else");
    ConditionRulesEquiv(matches, s, p, i);
    ConditionRulesEquiv(matches, p, s, i);
  }

  /** Projecting any schema, filed under any name, leaves the accepted instances unchanged. */
  lemma {:induction false} NodePreserved(upper: char -> bool, matches: Regex, s: Json, name: Option<string>)
    ensures Equiv(matches, s, ProjectNode(upper, s, name))
    decreases s, 1
  {
    if s.Obj? {
      forall i ensures Valid(matches, s, i) <==> Valid(matches, ProjectNode(upper, s, name), i) {
        AssertionsSame(upper, matches, s, name, i);
        ObjectPreserved(upper, matches, s, name, i);
        ItemPreserved(upper, matches, s, name, i);
        ContainsPreserved(upper, matches, s, name, i);
        UnionPreserved(upper, matches, s, name, i);
        ConditionPreserved(upper, matches, s, name, i);
      }
    }
  }

  /** The theorem for `project_schema`: validity before and after projection coincide. */
  lemma ProjectSchemaPreservesMeaning(upper: char -> bool, matches: Regex, schema: Json, instance: Json)
    ensures Valid(matches, ProjectSchema(upper, schema), instance) <==> Valid(matches, schema, instance)
  {
    NodePreserved(upper, matches, schema, None);
  }
}
