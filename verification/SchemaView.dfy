/** The schema projection shown to agents (src/schema_view.rs). */
module SchemaView {
  import opened Prelude
  import opened Json
  import opened SchemaText

  /** How `project_entry` treats an entry of a schema object, by its key. */
  datatype KeyKind = Boilerplate | Title | Description | Additional | Named | Items | Single | Listed | Verbatim

  function KindOf(key: string): KeyKind {
    if key in {"$schema", "$id", "example", "examples"} then Boilerplate
    else if key == "title" then Title
    else if key == "description" then Description
    else if key == "additionalProperties" then Additional
    else if key in {"properties", "patternProperties", "$defs", "definitions", "dependentSchemas"} then Named
    else if key == "items" then Items
    else if key in {"unevaluatedItems", "unevaluatedProperties", "contains", "propertyNames", "not", "if", "then",
        "else"} then Single
    else if key in {"oneOf", "anyOf", "allOf", "prefixItems"} then Listed
    else Verbatim
  }

  /** `strip_entry`; `name` is the property name the schema is filed under, if any. */
  predicate Strip(key: string, value: Json, name: Option<string>) {
    match KindOf(key)
    case Boilerplate => true
    case Title => name.Some? && value == Str(name.value)
    case Description => value.Str? && Trim(value.s) == []
    case Additional => value == Bool(true)
    case _ => false
  }

  function ProjectNode(upper: char -> bool, value: Json, name: Option<string>): (r: Json)
    ensures r.Obj? <==> value.Obj?
    ensures !value.Obj? ==> r == value
    decreases value, 0
  {
    if value.Obj? then
      Obj(map k | k in value.fields && !Strip(k, value.fields[k], name) :: ProjectEntry(upper, k, value.fields[k]))
    else value
  }

  function ProjectEntry(upper: char -> bool, key: string, value: Json): Json
    decreases value, 2
  {
    match KindOf(key)
    case Named => ProjectNamed(upper, value)
    case Items => if value.Arr? then ProjectList(upper, value) else ProjectNode(upper, value, None)
    case Additional => ProjectNode(upper, value, None)
    case Single => ProjectNode(upper, value, None)
    case Listed => ProjectList(upper, value)
    case Description => if value.Str? then Str(CapText(upper, value.s)) else value
    case _ => value
  }

  function ProjectNamed(upper: char -> bool, value: Json): Json
    decreases value, 1
  {
    if value.Obj? then Obj(map k | k in value.fields :: ProjectNode(upper, value.fields[k], Some(k))) else value
  }

  function ProjectList(upper: char -> bool, value: Json): Json
    decreases value, 1
  {
    if value.Arr? then
      Arr(seq(|value.items|, i requires 0 <= i < |value.items| => ProjectNode(upper, value.items[i], None)))
    else value
  }

  function ProjectSchema(upper: char -> bool, schema: Json): Json {
    ProjectNode(upper, schema, None)
  }

  // ── The loops that fill a fresh map or vector ──

  method FillNode(upper: char -> bool, value: Json, name: Option<string>) returns (r: Json)
    ensures r == ProjectNode(upper, value, name)
    decreases value, 0
  {
    if !value.Obj? { return value; }
    var out: map<string, Json> := map[];
    var todo := value.fields.Keys;
    while todo != {}
      invariant todo <= value.fields.Keys
      invariant forall k :: k in out <==> k in value.fields && k !in todo && !Strip(k, value.fields[k], name)
      invariant forall k :: k in out ==> out[k] == ProjectEntry(upper, k, value.fields[k])
    {
      var key :| key in todo;
      if !Strip(key, value.fields[key], name) {
        var projected := FillEntry(upper, key, value.fields[key]);
        out := out[key := projected];
      }
      todo := todo - {key};
    }
    return Obj(out);
  }

  method FillEntry(upper: char -> bool, key: string, value: Json) returns (r: Json)
    ensures r == ProjectEntry(upper, key, value)
    decreases value, 2
  {
    match KindOf(key)
    case Named => r := FillNamed(upper, value);
    case Items =>
      if value.Arr? { r := FillList(upper, value); } else { r := FillNode(upper, value, None); }
    case Additional => r := FillNode(upper, value, None);
    case Single => r := FillNode(upper, value, None);
    case Listed => r := FillList(upper, value);
    case Description => r := if value.Str? then Str(CapText(upper, value.s)) else value;
    case _ => r := value;
  }

  method FillNamed(upper: char -> bool, value: Json) returns (r: Json)
    ensures r == ProjectNamed(upper, value)
    decreases value, 1
  {
    if !value.Obj? { return value; }
    var out: map<string, Json> := map[];
    var todo := value.fields.Keys;
    while todo != {}
      invariant todo <= value.fields.Keys && out.Keys == value.fields.Keys - todo
      invariant forall k :: k in out ==> out[k] == ProjectNode(upper, value.fields[k], Some(k))
    {
      var key :| key in todo;
      var projected := FillNode(upper, value.fields[key], Some(key));
      out, todo := out[key := projected], todo - {key};
    }
    return Obj(out);
  }

  method FillList(upper: char -> bool, value: Json) returns (r: Json)
    ensures r == ProjectList(upper, value)
    decreases value, 1
  {
    if !value.Arr? { return value; }
    var out := [];
    for i := 0 to |value.items|
      invariant |out| == i
      invariant forall j :: 0 <= j < i ==> out[j] == ProjectNode(upper, value.items[j], None)
    {
      var projected := FillNode(upper, value.items[i], None);
      out := out + [projected];
    }
    return Arr(out);
  }

  // ── Idempotence ──

  /** An entry that survives projection survives it again. */
  lemma KeptEntryIsKept(upper: char -> bool, key: string, value: Json, name: Option<string>)
    requires !Strip(key, value, name)
    ensures !Strip(key, ProjectEntry(upper, key, value), name)
  {
    match KindOf(key)
    case Description => if value.Str? { CappedBlankness(upper, value.s); }
    case _ =>
  }

  lemma {:induction false} NodeIdempotent(upper: char -> bool, value: Json, name: Option<string>)
    requires !upper(ELLIPSIS)
    ensures ProjectNode(upper, ProjectNode(upper, value, name), name) == ProjectNode(upper, value, name)
    decreases value, 0
  {
    if value.Obj? {
      var p := ProjectNode(upper, value, name);
      forall k | k in p.fields
        ensures !Strip(k, p.fields[k], name) && ProjectEntry(upper, k, p.fields[k]) == p.fields[k]
      {
        KeptEntryIsKept(upper, k, value.fields[k], name);
        EntryIdempotent(upper, k, value.fields[k]);
      }
      assert ProjectNode(upper, p, name).fields == p.fields;
    }
  }

  lemma {:induction false} EntryIdempotent(upper: char -> bool, key: string, value: Json)
    requires !upper(ELLIPSIS)
    ensures ProjectEntry(upper, key, ProjectEntry(upper, key, value)) == ProjectEntry(upper, key, value)
    decreases value, 2
  {
    match KindOf(key)
    case Named => NamedIdempotent(upper, value);
    case Items =>
      if value.Arr? { ListIdempotent(upper, value); } else { NodeIdempotent(upper, value, None); }
    case Additional => NodeIdempotent(upper, value, None);
    case Single => NodeIdempotent(upper, value, None);
    case Listed => ListIdempotent(upper, value);
    case Description => if value.Str? { CapTextIdempotent(upper, value.s); }
    case _ =>
  }

  lemma {:induction false} NamedIdempotent(upper: char -> bool, value: Json)
    requires !upper(ELLIPSIS)
    ensures ProjectNamed(upper, ProjectNamed(upper, value)) == ProjectNamed(upper, value)
    decreases value, 1
  {
    if value.Obj? {
      var p := ProjectNamed(upper, value);
      forall k | k in value.fields ensures ProjectNode(upper, p.fields[k], Some(k)) == p.fields[k] {
        NodeIdempotent(upper, value.fields[k], Some(k));
      }
      assert ProjectNamed(upper, p).fields == p.fields;
    }
  }

  lemma {:induction false} ListIdempotent(upper: char -> bool, value: Json)
    requires !upper(ELLIPSIS)
    ensures ProjectList(upper, ProjectList(upper, value)) == ProjectList(upper, value)
    decreases value, 1
  {
    if value.Arr? {
      var p := ProjectList(upper, value);
      forall i | 0 <= i < |value.items| ensures ProjectNode(upper, p.items[i], None) == p.items[i] {
        NodeIdempotent(upper, value.items[i], None);
      }
      assert ProjectList(upper, p).items == p.items;
    }
  }

  /** `project_schema` is idempotent on every JSON value. */
  lemma ProjectSchemaIdempotent(upper: char -> bool, schema: Json)
    requires !upper(ELLIPSIS)
    ensures ProjectSchema(upper, ProjectSchema(upper, schema)) == ProjectSchema(upper, schema)
  {
    NodeIdempotent(upper, schema, None);
  }

  // ── What a projected schema still contains, and no longer contains ──

  /** The keys under which the projection looks for schemas, and those it may drop or shorten. */
  const NAMED_KEYS := {"properties", "patternProperties", "$defs", "definitions", "dependentSchemas"}

  const SINGLE_KEYS := {
    "unevaluatedItems", "unevaluatedProperties", "contains", "propertyNames", "not", "if", "then", "else"
  }

  const LISTED_KEYS := {"oneOf", "anyOf", "allOf", "prefixItems"}

  const PROJECTED_KEYS := NAMED_KEYS + SINGLE_KEYS + LISTED_KEYS + {"items", "additionalProperties"}

  const BOILERPLATE_KEYS := {"$schema", "$id", "example", "examples"}

  /**
   Nothing else is lost: an entry goes only if it is boilerplate, a title that repeats the property name, a
   blank description, or `additionalProperties: true`; and what is neither a description nor a place for
   schemas stays as it is.
   */
  lemma ProjectionKeeps(upper: char -> bool, fields: map<string, Json>, name: Option<string>, k: string)
    requires k in fields
    ensures var p, v := ProjectNode(upper, Obj(fields), name).fields, fields[k];
            && (k !in p ==>
                  || k in BOILERPLATE_KEYS
                  || (k == "title" && name.Some? && v == Str(name.value))
                  || (k == "description" && v.Str? && Trim(v.s) == [])
                  || (k == "additionalProperties" && v == Bool(true)))
            && (k in p && k !in PROJECTED_KEYS && k != "description" ==> p[k] == v)
            && (k in p && k == "description" ==> p[k] == if v.Str? then Str(CapText(upper, v.s)) else v)
  {
    assert KindOf(k) == Title ==> k == "title";
    assert KindOf(k) == Description <==> k == "description";
    assert KindOf(k) == Additional ==> k == "additionalProperties";
  }

  lemma ProjectionAddsNothing(upper: char -> bool, value: Json, name: Option<string>)
    requires value.Obj?
    ensures ProjectNode(upper, value, name).fields.Keys <= value.fields.Keys
  {
  }

  /**
   At every place where the projection looks for a schema: no boilerplate entry, no title that
   repeats the property name, no blank description, no `additionalProperties: true`, and every
   description a single line of at most 200 characters.
   */
  ghost predicate Lean(value: Json, name: Option<string>)
    decreases value, 0
  {
    value.Obj? ==>
      && value.fields.Keys !! BOILERPLATE_KEYS
      && ("title" in value.fields && name.Some? ==> value.fields["title"] != Str(name.value))
      && ("additionalProperties" in value.fields ==> value.fields["additionalProperties"] != Bool(true))
      && ("description" in value.fields && value.fields["description"].Str? ==>
        OneShortLine(value.fields["description"].s))
      && forall k :: k in value.fields ==> LeanEntry(k, value.fields[k])
  }

  ghost predicate OneShortLine(s: string) {
    0 < |s| <= 200 && '\n' !in s && '\r' !in s && !IsWhitespace(s[0]) && !IsWhitespace(s[|s| - 1])
  }

  ghost predicate LeanEntry(key: string, value: Json)
    decreases value, 1
  {
    if key in NAMED_KEYS then value.Obj? ==> forall k :: k in value.fields ==> Lean(value.fields[k], Some(k))
    else if key in LISTED_KEYS || (key == "items" && value.Arr?) then
      value.Arr? ==> forall i :: 0 <= i < |value.items| ==> Lean(value.items[i], None)
    else key in SINGLE_KEYS + {"items", "additionalProperties"} ==> Lean(value, None)
  }

  lemma CappedIsOneShortLine(upper: char -> bool, text: string)
    requires Trim(text) != []
    ensures OneShortLine(CapText(upper, text))
  {
    CapTextShape(upper, text);
    var r := CapText(upper, text);
    forall j | 0 <= j < |r| ensures r[j] != '\n' && r[j] != '\r' { assert !IsBreak(r[j]); }
  }

  lemma {:induction false} ProjectNodeLean(upper: char -> bool, value: Json, name: Option<string>)
    ensures Lean(ProjectNode(upper, value, name), name)
    decreases value, 0
  {
    if value.Obj? {
      var p := ProjectNode(upper, value, name);
      forall k | k in p.fields ensures LeanEntry(k, p.fields[k]) { ProjectEntryLean(upper, k, value.fields[k]); }
      forall k | k in BOILERPLATE_KEYS ensures k !in p.fields { BoilerplateGoes(upper, value, name, k); }
      if "title" in p.fields && name.Some? { KeptTitle(upper, value, name); }
      if "additionalProperties" in p.fields { KeptAdditional(upper, value, name); }
      if "description" in p.fields { KeptDescription(upper, value, name); }
    }
  }

  lemma BoilerplateGoes(upper: char -> bool, value: Json, name: Option<string>, k: string)
    requires value.Obj? && k in BOILERPLATE_KEYS
    ensures k !in ProjectNode(upper, value, name).fields
  {
    assert KindOf(k) == Boilerplate;
  }

  lemma KeptTitle(upper: char -> bool, value: Json, name: Option<string>)
    requires value.Obj? && "title" in ProjectNode(upper, value, name).fields && name.Some?
    ensures ProjectNode(upper, value, name).fields["title"] != Str(name.value)
  {
    assert KindOf("title") == Title;
  }

  lemma KeptAdditional(upper: char -> bool, value: Json, name: Option<string>)
    requires value.Obj? && "additionalProperties" in ProjectNode(upper, value, name).fields
    ensures ProjectNode(upper, value, name).fields["additionalProperties"] != Bool(true)
  {
    assert KindOf("additionalProperties") == Additional;
  }

  lemma KeptDescription(upper: char -> bool, value: Json, name: Option<string>)
    requires value.Obj? && "description" in ProjectNode(upper, value, name).fields
    ensures var d := ProjectNode(upper, value, name).fields["description"]; d.Str? ==> OneShortLine(d.s)
  {
    assert KindOf("description") == Description;
    if value.fields["description"].Str? { CappedIsOneShortLine(upper, value.fields["description"].s); }
  }

  lemma KindOfKeys(key: string)
    ensures key in NAMED_KEYS <==> KindOf(key) == Named
    ensures key in LISTED_KEYS <==> KindOf(key) == Listed
    ensures key in SINGLE_KEYS <==> KindOf(key) == Single
    ensures key == "items" <==> KindOf(key) == Items
    ensures key == "additionalProperties" <==> KindOf(key) == Additional
  {
  }

  lemma {:induction false} ProjectEntryLean(upper: char -> bool, key: string, value: Json)
    ensures LeanEntry(key, ProjectEntry(upper, key, value))
    decreases value, 1
  {
    KindOfKeys(key);
    var kind := KindOf(key);
    if kind == Named && value.Obj? {
      forall k | k in value.fields ensures Lean(ProjectNode(upper, value.fields[k], Some(k)), Some(k)) {
        ProjectNodeLean(upper, value.fields[k], Some(k));
      }
    } else if (kind == Items || kind == Listed) && value.Arr? {
      forall i | 0 <= i < |value.items| ensures Lean(ProjectNode(upper, value.items[i], None), None) {
        ProjectNodeLean(upper, value.items[i], None);
      }
    } else if kind == Items || kind == Additional || kind == Single {
      ProjectNodeLean(upper, value, None);
    }
  }
}
