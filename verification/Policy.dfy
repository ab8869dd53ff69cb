/** Key scopes (src/policy.rs). The regular expression engine is a parameter. */
module Policy {
  import opened Prelude
  import opened Naming

  /** `compiles` and `hits` are `RegexSet::new` and `is_match`; `valid` and `matches` the same for one pattern. */
  datatype Engine = Engine(
    compiles: seq<string> -> bool,
    hits: (seq<string>, string) -> bool,
    valid: string -> bool,
    matches: (string, string) -> bool)

  datatype PolicyError = InvalidRegex

  datatype ProxyKey = ProxyKey(
    id: string,
    allowedTools: seq<string>,
    deniedTools: seq<string>,
    allowedServers: seq<string>,
    allowedToolNames: seq<string>,
    pageSize: nat)

  /** Colons in a configured pattern stand for the wire separator. */
  function Translate(pattern: string): string {
    if pattern == [] then [] else (if pattern[0] == ':' then "__" else [pattern[0]]) + Translate(pattern[1..])
  }

  /** Translation replaces each colon by a double underscore and nothing else. */
  lemma {:induction false} TranslateColon(xs: string, ys: string)
    ensures Translate(xs + ":" + ys) == Translate(xs) + "__" + Translate(ys)
  {
    if xs == [] {
      assert (xs + ":" + ys)[1..] == ys;
    } else {
      assert (xs + ":" + ys)[1..] == xs[1..] + ":" + ys;
      TranslateColon(xs[1..], ys);
    }
  }

  lemma {:induction false} TranslatePlain(xs: string)
    requires ':' !in xs
    ensures Translate(xs) == xs
  {
    if xs != [] {
      assert xs[0] in xs && forall c :: c in xs[1..] ==> c in xs;
      TranslatePlain(xs[1..]);
      assert xs == [xs[0]] + xs[1..];
    }
  }

  /** The check after the deny list let the name through. */
  function AllowedByLists(e: Engine, key: ProxyKey, full: string, resourceId: string): Result<bool, PolicyError> {
    if resourceId in key.allowedServers || full in key.allowedToolNames then Ok(true)
    else if key.allowedTools == [] then Ok(false)
    else
      var patterns := Map(Translate, key.allowedTools);
      if e.compiles(patterns) then Ok(e.hits(patterns, full)) else Err(InvalidRegex)
  }

  function KeyCanUseName(e: Engine, key: ProxyKey, full: string, resourceId: string): Result<bool, PolicyError> {
    if key.deniedTools == [] then AllowedByLists(e, key, full, resourceId)
    else
      var patterns := Map(Translate, key.deniedTools);
      if !e.compiles(patterns) then Err(InvalidRegex)
      else if e.hits(patterns, full) then Ok(false)
      else AllowedByLists(e, key, full, resourceId)
  }

  /** A set compiles if all its patterns do, and hits what one of them matches. */
  ghost predicate SetOfPatterns(e: Engine) {
    && (forall ps :: e.compiles(ps) <==> forall p :: p in ps ==> e.valid(p))
    && (forall ps, s :: e.hits(ps, s) <==> exists p :: p in ps && e.matches(p, s))
  }

  /** One of these configured patterns matches the name. */
  ghost predicate Hits(e: Engine, patterns: seq<string>, full: string) {
    exists p :: p in patterns && e.matches(Translate(p), full)
  }

  ghost predicate AllValid(e: Engine, patterns: seq<string>) {
    forall p :: p in patterns ==> e.valid(Translate(p))
  }

  lemma TranslatedSet(e: Engine, patterns: seq<string>, full: string)
    requires SetOfPatterns(e)
    ensures e.compiles(Map(Translate, patterns)) <==> AllValid(e, patterns)
    ensures e.hits(Map(Translate, patterns), full) <==> Hits(e, patterns, full)
  {
    var ps := Map(Translate, patterns);
    forall p | p in patterns ensures Translate(p) in ps {
      var i :| 0 <= i < |patterns| && patterns[i] == p;
      assert ps[i] == Translate(p);
    }
    forall t | t in ps ensures exists p :: p in patterns && Translate(p) == t {
      var i :| 0 <= i < |ps| && ps[i] == t;
      assert patterns[i] in patterns;
    }
  }

  /** Who may use a name, pattern by pattern: nothing denies it, and a server, a name or a pattern allows it. */
  lemma AllowedIff(e: Engine, key: ProxyKey, full: string, resourceId: string)
    requires SetOfPatterns(e)
    ensures KeyCanUseName(e, key, full, resourceId) == Ok(true) <==>
            && AllValid(e, key.deniedTools) && !Hits(e, key.deniedTools, full)
            && (|| resourceId in key.allowedServers || full in key.allowedToolNames
                || (AllValid(e, key.allowedTools) && Hits(e, key.allowedTools, full)))
  {
    TranslatedSet(e, key.deniedTools, full);
    TranslatedSet(e, key.allowedTools, full);
  }

  /** `narrow` denies whatever `wide` denies and allows nothing that `wide` does not. */
  ghost predicate Narrower(narrow: ProxyKey, wide: ProxyKey) {
    && (forall p :: p in wide.deniedTools ==> p in narrow.deniedTools)
    && (forall p :: p in narrow.allowedTools ==> p in wide.allowedTools)
    && (forall s :: s in narrow.allowedServers ==> s in wide.allowedServers)
    && (forall n :: n in narrow.allowedToolNames ==> n in wide.allowedToolNames)
  }

  /** Narrowing a key's lists never widens its scope, as long as the wider key's own allow patterns compile. */
  lemma NarrowingNeverWidens(e: Engine, narrow: ProxyKey, wide: ProxyKey, full: string, resourceId: string)
    requires SetOfPatterns(e) && Narrower(narrow, wide) && AllValid(e, wide.allowedTools)
    ensures KeyCanUseName(e, narrow, full, resourceId) == Ok(true) ==>
            KeyCanUseName(e, wide, full, resourceId) == Ok(true)
  {
    AllowedIff(e, narrow, full, resourceId);
    AllowedIff(e, wide, full, resourceId);
  }
}
