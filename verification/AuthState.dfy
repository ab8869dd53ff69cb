/**
 Gateway key authentication (src/gateway_auth.rs, src/admin/tokens.rs). `hash` is the token digest,
 `resolve` looks a secret reference up; both are parameters.
 */
module AuthState {
  import opened Prelude
  import opened Utf8
  import Hex

  type Digest = Bytes

  type Hash = string -> Digest

  datatype AuthError = InvalidKey | ExpiredKey | MissingKey | BadConfig

  type Resolver = string -> Result<string, AuthError>

  /** The credential fields of a configured proxy key. */
  datatype KeyConfig = KeyConfig(id: string, tokenRef: Option<string>, tokenDigest: Option<string>,
    expiresAt: Option<nat>)

  /** A key with its credential worked out: a digest, or none in legacy mode. */
  datatype Cred = Cred(id: string, digest: Option<Digest>, expires: Option<nat>)

  datatype Auth = Auth(tokens: map<Digest, string>, tokenKeys: set<string>, legacy: set<string>,
    expires: map<string, nat>)

  const EMPTY := Auth(map[], {}, {}, map[])

  // ── The operations on values ──

  function InsertToken(a: Auth, id: string, d: Digest): Auth {
    var others := map x | x in a.tokens && a.tokens[x] != id :: a.tokens[x];
    a.(tokens := others[d := id], legacy := a.legacy - {id}, tokenKeys := a.tokenKeys + {id})
  }

  function SetToken(a: Auth, id: string, d: Digest, expires: Option<nat>): Auth {
    var b := InsertToken(a, id, d);
    b.(expires := if expires.Some? then b.expires[id := expires.value] else b.expires - {id})
  }

  function ClearToken(a: Auth, id: string): Auth {
    Auth(map x | x in a.tokens && a.tokens[x] != id :: a.tokens[x], a.tokenKeys - {id}, a.legacy + {id},
      a.expires - {id})
  }

  /** One turn of the loop in `from_config`. */
  function Add(a: Auth, c: Cred): Auth {
    var b := if c.expires.Some? then a.(expires := a.expires[c.id := c.expires.value]) else a;
    if c.digest.Some? then InsertToken(b, c.id, c.digest.value) else b.(legacy := b.legacy + {c.id})
  }

  function Build(cs: seq<Cred>): Auth {
    if cs == [] then EMPTY else Add(Build(cs[..|cs| - 1]), cs[|cs| - 1])
  }

  /** `token_ref` wins over `token_digest`; a reference or digest that cannot be read fails the build. */
  ghost function CredOf(hash: Hash, resolve: Resolver, key: KeyConfig): Result<Cred, AuthError> {
    if key.tokenRef.Some? then
      var token := resolve(key.tokenRef.value);
      if token.Ok? then Ok(Cred(key.id, Some(hash(token.value)), key.expiresAt)) else Err(token.error)
    else if key.tokenDigest.Some? then
      var d := Hex.Decode(key.tokenDigest.value);
      if d.Some? then Ok(Cred(key.id, d, key.expiresAt)) else Err(BadConfig)
    else Ok(Cred(key.id, None, key.expiresAt))
  }

  /** These are the credentials of these keys. */
  ghost predicate CredsOf(hash: Hash, resolve: Resolver, keys: seq<KeyConfig>, cs: seq<Cred>) {
    |cs| == |keys| && forall i :: 0 <= i < |keys| ==> CredOf(hash, resolve, keys[i]) == Ok(cs[i])
  }

  function CheckExpiry(a: Auth, id: string, now: nat): Result<string, AuthError> {
    if id in a.expires && now >= a.expires[id] then Err(ExpiredKey) else Ok(id)
  }

  function Authenticate(a: Auth, hash: Hash, bearer: Option<string>, queryKey: Option<string>,
                        now: nat): Result<string, AuthError> {
    if bearer.Some? then
      if bearer.value == [] || hash(bearer.value) !in a.tokens then Err(InvalidKey)
      else CheckExpiry(a, a.tokens[hash(bearer.value)], now)
    else if queryKey.Some? then
      if queryKey.value !in a.legacy then Err(InvalidKey) else CheckExpiry(a, queryKey.value, now)
    else Err(MissingKey)
  }

  // ── What building from a configuration yields ──

  /** No two different credentials share an id, or a digest. */
  ghost predicate Distinguishable(cs: seq<Cred>) {
    && (forall x, y :: x in cs && y in cs && x.id == y.id ==> x == y)
    && (forall x, y :: x in cs && y in cs && x.digest.Some? && x.digest == y.digest ==> x == y)
  }

  ghost predicate TokensHold(tokens: map<Digest, string>, cs: seq<Cred>) {
    && (forall c :: c in cs && c.digest.Some? ==> c.digest.value in tokens && tokens[c.digest.value] == c.id)
    && (forall d :: d in tokens ==> exists c :: c in cs && c.digest == Some(d))
  }

  ghost predicate ExpiresHold(expires: map<string, nat>, cs: seq<Cred>) {
    && (forall c :: c in cs && c.expires.Some? ==> c.id in expires && expires[c.id] == c.expires.value)
    && (forall id :: id in expires ==> exists c :: c in cs && c.id == id && c.expires.Some?)
  }

  /** `a` holds exactly the credentials `cs`. */
  ghost predicate Holds(a: Auth, cs: seq<Cred>) {
    && TokensHold(a.tokens, cs) && ExpiresHold(a.expires, cs)
    && (forall id :: id in a.tokenKeys <==> exists c :: c in cs && c.id == id && c.digest.Some?)
    && (forall id :: id in a.legacy <==> exists c :: c in cs && c.id == id && c.digest.None?)
  }

  lemma AddTokensHold(a: Auth, front: seq<Cred>, c: Cred)
    requires TokensHold(a.tokens, front) && Distinguishable(front + [c]) && c !in front
    ensures TokensHold(Add(a, c).tokens, front + [c])
  {
    var cs, b := front + [c], Add(a, c);
    forall d | d in a.tokens ensures a.tokens[d] != c.id {
      var x :| x in front && x.digest == Some(d);
      assert x in cs && c in cs;
    }
    forall x | x in cs && x.digest.Some? ensures x.digest.value in b.tokens && b.tokens[x.digest.value] == x.id {
      assert c in cs;
    }
    forall d | d in b.tokens ensures exists x :: x in cs && x.digest == Some(d) {
      if d in a.tokens {
        var x :| x in front && x.digest == Some(d);
        assert x in cs;
      } else {
        assert c in cs;
      }
    }
  }

  lemma AddExpiresHold(a: Auth, front: seq<Cred>, c: Cred)
    requires ExpiresHold(a.expires, front) && Distinguishable(front + [c]) && c !in front
    ensures ExpiresHold(Add(a, c).expires, front + [c])
  {
  }

  lemma AddKeysHold(a: Auth, front: seq<Cred>, c: Cred)
    requires Holds(a, front) && Distinguishable(front + [c]) && c !in front
    ensures var cs, b := front + [c], Add(a, c);
            && (forall id :: id in b.tokenKeys <==> exists x :: x in cs && x.id == id && x.digest.Some?)
            && (forall id :: id in b.legacy <==> exists x :: x in cs && x.id == id && x.digest.None?)
  {
  }

  lemma AddHolds(a: Auth, front: seq<Cred>, c: Cred)
    requires Holds(a, front) && Distinguishable(front + [c]) && c !in front
    ensures Holds(Add(a, c), front + [c])
  {
    AddTokensHold(a, front, c);
    AddExpiresHold(a, front, c);
    AddKeysHold(a, front, c);
  }

  lemma {:induction false} BuildHolds(cs: seq<Cred>)
    requires Distinct(cs) && Distinguishable(cs)
    ensures Holds(Build(cs), cs)
  {
    if cs != [] {
      var front, c := cs[..|cs| - 1], cs[|cs| - 1];
      assert cs == front + [c];
      assert c !in front;
      BuildHolds(front);
      AddHolds(Build(front), front, c);
    }
  }

  /** Holding the same credentials means being the same state. */
  lemma HoldsUnique(a: Auth, b: Auth, cs: seq<Cred>)
    requires Holds(a, cs) && Holds(b, cs)
    ensures a == b
  {
  }

  // ── Incremental update equals rebuild ──

  /** The credentials with key `i`'s replaced, as `issue_token` and `revoke_token` edit the configuration. */
  function Edited(cs: seq<Cred>, i: nat, digest: Option<Digest>, expires: Option<nat>): seq<Cred>
    requires i < |cs|
  {
    cs[i := Cred(cs[i].id, digest, expires)]
  }

  /** Members of an edited list: the new credential, and the old ones with another id. */
  lemma EditedMembers(cs: seq<Cred>, i: nat, digest: Option<Digest>, expires: Option<nat>, x: Cred)
    requires i < |cs| && Distinct(cs) && Distinguishable(cs)
    ensures x in Edited(cs, i, digest, expires) <==>
            x == Cred(cs[i].id, digest, expires) || (x in cs && x.id != cs[i].id)
  {
    var es := Edited(cs, i, digest, expires);
    if x in cs && x.id != cs[i].id {
      var j :| 0 <= j < |cs| && cs[j] == x;
      assert es[j] == x;
    }
    if x in es {
      var j :| 0 <= j < |es| && es[j] == x;
      if j != i {
        assert cs[j] in cs && cs[i] in cs && cs[j] != cs[i];
      }
    }
    assert es[i] == Cred(cs[i].id, digest, expires);
  }

  lemma EditTokensHold(a: Auth, cs: seq<Cred>, es: seq<Cred>, id: string, c: Cred, tokens: map<Digest, string>)
    requires TokensHold(a.tokens, cs) && Distinguishable(cs) && Distinguishable(es) && c.id == id
    requires forall x :: x in es <==> x == c || (x in cs && x.id != id)
    requires var others := map x | x in a.tokens && a.tokens[x] != id :: a.tokens[x];
             tokens == if c.digest.Some? then others[c.digest.value := id] else others
    ensures TokensHold(tokens, es)
  {
    forall x | x in es && x.digest.Some? ensures x.digest.value in tokens && tokens[x.digest.value] == x.id {
      assert c in es;
    }
    forall d | d in tokens ensures exists x :: x in es && x.digest == Some(d) {
      if c.digest == Some(d) {
        assert c in es;
      } else {
        var x :| x in cs && x.digest == Some(d);
        assert x in es;
      }
    }
  }

  lemma EditExpiresHold(a: Auth, cs: seq<Cred>, es: seq<Cred>, id: string, c: Cred, expires: map<string, nat>)
    requires ExpiresHold(a.expires, cs) && c.id == id && forall x :: x in es <==> x == c || (x in cs && x.id != id)
    requires expires == if c.expires.Some? then a.expires[id := c.expires.value] else a.expires - {id}
    ensures ExpiresHold(expires, es)
  {
  }

  lemma EditKeysHold(a: Auth, cs: seq<Cred>, es: seq<Cred>, id: string, c: Cred, b: Auth)
    requires Holds(a, cs) && c.id == id && forall x :: x in es <==> x == c || (x in cs && x.id != id)
    requires b.tokenKeys == if c.digest.Some? then a.tokenKeys + {id} else a.tokenKeys - {id}
    requires b.legacy == if c.digest.Some? then a.legacy - {id} else a.legacy + {id}
    ensures forall o :: o in b.tokenKeys <==> exists x :: x in es && x.id == o && x.digest.Some?
    ensures forall o :: o in b.legacy <==> exists x :: x in es && x.id == o && x.digest.None?
  {
  }

  /** `b` is `a` with key `id` given the credential `c`. */
  ghost predicate IsEdit(a: Auth, id: string, c: Cred, b: Auth) {
    var others := map x | x in a.tokens && a.tokens[x] != id :: a.tokens[x];
    && b.tokens == (if c.digest.Some? then others[c.digest.value := id] else others)
    && b.expires == (if c.expires.Some? then a.expires[id := c.expires.value] else a.expires - {id})
    && b.tokenKeys == (if c.digest.Some? then a.tokenKeys + {id} else a.tokenKeys - {id})
    && b.legacy == (if c.digest.Some? then a.legacy - {id} else a.legacy + {id})
  }

  lemma EditHolds(a: Auth, cs: seq<Cred>, es: seq<Cred>, id: string, c: Cred, b: Auth)
    requires Holds(a, cs) && Distinguishable(cs) && Distinguishable(es) && c.id == id && IsEdit(a, id, c, b)
    requires forall x :: x in es <==> x == c || (x in cs && x.id != id)
    ensures Holds(b, es)
  {
    EditTokensHold(a, cs, es, id, c, b.tokens);
    EditExpiresHold(a, cs, es, id, c, b.expires);
    EditKeysHold(a, cs, es, id, c, b);
  }

  lemma SetTokenIsEdit(a: Auth, id: string, d: Digest, expires: Option<nat>)
    ensures IsEdit(a, id, Cred(id, Some(d), expires), SetToken(a, id, d, expires))
  {
  }

  lemma ClearTokenIsEdit(a: Auth, id: string)
    ensures IsEdit(a, id, Cred(id, None, None), ClearToken(a, id))
  {
  }

  lemma ReplacedHolds(a: Auth, cs: seq<Cred>, i: nat, digest: Option<Digest>, expires: Option<nat>, b: Auth)
    requires Holds(a, cs) && i < |cs| && Distinct(cs) && Distinguishable(cs)
    requires Distinguishable(Edited(cs, i, digest, expires)) && IsEdit(a, cs[i].id, Cred(cs[i].id, digest, expires), b)
    ensures Holds(b, Edited(cs, i, digest, expires))
  {
    var es, id, c := Edited(cs, i, digest, expires), cs[i].id, Cred(cs[i].id, digest, expires);
    forall x ensures x in es <==> x == c || (x in cs && x.id != id) { EditedMembers(cs, i, digest, expires, x); }
    EditHolds(a, cs, es, id, c, b);
  }

  lemma SetTokenHolds(a: Auth, cs: seq<Cred>, i: nat, d: Digest, expires: Option<nat>)
    requires Holds(a, cs) && i < |cs| && Distinct(cs) && Distinguishable(cs)
    requires Distinguishable(Edited(cs, i, Some(d), expires))
    ensures Holds(SetToken(a, cs[i].id, d, expires), Edited(cs, i, Some(d), expires))
  {
    SetTokenIsEdit(a, cs[i].id, d, expires);
    ReplacedHolds(a, cs, i, Some(d), expires, SetToken(a, cs[i].id, d, expires));
  }

  lemma ClearTokenHolds(a: Auth, cs: seq<Cred>, i: nat)
    requires Holds(a, cs) && i < |cs| && Distinct(cs) && Distinguishable(cs)
    requires Distinguishable(Edited(cs, i, None, None))
    ensures Holds(ClearToken(a, cs[i].id), Edited(cs, i, None, None))
  {
    ClearTokenIsEdit(a, cs[i].id);
    ReplacedHolds(a, cs, i, None, None, ClearToken(a, cs[i].id));
  }

  /** Distinct ids and distinct digests, as `from_config` expects of a configuration. */
  ghost predicate Sound(cs: seq<Cred>) {
    && (forall i, j :: 0 <= i < j < |cs| ==> cs[i].id != cs[j].id)
    && (forall i, j :: 0 <= i < j < |cs| && cs[i].digest.Some? ==> cs[i].digest != cs[j].digest)
  }

  lemma SoundIsDistinguishable(cs: seq<Cred>)
    requires Sound(cs)
    ensures Distinct(cs) && Distinguishable(cs)
  {
  }

  lemma EditedIsSound(cs: seq<Cred>, i: nat, digest: Option<Digest>, expires: Option<nat>)
    requires i < |cs| && Sound(cs) && forall j :: 0 <= j < |cs| && j != i && digest.Some? ==> cs[j].digest != digest
    ensures Sound(Edited(cs, i, digest, expires))
  {
  }

  /** Rotating a token in place gives the state that rebuilding from the edited configuration gives. */
  lemma SetTokenIsRebuild(cs: seq<Cred>, i: nat, d: Digest, expires: Option<nat>)
    requires i < |cs| && Sound(cs) && forall j :: 0 <= j < |cs| && j != i ==> cs[j].digest != Some(d)
    ensures SetToken(Build(cs), cs[i].id, d, expires) == Build(Edited(cs, i, Some(d), expires))
  {
    var es := Edited(cs, i, Some(d), expires);
    EditedIsSound(cs, i, Some(d), expires);
    SoundIsDistinguishable(cs);
    SoundIsDistinguishable(es);
    BuildHolds(cs);
    BuildHolds(es);
    SetTokenHolds(Build(cs), cs, i, d, expires);
    HoldsUnique(SetToken(Build(cs), cs[i].id, d, expires), Build(es), es);
  }

  /** And so does revoking it. */
  lemma ClearTokenIsRebuild(cs: seq<Cred>, i: nat)
    requires i < |cs| && Sound(cs)
    ensures ClearToken(Build(cs), cs[i].id) == Build(Edited(cs, i, None, None))
  {
    var es := Edited(cs, i, None, None);
    EditedIsSound(cs, i, None, None);
    SoundIsDistinguishable(cs);
    SoundIsDistinguishable(es);
    BuildHolds(cs);
    BuildHolds(es);
    ClearTokenHolds(Build(cs), cs, i);
    HoldsUnique(ClearToken(Build(cs), cs[i].id), Build(es), es);
  }

  // ── Every run of token updates ──

  /** Token and legacy keys are disjoint, digests belong to token keys, and no key owns two. */
  ghost predicate WellFormed(a: Auth) {
    && a.tokenKeys !! a.legacy
    && (forall d :: d in a.tokens ==> a.tokens[d] in a.tokenKeys)
    && (forall d, e :: d in a.tokens && e in a.tokens && a.tokens[d] == a.tokens[e] ==> d == e)
  }

  datatype Update = Issue(id: string, digest: Digest, expires: Option<nat>) | Revoke(id: string)

  function Updated(a: Auth, u: Update): Auth {
    if u.Issue? then SetToken(a, u.id, u.digest, u.expires) else ClearToken(a, u.id)
  }

  function RunUpdates(a: Auth, us: seq<Update>): Auth {
    if us == [] then a else Updated(RunUpdates(a, us[..|us| - 1]), us[|us| - 1])
  }

  lemma {:induction false} RunKeepsWellFormed(a: Auth, us: seq<Update>)
    requires WellFormed(a)
    ensures WellFormed(RunUpdates(a, us))
  {
    if us != [] {
      RunKeepsWellFormed(a, us[..|us| - 1]);
    }
  }

  lemma BuildIsWellFormed(cs: seq<Cred>)
    requires Sound(cs)
    ensures WellFormed(Build(cs))
  {
    SoundIsDistinguishable(cs);
    BuildHolds(cs);
    var a := Build(cs);
    forall id | id in a.tokenKeys ensures id !in a.legacy {
      var x :| x in cs && x.id == id && x.digest.Some?;
      forall y | y in cs && y.id == id ensures y.digest.Some? {
        assert y == x;
      }
    }
    forall d | d in a.tokens ensures exists c :: c in cs && c.digest == Some(d) && c.id == a.tokens[d] {
      var c :| c in cs && c.digest == Some(d);
    }
  }

  /** The position of the last entry for this id, one-based; 0 if there is none. */
  function LastFor(cs: seq<Cred>, id: string): (n: nat)
    ensures n <= |cs| && (n > 0 ==> cs[n - 1].id == id) && forall j :: n <= j < |cs| ==> cs[j].id != id
  {
    if cs == [] then 0 else if cs[|cs| - 1].id == id then |cs| else LastFor(cs[..|cs| - 1], id)
  }

  ghost predicate HasToken(cs: seq<Cred>, id: string) {
    exists c :: c in cs && c.id == id && c.digest.Some?
  }

  /** The id's last entry has no token. */
  ghost predicate EndsWithoutToken(cs: seq<Cred>, id: string) {
    LastFor(cs, id) > 0 && cs[LastFor(cs, id) - 1].digest.None?
  }

  /** With repeated ids: any entry with a token makes a token key, but only the last entry decides about legacy mode. */
  lemma {:induction false} BuildMembership(cs: seq<Cred>, id: string)
    ensures id in Build(cs).tokenKeys <==> HasToken(cs, id)
    ensures id in Build(cs).legacy <==> EndsWithoutToken(cs, id)
  {
    if cs != [] {
      var front, c := cs[..|cs| - 1], cs[|cs| - 1];
      BuildMembership(front, id);
      AddMembership(Build(front), c, id);
      HasTokenStep(front, c, id);
      assert cs == front + [c];
    }
  }

  lemma AddMembership(a: Auth, c: Cred, id: string)
    ensures id in Add(a, c).tokenKeys <==> id in a.tokenKeys || (c.id == id && c.digest.Some?)
    ensures id in Add(a, c).legacy <==> if c.id == id then c.digest.None? else id in a.legacy
  {
  }

  lemma HasTokenStep(front: seq<Cred>, c: Cred, id: string)
    ensures HasToken(front + [c], id) <==> HasToken(front, id) || (c.id == id && c.digest.Some?)
  {
  }

  /**
   A build keeps token and legacy keys apart exactly when no id that has a token somewhere ends with
   an entry that has none; a configuration that repeats an id this way accepts the id alone.
   */
  lemma BuildDisjointIff(cs: seq<Cred>)
    ensures Build(cs).tokenKeys !! Build(cs).legacy <==> forall id :: HasToken(cs, id) ==> !EndsWithoutToken(cs, id)
  {
    forall id
      ensures (id in Build(cs).tokenKeys <==> HasToken(cs, id))
              && (id in Build(cs).legacy <==> EndsWithoutToken(cs, id))
    {
      BuildMembership(cs, id);
    }
  }

  /** For instance, a key listed with a token and again without one is both a token key and a legacy key. */
  lemma RepeatedIdIsBoth(d: Digest)
    ensures var a := Build([Cred("k", Some(d), None), Cred("k", None, None)]); "k" in a.tokenKeys && "k" in a.legacy
  {
    var cs := [Cred("k", Some(d), None), Cred("k", None, None)];
    BuildMembership(cs, "k");
    assert cs[0] in cs && cs[1].id == "k";
  }

  // ── Who is let in ──

  /** The credential has not expired. */
  predicate InForce(c: Cred, now: nat) { c.expires.Some? ==> now < c.expires.value }

  /** A query key is accepted exactly for a key without a token, under its own id. */
  lemma QueryKeyIff(a: Auth, cs: seq<Cred>, hash: Hash, id: string, who: string, now: nat)
    requires Holds(a, cs) && Distinguishable(cs)
    ensures Authenticate(a, hash, None, Some(id), now) == Ok(who) <==>
            who == id && exists c :: c in cs && c.id == id && c.digest.None? && InForce(c, now)
  {
  }

  /** A bearer is accepted exactly as the key whose token it is, whatever the query key says. */
  lemma BearerIff(a: Auth, cs: seq<Cred>, hash: Hash, token: string, queryKey: Option<string>, who: string, now: nat)
    requires Holds(a, cs) && Distinguishable(cs)
    ensures Authenticate(a, hash, Some(token), queryKey, now) == Ok(who) <==>
            token != [] && exists c :: c in cs && c.id == who && c.digest == Some(hash(token)) && InForce(c, now)
  {
  }

  /** A key is told that it expired exactly if it would have been let in before, and nobody gets in without either. */
  lemma ExpiredIff(a: Auth, cs: seq<Cred>, hash: Hash, bearer: Option<string>, queryKey: Option<string>, now: nat)
    requires Holds(a, cs) && Distinguishable(cs)
    ensures Authenticate(a, hash, bearer, queryKey, now) == Err(ExpiredKey) <==>
            exists c :: && c in cs && !InForce(c, now)
                        && (if bearer.Some? then bearer.value != [] && c.digest == Some(hash(bearer.value))
                            else queryKey == Some(c.id) && c.digest.None?)
    ensures Authenticate(a, hash, bearer, queryKey, now) == Err(MissingKey) <==> bearer.None? && queryKey.None?
  {
  }

  /** A reference decides before a digest, a digest before legacy mode, and the expiry always goes along. */
  lemma CredentialOf(hash: Hash, resolve: Resolver, id: string, ref: Option<string>, hex: Option<string>,
                     expires: Option<nat>)
    ensures var r := CredOf(hash, resolve, KeyConfig(id, ref, hex, expires));
            && (r.Ok? ==> r.value.id == id && r.value.expires == expires)
            && (ref.Some? ==> (r.Ok? <==> resolve(ref.value).Ok?))
            && (ref.Some? && r.Ok? ==> r.value.digest == Some(hash(resolve(ref.value).value)))
            && (ref.Some? && r.Err? ==> r.error == resolve(ref.value).error)
            && (ref.None? && hex.Some? && r.Ok? ==> r.value.digest.Some? && Hex.Spells(hex.value, r.value.digest.value))
            && (ref.None? && hex.Some? && r.Err? ==> r.error == BadConfig && forall b :: |b| == 32 ==>
              !Hex.Spells(hex.value, b))
            && (ref.None? && hex.None? ==> r.Ok? && r.value.digest.None?)
  {
  }

  // ── Issued tokens ──

  /** After issuing a token to key `i` it authenticates as that key until it expires, and the id alone is refused. */
  lemma IssuedTokenAuthenticates(hash: Hash, cs: seq<Cred>, i: nat, token: string, expires: Option<nat>, now: nat)
    requires i < |cs| && Sound(cs) && token != [] && forall j :: 0 <= j < |cs| && j != i ==>
             cs[j].digest != Some(hash(token))
    ensures var a := Build(Edited(cs, i, Some(hash(token)), expires));
            && Authenticate(a, hash, Some(token), None, now) ==
              (if expires.Some? && now >= expires.value then Err(ExpiredKey) else Ok(cs[i].id))
            && Authenticate(a, hash, None, Some(cs[i].id), now) == Err(InvalidKey)
  {
    var es := Edited(cs, i, Some(hash(token)), expires);
    EditedIsSound(cs, i, Some(hash(token)), expires);
    SoundIsDistinguishable(es);
    BuildHolds(es);
    HeldTokenAuthenticates(Build(es), es, i, hash, token, now);
    NotLegacy(Build(es), es, i);
  }

  /** A held token authenticates as its key until that key's expiry. */
  lemma HeldTokenAuthenticates(a: Auth, cs: seq<Cred>, i: nat, hash: Hash, token: string, now: nat)
    requires Holds(a, cs) && Distinguishable(cs) && i < |cs| && cs[i].digest == Some(hash(token))
    ensures Authenticate(a, hash, Some(token), None, now) ==
            if token == [] then Err(InvalidKey)
            else if cs[i].expires.Some? && now >= cs[i].expires.value then Err(ExpiredKey) else Ok(cs[i].id)
  {
  }

  /** The token it replaced is refused at once. */
  lemma RotatedTokenRefused(hash: Hash, cs: seq<Cred>, i: nat, d: Digest, expires: Option<nat>, now: nat,
                            previous: string)
    requires i < |cs| && Sound(cs) && cs[i].digest == Some(hash(previous)) && hash(previous) != d
    requires forall j :: 0 <= j < |cs| && j != i ==> cs[j].digest != Some(d)
    ensures Authenticate(Build(Edited(cs, i, Some(d), expires)), hash, Some(previous), None, now) == Err(InvalidKey)
  {
    OldDigestGone(cs, i, d, expires, hash(previous));
  }

  /** The other keys' tokens work as before. */
  lemma OtherTokensUnaffected(hash: Hash, cs: seq<Cred>, i: nat, d: Digest, expires: Option<nat>, now: nat, j: nat,
                              token: string)
    requires i < |cs| && Sound(cs) && j < |cs| && j != i && cs[j].digest == Some(hash(token))
    requires forall k :: 0 <= k < |cs| && k != i ==> cs[k].digest != Some(d)
    ensures Authenticate(Build(Edited(cs, i, Some(d), expires)), hash, Some(token), None, now) ==
            Authenticate(Build(cs), hash, Some(token), None, now)
  {
    var es := Edited(cs, i, Some(d), expires);
    EditedIsSound(cs, i, Some(d), expires);
    SoundIsDistinguishable(cs);
    SoundIsDistinguishable(es);
    BuildHolds(es);
    BuildHolds(cs);
    HeldTokenAuthenticates(Build(es), es, j, hash, token, now);
    HeldTokenAuthenticates(Build(cs), cs, j, hash, token, now);
  }

  lemma NotLegacy(a: Auth, cs: seq<Cred>, i: nat)
    requires Holds(a, cs) && Distinguishable(cs) && i < |cs| && cs[i].digest.Some?
    ensures cs[i].id !in a.legacy
  {
  }

  lemma OldDigestGone(cs: seq<Cred>, i: nat, d: Digest, expires: Option<nat>, previous: Digest)
    requires i < |cs| && Sound(cs) && cs[i].digest == Some(previous) && previous != d
    requires forall j :: 0 <= j < |cs| && j != i ==> cs[j].digest != Some(d)
    ensures previous !in Build(Edited(cs, i, Some(d), expires)).tokens
  {
    var es := Edited(cs, i, Some(d), expires);
    EditedIsSound(cs, i, Some(d), expires);
    SoundIsDistinguishable(es);
    BuildHolds(es);
    forall c | c in es ensures c.digest != Some(previous) {
      var j :| 0 <= j < |es| && es[j] == c;
      if j != i { assert es[j] == cs[j]; }
    }
  }
}
