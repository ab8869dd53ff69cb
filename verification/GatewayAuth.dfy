/** The authentication state as the object behind the lock (src/gateway_auth.rs). */
module GatewayAuth {
  import opened Prelude
  import opened Utf8
  import Hex
  import A = AuthState

  class GatewayAuth {
    var tokens: map<A.Digest, string>
    var tokenKeys: set<string>
    var legacy: set<string>
    var expires: map<string, nat>

    ghost function Value(): A.Auth
      reads this
    {
      A.Auth(tokens, tokenKeys, legacy, expires)
    }

    constructor ()
      ensures Value() == A.EMPTY
    {
      tokens, tokenKeys, legacy, expires := map[], {}, {}, map[];
    }

    method InsertToken(id: string, d: A.Digest)
      modifies this
      ensures Value() == A.InsertToken(old(Value()), id, d)
    {
      tokens := map x | x in tokens && tokens[x] != id :: tokens[x];
      tokens := tokens[d := id];
      legacy := legacy - {id};
      tokenKeys := tokenKeys + {id};
    }

    method SetToken(id: string, d: A.Digest, expiresAt: Option<nat>)
      modifies this
      ensures Value() == A.SetToken(old(Value()), id, d, expiresAt)
    {
      InsertToken(id, d);
      if expiresAt.Some? { expires := expires[id := expiresAt.value]; } else { expires := expires - {id}; }
    }

    method ClearToken(id: string)
      modifies this
      ensures Value() == A.ClearToken(old(Value()), id)
    {
      tokens := map x | x in tokens && tokens[x] != id :: tokens[x];
      tokenKeys := tokenKeys - {id};
      expires := expires - {id};
      legacy := legacy + {id};
    }
  }

  method ReadCredential(hash: A.Hash, resolve: A.Resolver, key: A.KeyConfig) returns (r: Result<A.Cred, A.AuthError>)
    ensures r == A.CredOf(hash, resolve, key)
  {
    if key.tokenRef.Some? {
      var token := resolve(key.tokenRef.value);
      return if token.Ok? then Ok(A.Cred(key.id, Some(hash(token.value)), key.expiresAt)) else Err(token.error);
    }
    if key.tokenDigest.None? { return Ok(A.Cred(key.id, None, key.expiresAt)); }
    var digest := Hex.DecodeDigest(key.tokenDigest.value);
    DecodedIs(key.tokenDigest.value, digest);
    return if digest.Some? then Ok(A.Cred(key.id, digest, key.expiresAt)) else Err(A.BadConfig);
  }

  /** `from_config`: the first key whose credential cannot be read fails the whole build. */
  method FromConfig(hash: A.Hash, resolve: A.Resolver, keys: seq<A.KeyConfig>)
    returns (auth: GatewayAuth, failure: Option<A.AuthError>)
    ensures fresh(auth)
    ensures failure.None? ==> exists cs :: A.CredsOf(hash, resolve, keys, cs) && auth.Value() == A.Build(cs)
    ensures failure.Some? ==> forall cs :: !A.CredsOf(hash, resolve, keys, cs)
  {
    auth := new GatewayAuth();
    ghost var cs: seq<A.Cred> := [];
    for i := 0 to |keys|
      invariant fresh(auth) && A.CredsOf(hash, resolve, keys[..i], cs) && auth.Value() == A.Build(cs)
    {
      var read := ReadCredential(hash, resolve, keys[i]);
      if read.Err? { return auth, Some(read.error); }
      var c := read.value;
      if c.expires.Some? { auth.expires := auth.expires[c.id := c.expires.value]; }
      if c.digest.Some? { auth.InsertToken(c.id, c.digest.value); } else { auth.legacy := auth.legacy + {c.id}; }
      assert (cs + [c])[..|cs|] == cs;
      cs := cs + [c];
    }
    assert keys[..|keys|] == keys;
    return auth, None;
  }

  lemma DecodedIs(s: string, r: Option<Bytes>)
    requires r.Some? ==> |r.value| == Hex.DIGEST_LEN && Hex.Spells(s, r.value)
    requires r.None? ==> forall b :: |b| == Hex.DIGEST_LEN ==> !Hex.Spells(s, b)
    ensures Hex.Decode(s) == r
  {
    if r.Some? { Hex.SpellsUnique(s, r.value, Hex.Decode(s).value); }
  }

  /** The configuration edit of `issue_token`: the digest is stored in hex. */
  function Issued(hash: A.Hash, keys: seq<A.KeyConfig>, i: nat, token: string, expires: Option<nat>): seq<A.KeyConfig>
    requires i < |keys|
  {
    keys[i := keys[i].(tokenRef := None, tokenDigest := Some(Hex.Encode(hash(token))), expiresAt := expires)]
  }

  /** The edited configuration has the edited credentials: storing a digest in hex and reading it back loses nothing. */
  lemma IssuedCredentials(hash: A.Hash, resolve: A.Resolver, keys: seq<A.KeyConfig>, cs: seq<A.Cred>, i: nat,
                          token: string, expires: Option<nat>)
    requires i < |keys| && A.CredsOf(hash, resolve, keys, cs) && |hash(token)| == Hex.DIGEST_LEN
    ensures A.CredsOf(hash, resolve, Issued(hash, keys, i, token, expires), A.Edited(cs, i, Some(hash(token)), expires))
  {
    Hex.DecodeEncode(hash(token));
  }

  /** The configuration edit of `revoke_token`. */
  function Revoked(keys: seq<A.KeyConfig>, i: nat): seq<A.KeyConfig>
    requires i < |keys|
  {
    keys[i := A.KeyConfig(keys[i].id, None, None, None)]
  }

  /** Issuing in place agrees with rebuilding from the edited configuration, digests stored in hex and all. */
  lemma IssueAgreesWithConfig(hash: A.Hash, resolve: A.Resolver, keys: seq<A.KeyConfig>, cs: seq<A.Cred>,
                              es: seq<A.Cred>, i: nat, token: string, expires: Option<nat>)
    requires i < |keys| && A.CredsOf(hash, resolve, keys, cs) && A.Sound(cs) && |hash(token)| == Hex.DIGEST_LEN
    requires forall j :: 0 <= j < |cs| && j != i ==> cs[j].digest != Some(hash(token))
    requires A.CredsOf(hash, resolve, Issued(hash, keys, i, token, expires), es)
    ensures A.Build(es) == A.SetToken(A.Build(cs), keys[i].id, hash(token), expires)
  {
    IssuedCredentials(hash, resolve, keys, cs, i, token, expires);
    var edited := A.Edited(cs, i, Some(hash(token)), expires);
    SameCredentials(hash, resolve, Issued(hash, keys, i, token, expires), es, edited);
    A.SetTokenIsRebuild(cs, i, hash(token), expires);
    CredId(hash, resolve, keys[i]);
  }

  /** And so does revoking. */
  lemma RevokeAgreesWithConfig(hash: A.Hash, resolve: A.Resolver, keys: seq<A.KeyConfig>, cs: seq<A.Cred>,
                               es: seq<A.Cred>, i: nat)
    requires i < |keys| && A.CredsOf(hash, resolve, keys, cs) && A.Sound(cs)
    requires A.CredsOf(hash, resolve, Revoked(keys, i), es)
    ensures A.Build(es) == A.ClearToken(A.Build(cs), keys[i].id)
  {
    CredId(hash, resolve, keys[i]);
    SameCredentials(hash, resolve, Revoked(keys, i), es, A.Edited(cs, i, None, None));
    A.ClearTokenIsRebuild(cs, i);
  }

  lemma CredId(hash: A.Hash, resolve: A.Resolver, key: A.KeyConfig)
    ensures var c := A.CredOf(hash, resolve, key); c.Ok? ==> c.value.id == key.id
  {
  }

  lemma SameCredentials(hash: A.Hash, resolve: A.Resolver, keys: seq<A.KeyConfig>, a: seq<A.Cred>, b: seq<A.Cred>)
    requires A.CredsOf(hash, resolve, keys, a) && A.CredsOf(hash, resolve, keys, b)
    ensures a == b
  {
  }
}
