/** Lower-case hexadecimal digests (src/admin/tokens.rs, src/gateway_auth.rs). */
module Hex {
  import opened Prelude
  import opened Utf8

  const DIGEST_LEN := 32

  function Digit(n: nat): char
    requires n < 16
  {
    if n < 10 then '0' + n as char else 'a' + (n - 10) as char
  }

  /** `hex`: two digits per byte. */
  function Encode(bytes: Bytes): (s: string)
    ensures |s| == 2 * |bytes|
  {
    if bytes == [] then []
    else Encode(bytes[..|bytes| - 1]) + [Digit(bytes[|bytes| - 1] as nat / 16), Digit(bytes[|bytes| - 1] as nat % 16)]
  }

  /** `char::to_digit(16)`: both cases are accepted. */
  function ToDigit(c: char): (r: Option<nat>)
    ensures r.Some? ==> r.value < 16
  {
    if '0' <= c <= '9' then Some((c - '0') as nat)
    else if 'a' <= c <= 'f' then Some((c - 'a') as nat + 10)
    else if 'A' <= c <= 'F' then Some((c - 'A') as nat + 10)
    else None
  }

  /** The digits, in both cases, and nothing else. */
  lemma ToDigitIff(c: char, d: nat)
    ensures ToDigit(c) == Some(d) <==> d < 16 && (c == "0123456789abcdef"[d] || c == "0123456789ABCDEF"[d])
  {
    if d < 10 {
      assert "0123456789"[d] == '0' + d as char;
    } else if d < 16 {
      assert "abcdef"[d - 10] == 'a' + (d - 10) as char && "ABCDEF"[d - 10] == 'A' + (d - 10) as char;
    }
  }

  /** `b` is what the hex text `s` spells. */
  ghost predicate Spells(s: string, b: Bytes) {
    && |s| == 2 * |b|
    && forall i :: 0 <= i < |b| ==>
         var hi, lo := ToDigit(s[2 * i]), ToDigit(s[2 * i + 1]);
         hi.Some? && lo.Some? && b[i] as nat == 16 * hi.value + lo.value
  }

  method DecodeDigest(s: string) returns (r: Option<Bytes>)
    ensures r.Some? ==> |r.value| == DIGEST_LEN && Spells(s, r.value)
    ensures r.None? ==> forall b :: |b| == DIGEST_LEN ==> !Spells(s, b)
  {
    if |s| != 2 * DIGEST_LEN { return None; }
    var out: Bytes := [];
    for i := 0 to DIGEST_LEN
      invariant |out| == i && Spells(s[..2 * i], out)
    {
      var hi, lo := ToDigit(s[2 * i]), ToDigit(s[2 * i + 1]);
      if hi.None? || lo.None? { return None; }
      out := out + [(16 * hi.value + lo.value) as Byte];
    }
    assert s[..2 * DIGEST_LEN] == s;
    return Some(out);
  }

  lemma DigitRoundTrip(x: Byte)
    ensures ToDigit(Digit(x as nat / 16)) == Some(x as nat / 16) && ToDigit(Digit(x as nat % 16)) == Some(x as nat % 16)
  {
  }

  lemma {:induction false} EncodeSpells(b: Bytes)
    ensures Spells(Encode(b), b)
  {
    if b != [] {
      var front, x := b[..|b| - 1], b[|b| - 1];
      EncodeSpells(front);
      DigitRoundTrip(x);
      SpellsAppend(Encode(front), front, Digit(x as nat / 16), Digit(x as nat % 16), x);
    }
  }

  lemma SpellsAppend(s: string, front: Bytes, hi: char, lo: char, x: Byte)
    requires Spells(s, front) && ToDigit(hi).Some? && ToDigit(lo).Some?
             && x as nat == 16 * ToDigit(hi).value + ToDigit(lo).value
    ensures Spells(s + [hi, lo], front + [x])
  {
  }

  /** Digests are written in lower case. */
  lemma {:induction false} EncodeIsLower(b: Bytes, i: nat)
    requires i < |Encode(b)|
    ensures '0' <= Encode(b)[i] <= '9' || 'a' <= Encode(b)[i] <= 'f'
  {
    var n := |b| - 1;
    if i < 2 * n { EncodeIsLower(b[..n], i); }
  }

  /** A text spells at most one byte string, so decoding inverts encoding. */
  lemma SpellsUnique(s: string, a: Bytes, b: Bytes)
    requires Spells(s, a) && Spells(s, b)
    ensures a == b
  {
  }

  /** The decoding as a function: the one byte string the text spells. */
  ghost function Decode(s: string): Option<Bytes> {
    if b: Bytes :| |b| == DIGEST_LEN && Spells(s, b) then Some(b) else None
  }

  lemma DecodeEncode(b: Bytes)
    requires |b| == DIGEST_LEN
    ensures Decode(Encode(b)) == Some(b)
  {
    EncodeSpells(b);
    SpellsUnique(Encode(b), b, Decode(Encode(b)).value);
  }
}
