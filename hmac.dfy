/**
 * The authenticator's HMAC-SHA1 (RFC 2104, section 2, with B = 64 and
 * L = 20), and the `concat` helper it builds its two hash inputs with.
 */
module Hmac {
  import opened Common
  import opened Sha1

  /** B of RFC 2104: the SHA-1 block length in bytes. */
  const BlockSize: nat := 64

  /** The inner and outer pad bytes, ipad and opad of RFC 2104. */
  const Ipad: byte := 0x36
  const Opad: byte := 0x5c

  /** The key as the block it is padded to: hashed first when longer than a block, then zeros. */
  function BlockKey(key: seq<byte>): (k: seq<byte>)
    requires |key| < MaxLength
    ensures |k| == BlockSize
  {
    var short := if |key| > BlockSize then Sha1Digest(key) else key;
    short + seq(BlockSize - |short|, _ => 0)
  }

  /** Every byte of k exclusive-or-ed with pad. */
  function XorPad(k: seq<byte>, pad: byte): (r: seq<byte>)
    ensures |r| == |k|
  {
    seq(|k|, i requires 0 <= i < |k| => k[i] ^ pad)
  }

  /** H(K ^ opad, H(K ^ ipad, text)), section 2 of RFC 2104. */
  function HmacSpec(key: seq<byte>, message: seq<byte>): (r: seq<byte>)
    requires |key| < MaxLength && BlockSize + |message| < MaxLength
    ensures |r| == 20
  {
    var k := BlockKey(key);
    var inner := Sha1Digest(XorPad(k, Ipad) + message);
    Sha1Digest(XorPad(k, Opad) + inner)
  }

  /**
   * `concat(a, b)`: a new buffer of length |a| + |b|, `set` with a at 0
   * and with b at |a|.
   */
  method Concat(a: seq<byte>, b: seq<byte>) returns (r: seq<byte>)
    ensures |r| == |a| + |b|
    ensures r[..|a|] == a && r[|a|..] == b
  {
    var result := new byte[|a| + |b|](_ => 0);
    forall i | 0 <= i < |a| {
      result[i] := a[i];
    }
    forall i | 0 <= i < |b| {
      result[|a| + i] := b[i];
    }
    r := result[..];
  }

  /** A buffer whose two parts are a and b is a + b. */
  lemma Joined(r: seq<byte>, a: seq<byte>, b: seq<byte>)
    requires |r| == |a| + |b| && r[..|a|] == a && r[|a|..] == b
    ensures r == a + b
  {
    assert r == r[..|a|] + r[|a|..];
  }

  /** The pad loop of `hmacSHA1`: `ipad[i] = keyPadded[i] ^ 0x36`, `opad[i] = keyPadded[i] ^ 0x5c`. */
  method Pads(keyPadded: array<byte>) returns (ipad: array<byte>, opad: array<byte>)
    requires keyPadded.Length == BlockSize
    ensures fresh(ipad) && fresh(opad)
    ensures ipad[..] == XorPad(keyPadded[..], Ipad) && opad[..] == XorPad(keyPadded[..], Opad)
  {
    ipad := new byte[BlockSize](_ => 0);
    opad := new byte[BlockSize](_ => 0);
    ghost var inner, outer := XorPad(keyPadded[..], Ipad), XorPad(keyPadded[..], Opad);
    var i := 0;
    while i < BlockSize
      invariant 0 <= i <= BlockSize
      invariant ipad[..i] == inner[..i] && opad[..i] == outer[..i]
    {
      ipad[i] := keyPadded[i] ^ Ipad;
      opad[i] := keyPadded[i] ^ Opad;
      OneMore(ipad[..], inner, i);
      OneMore(opad[..], outer, i);
      i := i + 1;
    }
    assert ipad[..] == ipad[..BlockSize];
    assert opad[..] == opad[..BlockSize];
  }

  lemma OneMore(s: seq<byte>, t: seq<byte>, i: nat)
    requires i < |s| == |t| && s[..i] == t[..i] && s[i] == t[i]
    ensures s[..i + 1] == t[..i + 1]
  {
    assert s[..i + 1] == s[..i] + [s[i]];
    assert t[..i + 1] == t[..i] + [t[i]];
  }

  /** `keyPadded`: a zeroed 64-byte buffer with the (short) key `set` at 0. */
  method PadKey(k: seq<byte>) returns (keyPadded: array<byte>)
    requires |k| <= BlockSize
    ensures fresh(keyPadded)
    ensures keyPadded[..] == k + seq(BlockSize - |k|, _ => 0)
  {
    keyPadded := new byte[BlockSize](_ => 0);
    forall i | 0 <= i < |k| {
      keyPadded[i] := k[i];
    }
    assert keyPadded[..] == k + seq(BlockSize - |k|, _ => 0);
  }

  /** `hmacSHA1(key, message)`. */
  method HmacSha1(key: seq<byte>, message: seq<byte>) returns (mac: seq<byte>)
    requires |key| < MaxLength && BlockSize + |message| < MaxLength
    ensures mac == HmacSpec(key, message)
  {
    var k := key;
    if |k| > BlockSize {
      k := Sha1.Sha1(k);
    }
    var keyPadded := PadKey(k);
    assert keyPadded[..] == BlockKey(key);
    var ipad, opad := Pads(keyPadded);
    var innerData := Concat(ipad[..], message);
    Joined(innerData, ipad[..], message);
    var inner := Sha1.Sha1(innerData);
    var outerData := Concat(opad[..], inner);
    Joined(outerData, opad[..], inner);
    mac := Sha1.Sha1(outerData);
  }

  // ----- properties ------------------------------------------------------

  /** A key longer than a block gives the same MAC as its digest (RFC 2104, section 3). */
  lemma LongKey(key: seq<byte>, message: seq<byte>)
    requires BlockSize < |key| < MaxLength && BlockSize + |message| < MaxLength
    ensures HmacSpec(key, message) == HmacSpec(Sha1Digest(key), message)
  {
    assert BlockKey(key) == BlockKey(Sha1Digest(key));
  }

  /**
   * Zero bytes appended to a key that still fits a block do not change the
   * MAC: the key is zero-padded to the block, so keys that differ only in
   * trailing zeros authenticate alike.
   */
  lemma ZeroPadding(key: seq<byte>, n: nat, message: seq<byte>)
    requires |key| + n <= BlockSize && BlockSize + |message| < MaxLength
    ensures HmacSpec(key + seq(n, _ => 0), message) == HmacSpec(key, message)
  {
    var padded := key + seq(n, _ => 0);
    assert BlockKey(padded) == BlockKey(key) by {
      assert forall i :: 0 <= i < BlockSize ==> BlockKey(padded)[i] == BlockKey(key)[i];
    }
  }
}
