/**
 * The authenticator's base32 decoder (RFC 4648, section 6 alphabet).
 *
 * Every character is upper-cased and looked up in the alphabet; characters
 * that are not found are skipped.  Each digit found contributes its value as
 * five binary digits to a string of bits, and the bits are then cut into
 * bytes of eight, a trailing group of fewer than eight bits being dropped.
 */
module Base32 {
  import opened Common

  const Alphabet: string := "ABCDEFGHIJKLMNOPQRSTUVWXYZ234567"

  /**
   * `alphabet.indexOf(c.toUpperCase())`.  Besides the ASCII letters (in
   * either case) and the digits 2-7, JavaScript's upper-casing turns U+0131
   * (dotless i) into "I", U+017F (long s) into "S", and the ligatures U+FB05
   * and U+FB06 into "ST", which `indexOf` finds where "S" stands.
   */
  function DigitValue(c: char): (v: int)
    ensures -1 <= v < 32
  {
    if 'A' <= c <= 'Z' then c as int - 'A' as int
    else if 'a' <= c <= 'z' then c as int - 'a' as int
    else if '2' <= c <= '7' then c as int - '2' as int + 26
    else if c == '\U{0131}' then 8
    else if c == '\U{017F}' || c == '\U{FB05}' || c == '\U{FB06}' then 18
    else -1
  }

  predicate IsDigit(c: char) { DigitValue(c) >= 0 }

  /** The digit at position v of the alphabet decodes back to v. */
  lemma AlphabetDecodes(v: nat)
    requires v < 32
    ensures |Alphabet| == 32 && DigitValue(Alphabet[v]) == v
  {
  }

  /** Upper-casing a character never changes whether or how it decodes. */
  lemma DigitValueUpper(c: char)
    ensures DigitValue(UpperChar(c)) == DigitValue(c)
  {
  }

  /** How many characters of s are base32 digits. */
  function CountDigits(s: string): nat
  {
    if s == [] then 0
    else CountDigits(s[..|s| - 1]) + (if IsDigit(s[|s| - 1]) then 1 else 0)
  }

  /** `val.toString(2).padStart(5, '0')` for a digit, "" for a skipped character. */
  function Chunk(c: char): (r: string)
    ensures AllDigitsIn(r, 2)
  {
    if IsDigit(c) then PadStart(NumberToString(DigitValue(c), 2), 5, '0') else ""
  }

  /** A digit contributes exactly five bits, whose value is the digit's. */
  lemma {:induction false} ChunkOfDigit(c: char)
    requires IsDigit(c)
    ensures |Chunk(c)| == 5
    ensures DigitsValue(Chunk(c), 2) == DigitValue(c)
  {
    var v := DigitValue(c);
    var t := NumberToString(v, 2);
    PowFacts();
    NumberToStringLength(v, 2, 5);
    NumberToStringValue(v, 2);
    LeadingZerosValue(5 - |t|, t, 2);
    assert PadStart(t, 5, '0') == seq(5 - |t|, _ => '0') + t;
  }

  lemma ChunkLength(c: char)
    ensures |Chunk(c)| == if IsDigit(c) then 5 else 0
  {
    if IsDigit(c) {
      ChunkOfDigit(c);
    }
  }

  /** The string `bits` after the first loop of `base32Decode`. */
  function BitString(s: string): (bits: string)
    ensures AllDigitsIn(bits, 2)
    ensures |bits| == 5 * CountDigits(s)
  {
    if s == [] then ""
    else
      var c := s[|s| - 1];
      var prefix := BitString(s[..|s| - 1]);
      ChunkLength(c);
      AllDigitsAppend(prefix, Chunk(c), 2);
      prefix + Chunk(c)
  }

  /**
   * `parseInt(b, 2)` for at most eight binary digits, as a `Uint8Array`
   * stores it: the byte is built one bit at a time, most significant first.
   */
  function ByteOfBits(b: string): (r: byte)
    requires |b| <= 8 && AllDigitsIn(b, 2)
    ensures r as int == DigitsValue(b, 2)
  {
    if b == [] then 0
    else
      var p := b[..|b| - 1];
      var x := ByteOfBits(p);
      var d: byte := if b[|b| - 1] == '1' then 1 else 0;
      assert x as int < 128 by {
        DigitsValueBound(p, 2);
        PowMonotone(2, |p|, 7);
        PowFacts();
      }
      ShiftInBit(x, d);
      (x << 1) | d
  }

  lemma {:induction false} DigitsValueBound(s: string, radix: nat)
    requires 2 <= radix && AllDigitsIn(s, radix)
    ensures DigitsValue(s, radix) < Pow(radix, |s|)
  {
    if s != [] {
      var p := s[..|s| - 1];
      DigitsValueBound(p, radix);
      var P := Pow(radix, |p|);
      MulMonotone(DigitsValue(p, radix), P - 1, radix);
      MulDistrib(P - 1, 1, radix);
      assert Pow(radix, |s|) == P * radix;
    }
  }

  /** The bytes the second loop of `base32Decode` pushes: bits [8k, 8k + 8) make byte k. */
  function BitsToBytes(bits: string): (r: seq<byte>)
    requires AllDigitsIn(bits, 2)
  {
    seq(|bits| / 8, k requires 0 <= k < |bits| / 8 => ByteOfBits(bits[8 * k..8 * k + 8]))
  }

  /** The result of `base32Decode(s)`. */
  function Decoded(s: string): seq<byte>
  {
    BitsToBytes(BitString(s))
  }

  /** `base32Decode`: builds the bit string, then cuts it into bytes. */
  method Base32Decode(s: string) returns (bytes: seq<byte>)
    ensures bytes == Decoded(s)
  {
    var bits := CollectBits(s);
    bytes := CutBytes(bits);
  }

  /** The first loop of `base32Decode`: five bits per digit, in input order. */
  method CollectBits(s: string) returns (bits: string)
    ensures bits == BitString(s)
  {
    bits := "";
    var i := 0;
    while i < |s|
      invariant 0 <= i <= |s|
      invariant bits == BitString(s[..i])
    {
      assert s[..i + 1][..i] == s[..i];
      bits := bits + Chunk(s[i]);
      i := i + 1;
    }
    assert s[..i] == s;
  }

  /** The second loop of `base32Decode`: one byte per whole group of eight bits. */
  method CutBytes(bits: string) returns (bytes: seq<byte>)
    requires AllDigitsIn(bits, 2)
    ensures bytes == BitsToBytes(bits)
  {
    bytes := [];
    var i := 0;
    while i + 8 <= |bits|
      invariant i == 8 * |bytes| && |bytes| <= |bits| / 8
      invariant bytes == BitsToBytes(bits)[..|bytes|]
    {
      ghost var all := BitsToBytes(bits);
      assert all[|bytes|] == ByteOfBits(bits[i..i + 8]);
      assert all[..|bytes| + 1] == all[..|bytes|] + [all[|bytes|]];
      bytes := bytes + [ByteOfBits(bits[i..i + 8])];
      i := i + 8;
    }
  }

  // ----- properties ------------------------------------------------------

  /** With k digits in the input the output has exactly floor(5k / 8) bytes. */
  lemma DecodedLength(s: string)
    ensures |Decoded(s)| == 5 * CountDigits(s) / 8
  {
  }

  /** The output is never longer than the input. */
  lemma DecodedShorter(s: string)
    ensures |Decoded(s)| <= |s|
  {
    CountDigitsAtMost(s);
  }

  lemma {:induction false} CountDigitsAtMost(s: string)
    ensures CountDigits(s) <= |s|
  {
    if s != [] {
      CountDigitsAtMost(s[..|s| - 1]);
    }
  }

  lemma {:induction false} BitStringAppend(a: string, b: string)
    ensures BitString(a + b) == BitString(a) + BitString(b)
  {
    if b == [] {
      assert a + b == a;
    } else {
      var b', c := b[..|b| - 1], b[|b| - 1];
      assert a + b == (a + b') + [c];
      assert b == b' + [c];
      BitStringSnoc(a + b', c);
      BitStringSnoc(b', c);
      BitStringAppend(a, b');
      AppendAssoc(BitString(a), BitString(b'), Chunk(c));
    }
  }

  lemma AppendAssoc(x: string, y: string, z: string)
    ensures (x + y) + z == x + (y + z)
  {
  }

  /** One more character adds its chunk. */
  lemma BitStringSnoc(s: string, c: char)
    ensures BitString(s + [c]) == BitString(s) + Chunk(c)
  {
    assert (s + [c])[..|s|] == s;
  }

  /** A character outside the alphabet is skipped wherever it stands. */
  lemma SkipsNonDigit(a: string, c: char, b: string)
    requires !IsDigit(c)
    ensures Decoded(a + [c] + b) == Decoded(a + b)
  {
    BitStringAppend(a + [c], b);
    BitStringAppend(a, b);
    BitStringSnoc(a, c);
    ChunkLength(c);
    assert BitString(a) + Chunk(c) == BitString(a);
    assert BitString(a + [c] + b) == BitString(a + b);
  }

  /** Decoding is case-insensitive. */
  lemma {:induction false} DecodedUpper(s: string)
    ensures Decoded(Upper(s)) == Decoded(s)
  {
    BitStringUpper(s);
  }

  lemma {:induction false} BitStringUpper(s: string)
    ensures BitString(Upper(s)) == BitString(s)
  {
    if s != [] {
      var u := Upper(s);
      var p, c := s[..|s| - 1], s[|s| - 1];
      assert s == p + [c];
      assert u == Upper(p) + [UpperChar(c)];
      DigitValueUpper(c);
      assert Chunk(UpperChar(c)) == Chunk(c);
      BitStringSnoc(p, c);
      BitStringSnoc(Upper(p), UpperChar(c));
      BitStringUpper(p);
    }
  }

  // ----- the decoded bytes as a number -----------------------------------

  /** The number the input's digits spell in base 32, skipped characters ignored. */
  function Base32Number(s: string): nat
  {
    if s == [] then 0
    else
      var c := s[|s| - 1];
      if IsDigit(c) then Base32Number(s[..|s| - 1]) * 32 + DigitValue(c)
      else Base32Number(s[..|s| - 1])
  }

  /** Big-endian value of a byte string. */
  function BytesNumber(b: seq<byte>): nat
  {
    if b == [] then 0 else BytesNumber(b[..|b| - 1]) * 256 + b[|b| - 1] as nat
  }

  lemma {:induction false} DigitsValueAppend(a: string, b: string, radix: nat)
    requires AllDigitsIn(a, radix) && AllDigitsIn(b, radix)
    ensures AllDigitsIn(a + b, radix)
    ensures DigitsValue(a + b, radix) == DigitsValue(a, radix) * Pow(radix, |b|) + DigitsValue(b, radix)
  {
    if b == [] {
      assert a + b == a;
    } else {
      var b' := b[..|b| - 1];
      var d := DigitVal(b[|b| - 1]);
      assert (a + b)[..|a + b| - 1] == a + b';
      assert (a + b)[|a + b| - 1] == b[|b| - 1];
      DigitsValueAppend(a, b', radix);
      var x, y, p := DigitsValue(a, radix), DigitsValue(b', radix), Pow(radix, |b'|);
      MulAddDistrib(x, p, y, radix);
      assert Pow(radix, |b|) == p * radix;
      assert DigitsValue(b, radix) == y * radix + d;
    }
  }

  /** The bit string spells, in base 2, the number the digits spell in base 32. */
  lemma {:induction false} BitStringNumber(s: string)
    ensures DigitsValue(BitString(s), 2) == Base32Number(s)
  {
    if s != [] {
      var p := s[..|s| - 1];
      var c := s[|s| - 1];
      BitStringNumber(p);
      assert BitString(s) == BitString(p) + Chunk(c);
      if IsDigit(c) {
        AppendDigitNumber(BitString(p), c);
      } else {
        assert BitString(s) == BitString(p);
      }
    }
  }

  /** Appending a digit's five bits multiplies by 32 and adds the digit. */
  lemma AppendDigitNumber(a: string, c: char)
    requires AllDigitsIn(a, 2) && IsDigit(c)
    ensures AllDigitsIn(a + Chunk(c), 2)
    ensures DigitsValue(a + Chunk(c), 2) == DigitsValue(a, 2) * 32 + DigitValue(c)
  {
    ChunkOfDigit(c);
    DigitsValueAppend(a, Chunk(c), 2);
    PowFacts();
  }

  lemma {:induction false} BitsToBytesNumber(bits: string, j: nat)
    requires AllDigitsIn(bits, 2) && j <= |bits| / 8
    ensures BytesNumber(BitsToBytes(bits)[..j]) == DigitsValue(bits[..8 * j], 2)
  {
    if j == 0 {
      assert BitsToBytes(bits)[..0] == [];
      assert bits[..0] == [];
    } else {
      var bytes := BitsToBytes(bits);
      BitsToBytesNumber(bits, j - 1);
      BytesNumberStep(bytes, j);
      ByteAt(bits, j - 1);
      BitsSplit(bits, 8 * (j - 1), 8 * j);
      ByteAppend(bits[..8 * (j - 1)], bits[8 * (j - 1)..8 * j]);
    }
  }

  lemma BitsSplit(bits: string, i: nat, k: nat)
    requires AllDigitsIn(bits, 2) && i <= k <= |bits|
    ensures bits[..k] == bits[..i] + bits[i..k]
    ensures AllDigitsIn(bits[..i], 2) && AllDigitsIn(bits[i..k], 2)
  {
    assert forall t :: 0 <= t < k - i ==> bits[i..k][t] == bits[i + t];
  }

  /** One more byte multiplies the value by 256 and adds its own. */
  lemma BytesNumberStep(b: seq<byte>, j: nat)
    requires 0 < j <= |b|
    ensures BytesNumber(b[..j]) == BytesNumber(b[..j - 1]) * 256 + b[j - 1] as nat
  {
    assert b[..j][..j - 1] == b[..j - 1];
  }

  /** Byte k of the output is the value of bits 8k to 8k + 7. */
  lemma ByteAt(bits: string, k: nat)
    requires AllDigitsIn(bits, 2) && k < |bits| / 8
    ensures BitsToBytes(bits)[k] as nat == DigitsValue(bits[8 * k..8 * k + 8], 2)
  {
  }

  /** Eight more bits multiply the value by 256 and add theirs. */
  lemma ByteAppend(a: string, chunk: string)
    requires AllDigitsIn(a, 2) && AllDigitsIn(chunk, 2) && |chunk| == 8
    ensures DigitsValue(a + chunk, 2) == DigitsValue(a, 2) * 256 + DigitsValue(chunk, 2)
  {
    DigitsValueAppend(a, chunk, 2);
    PowFacts();
  }

  /**
   * RFC 4648 read as arithmetic: the number spelled by the base32 digits is
   * the decoded bytes, read as a big-endian number, followed by the
   * (5k mod 8) bits of the incomplete trailing group, which are dropped.
   */
  lemma DecodedNumber(s: string)
    ensures var tail := BitString(s)[8 * |Decoded(s)|..];
      && |tail| == (5 * CountDigits(s)) % 8
      && AllDigitsIn(tail, 2)
      && Base32Number(s) == BytesNumber(Decoded(s)) * Pow(2, |tail|) + DigitsValue(tail, 2)
      && DigitsValue(tail, 2) < Pow(2, |tail|)
  {
    BitStringNumber(s);
    CutBytesNumber(BitString(s));
  }

  /** Cutting bits into whole bytes leaves the |bits| mod 8 trailing bits over. */
  lemma CutBytesNumber(bits: string)
    requires AllDigitsIn(bits, 2)
    ensures var tail := bits[8 * |BitsToBytes(bits)|..];
      && |tail| == |bits| % 8
      && AllDigitsIn(tail, 2)
      && DigitsValue(bits, 2) == BytesNumber(BitsToBytes(bits)) * Pow(2, |tail|) + DigitsValue(tail, 2)
      && DigitsValue(tail, 2) < Pow(2, |tail|)
  {
    var m := |bits| / 8;
    var hi, lo := bits[..8 * m], bits[8 * m..];
    assert bits == hi + lo;
    assert AllDigitsIn(hi, 2) && AllDigitsIn(lo, 2);
    DigitsValueAppend(hi, lo, 2);
    DigitsValueBound(lo, 2);
    BitsToBytesNumber(bits, m);
    assert BitsToBytes(bits)[..m] == BitsToBytes(bits);
  }
}
