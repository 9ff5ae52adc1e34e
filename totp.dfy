/**
 * `generateTOTP` of the authenticator page: the time is cut into 30-second
 * steps (RFC 6238), the step number is written as 16 hex digits and turned
 * into 8 bytes, and the HMAC-SHA1 of those bytes is truncated to a 31-bit
 * number and then to six decimal digits (RFC 4226, section 5.3).
 */
module Totp {
  import opened Common
  import opened Base32
  import opened Sha1
  import opened Hmac

  /** The time step in seconds. */
  const Period: nat := 30
  /** 10^6: the code keeps six decimal digits. */
  const Modulus: nat := 1000000
  /** 2^53: times below it are integers a JavaScript number holds exactly. */
  const SafeLimit: nat := 0x20_0000_0000_0000
  /** 2^64: counters below it fit in 16 hex digits, that is 8 bytes. */
  const CounterLimit: nat := 0x1_0000_0000_0000_0000

  /** What the page shows when the secret is missing and decoding throws. */
  const Fallback: string := "000000"

  lemma HexPowers()
    ensures Pow(16, 2) == 256 && Pow(16, 16) == CounterLimit
  {
    assert Pow(16, 1) == 16;
    assert Pow(16, 2) == 256;
    assert Pow(16, 3) == 4096;
    assert Pow(16, 4) == 65536;
    assert Pow(16, 5) == 1048576;
    assert Pow(16, 6) == 16777216;
    assert Pow(16, 7) == 268435456;
    assert Pow(16, 8) == 4294967296;
    assert Pow(16, 9) == 68719476736;
    assert Pow(16, 10) == 1099511627776;
    assert Pow(16, 11) == 17592186044416;
    assert Pow(16, 12) == 281474976710656;
    assert Pow(16, 13) == 4503599627370496;
    assert Pow(16, 14) == 72057594037927936;
    assert Pow(16, 15) == 1152921504606846976;
    assert Pow(16, 16) == 18446744073709551616;
  }

  lemma BytePowers()
    ensures Pow(256, 8) == CounterLimit
  {
    assert Pow(256, 1) == 256;
    assert Pow(256, 2) == 65536;
    assert Pow(256, 3) == 16777216;
    assert Pow(256, 4) == 4294967296;
    assert Pow(256, 5) == 1099511627776;
    assert Pow(256, 6) == 281474976710656;
    assert Pow(256, 7) == 72057594037927936;
    assert Pow(256, 8) == 18446744073709551616;
  }

  lemma DecimalPowers()
    ensures Pow(10, 6) == Modulus
  {
    assert Pow(10, 1) == 10;
    assert Pow(10, 2) == 100;
    assert Pow(10, 3) == 1000;
    assert Pow(10, 4) == 10000;
    assert Pow(10, 5) == 100000;
    assert Pow(10, 6) == 1000000;
  }

  // ----- the counter message ---------------------------------------------

  /** `time.toString(16).padStart(16, '0')` */
  function CounterHex(c: nat): string
  {
    PadStart(NumberToString(c, 16), 16, '0')
  }

  /** A counter below 2^64 is written as exactly 16 hex digits that spell it. */
  lemma HexOfCounter(c: nat)
    requires c < CounterLimit
    ensures |CounterHex(c)| == 16 && AllDigitsIn(CounterHex(c), 16)
    ensures DigitsValue(CounterHex(c), 16) == c
  {
    var s := NumberToString(c, 16);
    HexPowers();
    NumberToStringLength(c, 16, 16);
    NumberToStringValue(c, 16);
    if |s| < 16 {
      assert CounterHex(c) == seq(16 - |s|, _ => '0') + s;
      LeadingZerosValue(16 - |s|, s, 16);
    }
  }

  function Min(a: nat, b: nat): nat { if a <= b then a else b }

  /** `parseInt(hex.substr(2k, 2), 16)`: the byte the k-th pass of `hexToBytes` pushes. */
  function HexPair(hex: string, k: nat): (r: byte)
    requires AllDigitsIn(hex, 16) && 2 * k < |hex|
    ensures AllDigitsIn(hex[2 * k..Min(2 * k + 2, |hex|)], 16)
    ensures r as nat == DigitsValue(hex[2 * k..Min(2 * k + 2, |hex|)], 16)
  {
    var pair := hex[2 * k..Min(2 * k + 2, |hex|)];
    HexSlice(hex, 2 * k, Min(2 * k + 2, |hex|));
    DigitsValueBound(pair, 16);
    PowMonotone(16, |pair|, 2);
    HexPowers();
    ByteOf(DigitsValue(pair, 16))
  }

  lemma HexSlice(hex: string, i: nat, k: nat)
    requires AllDigitsIn(hex, 16) && i <= k <= |hex|
    ensures AllDigitsIn(hex[i..k], 16)
  {
    assert forall t :: 0 <= t < k - i ==> hex[i..k][t] == hex[i + t];
  }

  /** The bytes of `hexToBytes(hex)`: one per pair of digits, a last odd digit alone. */
  function HexBytes(hex: string): (r: seq<byte>)
    requires AllDigitsIn(hex, 16)
    ensures |r| == (|hex| + 1) / 2
  {
    seq((|hex| + 1) / 2, k requires 0 <= k < (|hex| + 1) / 2 => HexPair(hex, k))
  }

  /** `hexToBytes(hex)` */
  method HexToBytes(hex: string) returns (bytes: seq<byte>)
    requires AllDigitsIn(hex, 16)
    ensures bytes == HexBytes(hex)
  {
    bytes := [];
    var i := 0;
    while i < |hex|
      invariant i % 2 == 0 && i <= |hex| + 1
      invariant bytes == HexBytes(hex)[..i / 2]
    {
      var end := if i + 2 <= |hex| then i + 2 else |hex|;
      HexSlice(hex, i, end);
      var value := DigitsValue(hex[i..end], 16);
      bytes := bytes + [HexPair(hex, i / 2)];
      assert value == HexPair(hex, i / 2) as nat;
      i := i + 2;
    }
    assert i / 2 == (|hex| + 1) / 2;
  }

  /** The RFC 4226 counter message: c as n bytes, most significant first. */
  function BigEndian(c: nat, n: nat): (r: seq<byte>)
    ensures |r| == n
  {
    if n == 0 then [] else DivMod(c, 256); BigEndian(c / 256, n - 1) + [ByteOf(c % 256)]
  }

  lemma {:induction false} BigEndianValue(c: nat, n: nat)
    requires c < Pow(256, n)
    ensures BytesNumber(BigEndian(c, n)) == c
  {
    if n > 0 {
      var r := BigEndian(c, n);
      assert r[..n - 1] == BigEndian(c / 256, n - 1);
      DivMod(c, 256);
      DivBelow(c, 256, Pow(256, n - 1));
      BigEndianValue(c / 256, n - 1);
    }
  }

  /** Two byte strings of one length with one big-endian value are equal. */
  lemma {:induction false} BytesNumberInjective(a: seq<byte>, b: seq<byte>)
    requires |a| == |b| && BytesNumber(a) == BytesNumber(b)
    ensures a == b
  {
    if a != [] {
      var n := |a| - 1;
      LastByte(a, b);
      SameByte(a[n], b[n]);
      BytesNumberInjective(a[..n], b[..n]);
      assert a == a[..n] + [a[n]];
      assert b == b[..n] + [b[n]];
    }
  }

  /** Equal values of equal length agree in the last byte and in the value of the rest. */
  lemma LastByte(a: seq<byte>, b: seq<byte>)
    requires |a| == |b| > 0 && BytesNumber(a) == BytesNumber(b)
    ensures BytesNumber(a[..|a| - 1]) == BytesNumber(b[..|b| - 1]) && a[|a| - 1] as nat == b[|b| - 1] as nat
  {
    var x, y := a[|a| - 1], b[|b| - 1];
    var p, q := BytesNumber(a[..|a| - 1]), BytesNumber(b[..|b| - 1]);
    assert BytesNumber(a) == p * 256 + x as nat;
    assert BytesNumber(b) == q * 256 + y as nat;
    LastDigit(p, x as nat, q, y as nat);
  }

  lemma LastDigit(p: nat, x: nat, q: nat, y: nat)
    requires x < 256 && y < 256 && p * 256 + x == q * 256 + y
    ensures p == q && x == y
  {
  }

  lemma SameByte(x: byte, y: byte)
    requires x as nat == y as nat
    ensures x == y
  {
  }

  lemma {:induction false} HexBytesNumber(hex: string, j: nat)
    requires AllDigitsIn(hex, 16) && 2 * j <= |hex|
    ensures AllDigitsIn(hex[..2 * j], 16)
    ensures BytesNumber(HexBytes(hex)[..j]) == DigitsValue(hex[..2 * j], 16)
  {
    HexSlice(hex, 0, 2 * j);
    if j == 0 {
      assert HexBytes(hex)[..0] == [];
      assert hex[..0] == [];
    } else {
      var front, pair := hex[..2 * j - 2], hex[2 * j - 2..2 * j];
      HexBytesNumber(hex, j - 1);
      BytesNumberStep(HexBytes(hex), j);
      HexSlice(hex, 2 * j - 2, 2 * j);
      assert hex[..2 * j] == front + pair;
      assert HexBytes(hex)[j - 1] as nat == DigitsValue(pair, 16);
      DigitsValueAppend(front, pair, 16);
      HexPowers();
    }
  }

  /**
   * The page's hex route builds the RFC 4226 message: the 16 hex digits of
   * a counter below 2^64 become its 8-byte big-endian encoding.
   */
  lemma CounterBytes(c: nat)
    requires c < CounterLimit
    ensures AllDigitsIn(CounterHex(c), 16)
    ensures HexBytes(CounterHex(c)) == BigEndian(c, 8)
  {
    var hex := CounterHex(c);
    HexOfCounter(c);
    BytePowers();
    SameBytes(hex, c, 8);
  }

  lemma SameBytes(hex: string, c: nat, n: nat)
    requires AllDigitsIn(hex, 16) && |hex| == 2 * n
    requires DigitsValue(hex, 16) == c && c < Pow(256, n)
    ensures HexBytes(hex) == BigEndian(c, n)
  {
    HexBytesValue(hex);
    BigEndianValue(c, n);
    BytesNumberInjective(HexBytes(hex), BigEndian(c, n));
  }

  /** An even number of hex digits spells the big-endian value of the bytes read from it. */
  lemma HexBytesValue(hex: string)
    requires AllDigitsIn(hex, 16) && |hex| % 2 == 0
    ensures BytesNumber(HexBytes(hex)) == DigitsValue(hex, 16)
  {
    var n := |hex| / 2;
    assert 2 * n == |hex|;
    HexBytesNumber(hex, n);
    var bytes := HexBytes(hex);
    assert bytes[..n] == bytes;
    assert hex[..2 * n] == hex;
  }

  // ----- dynamic truncation ----------------------------------------------

  /** `hmac[hmac.length - 1] & 0xf`: where the four bytes are taken from. */
  function Offset(mac: seq<byte>): (o: nat)
    requires |mac| == 20
    ensures o <= 15
  {
    (mac[|mac| - 1] & 0xf) as nat
  }

  /**
   * `binary`: bytes offset to offset + 3, the first with its top bit
   * cleared, shifted into place; the fields do not overlap, so the bitwise
   * or of the source is written as their sum.
   */
  function Truncate(mac: seq<byte>): (r: nat)
    requires |mac| == 20
    ensures r < 0x8000_0000
  {
    var o := Offset(mac);
    LowSeven(mac[o]);
    (mac[o] & 0x7f) as nat * 0x100_0000 + mac[o + 1] as nat * 0x1_0000
      + mac[o + 2] as nat * 0x100 + mac[o + 3] as nat
  }

  lemma LowSeven(x: byte)
    ensures (x & 0x7f) as nat == x as nat % 128
  {
  }

  /** RFC 4226, section 5.3: the truncation is the last 31 bits of the 4 bytes at the offset. */
  lemma TruncateIsLow31(mac: seq<byte>)
    requires |mac| == 20
    ensures Truncate(mac) == BytesNumber(mac[Offset(mac)..Offset(mac) + 4]) % 0x8000_0000
  {
    var o := Offset(mac);
    var w := mac[o..o + 4];
    var b0, b1, b2, b3 := w[0] as nat, w[1] as nat, w[2] as nat, w[3] as nat;
    FourBytes(w);
    LowSeven(w[0]);
    Low31(b0, b1, b2, b3);
    ModOf(BytesNumber(w), b0 / 128, Truncate(mac));
  }

  lemma ModOf(x: nat, q: nat, r: nat)
    requires x == q * 0x8000_0000 + r && r < 0x8000_0000
    ensures x % 0x8000_0000 == r
  {
  }

  /** Splitting the top byte at bit 7 splits the 32-bit value at bit 31. */
  lemma Low31(b0: nat, b1: nat, b2: nat, b3: nat)
    requires b0 < 256 && b1 < 256 && b2 < 256 && b3 < 256
    ensures ((b0 * 256 + b1) * 256 + b2) * 256 + b3 == (b0 / 128) * 0x8000_0000
      + ((b0 % 128) * 0x100_0000 + b1 * 0x1_0000 + b2 * 0x100 + b3)
    ensures ((b0 * 256 + b1) * 256 + b2) * 256 + b3 < 0x1_0000_0000
  {
    DivMod(b0, 128);
  }

  lemma FourBytes(w: seq<byte>)
    requires |w| == 4
    ensures BytesNumber(w) == ((w[0] as nat * 256 + w[1] as nat) * 256 + w[2] as nat) * 256 + w[3] as nat
  {
    assert w[..3][..2] == w[..2] && w[..2][..1] == w[..1] && w[..1][..0] == [];
    assert BytesNumber(w[..1]) == w[0] as nat;
    assert BytesNumber(w[..2]) == BytesNumber(w[..1]) * 256 + w[1] as nat;
    assert BytesNumber(w[..3]) == BytesNumber(w[..2]) * 256 + w[2] as nat;
  }

  // ----- the six digits --------------------------------------------------

  /** `(binary % 1000000).toString().padStart(6, '0')` */
  function Code(binary: nat): string
  {
    PadStart(NumberToString(binary % Modulus, 10), 6, '0')
  }

  /** The code is six decimal digits that spell binary mod 10^6. */
  lemma CodeShape(binary: nat)
    ensures |Code(binary)| == 6 && AllDigitsIn(Code(binary), 10)
    ensures DigitsValue(Code(binary), 10) == binary % Modulus
  {
    var n := binary % Modulus;
    var s := NumberToString(n, 10);
    DecimalPowers();
    NumberToStringLength(n, 10, 6);
    NumberToStringValue(n, 10);
    if |s| < 6 {
      assert Code(binary) == seq(6 - |s|, _ => '0') + s;
      LeadingZerosValue(6 - |s|, s, 10);
    }
  }

  // ----- TOTP --------------------------------------------------------------

  /** HOTP of RFC 4226 with six digits: HMAC-SHA1 of the 8-byte counter, truncated. */
  function Hotp(key: seq<byte>, c: nat): string
    requires |key| < MaxLength && c < CounterLimit
  {
    Code(Truncate(HmacSpec(key, BigEndian(c, 8))))
  }

  /**
   * What `generateTOTP(secret, timeCounter)` returns: None stands for a
   * null or undefined secret, on which `base32Decode` throws.
   */
  function TotpSpec(secret: Option<string>, t: nat): string
    requires secret.Some? ==> |secret.value| < MaxLength
    requires t < SafeLimit
  {
    match secret
    case None => Fallback
    case Some(s) =>
      var key := Decoded(s);
      DecodedShorter(s);
      var hex := CounterHex(t / Period);
      HexOfCounter(t / Period);
      Code(Truncate(HmacSpec(key, HexBytes(hex))))
  }

  /** `generateTOTP`, step by step, with the imperative decoder, hex reader and HMAC. */
  method GenerateTotp(secret: Option<string>, t: nat) returns (code: string)
    requires secret.Some? ==> |secret.value| < MaxLength
    requires t < SafeLimit
    ensures code == TotpSpec(secret, t)
  {
    if secret.None? {
      return Fallback;
    }
    var key := Base32Decode(secret.value);
    DecodedShorter(secret.value);
    var time := t / Period;
    var timeHex := CounterHex(time);
    HexOfCounter(time);
    var message := HexToBytes(timeHex);
    var mac := HmacSha1(key, message);
    code := Code(Truncate(mac));
  }

  // ----- properties ------------------------------------------------------

  /** The page's TOTP is RFC 6238 TOTP: HOTP of the decoded secret at step floor(t / 30). */
  lemma TotpIsHotp(s: string, t: nat)
    requires |s| < MaxLength && t < SafeLimit
    ensures |Decoded(s)| < MaxLength && t / Period < CounterLimit
    ensures TotpSpec(Some(s), t) == Hotp(Decoded(s), t / Period)
  {
    DecodedShorter(s);
    CounterBytes(t / Period);
  }

  /** Every result, the fallback included, is six decimal digits. */
  lemma TotpShape(secret: Option<string>, t: nat)
    requires secret.Some? ==> |secret.value| < MaxLength
    requires t < SafeLimit
    ensures |TotpSpec(secret, t)| == 6 && AllDigitsIn(TotpSpec(secret, t), 10)
  {
    if secret.Some? {
      DecodedShorter(secret.value);
      HexOfCounter(t / Period);
      CodeShape(Truncate(HmacSpec(Decoded(secret.value), HexBytes(CounterHex(t / Period)))));
    }
  }

  /** The code holds for a whole step: two times in the same 30-second step give the same code. */
  lemma SameWithinStep(secret: Option<string>, t1: nat, t2: nat)
    requires secret.Some? ==> |secret.value| < MaxLength
    requires t1 < SafeLimit && t2 < SafeLimit && t1 / Period == t2 / Period
    ensures TotpSpec(secret, t1) == TotpSpec(secret, t2)
  {
  }

  /** Letter case in the secret does not change the code. */
  lemma CaseInsensitive(s: string, t: nat)
    requires |s| < MaxLength && t < SafeLimit
    ensures |Upper(s)| < MaxLength
    ensures TotpSpec(Some(Upper(s)), t) == TotpSpec(Some(s), t)
  {
    DecodedUpper(s);
  }

  /** Characters outside the alphabet, spaces and '=' padding among them, do not change the code. */
  lemma SkipsNonAlphabet(a: string, c: char, b: string, t: nat)
    requires |a + [c] + b| < MaxLength && t < SafeLimit && !IsDigit(c)
    ensures TotpSpec(Some(a + [c] + b), t) == TotpSpec(Some(a + b), t)
  {
    SkipsNonDigit(a, c, b);
  }
}
