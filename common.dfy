/**
 * Values and string operations of JavaScript that the authenticator, the
 * website checker and the 2FA server all rely on: optional values, bytes,
 * ASCII case mapping, `startsWith`/`endsWith`/`includes`, `padStart`, and
 * `Number.prototype.toString(radix)` with its inverse `parseInt`.
 */
module Common {

  /** A JavaScript value that may be `null`/`undefined`. */
  datatype Option<T> = None | Some(value: T)

  /** One element of a `Uint8Array`. */
  type byte = bv8

  /** Appending bit d to the right of x doubles x and adds d. */
  lemma ShiftInBit(x: byte, d: byte)
    requires x as int < 128 && d as int < 2
    ensures ((x << 1) | d) as int == 2 * x as int + d as int
  {
  }

  /** The byte whose value is v, built from its bits. */
  function ByteOf(v: nat): (r: byte)
    requires v < 256
    ensures r as int == v
  {
    if v == 0 then 0
    else
      var x := ByteOf(v / 2);
      var d: byte := if v % 2 == 1 then 1 else 0;
      ShiftInBit(x, d);
      (x << 1) | d
  }

  function Pow(b: nat, e: nat): (r: nat)
    ensures b > 0 ==> r > 0
  {
    if e == 0 then 1 else b * Pow(b, e - 1)
  }

  lemma PowFacts()
    ensures Pow(2, 5) == 32 && Pow(2, 7) == 128 && Pow(2, 8) == 256
  {
  }

  lemma {:induction false} PowMonotone(b: nat, e: nat, f: nat)
    requires b > 0 && e <= f
    ensures Pow(b, e) <= Pow(b, f)
  {
    if e < f {
      PowMonotone(b, e, f - 1);
    }
  }

  // ----- characters ------------------------------------------------------

  predicate IsAsciiLower(c: char) { 'a' <= c <= 'z' }
  predicate IsAsciiUpper(c: char) { 'A' <= c <= 'Z' }

  /** `toUpperCase` on one ASCII letter; every other character is kept. */
  function UpperChar(c: char): char
  {
    if IsAsciiLower(c) then (c as int - 32) as char else c
  }

  /** `toLowerCase` on one ASCII letter; every other character is kept. */
  function LowerChar(c: char): char
  {
    if IsAsciiUpper(c) then (c as int + 32) as char else c
  }

  function Upper(s: string): (r: string)
    ensures |r| == |s|
    ensures forall i :: 0 <= i < |s| ==> r[i] == UpperChar(s[i])
  {
    if s == [] then [] else [UpperChar(s[0])] + Upper(s[1..])
  }

  function Lower(s: string): (r: string)
    ensures |r| == |s|
    ensures forall i :: 0 <= i < |s| ==> r[i] == LowerChar(s[i])
  {
    if s == [] then [] else [LowerChar(s[0])] + Lower(s[1..])
  }

  // ----- substrings ------------------------------------------------------

  predicate StartsWith(s: string, p: string) { |p| <= |s| && s[..|p|] == p }

  predicate EndsWith(s: string, p: string) { |p| <= |s| && s[|s| - |p|..] == p }

  /** `s.includes(p)` */
  predicate Contains(s: string, p: string)
  {
    StartsWith(s, p) || (s != [] && Contains(s[1..], p))
  }

  /** `list.some(x => s.endsWith(x))` */
  predicate EndsWithAny(s: string, list: seq<string>)
  {
    list != [] && (EndsWith(s, list[0]) || EndsWithAny(s, list[1..]))
  }

  /** `s.padStart(n, c)` with a one-character pad string. */
  function PadStart(s: string, n: nat, c: char): (r: string)
    ensures |r| == if |s| >= n then |s| else n
    ensures r[|r| - |s|..] == s
    ensures forall i :: 0 <= i < |r| - |s| ==> r[i] == c
  {
    if |s| >= n then s else seq(n - |s|, _ => c) + s
  }

  // ----- numbers as text -------------------------------------------------

  /** The value of an alphanumeric digit, as `parseInt` reads it; -1 otherwise. */
  function DigitVal(c: char): int
  {
    if '0' <= c <= '9' then c as int - '0' as int
    else if 'a' <= c <= 'z' then c as int - 'a' as int + 10
    else if 'A' <= c <= 'Z' then c as int - 'A' as int + 10
    else -1
  }

  predicate IsDigitIn(c: char, radix: nat) { 0 <= DigitVal(c) < radix }

  predicate AllDigitsIn(s: string, radix: nat)
  {
    forall i :: 0 <= i < |s| ==> IsDigitIn(s[i], radix)
  }

  lemma AllDigitsAppend(a: string, b: string, radix: nat)
    requires AllDigitsIn(a, radix) && AllDigitsIn(b, radix)
    ensures AllDigitsIn(a + b, radix)
  {
    forall i | 0 <= i < |a + b|
      ensures IsDigitIn((a + b)[i], radix)
    {
      if i < |a| { assert (a + b)[i] == a[i]; } else { assert (a + b)[i] == b[i - |a|]; }
    }
  }

  /** The digit character `Number.prototype.toString` writes (lower case). */
  function DigitChar(d: nat): (c: char)
    requires d < 36
    ensures DigitVal(c) == d
  {
    if d < 10 then ('0' as int + d) as char else ('a' as int + d - 10) as char
  }

  /** The value of a string of digits, most significant first. */
  function DigitsValue(s: string, radix: nat): nat
    requires AllDigitsIn(s, radix)
  {
    if s == [] then 0
    else DigitsValue(s[..|s| - 1], radix) * radix + DigitVal(s[|s| - 1])
  }

  /** `n.toString(radix)` for a non-negative integer `n`. */
  function NumberToString(n: nat, radix: nat): (s: string)
    requires 2 <= radix <= 36
    ensures 1 <= |s|
    ensures AllDigitsIn(s, radix)
  {
    if n < radix then [DigitChar(n)]
    else
      DivMod(n, radix);
      NumberToString(n / radix, radix) + [DigitChar(n % radix)]
  }

  /** `parseInt(n.toString(radix), radix) == n` */
  lemma {:induction false} NumberToStringValue(n: nat, radix: nat)
    requires 2 <= radix <= 36
    ensures DigitsValue(NumberToString(n, radix), radix) == n
  {
    var s := NumberToString(n, radix);
    if n < radix {
      assert s[..0] == [];
    } else {
      var prefix := NumberToString(n / radix, radix);
      var last := DigitChar(n % radix);
      assert s == prefix + [last];
      assert s[..|s| - 1] == prefix;
      DivMod(n, radix);
      NumberToStringValue(n / radix, radix);
      calc {
        DigitsValue(s, radix);
        DigitsValue(prefix, radix) * radix + DigitVal(last);
        (n / radix) * radix + n % radix;
      }
    }
  }

  lemma DivMod(n: nat, d: nat)
    requires d > 0
    ensures (n / d) * d + n % d == n
    ensures 0 <= n % d < d
    ensures d > 1 && n > 0 ==> n / d < n
  {
    var q := n / d;
    if d > 1 && n > 0 {
      MulAtLeast(q, d - 1);
      assert q * d == q * (d - 1) + q;
    }
  }

  lemma {:induction false} MulAtLeast(q: nat, d: nat)
    requires d >= 1
    ensures q * d >= q
  {
    if d > 1 {
      MulAtLeast(q, d - 1);
      assert q * d == q * (d - 1) + q;
    }
  }

  lemma {:induction false} MulMonotone(x: nat, y: nat, k: nat)
    requires x <= y
    ensures x * k <= y * k
  {
    if k > 0 {
      MulMonotone(x, y, k - 1);
      assert x * k == x * (k - 1) + x;
      assert y * k == y * (k - 1) + y;
    }
  }

  lemma MulAddDistrib(x: int, p: int, y: int, r: int)
    ensures (x * p + y) * r == x * (p * r) + y * r
  {
  }

  lemma MulDistrib(x: int, y: int, r: int)
    ensures (x + y) * r == x * r + y * r
  {
  }

  /** A number below radix^k needs at most k digits. */
  lemma {:induction false} NumberToStringLength(n: nat, radix: nat, k: nat)
    requires 2 <= radix <= 36 && 1 <= k && n < Pow(radix, k)
    ensures |NumberToString(n, radix)| <= k
    decreases k
  {
    if n >= radix {
      DivMod(n, radix);
      assert Pow(radix, k) == radix * Pow(radix, k - 1);
      DivBelow(n, radix, Pow(radix, k - 1));
      NumberToStringLength(n / radix, radix, k - 1);
    }
  }

  lemma DivBelow(n: nat, d: nat, p: nat)
    requires d > 0 && n < d * p
    ensures n / d < p
  {
    assert (n / d) * d <= n;
    assert (n / d) * d < p * d;
  }

  /** Leading zeros do not change the value of a digit string. */
  lemma {:induction false} LeadingZerosValue(z: nat, s: string, radix: nat)
    requires 2 <= radix && AllDigitsIn(s, radix)
    ensures AllDigitsIn(seq(z, _ => '0') + s, radix)
    ensures DigitsValue(seq(z, _ => '0') + s, radix) == DigitsValue(s, radix)
  {
    var t := seq(z, _ => '0') + s;
    assert AllDigitsIn(t, radix);
    if s == [] {
      assert t == seq(z, _ => '0');
      ZerosValue(z, radix);
    } else {
      var s' := s[..|s| - 1];
      assert t[..|t| - 1] == seq(z, _ => '0') + s';
      LeadingZerosValue(z, s', radix);
    }
  }

  lemma {:induction false} ZerosValue(z: nat, radix: nat)
    requires 2 <= radix
    ensures AllDigitsIn(seq(z, _ => '0'), radix)
    ensures DigitsValue(seq(z, _ => '0'), radix) == 0
  {
    if z > 0 {
      assert seq(z, _ => '0')[..z - 1] == seq(z - 1, _ => '0');
      ZerosValue(z - 1, radix);
    }
  }

  // ----- white space and splitting -------------------------------------

  /** A character `\s` matches: white space and line terminators of ECMAScript. */
  predicate IsJsSpace(c: char)
  {
    || '\t' <= c <= '\r' || c == ' ' || c == '\U{00A0}' || c == '\U{1680}'
    || '\U{2000}' <= c <= '\U{200A}' || c == '\U{2028}' || c == '\U{2029}' || c == '\U{202F}'
    || c == '\U{205F}' || c == '\U{3000}' || c == '\U{FEFF}'
  }

  /** `s.split(sep)` for a one-character separator. */
  function Split(s: string, sep: char): (parts: seq<string>)
    ensures |parts| >= 1
  {
    if s == [] then [[]]
    else
      var rest := Split(s[1..], sep);
      if s[0] == sep then [[]] + rest else [[s[0]] + rest[0]] + rest[1..]
  }

  /** `parts.join(sep)` */
  function Join(parts: seq<string>, sep: char): string
  {
    if |parts| <= 1 then (if parts == [] then [] else parts[0])
    else parts[0] + [sep] + Join(parts[1..], sep)
  }

  /** How many times c occurs in s. */
  function Occurrences(s: string, c: char): nat
  {
    if s == [] then 0 else (if s[0] == c then 1 else 0) + Occurrences(s[1..], c)
  }

  /** Joining the pieces with the separator gives the string back. */
  lemma {:induction false} SplitJoin(s: string, sep: char)
    ensures Join(Split(s, sep), sep) == s
  {
    if s != [] {
      var rest := Split(s[1..], sep);
      SplitJoin(s[1..], sep);
      if s[0] == sep {
        assert Split(s, sep)[1..] == rest;
      } else {
        var parts := Split(s, sep);
        if |rest| == 1 {
          assert parts == [[s[0]] + rest[0]];
        } else {
          assert parts[1..] == rest[1..];
          assert Join(rest, sep) == rest[0] + [sep] + Join(rest[1..], sep);
        }
      }
      assert s == [s[0]] + s[1..];
    }
  }

  /** There is one piece more than there are separators, and no piece holds one. */
  lemma {:induction false} SplitPieces(s: string, sep: char)
    ensures |Split(s, sep)| == Occurrences(s, sep) + 1
    ensures forall k :: 0 <= k < |Split(s, sep)| ==> sep !in Split(s, sep)[k]
  {
    if s != [] {
      SplitPieces(s[1..], sep);
      var rest := Split(s[1..], sep);
      var parts := Split(s, sep);
      if s[0] != sep {
        forall k | 0 <= k < |parts|
          ensures sep !in parts[k]
        {
          if k == 0 {
            assert sep !in rest[0];
          } else {
            assert parts[k] == rest[k];
          }
        }
      }
    }
  }

  /** `s.trimStart()`: leading white space dropped. */
  function TrimStart(s: string): (r: string)
    ensures |r| <= |s| && r == s[|s| - |r|..]
    ensures forall k :: 0 <= k < |s| - |r| ==> IsJsSpace(s[k])
    ensures r == [] || !IsJsSpace(r[0])
  {
    if s != [] && IsJsSpace(s[0]) then
      var r := TrimStart(s[1..]);
      assert forall k :: 1 <= k < |s| - |r| ==> s[k] == s[1..][k - 1];
      r
    else s
  }

  /** `s.trimEnd()`: trailing white space dropped. */
  function TrimEnd(s: string): (r: string)
    ensures |r| <= |s| && r == s[..|r|]
    ensures forall k :: |r| <= k < |s| ==> IsJsSpace(s[k])
    ensures r == [] || !IsJsSpace(r[|r| - 1])
  {
    if s != [] && IsJsSpace(s[|s| - 1]) then
      var r := TrimEnd(s[..|s| - 1]);
      assert s[..|s| - 1][..|r|] == s[..|r|];
      r
    else s
  }

  /** `s.trim()` */
  function Trim(s: string): string
  {
    TrimEnd(TrimStart(s))
  }
}
