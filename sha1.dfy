/**
 * The authenticator's SHA-1 (FIPS 180-4, section 6.1).
 *
 * Words are 32-bit: JavaScript's `|0`, `>>>` and `<<` all work modulo 2^32,
 * which is what `bv32` arithmetic does.  The specification below follows
 * the standard (padding of FIPS 180-4 section 5.1.1, message schedule, eighty rounds,
 * big-endian digest); the methods follow the program's loops and are proved
 * to compute it.
 */
module Sha1 {
  import opened Common

  type word = bv32

  /** The five working variables (or the five hash words) a, b, c, d, e. */
  datatype Vars = Vars(a: word, b: word, c: word, d: word, e: word)

  /** Initial hash value H(0), FIPS 180-4 section 5.3.1. */
  const H0: Vars := Vars(0x67452301, 0xEFCDAB89, 0x98BADCFE, 0x10325476, 0xC3D2E1F0)

  /**
   * Messages are shorter than this many bytes: beyond it `(len + 64) >>> 9`,
   * with `len` the bit count, wraps modulo 2^32 and the length word lands
   * in the wrong place.
   */
  const MaxLength: nat := 0x2000_0000 - 8

  /** `rol(n, b)`: shift left, or-ed with the bits shifted out; ROTL of FIPS 180-4 section 3.2. */
  function Rol(n: word, b: word): word
    requires 0 < b < 32
  {
    (n << b) | (n >> (32 - b))
  }

  /** `rol` rotates left, for each amount the program uses. */
  lemma RolRotates(n: word)
    ensures Rol(n, 1) == n.RotateLeft(1)
    ensures Rol(n, 5) == n.RotateLeft(5)
    ensures Rol(n, 30) == n.RotateLeft(30)
  {
  }

  // ----- padding, FIPS 180-4 section 5.1.1 ------------------------------

  /** The four bytes of a word, most significant first. */
  function Be32(x: word): (r: seq<byte>)
    ensures |r| == 4
  {
    [(x >> 24) as byte, ((x >> 16) & 0xFF) as byte, ((x >> 8) & 0xFF) as byte, (x & 0xFF) as byte]
  }

  /** A big-endian word made of four bytes. */
  function Word(b0: byte, b1: byte, b2: byte, b3: byte): word
  {
    (b0 as word << 24) | (b1 as word << 16) | (b2 as word << 8) | b3 as word
  }

  /** Reading back the bytes of a word gives the word. */
  lemma WordOfBe32(x: word)
    ensures var b := Be32(x); Word(b[0], b[1], b[2], b[3]) == x
  {
  }

  /**
   * A non-negative number as a 32-bit word, as JavaScript's `| 0` reads it:
   * its four low base-256 digits.
   */
  function ToWord(x: nat): word
  {
    Word(ByteOf(x / 0x100_0000 % 256), ByteOf(x / 0x1_0000 % 256), ByteOf(x / 0x100 % 256), ByteOf(x % 256))
  }

  lemma Be32OfWord(b0: byte, b1: byte, b2: byte, b3: byte)
    ensures Be32(Word(b0, b1, b2, b3)) == [b0, b1, b2, b3]
  {
  }

  /** The bytes of ToWord(x) are the base-256 digits of x, most significant first. */
  lemma ToWordBytes(x: nat)
    ensures var b := Be32(ToWord(x));
      b[0] as int == x / 0x100_0000 % 256 && b[1] as int == x / 0x1_0000 % 256 &&
      b[2] as int == x / 0x100 % 256 && b[3] as int == x % 256
  {
    Be32OfWord(ByteOf(x / 0x100_0000 % 256), ByteOf(x / 0x1_0000 % 256), ByteOf(x / 0x100 % 256), ByteOf(x % 256));
  }

  /** The number of zero bytes after 0x80, so that n + 1 + z + 8 is a multiple of 64. */
  function ZeroCount(n: nat): nat
  {
    (55 - n) % 64
  }

  /** The byte that ends every message: a single 1 bit, then zeros. */
  const Marker: byte := 0x80

  /** m, the byte 0x80, zeros, and the bit length of m as a 64-bit big-endian number. */
  function Padded(m: seq<byte>): seq<byte>
    requires |m| < MaxLength
  {
    m + [Marker] + seq(ZeroCount(|m|), _ => 0) + [0, 0, 0, 0] + Be32(ToWord(8 * |m|))
  }

  /** The number of 512-bit blocks the program allocates: `((len + 64) >>> 9) + 1`. */
  function BlockCount(n: nat): nat
  {
    (8 * n + 64) / 512 + 1
  }

  /** The padded message fills exactly the blocks the program allocates. */
  lemma PaddedLength(m: seq<byte>)
    requires |m| < MaxLength
    ensures |Padded(m)| == 64 * BlockCount(|m|)
    ensures |Padded(m)| % 64 == 0
  {
    assert |Padded(m)| == |m| + 9 + ZeroCount(|m|);
    BlockArithmetic(|m|);
  }

  lemma BlockArithmetic(n: nat)
    ensures n + 9 + ZeroCount(n) == 64 * BlockCount(n)
  {
    var a, r := n / 64, n % 64;
    assert n == 64 * a + r;
    assert (8 * n + 64) / 512 == a + (if r < 56 then 0 else 1);
    assert ZeroCount(n) == if r < 56 then 55 - r else 119 - r;
  }

  /** No shorter padding would do: fewer blocks cannot hold m, 0x80 and the length. */
  lemma PaddedMinimal(m: seq<byte>)
    requires |m| < MaxLength
    ensures |m| + 9 <= |Padded(m)| < |m| + 9 + 64
    ensures Padded(m)[..|m|] == m && Padded(m)[|m|] == Marker
  {
  }

  /** The bytes the program's word array holds, position by position. */
  function PaddedByte(m: seq<byte>, p: nat): byte
    requires |m| < MaxLength && p < 64 * BlockCount(|m|)
  {
    var n, last := |m|, 64 * BlockCount(|m|) - 4;
    if p < n then m[p]
    else if p == n then Marker
    else if p < last then 0
    else Be32(ToWord(8 * n))[p - last]
  }

  lemma PaddedAt(m: seq<byte>, p: nat)
    requires |m| < MaxLength && p < 64 * BlockCount(|m|)
    ensures |Padded(m)| == 64 * BlockCount(|m|)
    ensures Padded(m)[p] == PaddedByte(m, p)
  {
    PaddedLength(m);
  }

  /** Cutting bytes into big-endian words, four at a time. */
  function WordsOf(p: seq<byte>): (w: seq<word>)
    requires |p| % 4 == 0
    ensures |w| == |p| / 4
  {
    seq(|p| / 4, q requires 0 <= q < |p| / 4 => Word(p[4 * q], p[4 * q + 1], p[4 * q + 2], p[4 * q + 3]))
  }

  /** The 16 * BlockCount(n) words of the padded message, word by word. */
  function PaddedWords(m: seq<byte>): (w: seq<word>)
    requires |m| < MaxLength
    ensures |w| == 16 * BlockCount(|m|)
  {
    seq(16 * BlockCount(|m|), q requires 0 <= q < 16 * BlockCount(|m|) =>
      Word(PaddedByte(m, 4 * q), PaddedByte(m, 4 * q + 1), PaddedByte(m, 4 * q + 2), PaddedByte(m, 4 * q + 3)))
  }

  /** They are the padded message cut into big-endian words. */
  lemma PaddedWordsOfPadded(m: seq<byte>)
    requires |m| < MaxLength
    ensures |Padded(m)| % 4 == 0 && PaddedWords(m) == WordsOf(Padded(m))
  {
    PaddedLength(m);
    MultipleOf4(16 * BlockCount(|m|));
    var p := Padded(m);
    forall q | 0 <= q < 16 * BlockCount(|m|)
      ensures PaddedWords(m)[q] == WordsOf(p)[q]
    {
      PaddedWordIs(m, q);
    }
  }

  lemma MultipleOf4(k: nat)
    ensures (4 * k) % 4 == 0
  {
  }

  lemma PaddedWordIs(m: seq<byte>, q: nat)
    requires |m| < MaxLength && q < 16 * BlockCount(|m|)
    ensures |Padded(m)| == 64 * BlockCount(|m|)
    ensures var p := Padded(m); PaddedWords(m)[q] == Word(p[4 * q], p[4 * q + 1], p[4 * q + 2], p[4 * q + 3])
  {
    PaddedAt(m, 4 * q);
    PaddedAt(m, 4 * q + 1);
    PaddedAt(m, 4 * q + 2);
    PaddedAt(m, 4 * q + 3);
  }

  // ----- the word array as the program fills it ---------------------------

  /** Byte p of the message once the first i bytes have been or-ed in; 0 before. */
  function ByteSoFar(m: seq<byte>, p: nat, i: nat): byte
    requires i <= |m|
  {
    if p < i then m[p] else 0
  }

  /** Word q of the array after the first i bytes: `words[q]`, a hole reading as 0. */
  function PartialWord(m: seq<byte>, q: nat, i: nat): word
    requires i <= |m|
  {
    Word(ByteSoFar(m, 4 * q, i), ByteSoFar(m, 4 * q + 1, i), ByteSoFar(m, 4 * q + 2, i), ByteSoFar(m, 4 * q + 3, i))
  }

  /**
   * `z << (24 - 8 * r)`: byte z moved to slot r of a big-endian word.  The
   * program computes the shift from the byte's position; the four cases are
   * written out here.
   */
  function Slot(z: byte, r: nat): word
    requires r < 4
  {
    if r == 0 then z as word << 24
    else if r == 1 then z as word << 16
    else if r == 2 then z as word << 8
    else z as word
  }

  lemma SlotIsShift(z: byte, r: nat)
    requires r < 4
    ensures Slot(z, r) == z as word << (24 - 8 * r)
  {
    if r == 0 {
      assert 24 - 8 * r == 24;
    } else if r == 1 {
      assert 24 - 8 * r == 16;
    } else if r == 2 {
      assert 24 - 8 * r == 8;
    } else {
      assert 24 - 8 * r == 0;
    }
  }

  lemma SetSlot0(x0: byte, x1: byte, x2: byte, x3: byte, y0: byte, y1: byte, y2: byte, y3: byte, z: byte)
    requires x0 == 0 && y0 == z && y1 == x1 && y2 == x2 && y3 == x3
    ensures Word(x0, x1, x2, x3) | Slot(z, 0) == Word(y0, y1, y2, y3)
  {
  }

  lemma SetSlot1(x0: byte, x1: byte, x2: byte, x3: byte, y0: byte, y1: byte, y2: byte, y3: byte, z: byte)
    requires x1 == 0 && y1 == z && y0 == x0 && y2 == x2 && y3 == x3
    ensures Word(x0, x1, x2, x3) | Slot(z, 1) == Word(y0, y1, y2, y3)
  {
  }

  lemma SetSlot2(x0: byte, x1: byte, x2: byte, x3: byte, y0: byte, y1: byte, y2: byte, y3: byte, z: byte)
    requires x2 == 0 && y2 == z && y0 == x0 && y1 == x1 && y3 == x3
    ensures Word(x0, x1, x2, x3) | Slot(z, 2) == Word(y0, y1, y2, y3)
  {
  }

  lemma SetSlot3(x0: byte, x1: byte, x2: byte, x3: byte, y0: byte, y1: byte, y2: byte, y3: byte, z: byte)
    requires x3 == 0 && y3 == z && y0 == x0 && y1 == x1 && y2 == x2
    ensures Word(x0, x1, x2, x3) | Slot(z, 3) == Word(y0, y1, y2, y3)
  {
  }

  /** Or-ing byte z into empty slot r of a word fills that slot and keeps the others. */
  lemma SetSlot(x0: byte, x1: byte, x2: byte, x3: byte, y0: byte, y1: byte, y2: byte, y3: byte, z: byte, r: nat)
    requires r < 4
    requires r == 0 ==> x0 == 0 && y0 == z
    requires r == 1 ==> x1 == 0 && y1 == z
    requires r == 2 ==> x2 == 0 && y2 == z
    requires r == 3 ==> x3 == 0 && y3 == z
    requires (r != 0 ==> y0 == x0) && (r != 1 ==> y1 == x1) && (r != 2 ==> y2 == x2) && (r != 3 ==> y3 == x3)
    ensures Word(x0, x1, x2, x3) | Slot(z, r) == Word(y0, y1, y2, y3)
  {
    if r == 0 {
      SetSlot0(x0, x1, x2, x3, y0, y1, y2, y3, z);
    } else if r == 1 {
      SetSlot1(x0, x1, x2, x3, y0, y1, y2, y3, z);
    } else if r == 2 {
      SetSlot2(x0, x1, x2, x3, y0, y1, y2, y3, z);
    } else {
      SetSlot3(x0, x1, x2, x3, y0, y1, y2, y3, z);
    }
  }

  /** `words[i >>> 2] |= bytes[i] << (24 - (i % 4) * 8)` adds byte i to its word. */
  lemma PartialWordStep(m: seq<byte>, i: nat)
    requires i < |m|
    ensures PartialWord(m, i / 4, i + 1) == PartialWord(m, i / 4, i) | Slot(m[i], i % 4)
    ensures forall q :: q != i / 4 ==> PartialWord(m, q, i + 1) == PartialWord(m, q, i)
  {
    var q := i / 4;
    var x0, x1, x2, x3 := ByteSoFar(m, 4 * q, i), ByteSoFar(m, 4 * q + 1, i), ByteSoFar(m, 4 * q + 2, i), ByteSoFar(m, 4 * q + 3, i);
    var y0, y1, y2, y3 := ByteSoFar(m, 4 * q, i + 1), ByteSoFar(m, 4 * q + 1, i + 1), ByteSoFar(m, 4 * q + 2, i + 1), ByteSoFar(m, 4 * q + 3, i + 1);
    assert PartialWord(m, q, i) == Word(x0, x1, x2, x3);
    assert PartialWord(m, q, i + 1) == Word(y0, y1, y2, y3);
    var r := i % 4;
    assert i == 4 * q + r;
    SetSlot(x0, x1, x2, x3, y0, y1, y2, y3, m[i], r);
    forall q' | q' != i / 4
      ensures PartialWord(m, q', i + 1) == PartialWord(m, q', i)
    {
      PartialWordOther(m, i, q');
    }
  }

  /** Byte i does not touch the other words. */
  lemma PartialWordOther(m: seq<byte>, i: nat, q: nat)
    requires i < |m| && q != i / 4
    ensures PartialWord(m, q, i + 1) == PartialWord(m, q, i)
  {
    assert ByteSoFar(m, 4 * q, i + 1) == ByteSoFar(m, 4 * q, i);
    assert ByteSoFar(m, 4 * q + 1, i + 1) == ByteSoFar(m, 4 * q + 1, i);
    assert ByteSoFar(m, 4 * q + 2, i + 1) == ByteSoFar(m, 4 * q + 2, i);
    assert ByteSoFar(m, 4 * q + 3, i + 1) == ByteSoFar(m, 4 * q + 3, i);
  }

  /** After all n bytes, words other than the 0x80 word and the length word are final. */
  lemma PlainWord(m: seq<byte>, q: nat)
    requires |m| < MaxLength && q < 16 * BlockCount(|m|) - 1 && q != |m| / 4
    ensures PartialWord(m, q, |m|) == PaddedWords(m)[q]
  {
  }

  /** The word holding the end of the message gets 0x80 in the next slot. */
  lemma MarkerWord(m: seq<byte>)
    requires |m| < MaxLength
    ensures |m| / 4 < 16 * BlockCount(|m|) - 1
    ensures PartialWord(m, |m| / 4, |m|) | Slot(Marker, |m| % 4) == PaddedWords(m)[|m| / 4]
  {
    var n := |m|;
    var q := n / 4;
    var x0, x1, x2, x3 := ByteSoFar(m, 4 * q, n), ByteSoFar(m, 4 * q + 1, n), ByteSoFar(m, 4 * q + 2, n), ByteSoFar(m, 4 * q + 3, n);
    var y0, y1, y2, y3 := PaddedByte(m, 4 * q), PaddedByte(m, 4 * q + 1), PaddedByte(m, 4 * q + 2), PaddedByte(m, 4 * q + 3);
    assert PartialWord(m, q, n) == Word(x0, x1, x2, x3);
    assert PaddedWords(m)[q] == Word(y0, y1, y2, y3);
    var r := n % 4;
    assert n == 4 * q + r;
    SetSlot(x0, x1, x2, x3, y0, y1, y2, y3, Marker, r);
  }

  /** The word holding byte n is not the length word. */
  lemma WordCount(n: nat)
    ensures n / 4 < 16 * BlockCount(n) - 1
  {
    var a := n / 64;
    assert n < 64 * a + 64;
    assert (8 * n + 64) / 512 >= a;
  }

  /** The bit offset of byte n within its word. */
  lemma BitOffset(n: nat)
    ensures (8 * n) % 32 / 8 == n % 4
    ensures (8 * n) / 32 == n / 4
  {
    var q, r := n / 4, n % 4;
    assert 8 * n == 32 * q + 8 * r;
  }

  /** The last word of the last block is the bit length. */
  lemma LengthWord(m: seq<byte>)
    requires |m| < MaxLength
    ensures PaddedWords(m)[16 * BlockCount(|m|) - 1] == ToWord(8 * |m|)
  {
    WordOfBe32(ToWord(8 * |m|));
  }

  /** A word other than the length word, after the marker is written. */
  lemma FinishedWord(m: seq<byte>, before: word, after: word, q: nat)
    requires |m| < MaxLength && q < 16 * BlockCount(|m|) - 1
    requires before == PartialWord(m, q, |m|)
    requires after == if q == |m| / 4 then before | Slot(Marker, |m| % 4) else before
    ensures after == PaddedWords(m)[q]
  {
    if q == |m| / 4 {
      MarkerWord(m);
    } else {
      PlainWord(m, q);
    }
  }

  /**
   * The first part of `sha1`: the message is or-ed into big-endian words,
   * then 0x80 after its last byte and its bit length into the last word.
   * The array is allocated at its final length, `words.length` once the
   * length word is written; slots never written are JavaScript holes, which
   * every later use reads as 0.
   */
  method PackWords(m: seq<byte>) returns (words: seq<word>)
    requires |m| < MaxLength
    ensures words == PaddedWords(m)
  {
    var n := |m|;
    var len := n * 8;
    var count := ((len + 64) / 512) * 16 + 16;
    assert count == 16 * BlockCount(n);
    WordCount(n);
    var a := new word[count](_ => 0);
    OrInBytes(m, a);
    BitOffset(n);
    ghost var packed := a[..];
    a[len / 32] := a[len / 32] | Slot(Marker, len % 32 / 8);
    var last := ((len + 64) / 512) * 16 + 15;
    a[last] := ToWord(len);
    forall q | 0 <= q < count
      ensures a[q] == PaddedWords(m)[q]
    {
      if q == last {
        LengthWord(m);
      } else {
        FinishedWord(m, packed[q], a[q], q);
      }
    }
    words := a[..];
  }

  /** The message loop of `sha1`: byte i is or-ed into word i / 4 at its slot. */
  method OrInBytes(m: seq<byte>, a: array<word>)
    requires |m| / 4 < a.Length
    requires forall q :: 0 <= q < a.Length ==> a[q] == 0
    modifies a
    ensures forall q :: 0 <= q < a.Length ==> a[q] == PartialWord(m, q, |m|)
  {
    var i := 0;
    while i < |m|
      invariant 0 <= i <= |m|
      invariant forall q :: 0 <= q < a.Length ==> a[q] == PartialWord(m, q, i)
    {
      PartialWordStep(m, i);
      a[i / 4] := a[i / 4] | Slot(m[i], i % 4);
      i := i + 1;
    }
  }

  // ----- message schedule, FIPS 180-4 section 6.1.2 step 1 --------------

  /** W[t] = rol(W[t-3] ^ W[t-8] ^ W[t-14] ^ W[t-16], 1) for t = |w|. */
  function NextWord(w: seq<word>): word
    requires 16 <= |w|
  {
    var t := |w|;
    Rol(w[t - 3] ^ w[t - 8] ^ w[t - 14] ^ w[t - 16], 1)
  }

  lemma NextWordIs(w: seq<word>, a: word, b: word, c: word, d: word)
    requires 16 <= |w| && a == w[|w| - 3] && b == w[|w| - 8] && c == w[|w| - 14] && d == w[|w| - 16]
    ensures NextWord(w) == Rol(a ^ b ^ c ^ d, 1)
  {
  }

  /** The schedule so far, extended word by word to 80 words. */
  function Extend(w: seq<word>): (r: seq<word>)
    requires 16 <= |w| <= 80
    ensures |r| == 80
    decreases 80 - |w|
  {
    if |w| == 80 then w else Extend(w + [NextWord(w)])
  }

  /** W[0..80) for one block. */
  function Schedule(block: seq<word>): (w: seq<word>)
    requires |block| == 16
    ensures |w| == 80
  {
    Extend(block)
  }

  /** Extending keeps what is there and adds words by the recurrence. */
  lemma {:induction false} ExtendKeeps(w: seq<word>, t: nat)
    requires 16 <= |w| <= 80 && t < 80
    ensures t < |w| ==> Extend(w)[t] == w[t]
    ensures |w| <= t ==> Extend(w)[t] == NextWord(Extend(w)[..t])
    decreases 80 - |w|
  {
    if |w| < 80 {
      var w' := w + [NextWord(w)];
      ExtendKeeps(w', t);
      if t == |w| {
        ExtendKeeps(w', t);
        assert Extend(w)[..t] == w by {
          forall i | 0 <= i < t
            ensures Extend(w)[i] == w[i]
          {
            ExtendKeeps(w', i);
          }
        }
      }
    }
  }

  /** The schedule as the standard defines it: the block, then the recurrence. */
  lemma ScheduleDefinition(block: seq<word>, t: nat)
    requires |block| == 16 && t < 80
    ensures t < 16 ==> Schedule(block)[t] == block[t]
    ensures var w := Schedule(block);
      16 <= t ==> w[t] == Rol(w[t - 3] ^ w[t - 8] ^ w[t - 14] ^ w[t - 16], 1)
  {
    ExtendKeeps(block, t);
    if 16 <= t {
      var w := Schedule(block);
      assert w[t] == NextWord(w[..t]);
    }
  }

  /** The second loop of `sha1`'s block loop: `w = words.slice(i, i + 16)`, extended to 80. */
  method ExtendSchedule(block: seq<word>) returns (schedule: seq<word>)
    requires |block| == 16
    ensures schedule == Schedule(block)
  {
    var w := new word[80](k => if k < 16 then block[k] else 0);
    assert w[..16] == block;
    SchedulePrefix(block);
    var j := 16;
    while j < 80
      invariant 16 <= j <= 80
      invariant w[..j] == Schedule(block)[..j]
    {
      ghost var prefix := w[..j];
      var x := Rol(w[j - 3] ^ w[j - 8] ^ w[j - 14] ^ w[j - 16], 1);
      ScheduleStep(block, prefix, w[j - 3], w[j - 8], w[j - 14], w[j - 16]);
      w[j] := x;
      AppendOne(w[..j + 1], prefix, x);
      j := j + 1;
    }
    schedule := w[..];
    assert schedule == w[..80];
  }

  /** One step of the loop: the next word of the schedule from the four words it reads. */
  lemma ScheduleStep(block: seq<word>, prefix: seq<word>, a: word, b: word, c: word, d: word)
    requires |block| == 16 && 16 <= |prefix| < 80 && prefix == Schedule(block)[..|prefix|]
    requires a == prefix[|prefix| - 3] && b == prefix[|prefix| - 8] && c == prefix[|prefix| - 14] && d == prefix[|prefix| - 16]
    ensures Schedule(block)[..|prefix| + 1] == prefix + [Rol(a ^ b ^ c ^ d, 1)]
  {
    NextWordIs(prefix, a, b, c, d);
    ScheduleNext(block, |prefix|);
  }

  lemma AppendOne(s: seq<word>, prefix: seq<word>, x: word)
    requires |s| == |prefix| + 1 && s[..|prefix|] == prefix && s[|prefix|] == x
    ensures s == prefix + [x]
  {
  }

  /** The schedule starts with the block. */
  lemma SchedulePrefix(block: seq<word>)
    requires |block| == 16
    ensures Schedule(block)[..16] == block
  {
    forall t | 0 <= t < 16
      ensures Schedule(block)[t] == block[t]
    {
      ExtendKeeps(block, t);
    }
  }

  /** Word j of the schedule follows from the words before it. */
  lemma ScheduleNext(block: seq<word>, j: nat)
    requires |block| == 16 && 16 <= j < 80
    ensures Schedule(block)[..j + 1] == Schedule(block)[..j] + [NextWord(Schedule(block)[..j])]
  {
    ExtendKeeps(block, j);
    var w := Schedule(block);
    assert w[..j + 1] == w[..j] + [w[j]];
  }

  // ----- rounds, FIPS 180-4 section 6.1.2 steps 2-4 ---------------------

  /**
   * The round function f_t of FIPS 180-4 section 4.1.1.  The program writes Ch and Maj
   * with `|` where the standard writes exclusive or; the two agree because
   * the combined terms never share a set bit.
   */
  function F(t: nat, b: word, c: word, d: word): word
    requires t < 80
  {
    if t < 20 then (b & c) | (!b & d)
    else if t < 40 then b ^ c ^ d
    else if t < 60 then (b & c) | (b & d) | (c & d)
    else b ^ c ^ d
  }

  /** F is Ch on rounds 0 to 19, Maj on rounds 40 to 59, and Parity on the others. */
  lemma RoundFunction(t: nat, b: word, c: word, d: word)
    requires t < 80
    ensures t < 20 ==> F(t, b, c, d) == (b & c) ^ (!b & d)
    ensures 20 <= t < 40 || 60 <= t ==> F(t, b, c, d) == b ^ c ^ d
    ensures 40 <= t < 60 ==> F(t, b, c, d) == (b & c) ^ (b & d) ^ (c & d)
  {
    if t < 20 {
      ChRounds(t, b, c, d);
    } else if 40 <= t < 60 {
      MajRounds(t, b, c, d);
    } else {
      ParityRounds(t, b, c, d);
    }
  }

  lemma ChRounds(t: nat, b: word, c: word, d: word)
    requires t < 20
    ensures F(t, b, c, d) == (b & c) ^ (!b & d)
  {
    ChXor(b, c, d);
  }

  lemma MajRounds(t: nat, b: word, c: word, d: word)
    requires 40 <= t < 60
    ensures F(t, b, c, d) == (b & c) ^ (b & d) ^ (c & d)
  {
    MajXor(b, c, d);
  }

  lemma ParityRounds(t: nat, b: word, c: word, d: word)
    requires 20 <= t < 40 || 60 <= t < 80
    ensures F(t, b, c, d) == b ^ c ^ d
  {
  }

  lemma ChXor(b: word, c: word, d: word)
    ensures (b & c) | (!b & d) == (b & c) ^ (!b & d)
  {
  }

  lemma MajXor(b: word, c: word, d: word)
    ensures (b & c) | (b & d) | (c & d) == (b & c) ^ (b & d) ^ (c & d)
  {
  }

  /** The constant K_t of FIPS 180-4 section 4.2.1. */
  function K(t: nat): word
    requires t < 80
  {
    if t < 20 then 0x5A827999
    else if t < 40 then 0x6ED9EBA1
    else if t < 60 then 0x8F1BBCDC
    else 0xCA62C1D6
  }

  /** `(rol(a, 5) + f + e + k + (w[j] | 0)) | 0`: T of FIPS 180-4 section 6.1.2, step 3. */
  function Temp(a: word, b: word, c: word, d: word, e: word, t: nat, wt: word): word
    requires t < 80
  {
    Rol(a, 5) + F(t, b, c, d) + e + K(t) + wt
  }

  /** `(x + y) | 0`: addition modulo 2^32. */
  function Add32(x: word, y: word): word
  {
    x + y
  }

  /** One round: T, then e = d, d = c, c = rol(b, 30), b = a, a = T. */
  function Round(v: Vars, t: nat, wt: word): Vars
    requires t < 80
  {
    Vars(Temp(v.a, v.b, v.c, v.d, v.e, t, wt), v.a, Rol(v.b, 30), v.c, v.d)
  }

  /** The working variables after rounds 0 .. j - 1, starting from h. */
  function RoundsUpTo(h: Vars, w: seq<word>, j: nat): Vars
    requires |w| == 80 && j <= 80
  {
    if j == 0 then h else Round(RoundsUpTo(h, w, j - 1), j - 1, w[j - 1])
  }

  /** The intermediate hash value after one block: each word plus its working variable. */
  function Compress(h: Vars, block: seq<word>): Vars
    requires |block| == 16
  {
    var w := Schedule(block);
    var v := RoundsUpTo(h, w, |w|);
    Vars(Add32(h.a, v.a), Add32(h.b, v.b), Add32(h.c, v.c), Add32(h.d, v.d), Add32(h.e, v.e))
  }

  /** The hash value after the first k blocks of ws. */
  function Hash(ws: seq<word>, k: nat): Vars
    requires 16 * k <= |ws|
  {
    if k == 0 then H0 else Compress(Hash(ws, k - 1), ws[16 * (k - 1)..16 * k])
  }

  /** The 160-bit digest H0 || H1 || H2 || H3 || H4, each big-endian. */
  function DigestOf(h: Vars): (r: seq<byte>)
    ensures |r| == 20
  {
    Be32(h.a) + Be32(h.b) + Be32(h.c) + Be32(h.d) + Be32(h.e)
  }

  /** SHA-1(m). */
  function Sha1Digest(m: seq<byte>): (r: seq<byte>)
    requires |m| < MaxLength
    ensures |r| == 20
  {
    var ws := PaddedWords(m);
    DigestOf(Hash(ws, |ws| / 16))
  }

  /** The padded message is a whole number of sixteen-word blocks. */
  lemma WholeBlocks(m: seq<byte>)
    requires |m| < MaxLength
    ensures |PaddedWords(m)| % 16 == 0
  {
    MultipleOf16(BlockCount(|m|));
  }

  lemma MultipleOf16(k: nat)
    ensures (16 * k) % 16 == 0
  {
  }

  /** The innermost loop of `sha1`: eighty rounds on one block's schedule. */
  method Rounds(h: Vars, w: seq<word>) returns (v: Vars)
    requires |w| == 80
    ensures v == RoundsUpTo(h, w, |w|)
  {
    var a, b, c, d, e := h.a, h.b, h.c, h.d, h.e;
    var j := 0;
    while j < 80
      invariant 0 <= j <= 80
      invariant Vars(a, b, c, d, e) == RoundsUpTo(h, w, j)
    {
      var temp := Temp(a, b, c, d, e, j, w[j]);
      e, d, c, b, a := d, c, Rol(b, 30), a, temp;
      j := j + 1;
    }
    v := Vars(a, b, c, d, e);
  }

  /** One more block: the hash so far, compressed with the next sixteen words. */
  lemma HashStep(ws: seq<word>, k: nat, h: Vars, h': Vars)
    requires 16 * (k + 1) <= |ws| && h == Hash(ws, k) && h' == Compress(h, ws[16 * k..16 * k + 16])
    ensures h' == Hash(ws, k + 1)
  {
  }

  /** The body of `sha1`'s block loop: schedule, eighty rounds, and the five additions. */
  method CompressBlock(h: Vars, block: seq<word>) returns (r: Vars)
    requires |block| == 16
    ensures r == Compress(h, block)
  {
    var w := ExtendSchedule(block);
    var v := Rounds(h, w);
    r := Vars(Add32(h.a, v.a), Add32(h.b, v.b), Add32(h.c, v.c), Add32(h.d, v.d), Add32(h.e, v.e));
  }

  /** `sha1`'s block loop: sixteen words at a time, starting from H(0). */
  method HashBlocks(words: seq<word>) returns (h: Vars)
    requires |words| % 16 == 0
    ensures h == Hash(words, |words| / 16)
  {
    h := H0;
    ghost var blocks := 0;
    var i := 0;
    while i < |words|
      invariant i == 16 * blocks <= |words|
      invariant h == Hash(words, blocks)
    {
      BlockFits(|words|, blocks);
      ghost var before := h;
      h := CompressBlock(h, words[i..i + 16]);
      HashStep(words, blocks, before, h);
      i := i + 16;
      blocks := blocks + 1;
    }
    DivExact(|words|, blocks);
  }

  lemma BlockFits(n: nat, k: nat)
    requires n % 16 == 0 && 16 * k < n
    ensures 16 * (k + 1) <= n
  {
  }

  lemma DivExact(n: nat, k: nat)
    requires n == 16 * k
    ensures n / 16 == k
  {
  }

  /** `sha1(data)`: pack, compress block by block, then write out the digest. */
  method Sha1(data: seq<byte>) returns (digest: seq<byte>)
    requires |data| < MaxLength
    ensures digest == Sha1Digest(data)
  {
    var words := PackWords(data);
    WholeBlocks(data);
    var h := HashBlocks(words);
    digest := Be32(h.a) + Be32(h.b) + Be32(h.c) + Be32(h.d) + Be32(h.e);
  }
}
