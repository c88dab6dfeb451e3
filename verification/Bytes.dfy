/**
 Byte strings: concatenation of pieces, substring search, and the big-endian conversions that
 the source calls BTOL and LTOB (their definitions live in another repository; here they are the
 network-order conversions their callers need).
 */
module Bytes {
  newtype byte = x: int | 0 <= x < 256

  const CR: byte := 13
  const LF: byte := 10
  const SP: byte := 32
  const DASH: byte := 45
  const COLON: byte := 58
  const OPEN_PAREN: byte := 40

  predicate IsDigit(b: byte) {
    48 <= b <= 57
  }

  /** A text of one-byte characters. */
  function Ascii(s: string): (b: seq<byte>)
    ensures |b| == |s|
  {
    seq(|s|, i requires 0 <= i < |s| => (s[i] as int % 256) as byte)
  }

  /** The characters of one-byte text. */
  function Text(b: seq<byte>): (s: string)
    ensures |s| == |b|
  {
    seq(|b|, i requires 0 <= i < |b| => b[i] as int as char)
  }

  lemma AsciiRoundTrip(s: string)
    requires forall i :: 0 <= i < |s| ==> s[i] as int < 256
    ensures Text(Ascii(s)) == s
  {
  }

  /** The pieces joined end to end. */
  function Flatten<T>(pieces: seq<seq<T>>): seq<T> {
    if pieces == [] then [] else pieces[0] + Flatten(pieces[1..])
  }

  lemma {:induction false} FlattenConcat<T>(a: seq<seq<T>>, b: seq<seq<T>>)
    ensures Flatten(a + b) == Flatten(a) + Flatten(b)
  {
    if a == [] {
      assert a + b == b;
    } else {
      FlattenConcat(a[1..], b);
      assert (a + b)[1..] == a[1..] + b;
      Regroup(a[0], Flatten(a[1..]), Flatten(b));
    }
  }

  lemma SplitLast<T>(s: seq<T>)
    requires s != []
    ensures s[..|s| - 1] + [s[|s| - 1]] == s
  {
  }

  lemma Regroup<T>(a: seq<T>, b: seq<T>, c: seq<T>)
    ensures (a + b) + c == a + (b + c)
  {
  }

  lemma FlattenOne<T>(s: seq<T>)
    ensures Flatten([s]) == s
  {
    assert Flatten([s][1..]) == [];
  }

  /** `pattern` occurs in `b` at position `i`. */
  predicate OccursAt(b: seq<byte>, pattern: seq<byte>, i: nat) {
    i + |pattern| <= |b| && b[i..i + |pattern|] == pattern
  }

  predicate Occurs(b: seq<byte>, pattern: seq<byte>) {
    exists i: nat :: i <= |b| && OccursAt(b, pattern, i)
  }

  lemma OccursInPrefix(b: seq<byte>, pattern: seq<byte>, k: nat)
    requires k <= |b| && Occurs(b[..k], pattern)
    ensures Occurs(b, pattern)
  {
    var i: nat :| i <= k && OccursAt(b[..k], pattern, i);
    assert b[..k][i..i + |pattern|] == b[i..i + |pattern|];
    assert OccursAt(b, pattern, i);
  }

  // -------- Quotients --------

  lemma AtLeastOnce(m: nat, a: nat)
    requires a > 0
    ensures m * a >= m
  {
    assert m * a == m * (a - 1) + m;
  }

  lemma QuotientIs(n: nat, m: nat, q: nat, r: nat)
    requires r < m && n == m * q + r
    ensures n / m == q
  {
    var x, y := n / m, n % m;
    assert n == m * x + y;
    if x > q {
      assert m * (x - q) == m * x - m * q;
      AtLeastOnce(m, x - q);
    } else if x < q {
      assert m * (q - x) == m * q - m * x;
      AtLeastOnce(m, q - x);
    }
  }

  /** Dividing twice is dividing by the product. */
  lemma DivideTwice(n: nat, c: nat, d: nat)
    requires c > 0 && d > 0
    ensures c * d > 0 && n / c / d == n / (c * d)
  {
    var half, q := n / c, n / c / d;
    var r, s := n % c, half % d;
    assert n == c * half + r && half == d * q + s;
    assert c * half == c * (d * q) + c * s && c * (d * q) == (c * d) * q;
    assert c * (d - s) == c * d - c * s;
    AtLeastOnce(c, d - s);
    QuotientIs(n, c * d, q, c * s + r);
  }

  // -------- Big-endian numbers --------

  function Pow256(k: nat): (p: nat)
    ensures p > 0
  {
    if k == 0 then 1 else 256 * Pow256(k - 1)
  }

  /** BTOL: the number that `b` spells, most significant byte first. */
  function FromBigEndian(b: seq<byte>): nat {
    if b == [] then 0 else 256 * FromBigEndian(b[..|b| - 1]) + b[|b| - 1] as nat
  }

  /** LTOB: the low `k` bytes of `n`, most significant byte first. */
  function ToBigEndian(n: nat, k: nat): (b: seq<byte>)
    ensures |b| == k
  {
    if k == 0 then [] else ToBigEndian(n / 256, k - 1) + [(n % 256) as byte]
  }

  lemma FromBigEndianLast(front: seq<byte>, last: byte)
    ensures FromBigEndian(front + [last]) == 256 * FromBigEndian(front) + last as nat
  {
    assert (front + [last])[..|front|] == front;
  }

  /** Writing a number that fits in `k` bytes and reading it back gives the number. */
  lemma {:induction false} BigEndianRoundTrip(n: nat, k: nat)
    requires n < Pow256(k)
    ensures FromBigEndian(ToBigEndian(n, k)) == n
  {
    if k > 0 {
      BigEndianRoundTrip(n / 256, k - 1);
      FromBigEndianLast(ToBigEndian(n / 256, k - 1), (n % 256) as byte);
    }
  }

  lemma {:induction false} BigEndianBound(b: seq<byte>)
    ensures FromBigEndian(b) < Pow256(|b|)
  {
    if b != [] {
      BigEndianBound(b[..|b| - 1]);
    }
  }

  /** Reading `k` bytes and writing them back gives the bytes: the two conversions are inverse. */
  lemma {:induction false} BigEndianInverse(b: seq<byte>)
    ensures ToBigEndian(FromBigEndian(b), |b|) == b
  {
    if b != [] {
      var front, last := b[..|b| - 1], b[|b| - 1];
      BigEndianInverse(front);
      assert FromBigEndian(b) / 256 == FromBigEndian(front);
      assert FromBigEndian(b) % 256 == last as nat;
      assert (last as nat) as byte == last;
      assert b == front + [last];
    }
  }

  // -------- Exclusive or --------

  /** The low `bits` bits of a and b combined bit by bit: a result bit is set when exactly one of the two is. */
  function XorBits(a: nat, b: nat, bits: nat): (r: nat) {
    if bits == 0 then 0
    else 2 * XorBits(a / 2, b / 2, bits - 1) + if a % 2 == b % 2 then 0 else 1
  }

  lemma HalfAndBit(half: nat, bit: nat)
    requires bit < 2
    ensures (2 * half + bit) / 2 == half && (2 * half + bit) % 2 == bit
  {
  }

  lemma {:induction false} XorBitsTwice(a: nat, b: nat, bits: nat)
    requires a < Pow2(bits)
    ensures XorBits(XorBits(a, b, bits), b, bits) == a
  {
    if bits > 0 {
      XorBitsTwice(a / 2, b / 2, bits - 1);
      HalfAndBit(XorBits(a / 2, b / 2, bits - 1), if a % 2 == b % 2 then 0 else 1);
    }
  }

  lemma {:induction false} XorBitsBound(a: nat, b: nat, bits: nat)
    ensures XorBits(a, b, bits) < Pow2(bits)
  {
    if bits > 0 {
      XorBitsBound(a / 2, b / 2, bits - 1);
    }
  }

  lemma {:induction false} XorBitsSameIff(a: nat, b: nat, bits: nat)
    requires a < Pow2(bits) && b < Pow2(bits)
    ensures XorBits(a, b, bits) == a <==> b == 0
  {
    if bits > 0 {
      XorBitsSameIff(a / 2, b / 2, bits - 1);
    }
  }

  function Pow2(k: nat): (p: nat)
    ensures p > 0
  {
    if k == 0 then 1 else 2 * Pow2(k - 1)
  }

  lemma Pow2Of8()
    ensures Pow2(8) == 256
  {
    assert Pow2(4) == 16;
  }

  function Xor(a: byte, b: byte): byte {
    XorBitsBound(a as nat, b as nat, 8);
    Pow2Of8();
    XorBits(a as nat, b as nat, 8) as byte
  }

  /** Combining with the same byte twice gives the first byte back. */
  lemma XorTwice(a: byte, b: byte)
    ensures Xor(Xor(a, b), b) == a
  {
    Pow2Of8();
    XorBitsTwice(a as nat, b as nat, 8);
  }

  /** Bit k of a byte, the least significant one first. */
  predicate BitSet(x: byte, k: nat) {
    x as nat / Pow2(k) % 2 == 1
  }

  /** The same by halving k times. */
  predicate Bit(n: nat, k: nat) {
    if k == 0 then n % 2 == 1 else Bit(n / 2, k - 1)
  }

  lemma {:induction false} BitIsDigit(n: nat, k: nat)
    ensures Bit(n, k) <==> n / Pow2(k) % 2 == 1
  {
    if k > 0 {
      BitIsDigit(n / 2, k - 1);
      DivideTwice(n, 2, Pow2(k - 1));
    }
  }

  lemma {:induction false} XorBitsAt(a: nat, b: nat, bits: nat, k: nat)
    ensures Bit(XorBits(a, b, bits), k) <==> k < bits && (Bit(a, k) != Bit(b, k))
    decreases bits, k
  {
    if bits > 0 {
      HalfAndBit(XorBits(a / 2, b / 2, bits - 1), if a % 2 == b % 2 then 0 else 1);
      if k > 0 {
        XorBitsAt(a / 2, b / 2, bits - 1, k - 1);
      }
    } else if k > 0 {
      XorBitsAt(0, 0, 0, k - 1);
    }
  }

  /** A bit of the exclusive or is set if and only if exactly one of the two bits is. */
  lemma XorBit(a: byte, b: byte, k: nat)
    requires k < 8
    ensures BitSet(Xor(a, b), k) <==> BitSet(a, k) != BitSet(b, k)
  {
    XorBitsAt(a as nat, b as nat, 8, k);
    BitIsDigit(a as nat, k);
    BitIsDigit(b as nat, k);
    BitIsDigit(Xor(a, b) as nat, k);
  }

  lemma XorSameIff(a: byte, b: byte)
    ensures Xor(a, b) == a <==> b == 0
  {
    Pow2Of8();
    XorBitsSameIff(a as nat, b as nat, 8);
  }

  /** Byte i of a big-endian number is its digit of that weight. */
  lemma {:induction false} BigEndianDigit(n: nat, k: nat, i: nat)
    requires i < k
    ensures ToBigEndian(n, k)[i] as nat == n / Pow256(k - 1 - i) % 256
  {
    if i < k - 1 {
      BigEndianDigit(n / 256, k - 1, i);
      DivideTwice(n, 256, Pow256(k - 2 - i));
    }
  }

  lemma Pow256Values()
    ensures Pow256(2) == 0x1_0000
    ensures Pow256(8) == 0x1_0000_0000_0000_0000
  {
    assert Pow256(3) == 0x100_0000;
    assert Pow256(4) == 0x1_0000_0000;
    assert Pow256(5) == 0x100_0000_0000;
    assert Pow256(6) == 0x1_0000_0000_0000;
    assert Pow256(7) == 0x100_0000_0000_0000;
  }
}
