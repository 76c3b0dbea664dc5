/** Bits, little-endian integers, and the block size of the log. */
module Bytes {
  import opened Store

  /** Records start and end on multiples of this, for direct I/O. */
  const BLOCK: nat := 512

  function Pow2(n: nat): (p: nat)
    ensures p > 0
  {
    if n == 0 then 1 else 2 * Pow2(n - 1)
  }

  lemma {:induction false} Pow2Values()
    ensures Pow2(8) == 0x100 && Pow2(31) == 0x8000_0000 && Pow2(32) == 0x1_0000_0000
  {
    assert Pow2(8) == 0x100;
    assert Pow2(16) == 0x1_0000;
    assert Pow2(24) == 0x100_0000;
    assert Pow2(31) == 0x8000_0000;
  }

  /** Bitwise exclusive or. */
  function Xor(a: nat, b: nat): nat {
    if a == 0 && b == 0 then 0 else 2 * Xor(a / 2, b / 2) + (a + b) % 2
  }

  lemma {:induction false} Halves(y: nat, r: nat)
    requires r < 2
    ensures (2 * y + r) % 2 == r && (2 * y + r) / 2 == y
  {
  }

  lemma {:induction false} XorBits(a: nat, b: nat)
    ensures Xor(a, b) % 2 == (a + b) % 2 && Xor(a, b) / 2 == Xor(a / 2, b / 2)
  {
    if a != 0 || b != 0 { Halves(Xor(a / 2, b / 2), (a + b) % 2); }
  }

  /** Bit `i` of a number, counted from the lowest. */
  function Bit(c: nat, i: nat): bool {
    if i == 0 then c % 2 == 1 else Bit(c / 2, i - 1)
  }

  lemma {:induction false} BitOfXor(a: nat, b: nat, i: nat)
    ensures Bit(Xor(a, b), i) == (Bit(a, i) != Bit(b, i))
  {
    XorBits(a, b);
    if i == 0 {
      OddSum(a, b);
    } else {
      BitOfXor(a / 2, b / 2, i - 1);
    }
  }

  lemma {:induction false} OddSum(a: nat, b: nat)
    ensures (a + b) % 2 == 1 <==> (a % 2 == 1) != (b % 2 == 1)
  {
  }

  /** Two numbers written one after the other, the lower in `s` bits. */
  lemma {:induction false} BitOfJoined(high: nat, low: nat, s: nat, i: nat)
    requires low < Pow2(s)
    ensures Bit(high * Pow2(s) + low, i) == if i < s then Bit(low, i) else Bit(high, i - s)
  {
    if s > 0 {
      var rest := high * Pow2(s - 1) + low / 2;
      assert high * Pow2(s) + low == 2 * rest + low % 2;
      Halves(rest, low % 2);
      if i > 0 { BitOfJoined(high, low / 2, s - 1, i - 1); }
    }
  }

  lemma {:induction false} ParityCancels(x: nat, a: nat, b: nat)
    requires x % 2 == (a + b) % 2
    ensures (x + b) % 2 == a % 2
  {
  }

  lemma {:induction false} TwiceBits(a: nat, b: nat, x: nat, z: nat)
    requires x == Xor(a, b) && z == Xor(x, b)
    ensures z % 2 == a % 2 && z / 2 == Xor(Xor(a / 2, b / 2), b / 2)
  {
    XorBits(a, b);
    XorBits(x, b);
    ParityCancels(x, a, b);
  }

  lemma {:induction false} XorTwice(a: nat, b: nat)
    ensures Xor(Xor(a, b), b) == a
  {
    if a != 0 || b != 0 {
      XorTwice(a / 2, b / 2);
      TwiceBits(a, b, Xor(a, b), Xor(Xor(a, b), b));
      SameNumber(Xor(Xor(a, b), b), a);
    }
  }

  lemma {:induction false} SameNumber(m: nat, n: nat)
    requires m / 2 == n / 2 && m % 2 == n % 2
    ensures m == n
  {
  }

  lemma {:induction false} XorComm(a: nat, b: nat)
    ensures Xor(a, b) == Xor(b, a)
  {
    if a != 0 || b != 0 { XorComm(a / 2, b / 2); }
  }

  /** Different numbers stay different under the same mask. */
  lemma {:induction false} XorSeparates(a: nat, b: nat, c: nat)
    requires a != b
    ensures Xor(a, c) != Xor(b, c)
  {
    XorTwice(a, c);
    XorTwice(b, c);
  }

  lemma {:induction false} XorBound(a: nat, b: nat, w: nat)
    requires a < Pow2(w) && b < Pow2(w)
    ensures Xor(a, b) < Pow2(w)
  {
    if w > 0 && (a != 0 || b != 0) { XorBound(a / 2, b / 2, w - 1); }
  }

  /** A top bit only one side has survives. */
  lemma {:induction false} XorTopBit(a: nat, b: nat, w: nat)
    requires a < Pow2(w) <= b < Pow2(w + 1)
    ensures Xor(a, b) >= Pow2(w)
  {
    if w > 0 { XorTopBit(a / 2, b / 2, w - 1); }
  }

  function Pow256(w: nat): (p: nat)
    ensures p > 0
  {
    if w == 0 then 1 else 256 * Pow256(w - 1)
  }

  /** `n` in `w` bytes, least significant first. */
  function Le(n: nat, w: nat): (s: seq<Byte>)
    ensures |s| == w
  {
    if w == 0 then [] else [n % 256] + Le(n / 256, w - 1)
  }

  function UnLe(s: seq<Byte>): (n: nat) {
    if s == [] then 0 else s[0] + 256 * UnLe(s[1..])
  }

  lemma {:induction false} LeRoundTrip(n: nat, w: nat)
    requires n < Pow256(w)
    ensures UnLe(Le(n, w)) == n
  {
    if w > 0 {
      LeRoundTrip(n / 256, w - 1);
      assert Le(n, w)[1..] == Le(n / 256, w - 1);
    }
  }

  lemma {:induction false} UnLeBound(s: seq<Byte>)
    ensures UnLe(s) < Pow256(|s|)
  {
    if s != [] { UnLeBound(s[1..]); }
  }

  /** Every byte string is the bytes of the number it is read as. */
  lemma {:induction false} UnLeRoundTrip(s: seq<Byte>)
    ensures Le(UnLe(s), |s|) == s
  {
    if s != [] {
      UnLeRoundTrip(s[1..]);
      assert UnLe(s) % 256 == s[0] && UnLe(s) / 256 == UnLe(s[1..]);
    }
  }

  /** The four-byte field: what is stored is what is read back, for every number that fits. */
  lemma {:induction false} Le4(n: nat)
    requires n < 0x1_0000_0000
    ensures UnLe(Le(n, 4)) == n
  {
    assert Pow256(4) == 0x1_0000_0000;
    LeRoundTrip(n, 4);
  }

  lemma {:induction false} Le8(n: nat)
    requires n < 0x1_0000_0000_0000_0000
    ensures UnLe(Le(n, 8)) == n
  {
    assert Pow256(4) == 0x1_0000_0000;
    assert Pow256(8) == 0x1_0000_0000_0000_0000;
    LeRoundTrip(n, 8);
  }

  function Zeros(n: nat): (s: seq<Byte>)
    ensures |s| == n && forall i | 0 <= i < n :: s[i] == 0
  {
    seq(n, _ => 0)
  }
}
