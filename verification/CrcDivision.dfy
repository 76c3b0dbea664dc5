/**
  What the checksum is: the remainder, complemented, of dividing the message by the generator of
  section 8 of RFC 1952, over polynomials with coefficients modulo 2.  The shift register of the
  program is the schoolbook long division of the message's coefficient list.
*/
module CrcDivision {
  import opened Store
  import opened Bytes
  import opened Crc32

  // ----- polynomials modulo 2 -----

  /** Coefficients, highest degree first. */
  type Poly = seq<bool>

  /** x^32 + x^26 + x^23 + x^22 + x^16 + x^12 + x^11 + x^10 + x^8 + x^7 + x^5 + x^4 + x^2 + x + 1 */
  const EXPONENTS: set<nat> := {32, 26, 23, 22, 16, 12, 11, 10, 8, 7, 5, 4, 2, 1, 0}

  function Generator(): (g: Poly)
    ensures |g| == 33 && g[0] && forall i | 0 <= i < 33 :: g[i] <==> 32 - i in EXPONENTS
  {
    seq(33, i requires 0 <= i < 33 => 32 - i in EXPONENTS)
  }

  function Zero(n: nat): (p: Poly)
    ensures |p| == n && forall i | 0 <= i < n :: !p[i]
  {
    seq(n, _ => false)
  }

  /** Sum, which is also difference. */
  function Add(a: Poly, b: Poly): (p: Poly)
    requires |a| == |b|
    ensures |p| == |a| && forall i | 0 <= i < |a| :: p[i] == (a[i] != b[i])
  {
    seq(|a|, i requires 0 <= i < |a| => a[i] != b[i])
  }

  /** `q` times the generator. */
  function Times(q: Poly): (p: Poly)
    ensures |p| == |q| + 32
  {
    if q == [] then Zero(32)
    else Add(if q[0] then Generator() + Zero(|q| - 1) else Zero(|q| + 32), [false] + Times(q[1..]))
  }

  /** One step of long division: the leading term is cancelled. */
  function Reduce(p: Poly): (r: Poly)
    requires |p| > 32
    ensures |r| == |p| - 1
  {
    if p[0] then Add(p, Generator() + Zero(|p| - 33))[1..] else p[1..]
  }

  function Remainder(p: Poly): (r: Poly)
    requires |p| >= 32
    ensures |r| == 32
    decreases |p|
  {
    if |p| == 32 then p else Remainder(Reduce(p))
  }

  function Quotient(p: Poly): (q: Poly)
    requires |p| >= 32
    ensures |q| == |p| - 32
    decreases |p|
  {
    if |p| == 32 then [] else [p[0]] + Quotient(Reduce(p))
  }

  /** Long division divides: the dividend is quotient times generator plus remainder. */
  lemma {:induction false} Division(p: Poly)
    requires |p| >= 32
    ensures p == Add(Times(Quotient(p)), Zero(|p| - 32) + Remainder(p))
    decreases |p|
  {
    if |p| > 32 {
      var r := Reduce(p);
      Division(r);
      LeadingTerm(p, Quotient(r), Remainder(p));
    }
  }

  lemma {:induction false} LeadingTerm(p: Poly, q: Poly, rem: Poly)
    requires |p| > 32 && |q| == |p| - 33 && |rem| == 32
    requires Reduce(p) == Add(Times(q), Zero(|p| - 33) + rem)
    ensures p == Add(Times([p[0]] + q), Zero(|p| - 32) + rem)
  {
    assert ([p[0]] + q)[1..] == q;
    var lead := Lead(p);
    assert Times([p[0]] + q) == Add(lead, [false] + Times(q));
    forall i | 0 <= i < |p| ensures p[i] == Add(Add(lead, [false] + Times(q)), Zero(|p| - 32) + rem)[i] {
      if i > 0 {
        ReduceAt(p, i);
        LowAt(|p| - 33, rem, i);
        SumAt(p, Times(q), lead, Zero(|p| - 33) + rem, Zero(|p| - 32) + rem, i);
      }
    }
  }

  /** What a step of long division takes away. */
  function Lead(p: Poly): (r: Poly)
    requires |p| > 32
    ensures |r| == |p| && r[0] == p[0]
  {
    if p[0] then Generator() + Zero(|p| - 33) else Zero(|p|)
  }

  lemma {:induction false} ReduceAt(p: Poly, i: nat)
    requires |p| > 32 && 0 < i < |p|
    ensures Reduce(p)[i - 1] == (p[i] != Lead(p)[i])
  {
  }

  lemma {:induction false} LowAt(n: nat, rem: Poly, i: nat)
    requires 0 < i <= n + |rem|
    ensures (Zero(n) + rem)[i - 1] == (Zero(n + 1) + rem)[i]
  {
  }

  lemma {:induction false} SumAt(p: Poly, t: Poly, lead: Poly, low: Poly, low': Poly, i: nat)
    requires |lead| == |low'| == |p| == |t| + 1 == |low| + 1 && 0 < i < |p|
    requires Add(t, low)[i - 1] == (p[i] != lead[i]) && low[i - 1] == low'[i]
    ensures p[i] == Add(Add(lead, [false] + t), low')[i]
  {
  }

  // ----- bits of numbers -----

  lemma {:induction false} BitBeyond(c: nat, w: nat, i: nat)
    requires c < Pow2(w) && w <= i
    ensures !Bit(c, i)
  {
    if i > 0 {
      if w == 0 { BitBeyond(c / 2, 0, i - 1); } else { BitBeyond(c / 2, w - 1, i - 1); }
    }
  }

  lemma {:induction false} OnesBits(w: nat, i: nat)
    requires i < w
    ensures Bit(Pow2(w) - 1, i)
  {
    if i > 0 {
      assert (Pow2(w) - 1) / 2 == Pow2(w - 1) - 1;
      OnesBits(w - 1, i - 1);
    }
  }

  /** `h` lists `c` and its successive halves. */
  lemma {:induction false} HalvesGiveBits(c: nat, h: seq<nat>, i: nat)
    requires i < |h| && h[0] == c && forall j | 0 <= j < |h| - 1 :: h[j + 1] == h[j] / 2
    ensures Bit(c, i) <==> h[i] % 2 == 1
  {
    if i > 0 { HalvesGiveBits(c / 2, h[1..], i - 1); }
  }

  /** The program's constant and its successive halves. */
  const HALVES: seq<nat> := [
    0xEDB88320, 0x76DC4190, 0x3B6E20C8, 0x1DB71064, 0xEDB8832, 0x76DC419, 0x3B6E20C, 0x1DB7106,
    0xEDB883, 0x76DC41, 0x3B6E20, 0x1DB710, 0xEDB88, 0x76DC4, 0x3B6E2, 0x1DB71,
    0xEDB8, 0x76DC, 0x3B6E, 0x1DB7, 0xEDB, 0x76D, 0x3B6, 0x1DB,
    0xED, 0x76, 0x3B, 0x1D, 0xE, 0x7, 0x3, 0x1,
    0x0]

  lemma {:induction false} HalvesFollow()
    ensures |HALVES| == 33 && HALVES[0] == POLYNOMIAL
    ensures forall j | 0 <= j < 32 :: HALVES[j + 1] == HALVES[j] / 2
  {
  }

  lemma {:induction false} HalvesMatch(j: nat)
    requires j < 32
    ensures HALVES[j] % 2 == 1 <==> 31 - j in EXPONENTS
  {
  }

  /** The program's constant is the generator without its leading term, bit 0 for x^31. */
  lemma {:induction false} PolynomialBits(j: nat)
    requires j < 32
    ensures Bit(POLYNOMIAL, j) <==> Generator()[j + 1]
  {
    HalvesFollow();
    HalvesGiveBits(POLYNOMIAL, HALVES, j);
    HalvesMatch(j);
  }

  // ----- the register -----

  /** Bit `i` of the message: bytes in order, each lowest bit first. */
  function MessageBit(s: seq<Byte>, i: nat): bool
    requires i < 8 * |s|
  {
    Bit(s[i / 8], i % 8)
  }

  /** The message times x^32, its first 32 coefficients complemented. */
  function Dividend(s: seq<Byte>): (p: Poly)
    ensures |p| == 8 * |s| + 32
  {
    seq(8 * |s| + 32, i requires 0 <= i < 8 * |s| + 32 => (i < 8 * |s| && MessageBit(s, i)) != (i < 32))
  }

  /** Bit `i` of the message is still to be mixed in when byte `from` is the next to come. */
  function Waiting(s: seq<Byte>, from: nat, i: nat): bool {
    8 * from <= i < 8 * |s| && MessageBit(s, i)
  }

  /** What is left of the dividend after `n` steps, from the register `c` and the bytes from `from` on. */
  function Left(s: seq<Byte>, c: nat, n: nat, from: nat): (p: Poly)
    requires n <= 8 * |s|
    ensures |p| == 32 + 8 * |s| - n
    ensures forall j | 0 <= j < |p| :: p[j] == ((j < 32 && Bit(c, j)) != Waiting(s, from, n + j))
  {
    seq(32 + 8 * |s| - n, j requires 0 <= j < 32 + 8 * |s| - n => (j < 32 && Bit(c, j)) != Waiting(s, from, n + j))
  }

  /** Mixing a byte into the register takes its bits out of the waiting message. */
  lemma {:induction false} MixLeaves(s: seq<Byte>, c: nat, i: nat)
    requires i < |s|
    ensures Left(s, Xor(c, s[i]), 8 * i, i + 1) == Left(s, c, 8 * i, i)
  {
    forall j | 0 <= j < 32 + 8 * |s| - 8 * i
      ensures Left(s, Xor(c, s[i]), 8 * i, i + 1)[j] == Left(s, c, 8 * i, i)[j]
    {
      MixBit(s, c, i, j);
    }
  }

  lemma {:induction false} MixBit(s: seq<Byte>, c: nat, i: nat, j: nat)
    requires i < |s|
    ensures ((j < 32 && Bit(Xor(c, s[i]), j)) != Waiting(s, i + 1, 8 * i + j)) == ((j < 32 && Bit(c, j)) != Waiting(s, i, 8 * i + j))
  {
    BitOfXor(c, s[i], j);
    if j < 8 {
      assert (8 * i + j) / 8 == i && (8 * i + j) % 8 == j;
    } else {
      Pow2Values();
      BitBeyond(s[i], 8, j);
    }
  }

  lemma {:induction false} BitAfterStep(c: nat, j: nat)
    requires c < STATES && j < 32
    ensures Bit(BitStep(c), j) == ((j + 1 < 32 && Bit(c, j + 1)) != (Bit(c, 0) && Generator()[j + 1]))
  {
    PolynomialBits(j);
    if j == 31 {
      Pow2Values();
      BitBeyond(c, 32, 32);
    }
    if c % 2 == 1 { BitOfXor(c / 2, POLYNOMIAL, j); }
  }

  /** Shifting the register by one bit is one step of long division. */
  lemma {:induction false} ShiftReduces(s: seq<Byte>, c: nat, n: nat, from: nat)
    requires n < 8 * |s| && n < 8 * from && c < STATES
    ensures Left(s, BitStep(c), n + 1, from) == Reduce(Left(s, c, n, from))
  {
    var p := Left(s, c, n, from);
    var r, q := Reduce(p), Left(s, BitStep(c), n + 1, from);
    assert p[0] == Bit(c, 0);
    forall j | 0 <= j < |q| ensures q[j] == r[j] {
      assert p[j + 1] == ((j + 1 < 32 && Bit(c, j + 1)) != Waiting(s, from, n + 1 + j));
      assert r[j] == (p[j + 1] != (p[0] && j + 1 < 33 && Generator()[j + 1]));
      if j < 32 { BitAfterStep(c, j); }
    }
  }

  /** The next byte to come after `n` bits. */
  function Next(n: nat): nat { (n + 7) / 8 }

  lemma {:induction false} RegisterStep(s: seq<Byte>, n: nat)
    requires n < 8 * |s|
    ensures Left(s, State(s, n + 1), n + 1, Next(n + 1)) == Reduce(Left(s, State(s, n), n, Next(n)))
  {
    var c := State(s, n);
    StateFits(s, n);
    MixedFits(c, s, n);
    NextByte(n);
    MixedLeft(s, c, n);
    ShiftReduces(s, Mixed(c, s, n), n, n / 8 + 1);
  }

  lemma {:induction false} NextByte(n: nat)
    ensures Next(n + 1) == n / 8 + 1 && n < 8 * (n / 8 + 1)
    ensures if n % 8 == 0 then Next(n) == n / 8 && 8 * (n / 8) == n else Next(n) == n / 8 + 1
  {
  }

  lemma {:induction false} MixedLeft(s: seq<Byte>, c: nat, n: nat)
    requires n < 8 * |s|
    ensures Left(s, Mixed(c, s, n), n, n / 8 + 1) == Left(s, c, n, Next(n))
  {
    NextByte(n);
    if n % 8 == 0 { MixLeaves(s, c, n / 8); }
  }

  lemma {:induction false} RemainderStep(p: Poly, q: Poly)
    requires |p| > 32 && q == Reduce(p)
    ensures Remainder(p) == Remainder(q)
  {
  }

  lemma {:induction false} NothingLeft(s: seq<Byte>, c: nat)
    ensures Next(8 * |s|) == |s| && Remainder(Left(s, c, 8 * |s|, |s|)) == Left(s, c, 8 * |s|, |s|)
  {
  }

  lemma {:induction false} RegisterDivides(s: seq<Byte>, n: nat)
    requires n <= 8 * |s|
    ensures Remainder(Left(s, State(s, n), n, Next(n))) == Left(s, State(s, 8 * |s|), 8 * |s|, |s|)
    decreases 8 * |s| - n
  {
    if n == 8 * |s| {
      NothingLeft(s, State(s, n));
    } else {
      var p, q := Left(s, State(s, n), n, Next(n)), Left(s, State(s, n + 1), n + 1, Next(n + 1));
      RegisterStep(s, n);
      RemainderStep(p, q);
      RegisterDivides(s, n + 1);
    }
  }

  lemma {:induction false} StartsAsDividend(s: seq<Byte>)
    ensures Left(s, ONES, 0, 0) == Dividend(s)
  {
    Pow2Values();
    forall j | 0 <= j < 32 ensures Bit(ONES, j) { OnesBits(32, j); }
  }

  /**
    The checksum's 32 bits, bit 0 for the coefficient of x^31, are the complement of the remainder
    of the message on division by the generator.
  */
  lemma {:induction false} ChecksumIsRemainder(s: seq<Byte>, i: nat)
    requires i < 32
    ensures Bit(Checksum(s), i) <==> !Remainder(Dividend(s))[i]
  {
    StartsAsDividend(s);
    RegisterDivides(s, 0);
    var c := State(s, 8 * |s|);
    assert Remainder(Dividend(s))[i] == Bit(c, i);
    BitOfXor(c, ONES, i);
    Pow2Values();
    OnesBits(32, i);
  }
}
