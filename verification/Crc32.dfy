/**
  CRC-32 as in section 8 of RFC 1952 (reflected polynomial 0xEDB88320), computed bit by bit on a
  32-bit state.  Each step is a bijection on the state, so a change confined to one byte is
  always detected.
*/
module Crc32 {
  import opened Store
  import opened Bytes

  const POLYNOMIAL: nat := 0xEDB8_8320
  const ONES: nat := 0xFFFF_FFFF
  const STATES: nat := 0x1_0000_0000

  /** One bit: shift, and subtract the polynomial if a one fell out. */
  function BitStep(crc: nat): nat {
    if crc % 2 == 1 then Xor(crc / 2, POLYNOMIAL) else crc / 2
  }

  /** The state before bit `i` of `s` is shifted: a new byte is mixed in every eighth bit. */
  function Mixed(state: nat, s: seq<Byte>, i: nat): nat
    requires i < 8 * |s|
  {
    if i % 8 == 0 then Xor(state, s[i / 8]) else state
  }

  /** The state after the first `n` bits of `s`. */
  function State(s: seq<Byte>, n: nat): nat
    requires n <= 8 * |s|
  {
    if n == 0 then ONES else BitStep(Mixed(State(s, n - 1), s, n - 1))
  }

  function Checksum(s: seq<Byte>): nat {
    Xor(State(s, 8 * |s|), ONES)
  }

  // ----- 32 bits suffice -----

  lemma {:induction false} Xor32(a: nat, b: nat)
    requires a < STATES && b < STATES
    ensures Xor(a, b) < STATES
  {
    Pow2Values();
    XorBound(a, b, 32);
  }

  lemma {:induction false} MixedFits(state: nat, s: seq<Byte>, i: nat)
    requires state < STATES && i < 8 * |s|
    ensures Mixed(state, s, i) < STATES
  {
    if i % 8 == 0 { Xor32(state, s[i / 8]); }
  }

  lemma {:induction false} BitStepFits(crc: nat)
    requires crc < STATES
    ensures BitStep(crc) < STATES
  {
    if crc % 2 == 1 { Xor32(crc / 2, POLYNOMIAL); }
  }

  lemma {:induction false} StateFits(s: seq<Byte>, n: nat)
    requires n <= 8 * |s|
    ensures State(s, n) < STATES
  {
    if n > 0 {
      StateFits(s, n - 1);
      MixedFits(State(s, n - 1), s, n - 1);
      BitStepFits(Mixed(State(s, n - 1), s, n - 1));
    }
  }

  /** The checksum fits its four bytes. */
  lemma {:induction false} ChecksumFits(s: seq<Byte>)
    ensures Checksum(s) < STATES && UnLe(Le(Checksum(s), 4)) == Checksum(s)
  {
    StateFits(s, 8 * |s|);
    Xor32(State(s, 8 * |s|), ONES);
    Le4(Checksum(s));
  }

  // ----- the loops -----

  /** The state after the first `i` bytes of `s`. */
  function After(s: seq<Byte>, i: nat): nat
    requires i <= |s|
  {
    State(s, 8 * i)
  }

  lemma {:induction false} BitOf(s: seq<Byte>, i: nat, j: nat)
    requires i < |s| && j < 8
    ensures State(s, 8 * i + (j + 1)) == BitStep(if j == 0 then Xor(After(s, i), s[i]) else State(s, 8 * i + j))
  {
    var n := 8 * i + j;
    assert n % 8 == j && n / 8 == i;
    assert State(s, n + 1) == BitStep(Mixed(State(s, n), s, n));
  }

  /** Mixes byte `i` into the state and shifts it out. */
  method Update(state: nat, s: seq<Byte>, i: nat) returns (crc: nat)
    requires i < |s| && state == After(s, i)
    ensures crc == After(s, i + 1)
  {
    crc := Xor(state, s[i]);
    var j := 0;
    while j < 8
      invariant j <= 8
      invariant crc == if j == 0 then Xor(state, s[i]) else State(s, 8 * i + j)
    {
      BitOf(s, i, j);
      crc := if crc % 2 == 1 then Xor(crc / 2, POLYNOMIAL) else crc / 2;
      j := j + 1;
    }
  }

  method ChecksumOf(s: seq<Byte>) returns (crc: nat)
    ensures crc == Checksum(s)
  {
    crc := ONES;
    var i := 0;
    while i < |s|
      invariant i <= |s| && crc == After(s, i)
    {
      crc := Update(crc, s, i);
      i := i + 1;
    }
    crc := Xor(crc, ONES);
  }

  /** The checksum the log computes over type, key and value. */
  method Compute(kind: Byte, key: Key, value: Value) returns (crc: nat)
    ensures crc == Checksum([kind] + key + value)
  {
    crc := ChecksumOf([kind] + key + value);
  }

  // ----- one changed byte -----

  /** The polynomial's top bit tells the two halves of the step's range apart. */
  lemma {:induction false} BitStepInjective(a: nat, b: nat)
    requires a != b && a < STATES && b < STATES
    ensures BitStep(a) != BitStep(b)
  {
    Pow2Values();
    XorTopBit(a / 2, POLYNOMIAL, 31);
    XorTopBit(b / 2, POLYNOMIAL, 31);
    if a % 2 == 1 && b % 2 == 1 { XorSeparates(a / 2, b / 2, POLYNOMIAL); }
  }

  /** Two runs that differ keep differing on common bits. */
  lemma {:induction false} StaysApart(s: seq<Byte>, t: seq<Byte>, n: nat)
    requires |s| == |t| && n < 8 * |s|
    requires n % 8 == 0 ==> s[n / 8] == t[n / 8]
    requires State(s, n) != State(t, n)
    ensures State(s, n + 1) != State(t, n + 1)
  {
    var a, b := State(s, n), State(t, n);
    StateFits(s, n);
    StateFits(t, n);
    MixedFits(a, s, n);
    MixedFits(b, t, n);
    if n % 8 == 0 { XorSeparates(a, b, s[n / 8]); }
    BitStepInjective(Mixed(a, s, n), Mixed(b, t, n));
  }

  /** Equal runs part where their bytes do. */
  lemma {:induction false} PartsHere(s: seq<Byte>, t: seq<Byte>, j: nat)
    requires |s| == |t| && j < |s| && s[j] != t[j]
    requires State(s, 8 * j) == State(t, 8 * j)
    ensures State(s, 8 * j + 1) != State(t, 8 * j + 1)
  {
    var c := State(s, 8 * j);
    StateFits(s, 8 * j);
    MixedFits(c, s, 8 * j);
    MixedFits(c, t, 8 * j);
    MixSeparates(c, s[j], t[j]);
    MixedHere(c, s, j);
    MixedHere(c, t, j);
    BitStepInjective(Xor(c, s[j]), Xor(c, t[j]));
  }

  lemma {:induction false} MixedHere(c: nat, s: seq<Byte>, j: nat)
    requires j < |s|
    ensures Mixed(c, s, 8 * j) == Xor(c, s[j])
  {
  }

  lemma {:induction false} MixSeparates(c: nat, a: nat, b: nat)
    requires a != b
    ensures Xor(c, a) != Xor(c, b)
  {
    XorComm(c, a);
    XorComm(c, b);
    XorSeparates(a, b, c);
  }

  lemma {:induction false} SameBefore(s: seq<Byte>, t: seq<Byte>, j: nat, n: nat)
    requires |s| == |t| && n <= 8 * j <= 8 * |s| && s[..j] == t[..j]
    ensures State(s, n) == State(t, n)
  {
    if n > 0 {
      SameBefore(s, t, j, n - 1);
      assert s[(n - 1) / 8] == s[..j][(n - 1) / 8] == t[(n - 1) / 8];
    }
  }

  lemma {:induction false} ApartAfter(s: seq<Byte>, t: seq<Byte>, j: nat, n: nat)
    requires |s| == |t| && j < |s| && s[j] != t[j] && 8 * j < n <= 8 * |s|
    requires forall i | 0 <= i < |s| && i != j :: s[i] == t[i]
    ensures State(s, n) != State(t, n)
  {
    if n == 8 * j + 1 {
      SameBefore(s, t, j, 8 * j);
      PartsHere(s, t, j);
    } else {
      ApartAfter(s, t, j, n - 1);
      StaysApart(s, t, n - 1);
    }
  }

  /** Every change confined to one byte changes the checksum. */
  lemma {:induction false} DetectsOneByte(s: seq<Byte>, j: nat, b: Byte)
    requires j < |s| && s[j] != b
    ensures Checksum(s[j := b]) != Checksum(s)
  {
    var t := s[j := b];
    ApartAfter(s, t, j, 8 * |s|);
    XorSeparates(State(s, 8 * |s|), State(t, 8 * |s|), ONES);
  }
}
