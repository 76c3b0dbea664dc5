/**
  The standard's check value: the checksum of the digits 1 to 9.  The register is followed on 32-bit
  words, which agree with the numbers bit by bit.
*/
module CrcCheck {
  import opened Store
  import opened Bytes
  import opened Crc32

  type Word = bv32

  function WordBit(v: Word, i: nat): bool {
    if i == 0 then v & 1 == 1 else WordBit(v >> 1, i - 1)
  }

  /** The number and the word have the same bits. */
  ghost predicate Same(c: nat, v: Word) {
    forall i: nat :: Bit(c, i) == WordBit(v, i)
  }

  lemma {:induction false} XorWords(v: Word, w: Word)
    ensures (v ^ w) >> 1 == (v >> 1) ^ (w >> 1)
    ensures (v ^ w) & 1 == 1 <==> (v & 1 == 1) != (w & 1 == 1)
  {
  }

  lemma {:induction false} Shifted(v: Word, v': Word, i: nat)
    requires i > 0 && v' == v >> 1
    ensures WordBit(v, i) == WordBit(v', i - 1)
  {
  }

  lemma {:induction false} WordXor(v: Word, w: Word, x: Word, i: nat)
    requires x == v ^ w
    ensures WordBit(x, i) == (WordBit(v, i) != WordBit(w, i))
    decreases i
  {
    if i == 0 {
      XorWords(v, w);
    } else {
      var v', w', x' := v >> 1, w >> 1, x >> 1;
      XorWords(v, w);
      WordXor(v', w', x', i - 1);
      Shifted(v, v', i);
      Shifted(w, w', i);
      Shifted(x, x', i);
    }
  }

  lemma {:induction false} SameXor(a: nat, v: Word, b: nat, w: Word)
    requires Same(a, v) && Same(b, w)
    ensures Same(Xor(a, b), v ^ w)
  {
    forall i: nat ensures Bit(Xor(a, b), i) == WordBit(v ^ w, i) {
      BitOfXor(a, b, i);
      WordXor(v, w, v ^ w, i);
    }
  }

  lemma {:induction false} SameHalf(c: nat, v: Word)
    requires Same(c, v)
    ensures Same(c / 2, v >> 1)
  {
    forall i: nat ensures Bit(c / 2, i) == WordBit(v >> 1, i) { assert Bit(c, i + 1) == WordBit(v, i + 1); }
  }

  lemma {:induction false} SameLowest(c: nat, v: Word)
    requires Same(c, v)
    ensures c % 2 == 1 <==> v & 1 == 1
  {
    assert Bit(c, 0) == WordBit(v, 0);
  }

  /** Compares a number and a word four bits at a time. */
  predicate Compare(c: nat, v: Word, n: nat) {
    if n == 0 then c == 0 && v == 0
    else
      && (c % 2 == 1 <==> v & 1 == 1) && (c / 2 % 2 == 1 <==> v & 2 == 2)
      && (c / 4 % 2 == 1 <==> v & 4 == 4) && (c / 8 % 2 == 1 <==> v & 8 == 8)
      && Compare(c / 16, v >> 4, n - 1)
  }

  lemma {:induction false} WordLow(v: Word)
    ensures (WordBit(v, 1) <==> v & 2 == 2) && (WordBit(v, 2) <==> v & 4 == 4) && (WordBit(v, 3) <==> v & 8 == 8)
  {
    assert WordBit(v, 1) == WordBit(v >> 1, 0);
    assert WordBit(v, 2) == WordBit(v >> 1, 1) == WordBit(v >> 1 >> 1, 0);
    assert WordBit(v, 3) == WordBit(v >> 1, 2) == WordBit(v >> 1 >> 1, 1) == WordBit(v >> 1 >> 1 >> 1, 0);
  }

  lemma {:induction false} WordHigh(v: Word, i: nat)
    requires i >= 4
    ensures WordBit(v, i) == WordBit(v >> 4, i - 4)
  {
    assert v >> 1 >> 1 >> 1 >> 1 == v >> 4;
    assert WordBit(v, i) == WordBit(v >> 1, i - 1) == WordBit(v >> 1 >> 1, i - 2);
    assert WordBit(v >> 1 >> 1, i - 2) == WordBit(v >> 1 >> 1 >> 1, i - 3) == WordBit(v >> 1 >> 1 >> 1 >> 1, i - 4);
  }

  lemma {:induction false} NumberBits(c: nat, i: nat)
    ensures Bit(c, 1) == (c / 2 % 2 == 1) && Bit(c, 2) == (c / 4 % 2 == 1) && Bit(c, 3) == (c / 8 % 2 == 1)
    ensures i >= 4 ==> Bit(c, i) == Bit(c / 16, i - 4)
  {
    assert c / 2 / 2 == c / 4 && c / 4 / 2 == c / 8 && c / 8 / 2 == c / 16;
    assert Bit(c, 2) == Bit(c / 2, 1) == Bit(c / 4, 0);
    assert Bit(c, 3) == Bit(c / 2, 2) == Bit(c / 4, 1) == Bit(c / 8, 0);
    if i >= 4 { assert Bit(c, i) == Bit(c / 2, i - 1) == Bit(c / 4, i - 2) == Bit(c / 8, i - 3); }
  }

  lemma {:induction false} ZeroBits(i: nat)
    ensures !Bit(0, i) && !WordBit(0, i)
  {
    if i > 0 { ZeroBits(i - 1); }
  }

  lemma {:induction false} CompareBit(c: nat, v: Word, n: nat, i: nat)
    requires Compare(c, v, n)
    ensures Bit(c, i) == WordBit(v, i)
  {
    if n == 0 {
      ZeroBits(i);
    } else if i < 4 {
      NumberBits(c, i);
      WordLow(v);
    } else {
      NumberBits(c, i);
      WordHigh(v, i);
      CompareBit(c / 16, v >> 4, n - 1, i - 4);
    }
  }

  lemma {:induction false} Compared(c: nat, v: Word, n: nat)
    requires Compare(c, v, n)
    ensures Same(c, v)
  {
    forall i: nat ensures Bit(c, i) == WordBit(v, i) { CompareBit(c, v, n, i); }
  }

  /** Bits determine the number. */
  lemma {:induction false} SameIsEqual(a: nat, b: nat, v: Word)
    requires Same(a, v) && Same(b, v)
    ensures a == b
    decreases a + b
  {
    if a != 0 || b != 0 {
      SameHalf(a, v);
      SameHalf(b, v);
      SameIsEqual(a / 2, b / 2, v >> 1);
      SameLowest(a, v);
      SameLowest(b, v);
      SameNumber(a, b);
    }
  }

  // ----- the register -----

  function WordStep(v: Word): Word {
    if v & 1 == 1 then (v >> 1) ^ 0xEDB8_8320 else v >> 1
  }

  function WordSteps(v: Word, n: nat): Word {
    if n == 0 then v else WordStep(WordSteps(v, n - 1))
  }

  function WordByte(v: Word): Word {
    WordStep(WordStep(WordStep(WordStep(WordStep(WordStep(WordStep(WordStep(v))))))))
  }

  /** The lowest eight bits agree. */
  predicate LowByte(c: nat, v: Word) {
    && (c % 2 == 1 <==> v & 1 == 1) && (c / 2 % 2 == 1 <==> v & 2 == 2)
    && (c / 4 % 2 == 1 <==> v & 4 == 4) && (c / 8 % 2 == 1 <==> v & 8 == 8)
    && (c / 16 % 2 == 1 <==> v & 16 == 16) && (c / 32 % 2 == 1 <==> v & 32 == 32)
    && (c / 64 % 2 == 1 <==> v & 64 == 64) && (c / 128 % 2 == 1 <==> v & 128 == 128)
  }

  lemma {:induction false} NextByte(c: nat, v: Word, c': nat, v': Word, n: nat)
    requires LowByte(c, v) && c' == c / 256 && v' == v >> 8 && Compare(c', v', n)
    ensures Compare(c, v, n + 2)
  {
    assert c / 16 / 2 == c / 32 && c / 16 / 4 == c / 64 && c / 16 / 8 == c / 128 && c / 16 / 16 == c / 256;
    HighNibble(v);
    assert Compare(c / 16, v >> 4, n + 1);
  }

  lemma {:induction false} HighNibble(v: Word)
    ensures v >> 4 >> 4 == v >> 8
    ensures ((v >> 4) & 1 == 1 <==> v & 16 == 16) && ((v >> 4) & 2 == 2 <==> v & 32 == 32)
    ensures ((v >> 4) & 4 == 4 <==> v & 64 == 64) && ((v >> 4) & 8 == 8 <==> v & 128 == 128)
  {
  }

  lemma {:induction false} NothingAbove(v: Word)
    requires v < 256
    ensures v >> 8 == 0
  {
  }

  /** A number and a word given with their first one, two and three bytes. */
  lemma {:induction false} FourBytes(c1: nat, c2: nat, c3: nat, c: nat, v1: Word, v2: Word, v3: Word, v: Word)
    requires LowByte(c1, v1) && LowByte(c2, v2) && LowByte(c3, v3) && LowByte(c, v)
    requires c1 < 256 && c1 == c2 / 256 && c2 == c3 / 256 && c3 == c / 256
    requires v1 < 256 && v1 == v2 >> 8 && v2 == v3 >> 8 && v3 == v >> 8
    ensures Same(c, v)
  {
    NothingAbove(v1);
    NextByte(c1, v1, 0, 0, 0);
    NextByte(c2, v2, c1, v1, 2);
    NextByte(c3, v3, c2, v2, 4);
    NextByte(c, v, c3, v3, 6);
    Compared(c, v, 8);
  }

  lemma {:induction false} SamePolynomial()
    ensures Same(POLYNOMIAL, 0xEDB8_8320)
  {
    FourBytes(0xED, 0xEDB8, 0xED_B883, 0xEDB8_8320, 0xED, 0xEDB8, 0xED_B883, 0xEDB8_8320);
  }

  lemma {:induction false} SameOnes()
    ensures Same(ONES, 0xFFFF_FFFF)
  {
    FourBytes(0xFF, 0xFFFF, 0xFF_FFFF, 0xFFFF_FFFF, 0xFF, 0xFFFF, 0xFF_FFFF, 0xFFFF_FFFF);
  }

  lemma {:induction false} SameCheck()
    ensures Same(0xCBF4_3926, 0xCBF4_3926)
  {
    FourBytes(0xCB, 0xCBF4, 0xCB_F439, 0xCBF4_3926, 0xCB, 0xCBF4, 0xCB_F439, 0xCBF4_3926);
  }

  lemma {:induction false} SameStep(c: nat, v: Word)
    requires Same(c, v)
    ensures Same(BitStep(c), WordStep(v))
  {
    SameHalf(c, v);
    SameLowest(c, v);
    SamePolynomial();
    if c % 2 == 1 { SameXor(c / 2, v >> 1, POLYNOMIAL, 0xEDB8_8320); }
  }

  lemma {:induction false} MixesIn(s: seq<Byte>, i: nat, c: nat)
    requires i < |s|
    ensures Mixed(c, s, 8 * i) == Xor(c, s[i])
  {
  }

  lemma {:induction false} MixesNothing(s: seq<Byte>, i: nat, n: nat, c: nat)
    requires i < |s| && 0 < n < 8
    ensures Mixed(c, s, 8 * i + n) == c
  {
  }

  /** `n` bits into byte `i`. */
  lemma {:induction false} SameInByte(s: seq<Byte>, i: nat, v: Word, b: Word, n: nat)
    requires i < |s| && Same(State(s, 8 * i), v) && Same(s[i], b) && n <= 8
    ensures n > 0 ==> Same(State(s, 8 * i + n), WordSteps(v ^ b, n))
  {
    if n > 0 {
      SameInByte(s, i, v, b, n - 1);
      var c := State(s, 8 * i + n - 1);
      if n == 1 {
        SameXor(c, v, s[i], b);
        MixesIn(s, i, c);
      } else {
        MixesNothing(s, i, n - 1, c);
      }
      SameStep(Mixed(c, s, 8 * i + n - 1), WordSteps(v ^ b, n - 1));
    }
  }

  lemma {:induction false} EightStepsTo(v: Word, v': Word)
    requires WordByte(v) == v'
    ensures WordSteps(v, 8) == v'
  {
    assert WordSteps(v, 1) == WordStep(v);
    assert WordSteps(v, 2) == WordStep(WordSteps(v, 1));
    assert WordSteps(v, 4) == WordStep(WordStep(WordSteps(v, 2)));
    assert WordSteps(v, 6) == WordStep(WordStep(WordSteps(v, 4)));
  }

  /** A whole byte. */
  lemma {:induction false} SameByte(s: seq<Byte>, i: nat, v: Word, b: Word, v': Word)
    requires i < |s| && Same(State(s, 8 * i), v) && Compare(s[i], b, 2) && v' == WordSteps(v ^ b, 8)
    ensures Same(State(s, 8 * (i + 1)), v')
  {
    Compared(s[i], b, 2);
    SameInByte(s, i, v, b, 8);
  }

  /** `reg` lists the register before each byte of `s` and at the end. */
  ghost predicate Registers(s: seq<Byte>, words: seq<Word>, reg: seq<Word>) {
    && |words| == |s| && |reg| == |s| + 1 && Same(ONES, reg[0])
    && (forall i | 0 <= i < |s| :: NextRegister(s, words, reg, i))
  }

  predicate NextRegister(s: seq<Byte>, words: seq<Word>, reg: seq<Word>, i: nat)
    requires i < |s| == |words| < |reg|
  {
    Compare(s[i], words[i], 2) && WordSteps(reg[i] ^ words[i], 8) == reg[i + 1]
  }

  lemma {:induction false} Followed(s: seq<Byte>, words: seq<Word>, reg: seq<Word>, n: nat)
    requires Registers(s, words, reg) && n <= |s|
    ensures Same(State(s, 8 * n), reg[n])
  {
    if n > 0 {
      Followed(s, words, reg, n - 1);
      assert NextRegister(s, words, reg, n - 1);
      SameByte(s, n - 1, reg[n - 1], words[n - 1], reg[n]);
    }
  }

  /** The digits 1 to 9. */
  const DIGITS: seq<Byte> := [0x31, 0x32, 0x33, 0x34, 0x35, 0x36, 0x37, 0x38, 0x39]
  const DIGIT_WORDS: seq<Word> := [0x31, 0x32, 0x33, 0x34, 0x35, 0x36, 0x37, 0x38, 0x39]

  /** The register before each digit and at the end. */
  const REGISTER: seq<Word> := [
    0xFFFF_FFFF, 0x7C23_1048, 0xB0AC_BB32, 0x77B7_9C2D, 0x641C_1F5C,
    0x340A_C5E3, 0xF68D_2C9E, 0xAFFC_9660, 0x651F_2550, 0x340B_C6D9]

  lemma {:induction false} FirstDigits()
    ensures WordByte(0xFFFF_FFFF ^ 0x31) == 0x7C23_1048
    ensures WordByte(0x7C23_1048 ^ 0x32) == 0xB0AC_BB32
    ensures WordByte(0xB0AC_BB32 ^ 0x33) == 0x77B7_9C2D
  {
  }

  lemma {:induction false} MiddleDigits()
    ensures WordByte(0x77B7_9C2D ^ 0x34) == 0x641C_1F5C
    ensures WordByte(0x641C_1F5C ^ 0x35) == 0x340A_C5E3
    ensures WordByte(0x340A_C5E3 ^ 0x36) == 0xF68D_2C9E
  {
  }

  lemma {:induction false} LastDigits()
    ensures WordByte(0xF68D_2C9E ^ 0x37) == 0xAFFC_9660
    ensures WordByte(0xAFFC_9660 ^ 0x38) == 0x651F_2550
    ensures WordByte(0x651F_2550 ^ 0x39) == 0x340B_C6D9
  {
  }

  lemma {:induction false} RegisterRuns(i: nat)
    requires i < 9
    ensures WordSteps(REGISTER[i] ^ DIGIT_WORDS[i], 8) == REGISTER[i + 1]
  {
    RegisterBytes(i);
    EightStepsTo(REGISTER[i] ^ DIGIT_WORDS[i], REGISTER[i + 1]);
  }

  lemma {:induction false} RegisterBytes(i: nat)
    requires i < 9
    ensures WordByte(REGISTER[i] ^ DIGIT_WORDS[i]) == REGISTER[i + 1]
  {
    if i < 3 { FirstDigits(); } else if i < 6 { MiddleDigits(); } else { LastDigits(); }
  }

  lemma {:induction false} DigitsAgree(i: nat)
    requires i < 9
    ensures Compare(DIGITS[i], DIGIT_WORDS[i], 2)
  {
  }

  /** The check value. */
  lemma {:induction false} CheckValue()
    ensures Checksum(DIGITS) == 0xCBF4_3926
  {
    SameOnes();
    forall i | 0 <= i < 9 ensures NextRegister(DIGITS, DIGIT_WORDS, REGISTER, i) {
      DigitsAgree(i);
      RegisterRuns(i);
    }
    Followed(DIGITS, DIGIT_WORDS, REGISTER, 9);
    SameCheck();
    SameXor(State(DIGITS, 72), 0x340B_C6D9, ONES, 0xFFFF_FFFF);
    SameIsEqual(Checksum(DIGITS), 0xCBF4_3926, 0xCBF4_3926);
  }
}
