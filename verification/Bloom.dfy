/**
  The blocked Bloom filter of a table.  One hash selects a 512-bit block, eight probes select
  bits within it.  Hashes are 64-bit words, written as numbers modulo 2^64; the filter's words
  are written as the bits they hold, in memory order.
*/
module Bloom {
  import opened Store
  import opened Bytes

  const WORD: nat := 0x1_0000_0000_0000_0000
  const NUM_HASHES: nat := 8

  /** FNV-1a. */
  function Hash1(key: Key): nat {
    if key == [] then 14695981039346656037
    else Xor(Hash1(key[..|key| - 1]), key[|key| - 1]) * 1099511628211 % WORD
  }

  function Rotate27(h: nat): nat { h * 0x800_0000 % WORD + h / 0x20_0000_0000 }

  function Mix2(key: Key): nat {
    if key == [] then 1099511628211
    else Rotate27(Xor(Mix2(key[..|key| - 1]), key[|key| - 1]) * 0x9E37_79B9_7F4A_7C15 % WORD)
  }

  function SetLowBit(h: nat): (r: nat)
    ensures r % 2 == 1
  {
    h + 1 - h % 2
  }

  function Avalanche(h: nat): nat {
    var a := Xor(h, h / 0x2_0000_0000) * 0xff51_afd7_ed55_8ccd % WORD;
    Xor(a, a / 0x2000_0000)
  }

  /** The probe step. */
  function Hash2(key: Key): (r: nat)
    ensures r % 2 == 1
  {
    SetLowBit(Avalanche(Mix2(key)))
  }

  /** `x` is the exclusive or of `a` and `b`, bit by bit. */
  ghost predicate BitwiseXor(x: nat, a: nat, b: nat) {
    forall i: nat :: Bit(x, i) <==> Bit(a, i) != Bit(b, i)
  }

  lemma {:induction false} XorIsBitwise(a: nat, b: nat)
    ensures BitwiseXor(Xor(a, b), a, b)
  {
    forall i: nat ensures Bit(Xor(a, b), i) <==> Bit(a, i) != Bit(b, i) { BitOfXor(a, b, i); }
  }

  /** The first hash is FNV-1a for 64 bits, by its published offset basis and prime. */
  lemma {:induction false} IsFnv1a(key: Key, b: Byte) returns (x: nat)
    ensures Hash1([]) == 0xCBF2_9CE4_8422_2325
    ensures BitwiseXor(x, Hash1(key), b) && Hash1(key + [b]) == x * 0x100_0000_01B3 % WORD
  {
    x := Xor(Hash1(key), b);
    XorIsBitwise(Hash1(key), b);
    assert (key + [b])[..|key|] == key;
  }

  lemma {:induction false} Pow2InRotation()
    ensures Pow2(27) == 0x800_0000 && Pow2(37) == 0x20_0000_0000
    ensures Pow2(29) == 0x2000_0000 && Pow2(33) == 0x2_0000_0000
  {
    Pow2Values();
    assert Pow2(24) == 0x100_0000;
    assert Pow2(27) == 0x800_0000;
    assert Pow2(37) == 32 * Pow2(32);
  }

  /** Rotation exchanges the word's top 27 bits and the rest. */
  lemma {:induction false} RotateSwaps(h: nat) returns (high: nat, low: nat)
    requires h < WORD
    ensures high < 0x800_0000 && low < 0x20_0000_0000
    ensures h == high * 0x20_0000_0000 + low && Rotate27(h) == low * 0x800_0000 + high
  {
    high, low := h / 0x20_0000_0000, h % 0x20_0000_0000;
    WrapsAround(high, low * 0x800_0000);
  }

  lemma {:induction false} WrapsAround(q: nat, r: nat)
    requires r < WORD
    ensures (q * WORD + r) % WORD == r
  {
  }

  /** Rotating a word moves every bit 27 places up, and the top 27 to the bottom. */
  lemma {:induction false} RotateBits(h: nat, i: nat)
    requires h < WORD && i < 64
    ensures Bit(Rotate27(h), i) == Bit(h, if i < 27 then i + 37 else i - 27)
  {
    var high, low := RotateSwaps(h);
    Pow2InRotation();
    BitOfJoined(high, low, 37, if i < 27 then i + 37 else i - 27);
    BitOfJoined(low, high, 27, i);
  }

  /** The lowest bit is set, the others kept. */
  lemma {:induction false} SetLowBitBits(h: nat, i: nat)
    ensures Bit(SetLowBit(h), i) == (i == 0 || Bit(h, i))
  {
    Halves(h / 2, 1);
    assert SetLowBit(h) == 2 * (h / 2) + 1;
  }

  /** One byte into the second hash: exclusive or, multiply, rotate. */
  lemma {:induction false} SecondHashStep(key: Key, b: Byte) returns (x: nat)
    ensures BitwiseXor(x, Mix2(key), b)
    ensures forall i: nat | i < 64 ::
              Bit(Mix2(key + [b]), i) == Bit(x * 0x9E37_79B9_7F4A_7C15 % WORD, if i < 27 then i + 37 else i - 27)
  {
    x := Xor(Mix2(key), b);
    XorIsBitwise(Mix2(key), b);
    assert (key + [b])[..|key|] == key;
    var y := x * 0x9E37_79B9_7F4A_7C15 % WORD;
    forall i: nat | i < 64 ensures Bit(Mix2(key + [b]), i) == Bit(y, if i < 27 then i + 37 else i - 27) { RotateBits(y, i); }
  }

  /** `r` is `h` with its bits from `s` up folded onto those from 0 up. */
  ghost predicate FoldedBy(r: nat, h: nat, s: nat) {
    forall i: nat :: Bit(r, i) <==> Bit(h, i) != Bit(h, i + s)
  }

  /** `high` is `h` shifted right by `s`. */
  lemma {:induction false} XorShiftFolds(h: nat, high: nat, low: nat, s: nat)
    requires h == high * Pow2(s) + low && low < Pow2(s)
    ensures FoldedBy(Xor(h, high), h, s)
  {
    forall i: nat ensures Bit(Xor(h, high), i) <==> Bit(h, i) != Bit(h, i + s) {
      BitOfXor(h, high, i);
      BitOfJoined(high, low, s, i + s);
    }
  }

  /** The probe step: fold by 33, multiply, fold by 29, and set the lowest bit. */
  lemma {:induction false} SecondHashEnds(key: Key) returns (x: nat, y: nat)
    ensures FoldedBy(x, Mix2(key), 33) && FoldedBy(y, x * 0xFF51_AFD7_ED55_8CCD % WORD, 29)
    ensures forall i: nat :: Bit(Hash2(key), i) == (i == 0 || Bit(y, i))
  {
    var h := Mix2(key);
    Pow2InRotation();
    x := Xor(h, h / 0x2_0000_0000);
    XorShiftFolds(h, h / 0x2_0000_0000, h % 0x2_0000_0000, 33);
    var a := x * 0xFF51_AFD7_ED55_8CCD % WORD;
    y := Xor(a, a / 0x2000_0000);
    XorShiftFolds(a, a / 0x2000_0000, a % 0x2000_0000, 29);
    forall i: nat ensures Bit(Hash2(key), i) == (i == 0 || Bit(y, i)) { SetLowBitBits(y, i); }
  }

  /** Both hashes in one pass over the key. */
  method Hash(key: Key) returns (h1: nat, h2: nat)
    ensures h1 == Hash1(key) && h2 == Hash2(key)
  {
    h1, h2 := 14695981039346656037, 1099511628211;
    for i := 0 to |key|
      invariant h1 == Hash1(key[..i]) && h2 == Mix2(key[..i])
    {
      assert key[..i + 1][..i] == key[..i];
      h1 := Xor(h1, key[i]) * 1099511628211 % WORD;
      h2 := Rotate27(Xor(h2, key[i]) * 0x9E37_79B9_7F4A_7C15 % WORD);
    }
    assert key[..|key|] == key;
    h2 := SetLowBit(Avalanche(h2));
  }

  function BitIndex(h1: nat, h2: nat, i: nat): (b: nat)
    ensures b < 512
  {
    (h1 + i * h2) % WORD % 512
  }

  /** The bit probe `i` looks at. */
  function Probe(key: Key, blocks: nat, i: nat): (p: nat)
    requires blocks > 0
    ensures p < 512 * blocks
  {
    512 * (Hash1(key) % blocks) + BitIndex(Hash1(key), Hash2(key), i)
  }

  ghost predicate Probed(key: Key, blocks: nat, hashes: nat, p: nat)
    requires blocks > 0
  {
    exists i: nat :: i < hashes && Probe(key, blocks, i) == p
  }

  /** What mayContain tests. */
  ghost predicate AllSet(bits: seq<bool>, blocks: nat, hashes: nat, key: Key)
    requires blocks > 0 && |bits| == 512 * blocks
  {
    forall i: nat | i < hashes :: bits[Probe(key, blocks, i)]
  }

  /** The filter of exactly these keys: a bit is set if and only if some key's probe hits it. */
  ghost predicate FilterOf(bits: seq<bool>, blocks: nat, hashes: nat, keys: seq<Key>)
    requires blocks > 0
  {
    && |bits| == 512 * blocks
    && (forall p: nat | p < |bits| :: bits[p] <==> Hit(keys, blocks, hashes, p))
  }

  ghost predicate Hit(keys: seq<Key>, blocks: nat, hashes: nat, p: nat)
    requires blocks > 0
  {
    exists j :: 0 <= j < |keys| && Probed(keys[j], blocks, hashes, p)
  }

  /** No false negatives. */
  lemma {:induction false} NoFalseNegative(bits: seq<bool>, blocks: nat, hashes: nat, keys: seq<Key>, key: Key)
    requires blocks > 0 && FilterOf(bits, blocks, hashes, keys) && key in keys
    ensures AllSet(bits, blocks, hashes, key)
  {
    forall i: nat | i < hashes ensures bits[Probe(key, blocks, i)] {
      assert Probed(key, blocks, hashes, Probe(key, blocks, i));
    }
  }

  lemma SameBit(h1: nat, h2: nat, i: nat, d: nat)
    requires BitIndex(h1, h2, i) == BitIndex(h1, h2, i + d)
    ensures d * h2 % 512 == 0
  {
    var x, y := h1 + i * h2, h1 + (i + d) * h2;
    assert (i + d) * h2 == i * h2 + d * h2;
    assert y == x + d * h2;
    LowBits(x);
    LowBits(y);
    Shifted(x, d * h2);
  }

  lemma LowBits(x: nat)
    ensures x % WORD % 512 == x % 512
  {
    var q, r := x / WORD, x % WORD;
    assert x == 512 * (0x80_0000_0000_0000 * q) + r;
  }

  lemma Shifted(x: nat, y: nat)
    requires x % 512 == (x + y) % 512
    ensures y % 512 == 0
  {
  }

  /** An odd step never folds eight probes onto one another. */
  lemma StepIsCoprime(d: nat, h: nat)
    requires 1 <= d < 8 && h % 2 == 1
    ensures d * h % 512 != 0
  {
    var m := h / 2;
    if d == 1 { } else if d == 2 { } else if d == 3 { } else if d == 4 { }
    else if d == 5 { } else if d == 6 { } else { assert d == 7; }
  }

  /** The eight probes of a key are eight different bits. */
  lemma {:induction false} ProbesDistinct(key: Key, blocks: nat, i: nat, j: nat)
    requires blocks > 0 && i < j < NUM_HASHES
    ensures Probe(key, blocks, i) != Probe(key, blocks, j)
  {
    StepIsCoprime(j - i, Hash2(key));
    if BitIndex(Hash1(key), Hash2(key), i) == BitIndex(Hash1(key), Hash2(key), j) {
      SameBit(Hash1(key), Hash2(key), i, j - i);
    }
  }

  // ----- on disk -----

  /** Bits as a number, lowest first. */
  function Packed(bits: seq<bool>): nat {
    if bits == [] then 0 else (if bits[0] then 1 else 0) + 2 * Packed(bits[1..])
  }

  function Unpacked(n: nat, w: nat): (bits: seq<bool>)
    ensures |bits| == w
  {
    if w == 0 then [] else [n % 2 == 1] + Unpacked(n / 2, w - 1)
  }

  lemma {:induction false} PackedRoundTrip(bits: seq<bool>)
    ensures Unpacked(Packed(bits), |bits|) == bits
  {
    if bits != [] {
      PackedRoundTrip(bits[1..]);
      assert Packed(bits) / 2 == Packed(bits[1..]);
    }
  }

  lemma {:induction false} PackedBound(bits: seq<bool>)
    ensures Packed(bits) < Pow2(|bits|)
  {
    if bits != [] { PackedBound(bits[1..]); }
  }

  function PackedByte(bits: seq<bool>): Byte
    requires |bits| == 8
  {
    PackedBound(bits);
    Pow2Values();
    Packed(bits)
  }

  lemma ByteOfBits(bits: seq<bool>)
    requires |bits| == 8
    ensures Unpacked(PackedByte(bits), 8) == bits
  {
    PackedBound(bits);
    Pow2Values();
    PackedRoundTrip(bits);
  }

  /** The filter's memory as `n` bytes. */
  function Serialized(bits: seq<bool>, n: nat): (s: seq<Byte>)
    requires |bits| == 8 * n
    ensures |s| == n
  {
    if n == 0 then [] else [PackedByte(bits[..8])] + Serialized(bits[8..], n - 1)
  }

  function BitsOf(s: seq<Byte>): (bits: seq<bool>)
    ensures |bits| == 8 * |s|
  {
    if s == [] then [] else Unpacked(s[0], 8) + BitsOf(s[1..])
  }

  lemma {:induction false} SerializedRoundTrip(bits: seq<bool>, n: nat)
    requires |bits| == 8 * n
    ensures BitsOf(Serialized(bits, n)) == bits
  {
    if n > 0 {
      ByteOfBits(bits[..8]);
      SerializedRoundTrip(bits[8..], n - 1);
      assert bits == bits[..8] + bits[8..];
    }
  }

  // ----- the filter -----

  class BloomFilter {
    const blocks: nat
    const hashes: nat
    const bits: array<bool>

    predicate Valid()
      reads this
    {
      blocks > 0 && bits.Length == 512 * blocks
    }

    /** An empty filter; sizing it is the caller's. */
    constructor (numBlocks: nat)
      ensures Valid() && fresh(bits) && hashes == NUM_HASHES && FilterOf(bits[..], blocks, hashes, [])
      ensures blocks == if numBlocks == 0 then 1 else numBlocks
    {
      blocks := if numBlocks == 0 then 1 else numBlocks;
      hashes := NUM_HASHES;
      bits := new bool[512 * (if numBlocks == 0 then 1 else numBlocks)](_ => false);
    }

    /** A filter read back from untrusted counts and bytes. */
    constructor Deserialize(numBlocks: nat, numHashes: nat, data: seq<Byte>)
      ensures Valid() && fresh(bits)
      ensures blocks == (if numBlocks == 0 then 1 else numBlocks) && hashes == (if numHashes == 0 then 1 else numHashes)
      ensures |data| >= 64 * blocks ==> bits[..] == BitsOf(data[..64 * blocks])
      ensures |data| < 64 * blocks ==> forall p | 0 <= p < bits.Length :: !bits[p]
    {
      var n := if numBlocks == 0 then 1 else numBlocks;
      blocks := n;
      hashes := if numHashes == 0 then 1 else numHashes;
      var source := if |data| >= 64 * n then BitsOf(data[..64 * n]) else seq(512 * n, _ => false);
      bits := new bool[512 * n](i requires 0 <= i < |source| => source[i]);
    }

    /** Sets the key's probe bits and no others. */
    method Insert(key: Key)
      requires Valid()
      modifies bits
      ensures forall p: nat | p < bits.Length :: bits[p] <==> old(bits[p]) || Probed(key, blocks, hashes, p)
    {
      var h1, h2 := Hash(key);
      var block := h1 % blocks;
      var i := 0;
      while i < hashes
        invariant i <= hashes
        invariant forall p: nat | p < bits.Length :: bits[p] <==> old(bits[p]) || Probed(key, blocks, i, p)
      {
        var bit := BitIndex(h1, h2, i);
        bits[512 * block + bit] := true;
        ProbedStep(key, blocks, i);
        i := i + 1;
      }
    }

    method MayContain(key: Key) returns (r: bool)
      requires Valid()
      ensures r <==> AllSet(bits[..], blocks, hashes, key)
    {
      var h1, h2 := Hash(key);
      var block := h1 % blocks;
      for i := 0 to hashes
        invariant forall j: nat | j < i :: bits[Probe(key, blocks, j)]
      {
        var bit := BitIndex(h1, h2, i);
        if !bits[512 * block + bit] {
          assert !bits[..][Probe(key, blocks, i)];
          return false;
        }
      }
      return true;
    }

    method Serialize() returns (s: seq<Byte>)
      requires Valid()
      ensures |s| == 64 * blocks && BitsOf(s) == bits[..]
    {
      s := Serialized(bits[..], 64 * blocks);
      SerializedRoundTrip(bits[..], 64 * blocks);
    }
  }

  lemma {:induction false} ProbedStep(key: Key, blocks: nat, n: nat)
    requires blocks > 0
    ensures forall p: nat :: Probed(key, blocks, n + 1, p) <==> Probed(key, blocks, n, p) || p == Probe(key, blocks, n)
  {
    forall p: nat
      ensures Probed(key, blocks, n + 1, p) <==> Probed(key, blocks, n, p) || p == Probe(key, blocks, n)
    {
      if Probed(key, blocks, n, p) {
        var i: nat :| i < n && Probe(key, blocks, i) == p;
        assert i < n + 1;
      }
    }
  }

  /** Inserting a key extends what the filter is the filter of. */
  lemma {:induction false} FilterOfSnoc(before: seq<bool>, after: seq<bool>, blocks: nat, hashes: nat, keys: seq<Key>, key: Key)
    requires blocks > 0 && FilterOf(before, blocks, hashes, keys) && |after| == |before|
    requires forall p: nat | p < |after| :: after[p] <==> before[p] || Probed(key, blocks, hashes, p)
    ensures FilterOf(after, blocks, hashes, keys + [key])
  {
    HitSnoc(keys, key, blocks, hashes);
  }

  lemma {:induction false} HitSnoc(keys: seq<Key>, key: Key, blocks: nat, hashes: nat)
    requires blocks > 0
    ensures forall p: nat :: Hit(keys + [key], blocks, hashes, p) <==>
      Hit(keys, blocks, hashes, p) || Probed(key, blocks, hashes, p)
  {
    var more := keys + [key];
    forall p: nat
      ensures Hit(more, blocks, hashes, p) <==> Hit(keys, blocks, hashes, p) || Probed(key, blocks, hashes, p)
    {
      if Hit(keys, blocks, hashes, p) {
        var j :| 0 <= j < |keys| && Probed(keys[j], blocks, hashes, p);
        assert more[j] == keys[j];
      }
      if Probed(key, blocks, hashes, p) { assert more[|keys|] == key; }
    }
  }
}
