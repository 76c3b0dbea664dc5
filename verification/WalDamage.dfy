/** What recovery makes of a log that was cut at some byte, or damaged in one. */
module WalDamage {
  import opened Store
  import opened Bytes
  import opened Crc32
  import opened WalCodec
  import opened WalImage

  // ----- truncation -----

  /** The record of a slot cut at `c`, if its body survives. */
  function IntactIn(s: Slot, c: nat): seq<Op> {
    if s.found != [] && c >= |Body(s.found[0])| then s.found else []
  }

  /** What a cut at `c` leaves of a torn record beyond its first block. */
  function ExposedIn(s: Slot, c: nat): seq<Byte>
    requires c <= |s.bits|
  {
    if s.found != [] && c < |Body(s.found[0])| then Drop(s.bits[..c], BLOCK) else []
  }

  /** The records whose bodies lie within the first `c` bytes. */
  function Intact(slots: seq<Slot>, c: nat): seq<Op> {
    if slots == [] then []
    else if c < |slots[0].bits| then IntactIn(slots[0], c)
    else slots[0].found + Intact(slots[1..], c - |slots[0].bits|)
  }

  /** What a cut at `c` leaves of a record torn by it, beyond that record's first block. */
  function Exposed(slots: seq<Slot>, c: nat): seq<Byte> {
    if slots == [] then []
    else if c < |slots[0].bits| then ExposedIn(slots[0], c)
    else Exposed(slots[1..], c - |slots[0].bits|)
  }

  /** No block of `s` passes for a record. */
  ghost predicate Silent(s: seq<Byte>) {
    forall k: nat :: 512 * k < |s| ==> SkipAt(s, k)
  }

  predicate SkipAt(s: seq<Byte>, k: nat)
    requires 512 * k < |s|
  {
    Examine(s[512 * k..]).Skip?
  }

  lemma {:induction false} SilentParse(s: seq<Byte>)
    ensures Parse(s) == [] <==> Silent(s)
    decreases |s|
  {
    if s != [] {
      assert s[512 * 0..] == s;
      var t := Drop(s, BLOCK);
      SilentParse(t);
      if Examine(s).Skip? {
        forall k: nat | 512 * k < |s| && k > 0 ensures |t| > 512 * (k - 1) && (SkipAt(s, k) <==> SkipAt(t, k - 1)) {
          assert t[512 * (k - 1)..] == s[512 * k..];
        }
        assert SkipAt(s, 0);
        if Silent(t) {
          forall k: nat | 512 * k < |s| ensures SkipAt(s, k) {
            if k > 0 { assert SkipAt(t, k - 1); }
          }
        }
        if Silent(s) {
          forall k: nat | 512 * k < |t| ensures SkipAt(t, k) {
            assert SkipAt(s, k + 1);
          }
        }
      } else {
        assert !SkipAt(s, 0);
      }
    }
  }

  lemma {:induction false} ParseZeros(n: nat)
    ensures Parse(Zeros(n)) == []
  {
    if n > 0 {
      assert Examine(Zeros(n)) == Skip;
      assert Drop(Zeros(n), BLOCK) == Zeros(if n <= 512 then 0 else n - 512);
      ParseZeros(if n <= 512 then 0 else n - 512);
    }
  }

  /** With the length fields intact the lengths read are those written. */
  lemma {:induction false} SameLengths(op: Op, s: seq<Byte>)
    requires Fits(op) && |s| >= 9 && s[1..9] == Body(op)[1..9]
    ensures UnLe(s[1..5]) == |op.key| && UnLe(s[5..9]) == |ValueOf(op)|
  {
    BodyFields(op, []);
    var t := Body(op) + [];
    assert s[1..5] == s[1..9][..4] == t[1..5] && s[5..9] == s[1..9][4..] == t[5..9];
    Le4(|op.key|);
    Le4(|ValueOf(op)|);
  }

  lemma {:induction false} CutSkips(op: Op, c: nat)
    requires Fits(op) && 0 < c < |Body(op)|
    ensures Examine(Body(op)[..c]) == Skip
  {
    if 9 <= c { SameLengths(op, Body(op)[..c]); }
  }

  /** A record cut inside its body: its first block is given up. */
  lemma {:induction false} CutBody(op: Op, c: nat)
    requires Fits(op) && c < |Body(op)|
    ensures c <= |Encode(op)| && Parse(Encode(op)[..c]) == Parse(Drop(Encode(op)[..c], BLOCK))
  {
    assert Encode(op)[..c] == Encode(op)[..|Body(op)|][..c] == Body(op)[..c];
    if c > 0 { CutSkips(op, c); }
  }

  /** A record cut inside its padding is still read. */
  lemma {:induction false} CutPadding(op: Op, c: nat)
    requires Fits(op) && |Body(op)| <= c <= |Encode(op)|
    ensures Parse(Encode(op)[..c]) == [op]
  {
    var s := Encode(op)[..c];
    assert s == Body(op) + Encode(op)[|Body(op)|..c];
    ExamineBody(op, Encode(op)[|Body(op)|..c]);
    assert Drop(s, Aligned(|Body(op)|)) == [];
  }

  lemma {:induction false} CutSlot(s: Slot, c: nat)
    requires SlotOk(s) && c < |s.bits|
    ensures Parse(s.bits[..c]) == IntactIn(s, c) + Parse(ExposedIn(s, c))
  {
    if s == HoleOf(s.blocks) {
      assert s.bits[..c] == Zeros(c);
      ParseZeros(c);
    } else if c < |Body(s.found[0])| {
      CutBody(s.found[0], c);
    } else {
      CutPadding(s.found[0], c);
    }
  }

  /** The image cut at `c`: part of its first slot, or all of it and part of the rest. */
  lemma {:induction false} CutImage(slots: seq<Slot>, c: nat)
    requires slots != [] && c <= |Image(slots)|
    ensures c < |slots[0].bits| ==> Image(slots)[..c] == slots[0].bits[..c]
    ensures c >= |slots[0].bits| ==>
      && c - |slots[0].bits| <= |Image(slots[1..])|
      && Image(slots)[..c] == slots[0].bits + Image(slots[1..])[..c - |slots[0].bits|]
  {
  }

  lemma {:induction false} CutFirst(slots: seq<Slot>, c: nat)
    requires slots != [] && SlotOk(slots[0]) && c < |slots[0].bits| && c <= |Image(slots)|
    ensures Parse(Image(slots)[..c]) == Intact(slots, c) + Parse(Exposed(slots, c))
  {
    CutImage(slots, c);
    CutSlot(slots[0], c);
  }

  lemma {:induction false} CutLater(slots: seq<Slot>, c: nat, d: nat)
    requires slots != [] && SlotOk(slots[0]) && c == d + |slots[0].bits| && c <= |Image(slots)|
    requires d <= |Image(slots[1..])|
    requires Parse(Image(slots[1..])[..d]) == Intact(slots[1..], d) + Parse(Exposed(slots[1..], d))
    ensures Parse(Image(slots)[..c]) == Intact(slots, c) + Parse(Exposed(slots, c))
  {
    CutImage(slots, c);
    ParseSlot(slots[0], Image(slots[1..])[..d]);
    Regroup(slots[0].found, Intact(slots[1..], d), Parse(Exposed(slots[1..], d)));
  }

  lemma {:induction false} Truncate(slots: seq<Slot>, c: nat)
    requires SlotsOk(slots) && c <= |Image(slots)|
    ensures Parse(Image(slots)[..c]) == Intact(slots, c) + Parse(Exposed(slots, c))
  {
    if slots == [] {
      assert Image(slots)[..c] == [];
    } else if c < |slots[0].bits| {
      CutFirst(slots, c);
    } else {
      TailOk(slots);
      CutImage(slots, c);
      Truncate(slots[1..], c - |slots[0].bits|);
      CutLater(slots, c, c - |slots[0].bits|);
    }
  }

  lemma Regroup(a: seq<Op>, b: seq<Op>, c: seq<Op>)
    ensures a + (b + c) == (a + b) + c
  {
  }

  /**
    A log cut at any byte.  Recovery always begins with the records whose bodies are intact, and
    returns exactly those if and only if no block left of the torn record passes for a record.
  */
  lemma {:induction false} TornTail(slots: seq<Slot>, c: nat)
    requires SlotsOk(slots) && c <= |Image(slots)|
    ensures Intact(slots, c) <= Parse(Image(slots)[..c])
    ensures Parse(Image(slots)[..c]) == Intact(slots, c) <==> Silent(Exposed(slots, c))
  {
    Truncate(slots, c);
    SilentParse(Exposed(slots, c));
    var a, b := Intact(slots, c), Parse(Exposed(slots, c));
    assert a + b == a ==> |b| == 0;
  }

  /** Records that fit one block: exactly those with intact bodies, wherever the cut falls. */
  lemma {:induction false} TornTailOneBlock(slots: seq<Slot>, c: nat)
    requires SlotsOk(slots) && c <= |Image(slots)|
    requires forall i | 0 <= i < |slots| && slots[i].found != [] :: slots[i].blocks == 1
    ensures Parse(Image(slots)[..c]) == Intact(slots, c)
  {
    NothingExposed(slots, c);
    TornTail(slots, c);
  }

  lemma {:induction false} NothingExposed(slots: seq<Slot>, c: nat)
    requires SlotsOk(slots)
    requires forall i | 0 <= i < |slots| && slots[i].found != [] :: slots[i].blocks == 1
    ensures Exposed(slots, c) == []
  {
    if slots != [] && c >= |slots[0].bits| {
      TailOk(slots);
      NothingExposed(slots[1..], c - |slots[0].bits|);
    }
  }

  /** A value that carries an encoded record at a block boundary. */
  function Carrier(inner: Op): Op { Put([], Zeros(503) + Encode(inner)) }

  /**
    The torn-tail rule fails for a record of several blocks: a put whose value holds an encoded
    record, cut inside its own checksum, is lost and the record inside its value comes back.
  */
  lemma {:induction false} TornTailFails(inner: Op)
    requires Fits(inner) && Blocks(inner) == 1
    ensures Fits(Carrier(inner)) && SlotsOk([RecordOf(Carrier(inner))])
    ensures var slots := [RecordOf(Carrier(inner))];
      && 1024 <= |Image(slots)| && Intact(slots, 1024) == [] && Parse(Image(slots)[..1024]) == [inner]
  {
    var outer := Carrier(inner);
    var slots := [RecordOf(outer)];
    assert Image(slots) == Encode(outer);
    var s := Encode(outer)[..1024];
    assert s[512..] == Encode(inner) by {
      BodyFields(outer, []);
      assert (Body(outer) + [])[9..9 + 1015] == outer.value;
      assert s[9..1024] == outer.value;
      assert s[512..] == outer.value[503..];
    }
    Truncate(slots, 1024);
    assert Exposed(slots, 1024) == Encode(inner);
    ParseRecord(inner, []);
    assert Encode(inner) + [] == Encode(inner);
  }

  // ----- one damaged byte -----

  lemma {:induction false} PayloadDamaged(op: Op, i: nat, x: Byte)
    requires i < |Payload(op)| && x != Payload(op)[i]
    ensures UnLe(Le(Checksum(Payload(op)), 4)) != Checksum(Payload(op)[i := x])
  {
    ChecksumFits(Payload(op));
    DetectsOneByte(Payload(op), i, x);
  }

  lemma {:induction false} ChecksumDamaged(c: nat, t: seq<Byte>)
    requires |t| == 4 && t != Le(c, 4)
    ensures UnLe(t) != c
  {
    UnLeRoundTrip(t);
  }

  /** What the parser compares: the payload and checksum of an entry with these lengths. */
  function PayloadIn(s: seq<Byte>, k: nat, v: nat): seq<Byte>
    requires |s| >= 13 + k + v
  {
    [s[0]] + s[9..9 + k] + s[9 + k..9 + k + v]
  }

  function CrcIn(s: seq<Byte>, k: nat, v: nat): seq<Byte>
    requires |s| >= 13 + k + v
  {
    s[9 + k + v..13 + k + v]
  }

  lemma {:induction false} Undamaged(op: Op, rest: seq<Byte>)
    ensures PayloadIn(Body(op) + rest, |op.key|, |ValueOf(op)|) == Payload(op)
    ensures CrcIn(Body(op) + rest, |op.key|, |ValueOf(op)|) == Le(Checksum(Payload(op)), 4)
  {
    BodyFields(op, rest);
  }

  /** A changed payload byte shows in the payload and not in the checksum. */
  lemma {:induction false} PayloadByte(s: seq<Byte>, k: nat, v: nat, j: nat, x: Byte)
    requires |s| >= 13 + k + v && j < 9 + k + v && (j == 0 || j >= 9)
    ensures var i := if j == 0 then 0 else j - 8;
      && i < |PayloadIn(s, k, v)| && PayloadIn(s, k, v)[i] == s[j]
      && PayloadIn(s[j := x], k, v) == PayloadIn(s, k, v)[i := x] && CrcIn(s[j := x], k, v) == CrcIn(s, k, v)
  {
  }

  /** A changed checksum byte shows in the checksum and not in the payload. */
  lemma {:induction false} ChecksumByte(s: seq<Byte>, k: nat, v: nat, j: nat, x: Byte)
    requires |s| >= 13 + k + v && 9 + k + v <= j < 13 + k + v && x != s[j]
    ensures PayloadIn(s[j := x], k, v) == PayloadIn(s, k, v) && CrcIn(s[j := x], k, v) != CrcIn(s, k, v)
  {
    assert CrcIn(s[j := x], k, v)[j - 9 - k - v] == x && CrcIn(s, k, v)[j - 9 - k - v] == s[j];
  }

  /** Wherever the damage is, payload and checksum no longer agree. */
  lemma {:induction false} Disagree(op: Op, j: nat, x: Byte, rest: seq<Byte>)
    requires j < |Body(op)| && (j == 0 || j >= 9) && x != Body(op)[j]
    ensures var s := (Body(op) + rest)[j := x]; var k, v := |op.key|, |ValueOf(op)|;
      UnLe(CrcIn(s, k, v)) != Checksum(PayloadIn(s, k, v))
  {
    var s, k, v := Body(op) + rest, |op.key|, |ValueOf(op)|;
    Undamaged(op, rest);
    if j < 9 + k + v {
      PayloadByte(s, k, v, j, x);
      PayloadDamaged(op, if j == 0 then 0 else j - 8, x);
    } else {
      ChecksumByte(s, k, v, j, x);
      ChecksumDamaged(Checksum(Payload(op)), CrcIn(s[j := x], k, v));
    }
  }

  lemma {:induction false} DisagreeingSkips(s: seq<Byte>, k: nat, v: nat)
    requires |s| >= 13 + k + v && UnLe(s[1..5]) == k && UnLe(s[5..9]) == v
    requires UnLe(CrcIn(s, k, v)) != Checksum(PayloadIn(s, k, v))
    ensures Examine(s) == Skip
  {
  }

  /** Changing one byte of a body, outside the length fields, makes the record unreadable. */
  lemma {:induction false} ExamineDamaged(op: Op, j: nat, x: Byte, rest: seq<Byte>)
    requires Fits(op) && j < |Body(op)| && (j == 0 || j >= 9) && x != Body(op)[j]
    ensures Examine((Body(op) + rest)[j := x]) == Skip
  {
    var s := (Body(op) + rest)[j := x];
    assert s[1..9] == Body(op)[1..9];
    SameLengths(op, s);
    Disagree(op, j, x, rest);
    DisagreeingSkips(s, |op.key|, |ValueOf(op)|);
  }

  /** Blocks that do not pass for records are stepped over. */
  lemma {:induction false} ParseSkips(s: seq<Byte>, n: nat)
    requires 512 * n <= |s| && forall k: nat | k < n :: SkipAt(s, k)
    ensures Parse(s) == Parse(s[512 * n..])
  {
    if n == 0 {
      assert s[0..] == s;
    } else {
      ParseSkips(s, n - 1);
      var t := s[512 * (n - 1)..];
      assert SkipAt(s, n - 1);
      assert Drop(t, BLOCK) == s[512 * n..];
    }
  }

  /** The bytes of a record with one byte changed. */
  function Damaged(op: Op, j: nat, x: Byte): (s: seq<Byte>)
    requires j < |Encode(op)|
    ensures |s| == 512 * Blocks(op)
  {
    Encode(op)[j := x]
  }

  lemma {:induction false} DamagedSkips(op: Op, j: nat, x: Byte, rest: seq<Byte>)
    requires Fits(op) && j < |Body(op)| && (j == 0 || j >= 9) && x != Body(op)[j]
    ensures SkipAt(Damaged(op, j, x) + rest, 0)
  {
    var pad := Zeros(512 * Blocks(op) - |Body(op)|);
    var s := Damaged(op, j, x) + rest;
    assert s == (Body(op) + (pad + rest))[j := x];
    ExamineDamaged(op, j, x, pad + rest);
    assert s[512 * 0..] == s;
  }

  /**
    One byte changed in type, key, value or checksum: recovery drops exactly that record and keeps
    all others, provided the record's further blocks do not pass for records.
  */
  lemma {:induction false} OneByteDropsOne(a: seq<Slot>, op: Op, j: nat, x: Byte, b: seq<Slot>)
    requires SlotsOk(a) && SlotsOk(b) && Fits(op)
    requires j < |Body(op)| && (j == 0 || j >= 9) && x != Body(op)[j]
    requires forall k: nat | 1 <= k < Blocks(op) :: SkipAt(Damaged(op, j, x) + Image(b), k)
    ensures Parse(Image(a) + Damaged(op, j, x) + Image(b)) == Landed(a) + Landed(b)
  {
    var s := Damaged(op, j, x) + Image(b);
    assert Image(a) + Damaged(op, j, x) + Image(b) == Image(a) + s;
    ParseImage(a, s);
    DamagedSkips(op, j, x, Image(b));
    ParseSkips(s, Blocks(op));
    assert s[512 * Blocks(op)..] == Image(b);
    ParseAll(b);
  }

  /** For a record of one block there is nothing to provide. */
  lemma {:induction false} OneByteDropsOneBlock(a: seq<Slot>, op: Op, j: nat, x: Byte, b: seq<Slot>)
    requires SlotsOk(a) && SlotsOk(b) && Fits(op) && Blocks(op) == 1
    requires j < |Body(op)| && (j == 0 || j >= 9) && x != Body(op)[j]
    ensures Parse(Image(a) + Damaged(op, j, x) + Image(b)) == Landed(a) + Landed(b)
  {
    OneByteDropsOne(a, op, j, x, b);
  }

  lemma {:induction false} ParseDamagedPadding(op: Op, j: nat, x: Byte, rest: seq<Byte>)
    requires Fits(op) && |Body(op)| <= j < |Encode(op)|
    ensures Parse(Damaged(op, j, x) + rest) == [op] + Parse(rest)
  {
    var pad := Damaged(op, j, x)[|Body(op)|..];
    assert Damaged(op, j, x)[..|Body(op)|] == Encode(op)[..|Body(op)|];
    assert Damaged(op, j, x) == Body(op) + pad;
    ParsePadded(op, pad, rest);
  }

  lemma {:induction false} ThenParse(a: seq<Slot>, bits: seq<Byte>, rest: seq<Byte>, found: seq<Op>)
    requires SlotsOk(a) && Parse(bits + rest) == found
    ensures Parse(Image(a) + bits + rest) == Landed(a) + found
  {
    assert Image(a) + bits + rest == Image(a) + (bits + rest);
    ParseImage(a, bits + rest);
  }

  /** Padding is not read: damage there loses nothing. */
  lemma {:induction false} PaddingIsFree(a: seq<Slot>, op: Op, j: nat, x: Byte, b: seq<Slot>)
    requires SlotsOk(a) && SlotsOk(b) && Fits(op) && |Body(op)| <= j < |Encode(op)|
    ensures Parse(Image(a) + Damaged(op, j, x) + Image(b)) == Landed(a) + ([op] + Landed(b))
  {
    var bits, rest := Damaged(op, j, x), Image(b);
    ParseDamagedPadding(op, j, x, rest);
    ParseAll(b);
    ThenParse(a, bits, rest, [op] + Landed(b));
  }
}
