/**
  Where in the log recovery finds its records.  With positions, the rule for one damaged byte is
  exact for records of any length: the other records are found, where they were and no others, if
  and only if no further block of the damaged record passes for a record.

  A position is given by how much of the log is left from there on.
*/
module WalPlaces {
  import opened Store
  import opened Bytes
  import opened WalCodec
  import opened WalImage
  import opened WalDamage

  /** How many bytes are left at each record of `s`. */
  function Spots(s: seq<Byte>): seq<nat>
    decreases |s|
  {
    if s == [] then []
    else
      match Examine(s)
      case Skip => Spots(Drop(s, BLOCK))
      case Accept(_, size) => [|s|] + Spots(Drop(s, Aligned(size)))
  }

  lemma {:induction false} SpotsSkip(s: seq<Byte>)
    requires s != [] && Examine(s).Skip?
    ensures Spots(s) == Spots(Drop(s, BLOCK)) && Parse(s) == Parse(Drop(s, BLOCK))
  {
  }

  lemma {:induction false} SpotsAccept(s: seq<Byte>, f: Found)
    requires s != [] && Examine(s) == f && f.Accept?
    ensures Spots(s) == [|s|] + Spots(Drop(s, Aligned(f.size))) && Parse(s) == [f.op] + Parse(Drop(s, Aligned(f.size)))
  {
  }

  /** With `left` bytes of `s` left, what follows passes for a record of `op`. */
  predicate Holds(s: seq<Byte>, left: nat, op: Op) {
    0 < left <= |s| && Examine(s[|s| - left..]).Accept? && Examine(s[|s| - left..]).op == op
  }

  lemma {:induction false} HoldsLater(s: seq<Byte>, n: nat, left: nat, op: Op)
    requires Holds(Drop(s, n), left, op)
    ensures Holds(s, left, op)
  {
    assert Drop(s, n)[|Drop(s, n)| - left..] == s[|s| - left..];
  }

  lemma {:induction false} HoldsHere(s: seq<Byte>)
    requires s != [] && Examine(s).Accept?
    ensures Holds(s, |s|, Examine(s).op)
  {
    assert s[0..] == s;
  }

  /** Every position holds the record recovery returns for it. */
  ghost predicate AllHeld(s: seq<Byte>, at: seq<nat>, ops: seq<Op>) {
    |at| == |ops| && forall i | 0 <= i < |ops| :: Holds(s, at[i], ops[i])
  }

  lemma {:induction false} AllHeldLater(s: seq<Byte>, n: nat, at: seq<nat>, ops: seq<Op>)
    requires AllHeld(Drop(s, n), at, ops)
    ensures AllHeld(s, at, ops)
  {
    forall i | 0 <= i < |ops| ensures Holds(s, at[i], ops[i]) { HoldsLater(s, n, at[i], ops[i]); }
  }

  lemma {:induction false} SpotsHoldRecords(s: seq<Byte>)
    ensures AllHeld(s, Spots(s), Parse(s))
    decreases |s|
  {
    if s != [] {
      var f := Examine(s);
      if f.Skip? {
        SpotsSkip(s);
        SpotsHoldRecords(Drop(s, BLOCK));
        AllHeldLater(s, BLOCK, Spots(Drop(s, BLOCK)), Parse(Drop(s, BLOCK)));
      } else {
        var rest := Drop(s, Aligned(f.size));
        SpotsAccept(s, f);
        SpotsHoldRecords(rest);
        AllHeldLater(s, Aligned(f.size), Spots(rest), Parse(rest));
        HoldsHere(s);
      }
    }
  }

  // ----- of an image -----

  /** The positions of an image's records, with `after` bytes following the image. */
  function SlotSpots(slots: seq<Slot>, after: nat): seq<nat> {
    if slots == [] then []
    else Here(slots[0], |Image(slots)| + after) + SlotSpots(slots[1..], after)
  }

  lemma {:induction false} ExamineRecord(op: Op, rest: seq<Byte>)
    requires Fits(op)
    ensures Encode(op) + rest != [] && Examine(Encode(op) + rest) == Accept(op, |Body(op)|)
    ensures Drop(Encode(op) + rest, Aligned(|Body(op)|)) == rest
  {
    var pad := Encode(op)[|Body(op)|..];
    assert Encode(op) == Encode(op)[..|Body(op)|] + pad;
    assert Encode(op) + rest == Body(op) + (pad + rest);
    ExamineBody(op, pad + rest);
  }

  lemma {:induction false} SpotsRecord(op: Op, rest: seq<Byte>)
    requires Fits(op)
    ensures Spots(Encode(op) + rest) == [|Encode(op) + rest|] + Spots(rest)
  {
    ExamineRecord(op, rest);
    SpotsAccept(Encode(op) + rest, Accept(op, |Body(op)|));
  }

  lemma {:induction false} ZeroBlock(n: nat, rest: seq<Byte>)
    requires n > 0
    ensures var s := Zeros(512 * n) + rest;
      s != [] && Examine(s) == Skip && Drop(s, BLOCK) == Zeros(512 * (n - 1)) + rest
  {
    var s := Zeros(512 * n) + rest;
    assert s[0] == 0;
  }

  lemma {:induction false} SpotsHole(n: nat, rest: seq<Byte>)
    ensures Spots(Zeros(512 * n) + rest) == Spots(rest)
  {
    if n == 0 {
      assert Zeros(0) + rest == rest;
    } else {
      ZeroBlock(n, rest);
      SpotsSkip(Zeros(512 * n) + rest);
      SpotsHole(n - 1, rest);
    }
  }

  /** What a slot adds to the positions, if the log from its start on has `left` bytes. */
  function Here(s: Slot, left: nat): seq<nat> { if s.found == [] then [] else [left] }

  lemma {:induction false} SpotsHoleSlot(n: nat, s: seq<Byte>, rest: seq<Byte>)
    requires s == HoleOf(n).bits + rest
    ensures Spots(s) == Here(HoleOf(n), |s|) + Spots(rest)
  {
    SpotsHole(n, rest);
  }

  lemma {:induction false} SpotsRecordSlot(op: Op, s: seq<Byte>, rest: seq<Byte>)
    requires Fits(op) && s == RecordOf(op).bits + rest
    ensures Spots(s) == Here(RecordOf(op), |s|) + Spots(rest)
  {
    SpotsRecord(op, rest);
  }

  lemma {:induction false} SpotsSlot(slot: Slot, s: seq<Byte>, rest: seq<Byte>)
    requires SlotOk(slot) && s == slot.bits + rest
    ensures Spots(s) == Here(slot, |s|) + Spots(rest)
  {
    if slot == HoleOf(slot.blocks) {
      SpotsHoleSlot(slot.blocks, s, rest);
    } else {
      SpotsRecordSlot(slot.found[0], s, rest);
    }
  }

  lemma {:induction false} SpotsImage(slots: seq<Slot>, rest: seq<Byte>)
    requires SlotsOk(slots)
    ensures Spots(Image(slots) + rest) == SlotSpots(slots, |rest|) + Spots(rest)
    decreases |slots|
  {
    if slots == [] {
      NoSlots(rest, |rest|, Spots(rest));
    } else {
      var s, t := Image(slots) + rest, Image(slots[1..]) + rest;
      TailOk(slots);
      SpotsImage(slots[1..], rest);
      SpotsHead(slots, rest, s, t);
      SlotSpotsHead(slots, |rest|, Spots(rest));
    }
  }

  lemma {:induction false} NoSlots(rest: seq<Byte>, after: nat, more: seq<nat>)
    ensures Image([]) + rest == rest && SlotSpots([], after) + more == more
  {
  }

  lemma {:induction false} SpotsHead(slots: seq<Slot>, rest: seq<Byte>, s: seq<Byte>, t: seq<Byte>)
    requires slots != [] && SlotOk(slots[0]) && s == Image(slots) + rest && t == Image(slots[1..]) + rest
    ensures Spots(s) == Here(slots[0], |Image(slots)| + |rest|) + Spots(t)
  {
    ImageHead(slots, rest);
    SpotsSlot(slots[0], s, t);
  }

  lemma {:induction false} SlotSpotsHead(slots: seq<Slot>, after: nat, more: seq<nat>)
    requires slots != []
    ensures SlotSpots(slots, after) + more
            == Here(slots[0], |Image(slots)| + after) + (SlotSpots(slots[1..], after) + more)
  {
  }

  lemma {:induction false} NotEmpty(s: Slot)
    requires SlotOk(s) && s.found != []
    ensures |s.bits| > 0
  {
  }

  /** An image's records lie within it. */
  lemma {:induction false} SlotSpotsWithin(slots: seq<Slot>, after: nat)
    requires SlotsOk(slots)
    ensures forall x | x in SlotSpots(slots, after) :: after < x <= |Image(slots)| + after
  {
    if slots != [] {
      TailOk(slots);
      SlotSpotsWithin(slots[1..], after);
      if slots[0].found != [] { NotEmpty(slots[0]); }
    }
  }

  // ----- one damaged byte -----

  lemma {:induction false} SpotsSkips(s: seq<Byte>, n: nat)
    requires 512 * n <= |s| && forall k: nat | k < n :: SkipAt(s, k)
    ensures Spots(s) == Spots(s[512 * n..])
  {
    if n == 0 {
      assert s[0..] == s;
    } else {
      SpotsSkips(s, n - 1);
      var t := s[512 * (n - 1)..];
      assert SkipAt(s, n - 1);
      assert Drop(t, BLOCK) == s[512 * n..];
      SpotsSkip(t);
    }
  }

  /** The first block that passes for a record is where one is found. */
  lemma {:induction false} SpotsFirst(s: seq<Byte>, n: nat)
    requires 512 * n < |s| && !SkipAt(s, n) && forall k: nat | k < n :: SkipAt(s, k)
    ensures |s| - 512 * n in Spots(s)
  {
    SpotsSkips(s, n);
    SpotsAccept(s[512 * n..], Examine(s[512 * n..]));
  }

  lemma {:induction false} FirstAccepted(s: seq<Byte>, k: nat) returns (m: nat)
    requires 512 * k < |s| && !SkipAt(s, k)
    ensures m <= k && !SkipAt(s, m) && forall i: nat | i < m :: SkipAt(s, i)
  {
    m := 0;
    while SkipAt(s, m)
      invariant m <= k && forall i: nat | i < m :: SkipAt(s, i)
      decreases k - m
    {
      m := m + 1;
    }
  }

  /** No further block of the damaged record passes for a record. */
  ghost predicate Dead(op: Op, j: nat, x: Byte, b: seq<Slot>)
    requires j < |Encode(op)|
  {
    forall k: nat | 1 <= k < Blocks(op) :: SkipAt(Damaged(op, j, x) + Image(b), k)
  }

  lemma {:induction false} DeadIsSkipped(s: seq<Byte>, n: nat, b: seq<Slot>)
    requires SlotsOk(b) && 512 * n <= |s| && s[512 * n..] == Image(b) && forall k: nat | k < n :: SkipAt(s, k)
    ensures Spots(s) == SlotSpots(b, 0)
  {
    SpotsSkips(s, n);
    SpotsImage(b, []);
    assert Image(b) + [] == Image(b);
  }

  /** A block of the damaged record that passes for one makes a find within it. */
  lemma {:induction false} AlivePlace(s: seq<Byte>, n: nat, k: nat) returns (place: nat)
    requires 512 * n <= |s| && 1 <= k < n && !SkipAt(s, k) && SkipAt(s, 0)
    ensures place in Spots(s) && |s| - 512 * n < place < |s|
  {
    var m := FirstAccepted(s, k);
    assert m > 0;
    SpotsFirst(s, m);
    place := |s| - 512 * m;
  }

  lemma {:induction false} OutsideImage(b: seq<Slot>, place: nat)
    requires SlotsOk(b) && place > |Image(b)|
    ensures place !in SlotSpots(b, 0)
  {
    SlotSpotsWithin(b, 0);
  }

  lemma {:induction false} Differ(a: seq<nat>, b: seq<nat>, c: seq<nat>, x: nat)
    requires x in b && x !in c
    ensures a + b != a + c
  {
    assert (a + b)[|a|..] == b && (a + c)[|a|..] == c;
  }

  /**
    One byte changed in type, key, value or checksum of a record of any length: recovery finds the
    other records, where they were and no others, if and only if no further block of the damaged
    record passes for a record.
  */
  lemma {:induction false} OneByteExactly(a: seq<Slot>, op: Op, j: nat, x: Byte, b: seq<Slot>)
    requires SlotsOk(a) && SlotsOk(b) && Fits(op)
    requires j < |Body(op)| && (j == 0 || j >= 9) && x != Body(op)[j]
    ensures var rest := Damaged(op, j, x) + Image(b);
      Spots(Image(a) + rest) == SlotSpots(a, |rest|) + SlotSpots(b, 0) <==> Dead(op, j, x, b)
  {
    var s, n := Damaged(op, j, x) + Image(b), Blocks(op);
    SpotsImage(a, s);
    DamagedSkips(op, j, x, Image(b));
    if Dead(op, j, x, b) {
      DeadIsSkipped(s, n, b);
    } else {
      var k: nat :| 1 <= k < n && !SkipAt(s, k);
      var place := AlivePlace(s, n, k);
      OutsideImage(b, place);
      Differ(SlotSpots(a, |s|), Spots(s), SlotSpots(b, 0), place);
    }
  }
}
