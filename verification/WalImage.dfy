/** What recovery makes of a log with holes, and of one whose records landed in any order. */
module WalImage {
  import opened Store
  import opened Bytes
  import opened Crc32
  import opened WalCodec

  /** Some blocks of the log and the records they hold. */
  datatype Slot = Slot(blocks: nat, bits: seq<Byte>, found: seq<Op>)

  /** A record that landed. */
  function RecordOf(op: Op): Slot { Slot(Blocks(op), Encode(op), [op]) }

  /** Blocks nothing was written to. */
  function HoleOf(n: nat): Slot { Slot(n, Zeros(512 * n), []) }

  predicate SlotOk(s: Slot) {
    s == HoleOf(s.blocks) || (|s.found| == 1 && Fits(s.found[0]) && s == RecordOf(s.found[0]))
  }

  predicate SlotsOk(slots: seq<Slot>) { forall i | 0 <= i < |slots| :: SlotOk(slots[i]) }

  lemma {:induction false} TailOk(slots: seq<Slot>)
    requires SlotsOk(slots) && slots != []
    ensures SlotOk(slots[0]) && SlotsOk(slots[1..])
  {
    forall i | 0 <= i < |slots| - 1 ensures SlotOk(slots[1..][i]) { assert slots[1..][i] == slots[i + 1]; }
  }

  function Image(slots: seq<Slot>): seq<Byte> {
    if slots == [] then [] else slots[0].bits + Image(slots[1..])
  }

  /** The records of an image, in log order. */
  function Landed(slots: seq<Slot>): seq<Op> {
    if slots == [] then [] else slots[0].found + Landed(slots[1..])
  }

  // ----- one record -----

  lemma {:induction false} BodyFields(op: Op, rest: seq<Byte>)
    ensures var s := Body(op) + rest; var k, v := |op.key|, |ValueOf(op)|;
      && s[0] == TypeOf(op) && s[1..5] == Le(k, 4) && s[5..9] == Le(v, 4)
      && s[9..9 + k] == op.key && s[9 + k..9 + k + v] == ValueOf(op)
      && s[9 + k + v..13 + k + v] == Le(Checksum(Payload(op)), 4)
  {
    var k, v, crc := Le(|op.key|, 4), Le(|ValueOf(op)|, 4), Le(Checksum(Payload(op)), 4);
    SixParts(TypeOf(op), k, v, op.key, ValueOf(op), crc, rest);
  }

  lemma {:induction false} SixParts(t: Byte, k: seq<Byte>, v: seq<Byte>, key: Key, value: Value, crc: seq<Byte>, rest: seq<Byte>)
    requires |k| == |v| == |crc| == 4
    ensures var s := ([t] + k + v) + key + value + crc + rest; var m, n := |key|, |value|;
      && s[0] == t && s[1..5] == k && s[5..9] == v && s[9..9 + m] == key
      && s[9 + m..9 + m + n] == value && s[9 + m + n..13 + m + n] == crc
  {
    var head := [t] + k + v;
    var s := head + key + value + crc + rest;
    assert s[1..5] == head[1..5] && s[5..9] == head[5..9];
  }

  /** A complete body is accepted wherever it stands, whatever follows it. */
  lemma {:induction false} ExamineBody(op: Op, rest: seq<Byte>)
    requires Fits(op)
    ensures Body(op) + rest != [] && Examine(Body(op) + rest) == Accept(op, |Body(op)|)
  {
    BodyFields(op, rest);
    Le4(|op.key|);
    Le4(|ValueOf(op)|);
    FieldsOfBody(op, rest);
  }

  /** The bytes of an entry of type `t`. */
  function EntryBytes(t: Byte, k: Key, v: Value): seq<Byte> {
    ([t] + Le(|k|, 4) + Le(|v|, 4)) + k + v + Le(Checksum([t] + k + v), 4)
  }

  /** `s` starts with a well-formed entry of a known type for `k` and `v`. */
  predicate StartsWithEntry(s: seq<Byte>, k: Key, v: Value) {
    && s != [] && (s[0] == 1 || s[0] == 2) && |k| <= MAX_FIELD_BYTES && |v| <= MAX_FIELD_BYTES
    && EntryBytes(s[0], k, v) <= s
  }

  /** What such an entry says: type 1 puts, type 2 deletes. */
  function Meant(t: Byte, k: Key, v: Value): Op { if t == 1 then Put(k, v) else Del(k) }

  /** A well-formed entry is accepted for what it says. */
  lemma {:induction false} EntryIsAccepted(s: seq<Byte>, k: Key, v: Value)
    requires StartsWithEntry(s, k, v)
    ensures Examine(s) == Accept(Meant(s[0], k, v), 13 + |k| + |v|)
  {
    var e := EntryBytes(s[0], k, v);
    assert s == e + s[|e|..];
    SixParts(s[0], Le(|k|, 4), Le(|v|, 4), k, v, Le(Checksum([s[0]] + k + v), 4), s[|e|..]);
    Le4(|k|);
    Le4(|v|);
    ChecksumFits([s[0]] + k + v);
  }

  lemma {:induction false} FieldBound(s: seq<Byte>)
    requires |s| == 4
    ensures UnLe(s) <= MAX_FIELD_BYTES
  {
    assert Pow256(4) == 0x1_0000_0000;
    UnLeBound(s);
  }

  /** And nothing else is accepted. */
  lemma {:induction false} AcceptedIsEntry(s: seq<Byte>)
    requires s != [] && Examine(s).Accept?
    ensures |s| >= 13 + UnLe(s[1..5]) + UnLe(s[5..9])
    ensures var m, n := UnLe(s[1..5]), UnLe(s[5..9]); StartsWithEntry(s, s[9..9 + m], s[9 + m..9 + m + n])
  {
    var m, n := UnLe(s[1..5]), UnLe(s[5..9]);
    AcceptedMeans(s);
    FieldBound(s[1..5]);
    FieldBound(s[5..9]);
    EntryFound(s, m, n);
  }

  /** What acceptance says about the bytes. */
  lemma {:induction false} AcceptedMeans(s: seq<Byte>)
    requires s != [] && Examine(s).Accept?
    ensures (s[0] == 1 || s[0] == 2) && |s| >= 13 + UnLe(s[1..5]) + UnLe(s[5..9])
    ensures var m, n := UnLe(s[1..5]), UnLe(s[5..9]);
      UnLe(s[9 + m + n..13 + m + n]) == Checksum([s[0]] + s[9..9 + m] + s[9 + m..9 + m + n])
  {
  }

  lemma {:induction false} EntryFound(s: seq<Byte>, m: nat, n: nat)
    requires |s| >= 13 + m + n && m == UnLe(s[1..5]) && n == UnLe(s[5..9])
    requires UnLe(s[9 + m + n..13 + m + n]) == Checksum([s[0]] + s[9..9 + m] + s[9 + m..9 + m + n])
    ensures EntryBytes(s[0], s[9..9 + m], s[9 + m..9 + m + n]) <= s
  {
    UnLeRoundTrip(s[1..5]);
    UnLeRoundTrip(s[5..9]);
    UnLeRoundTrip(s[9 + m + n..13 + m + n]);
    Reassembled(s, m, n);
  }

  lemma {:induction false} Reassembled(s: seq<Byte>, m: nat, n: nat)
    requires |s| >= 13 + m + n
    ensures ([s[0]] + s[1..5] + s[5..9]) + s[9..9 + m] + s[9 + m..9 + m + n] + s[9 + m + n..13 + m + n] <= s
  {
    var e := ([s[0]] + s[1..5] + s[5..9]) + s[9..9 + m] + s[9 + m..9 + m + n] + s[9 + m + n..13 + m + n];
    assert e == s[..13 + m + n];
  }

  /** The parser accepts exactly well-formed entries of the two known types, and takes each for what it says. */
  lemma {:induction false} AcceptsExactly(s: seq<Byte>)
    requires s != []
    ensures Examine(s).Accept? <==> exists k, v :: StartsWithEntry(s, k, v)
    ensures forall k, v | StartsWithEntry(s, k, v) :: Examine(s) == Accept(Meant(s[0], k, v), 13 + |k| + |v|)
  {
    forall k, v | StartsWithEntry(s, k, v) ensures Examine(s) == Accept(Meant(s[0], k, v), 13 + |k| + |v|) {
      EntryIsAccepted(s, k, v);
    }
    if Examine(s).Accept? { AcceptedIsEntry(s); }
  }

  lemma {:induction false} FieldsOfBody(op: Op, rest: seq<Byte>)
    ensures ExamineFields(Body(op) + rest, |op.key|, |ValueOf(op)|) == Accept(op, |Body(op)|)
  {
    BodyFields(op, rest);
    ChecksumFits(Payload(op));
  }

  /** A body with padding up to the block boundary, whatever the padding holds. */
  lemma {:induction false} ParsePadded(op: Op, pad: seq<Byte>, rest: seq<Byte>)
    requires Fits(op) && |Body(op)| + |pad| == 512 * Blocks(op)
    ensures Parse(Body(op) + pad + rest) == [op] + Parse(rest)
  {
    var s := Body(op) + pad + rest;
    assert s == Body(op) + (pad + rest);
    ExamineBody(op, pad + rest);
    assert Drop(s, Aligned(|Body(op)|)) == rest;
  }

  lemma {:induction false} ParseRecord(op: Op, rest: seq<Byte>)
    requires Fits(op)
    ensures Parse(Encode(op) + rest) == [op] + Parse(rest)
  {
    var pad := Encode(op)[|Body(op)|..];
    assert Encode(op) == Encode(op)[..|Body(op)|] + pad;
    ParsePadded(op, pad, rest);
  }

  lemma {:induction false} ParseHole(n: nat, rest: seq<Byte>)
    ensures Parse(Zeros(512 * n) + rest) == Parse(rest)
  {
    if n == 0 {
      assert Zeros(0) + rest == rest;
    } else {
      var s := Zeros(512 * n) + rest;
      assert s[0] == 0 && Examine(s) == Skip;
      assert Drop(s, BLOCK) == Zeros(512 * (n - 1)) + rest;
      ParseHole(n - 1, rest);
    }
  }

  lemma {:induction false} ParseSlot(s: Slot, rest: seq<Byte>)
    requires SlotOk(s)
    ensures Parse(s.bits + rest) == s.found + Parse(rest)
  {
    if s == HoleOf(s.blocks) {
      ParseHoleSlot(s.blocks, rest);
    } else {
      ParseRecordSlot(s.found[0], rest);
    }
  }

  lemma {:induction false} ParseHoleSlot(n: nat, rest: seq<Byte>)
    ensures Parse(HoleOf(n).bits + rest) == HoleOf(n).found + Parse(rest)
  {
    ParseHole(n, rest);
  }

  lemma {:induction false} ParseRecordSlot(op: Op, rest: seq<Byte>)
    requires Fits(op)
    ensures Parse(RecordOf(op).bits + rest) == RecordOf(op).found + Parse(rest)
  {
    ParseRecord(op, rest);
  }

  /** Recovery of an image followed by anything: exactly its records, then whatever follows. */
  lemma {:induction false} ParseImage(slots: seq<Slot>, rest: seq<Byte>)
    requires SlotsOk(slots)
    ensures Parse(Image(slots) + rest) == Landed(slots) + Parse(rest)
  {
    if slots == [] {
      assert Image(slots) + rest == rest;
    } else {
      TailOk(slots);
      ImageHead(slots, rest);
      ParseSlot(slots[0], Image(slots[1..]) + rest);
      ParseImage(slots[1..], rest);
      LandedHead(slots, Parse(rest));
    }
  }

  lemma {:induction false} ImageHead(slots: seq<Slot>, rest: seq<Byte>)
    requires slots != []
    ensures Image(slots) + rest == slots[0].bits + (Image(slots[1..]) + rest)
  {
  }

  lemma {:induction false} LandedHead(slots: seq<Slot>, rest: seq<Op>)
    requires slots != []
    ensures Landed(slots) + rest == slots[0].found + (Landed(slots[1..]) + rest)
  {
  }

  lemma {:induction false} ParseAll(slots: seq<Slot>)
    requires SlotsOk(slots)
    ensures Parse(Image(slots)) == Landed(slots)
  {
    ParseImage(slots, []);
    assert Image(slots) + [] == Image(slots);
  }

  // ----- records landing in any order -----

  /** A positioned write; the file system fills a gap with zeros. */
  function WriteAt(file: seq<Byte>, off: nat, bytes: seq<Byte>): seq<Byte> {
    seq(if |file| < off + |bytes| then off + |bytes| else |file|,
        i => if off <= i < off + |bytes| then bytes[i - off] else if 0 <= i < |file| then file[i] else 0)
  }

  predicate Sized(s: Slot) { |s.bits| == 512 * s.blocks }

  predicate AllSized(slots: seq<Slot>) { forall i | 0 <= i < |slots| :: Sized(slots[i]) }

  function Sizes(slots: seq<Slot>): nat {
    if slots == [] then 0 else Sizes(slots[..|slots| - 1]) + slots[|slots| - 1].blocks
  }

  /** A record and the block it was placed at. */
  datatype Rec = Rec(at: nat, slot: Slot) {
    function End(): nat { at + slot.blocks }
  }

  predicate RecsSized(recs: seq<Rec>) { forall i | 0 <= i < |recs| :: Sized(recs[i].slot) }

  /** Later records are placed after earlier ones end; gaps may remain. */
  ghost predicate InOrder(recs: seq<Rec>) {
    forall i, j | 0 <= i < j < |recs| :: recs[i].End() <= recs[j].at
  }

  function End(recs: seq<Rec>, n: nat): nat
    requires n <= |recs|
  {
    if n == 0 then 0 else recs[n - 1].End()
  }

  /** The file that held `base` after the records named by `order` landed, in that order. */
  function File(base: seq<Byte>, recs: seq<Rec>, order: seq<nat>): seq<Byte>
    requires forall j | 0 <= j < |order| :: order[j] < |recs|
  {
    if order == [] then base
    else var i := order[|order| - 1];
      WriteAt(File(base, recs, order[..|order| - 1]), 512 * recs[i].at, recs[i].slot.bits)
  }

  /** `rec` placed at block `start`, after whatever holes fill the gap. */
  function Placed(before: seq<Slot>, start: nat, rec: Slot): (r: seq<Slot>)
    requires Sizes(before) <= start
    ensures Sizes(r) == start + rec.blocks
  {
    var gap := HoleOf(start - Sizes(before));
    assert (before + [gap, rec])[..|before| + 1] == before + [gap];
    assert (before + [gap])[..|before|] == before;
    before + [gap, rec]
  }

  /** The first `n` records with holes where one did not land. */
  ghost function Places(recs: seq<Rec>, landed: set<nat>, n: nat): (r: seq<Slot>)
    requires n <= |recs| && InOrder(recs)
    ensures Sizes(r) <= End(recs, n)
  {
    if n == 0 then []
    else
      var before := Places(recs, landed, n - 1);
      if n - 1 in landed then Placed(before, recs[n - 1].at, recs[n - 1].slot) else before
  }

  /** The landed ones of the first `n` records, in submission order. */
  function Kept(recs: seq<Rec>, landed: set<nat>, n: nat): seq<Op>
    requires n <= |recs|
  {
    if n == 0 then []
    else Kept(recs, landed, n - 1) + if n - 1 in landed then recs[n - 1].slot.found else []
  }

  lemma {:induction false} ImageConcat(a: seq<Slot>, b: seq<Slot>)
    ensures Image(a + b) == Image(a) + Image(b) && Landed(a + b) == Landed(a) + Landed(b)
  {
    if a == [] {
      assert a + b == b;
    } else {
      assert (a + b)[1..] == a[1..] + b;
      ImageConcat(a[1..], b);
    }
  }

  lemma {:induction false} PlacedImage(a: seq<Slot>, start: nat, rec: Slot)
    requires Sizes(a) <= start
    ensures Image(Placed(a, start, rec)) == Image(a) + Zeros(512 * (start - Sizes(a))) + rec.bits
    ensures Landed(Placed(a, start, rec)) == Landed(a) + rec.found
  {
    var gap := HoleOf(start - Sizes(a));
    ImageConcat(a, [gap, rec]);
    assert [gap, rec][1..] == [rec] && [rec][1..] == [];
    assert Image([rec]) == rec.bits && Landed([rec]) == rec.found;
    assert Image([gap, rec]) == gap.bits + rec.bits && Landed([gap, rec]) == [] + rec.found;
  }

  lemma {:induction false} ImageSize(slots: seq<Slot>)
    requires AllSized(slots)
    ensures |Image(slots)| == 512 * Sizes(slots)
  {
    if slots != [] {
      var init, last := slots[..|slots| - 1], slots[|slots| - 1];
      ImageSize(init);
      ImageConcat(init, [last]);
      assert slots == init + [last] && [last][1..] == [];
    }
  }

  lemma {:induction false} PlacesSized(recs: seq<Rec>, landed: set<nat>, n: nat)
    requires InOrder(recs) && n <= |recs| && RecsSized(recs)
    ensures AllSized(Places(recs, landed, n))
    ensures |Image(Places(recs, landed, n))| == 512 * Sizes(Places(recs, landed, n))
  {
    if n > 0 { PlacesSized(recs, landed, n - 1); }
    ImageSize(Places(recs, landed, n));
  }

  lemma {:induction false} PlacesLast(recs: seq<Rec>, landed: set<nat>, n: nat)
    requires InOrder(recs) && n < |recs| && n in landed && RecsSized(recs)
    ensures var x := Image(Places(recs, landed, n)); var off := 512 * recs[n].at;
      |x| <= off && Image(Places(recs, landed, n + 1)) == x + Zeros(off - |x|) + recs[n].slot.bits
  {
    var before := Places(recs, landed, n);
    PlacesSized(recs, landed, n);
    PlacedImage(before, recs[n].at, recs[n].slot);
  }

  lemma {:induction false} PlacesFrame(recs: seq<Rec>, landed: set<nat>, i: nat, n: nat)
    requires InOrder(recs) && n <= |recs| && n <= i
    ensures Places(recs, landed + {i}, n) == Places(recs, landed, n)
  {
    if n > 0 { PlacesFrame(recs, landed, i, n - 1); }
  }

  /** Overwriting below a later record leaves that record and the gap before it alone. */
  lemma {:induction false} WriteBelow(x: seq<Byte>, x': seq<Byte>, off: nat, e: seq<Byte>, top: nat, last: seq<Byte>)
    requires off + |e| <= top && |x| <= top && |x'| <= top && WriteAt(x, off, e) == x'
    ensures WriteAt(x + Zeros(top - |x|) + last, off, e) == x' + Zeros(top - |x'|) + last
  {
    var y, y' := x + Zeros(top - |x|) + last, x' + Zeros(top - |x'|) + last;
    assert |x'| == if |x| < off + |e| then off + |e| else |x|;
    forall i | 0 <= i < |y'| ensures WriteAt(y, off, e)[i] == y'[i] {
      if i < |x'| { assert x'[i] == WriteAt(x, off, e)[i]; }
    }
  }

  /** Landing record `i` turns its hole into the record, wherever it is and whatever landed before. */
  lemma {:induction false} LandOne(recs: seq<Rec>, landed: set<nat>, i: nat, n: nat)
    requires InOrder(recs) && i < n <= |recs| && RecsSized(recs)
    ensures WriteAt(Image(Places(recs, landed, n)), 512 * recs[i].at, recs[i].slot.bits)
         == Image(Places(recs, landed + {i}, n))
  {
    var m := n - 1;
    if i == m {
      LandLast(recs, landed, i);
    } else {
      LandOne(recs, landed, i, m);
      if m in landed { LandBelow(recs, landed, i, m); }
    }
  }

  /** A record landing below record `m`, given what it does to the records before `m`. */
  lemma {:induction false} LandBelow(recs: seq<Rec>, landed: set<nat>, i: nat, m: nat)
    requires InOrder(recs) && i < m < |recs| && RecsSized(recs) && m in landed
    requires WriteAt(Image(Places(recs, landed, m)), 512 * recs[i].at, recs[i].slot.bits)
          == Image(Places(recs, landed + {i}, m))
    ensures WriteAt(Image(Places(recs, landed, m + 1)), 512 * recs[i].at, recs[i].slot.bits)
         == Image(Places(recs, landed + {i}, m + 1))
  {
    PlacesLast(recs, landed, m);
    PlacesLast(recs, landed + {i}, m);
    assert recs[i].End() <= recs[m].at;
    WriteBelow(Image(Places(recs, landed, m)), Image(Places(recs, landed + {i}, m)), 512 * recs[i].at, recs[i].slot.bits,
               512 * recs[m].at, recs[m].slot.bits);
  }

  lemma {:induction false} LandLast(recs: seq<Rec>, landed: set<nat>, i: nat)
    requires InOrder(recs) && i < |recs| && RecsSized(recs)
    ensures WriteAt(Image(Places(recs, landed, i + 1)), 512 * recs[i].at, recs[i].slot.bits)
         == Image(Places(recs, landed + {i}, i + 1))
  {
    PlacesFrame(recs, landed, i, i);
    PlacesLast(recs, landed + {i}, i);
    WriteEnd(Image(Places(recs, landed, i)), 512 * recs[i].at, recs[i].slot.bits);
    if i in landed { PlacesLast(recs, landed, i); }
  }

  lemma WriteEnd(x: seq<Byte>, off: nat, e: seq<Byte>)
    requires |x| <= off
    ensures WriteAt(x, off, e) == x + Zeros(off - |x|) + e
    ensures WriteAt(x + Zeros(off - |x|) + e, off, e) == x + Zeros(off - |x|) + e
  {
  }

  function Members(order: seq<nat>): set<nat> { set j | 0 <= j < |order| :: order[j] }

  lemma {:induction false} FileIsImage(recs: seq<Rec>, order: seq<nat>)
    requires InOrder(recs) && RecsSized(recs) && forall j | 0 <= j < |order| :: order[j] < |recs|
    ensures File([], recs, order) == Image(Places(recs, Members(order), |recs|))
  {
    if order == [] {
      assert Members(order) == {};
      NothingLanded(recs, |recs|);
    } else {
      var before, i := order[..|order| - 1], order[|order| - 1];
      FileIsImage(recs, before);
      assert order == before + [i];
      assert Members(order) == Members(before) + {i};
      LandOne(recs, Members(before), i, |recs|);
    }
  }

  lemma {:induction false} NothingLanded(recs: seq<Rec>, n: nat)
    requires InOrder(recs) && n <= |recs|
    ensures Places(recs, {}, n) == []
  {
    if n > 0 { NothingLanded(recs, n - 1); }
  }

  lemma {:induction false} PlacesLanded(recs: seq<Rec>, landed: set<nat>, n: nat)
    requires InOrder(recs) && n <= |recs|
    ensures Landed(Places(recs, landed, n)) == Kept(recs, landed, n)
  {
    if n > 0 {
      PlacesLanded(recs, landed, n - 1);
      if n - 1 in landed {
        PlacedImage(Places(recs, landed, n - 1), recs[n - 1].at, recs[n - 1].slot);
      }
    }
  }

  lemma {:induction false} PlacesOk(recs: seq<Rec>, landed: set<nat>, n: nat)
    requires InOrder(recs) && n <= |recs| && RecsOk(recs)
    ensures SlotsOk(Places(recs, landed, n))
  {
    if n > 0 {
      PlacesOk(recs, landed, n - 1);
      var before := Places(recs, landed, n - 1);
      AddSlots(before, recs[n - 1].at - Sizes(before), recs[n - 1].slot);
    }
  }

  lemma {:induction false} AddSlots(a: seq<Slot>, n: nat, last: Slot)
    requires SlotsOk(a) && SlotOk(last)
    ensures SlotsOk(a + [HoleOf(n), last])
  {
  }

  predicate RecsOk(recs: seq<Rec>) { forall i | 0 <= i < |recs| :: SlotOk(recs[i].slot) }

  /** The records of `ops` in submission order, each at the block it was given. */
  function Submitted(ops: seq<Op>, at: seq<nat>): (r: seq<Rec>)
    requires |at| == |ops|
    ensures |r| == |ops| && forall i | 0 <= i < |ops| :: r[i] == Rec(at[i], RecordOf(ops[i]))
  {
    seq(|ops|, i requires 0 <= i < |ops| => Rec(at[i], RecordOf(ops[i])))
  }

  /** Recovery of records placed in a file that was empty. */
  lemma {:induction false} RecoverPlaced(recs: seq<Rec>, order: seq<nat>)
    requires InOrder(recs) && RecsOk(recs) && RecsSized(recs)
    requires forall j | 0 <= j < |order| :: order[j] < |recs|
    ensures Parse(File([], recs, order)) == Kept(recs, Members(order), |recs|)
  {
    FileIsImage(recs, order);
    PlacesLanded(recs, Members(order), |recs|);
    PlacesOk(recs, Members(order), |recs|);
    ParseAll(Places(recs, Members(order), |recs|));
  }

  /** The same records `n` blocks further down. */
  function Lowered(recs: seq<Rec>, n: nat): (r: seq<Rec>)
    requires forall i | 0 <= i < |recs| :: n <= recs[i].at
    ensures |r| == |recs| && forall i | 0 <= i < |recs| :: r[i] == Rec(recs[i].at - n, recs[i].slot)
  {
    seq(|recs|, i requires 0 <= i < |recs| => Rec(recs[i].at - n, recs[i].slot))
  }

  lemma {:induction false} WriteAbove(base: seq<Byte>, x: seq<Byte>, off: nat, e: seq<Byte>)
    ensures WriteAt(base + x, |base| + off, e) == base + WriteAt(x, off, e)
  {
  }

  lemma {:induction false} LandAbove(base: seq<Byte>, n: nat, x: seq<Byte>, r: Rec)
    requires |base| == 512 * n && n <= r.at
    ensures WriteAt(base + x, 512 * r.at, r.slot.bits) == base + WriteAt(x, 512 * (r.at - n), r.slot.bits)
  {
    WriteAbove(base, x, 512 * (r.at - n), r.slot.bits);
  }

  /** Records landing above what a file already held leave that alone. */
  lemma {:induction false} FileAbove(base: seq<Byte>, n: nat, recs: seq<Rec>, order: seq<nat>)
    requires |base| == 512 * n && forall i | 0 <= i < |recs| :: n <= recs[i].at
    requires forall j | 0 <= j < |order| :: order[j] < |recs|
    ensures File(base, recs, order) == base + File([], Lowered(recs, n), order)
  {
    if order == [] {
      assert base + [] == base;
    } else {
      var before, i := order[..|order| - 1], order[|order| - 1];
      FileAbove(base, n, recs, before);
      LandAbove(base, n, File([], Lowered(recs, n), before), recs[i]);
    }
  }

  lemma {:induction false} KeptLowered(recs: seq<Rec>, n: nat, landed: set<nat>, m: nat)
    requires m <= |recs| && forall i | 0 <= i < |recs| :: n <= recs[i].at
    ensures Kept(Lowered(recs, n), landed, m) == Kept(recs, landed, m)
  {
    if m > 0 { KeptLowered(recs, n, landed, m - 1); }
  }

  /**
    Log order is submission order: whatever the file already held, and whatever subset of the new
    records landed above it, in whatever order and however often, recovery returns the records the
    file held and then exactly the landed ones, in the order they were submitted.
  */
  lemma {:induction false} RecoverLanded(before: seq<Slot>, n: nat, ops: seq<Op>, at: seq<nat>, order: seq<nat>)
    requires SlotsOk(before) && |Image(before)| == 512 * n
    requires |at| == |ops| && forall i | 0 <= i < |ops| :: Fits(ops[i]) && n <= at[i]
    requires forall i, j | 0 <= i < j < |ops| :: at[i] + Blocks(ops[i]) <= at[j]
    requires forall j | 0 <= j < |order| :: order[j] < |ops|
    ensures var recs := Submitted(ops, at);
      Parse(File(Image(before), recs, order)) == Landed(before) + Kept(recs, Members(order), |ops|)
  {
    var recs := Submitted(ops, at);
    var low := Lowered(recs, n);
    FileAbove(Image(before), n, recs, order);
    ParseImage(before, File([], low, order));
    RecoverPlaced(low, order);
    KeptLowered(recs, n, Members(order), |ops|);
  }
}
