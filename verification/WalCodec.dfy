/**
  The log's record format and the resynchronising parser that reads it back.

  A record is type, key length, value length, key, value and CRC, padded with zeros to a
  multiple of 512 bytes.  The parser examines every record start; whatever it cannot accept
  costs it one 512-byte block.
*/
module WalCodec {
  import opened Wrappers
  import opened Store
  import opened Bytes
  import opened Crc32

  const MAX_FIELD_BYTES: nat := 0xFFFF_FFFF
  const MAX_RECOVERY_BYTES: nat := 0x4000_0000

  function TypeOf(op: Op): Byte { if op.Put? then 1 else 2 }

  function ValueOf(op: Op): Value { if op.Put? then op.value else [] }

  /** Both lengths fit the four-byte fields. */
  predicate Fits(op: Op) { |op.key| <= MAX_FIELD_BYTES && |ValueOf(op)| <= MAX_FIELD_BYTES }

  function Header(op: Op): (s: seq<Byte>)
    ensures |s| == 9
  {
    [TypeOf(op)] + Le(|op.key|, 4) + Le(|ValueOf(op)|, 4)
  }

  function Payload(op: Op): seq<Byte> { [TypeOf(op)] + op.key + ValueOf(op) }

  function Body(op: Op): (s: seq<Byte>)
    ensures |s| == 13 + |op.key| + |ValueOf(op)|
  {
    Header(op) + op.key + ValueOf(op) + Le(Checksum(Payload(op)), 4)
  }

  /** The blocks that hold `n` bytes. */
  function BlocksFor(n: nat): (b: nat)
    ensures n <= 512 * b < n + 512
  {
    if n == 0 then 0 else if n <= 512 then 1 else 1 + BlocksFor(n - 512)
  }

  function Aligned(n: nat): (a: nat)
    ensures n <= a < n + 512
  {
    512 * BlocksFor(n)
  }

  /** That is rounding up to a multiple of 512. */
  lemma {:induction false} AlignedRoundsUp(n: nat)
    ensures Aligned(n) == (n + 511) / 512 * 512 && Aligned(n) % BLOCK == 0
  {
    Multiple(BlocksFor(n));
  }

  lemma {:induction false} Multiple(b: nat)
    ensures 512 * b % 512 == 0
  {
  }

  /** The blocks a record takes. */
  function Blocks(op: Op): (n: nat)
    ensures n >= 1 && |Body(op)| <= 512 * n < |Body(op)| + 512
  {
    BlocksFor(|Body(op)|)
  }

  function Encode(op: Op): (s: seq<Byte>)
    ensures |s| == 512 * Blocks(op)
    ensures s[..|Body(op)|] == Body(op)
  {
    Body(op) + Zeros(Aligned(|Body(op)|) - |Body(op)|)
  }

  /** What the bytes at a record start are taken for. */
  datatype Found = Skip | Accept(op: Op, size: nat)

  /** An entry whose fields lie within the log: accepted if the checksum agrees and the type is known. */
  function Judge(kind: Byte, key: Key, value: Value, stored: nat): Found {
    if stored != Checksum([kind] + key + value) then Skip
    else if kind == 1 then Accept(Put(key, value), 13 + |key| + |value|)
    else if kind == 2 then Accept(Del(key), 13 + |key| + |value|)
    else Skip
  }

  /** An entry whose header lies within the log. */
  function ExamineFields(s: seq<Byte>, klen: nat, vlen: nat): (f: Found)
    requires |s| >= 9
    ensures f.Accept? ==> f.size == 13 + klen + vlen <= |s|
  {
    if 9 + klen + vlen + 4 > |s| then Skip
    else Judge(s[0], s[9..9 + klen], s[9 + klen..9 + klen + vlen], UnLe(s[9 + klen + vlen..13 + klen + vlen]))
  }

  function Examine(s: seq<Byte>): (f: Found)
    requires s != []
    ensures f.Accept? ==> 13 <= f.size <= |s|
  {
    if s[0] == 0 || 9 > |s| then Skip
    else ExamineFields(s, UnLe(s[1..5]), UnLe(s[5..9]))
  }

  function Drop(s: seq<Byte>, n: nat): seq<Byte> { if n >= |s| then [] else s[n..] }

  /** The records a log holds, seen from a record start. */
  function Parse(s: seq<Byte>): seq<Op>
    decreases |s|
  {
    if s == [] then []
    else
      match Examine(s)
      case Skip => Parse(Drop(s, BLOCK))
      case Accept(op, size) => [op] + Parse(Drop(s, Aligned(size)))
  }

  datatype Recovery = TooLarge | Recovered(ops: seq<Op>)

  /** Checks and decodes the fields of the entry at `start`, whose lengths have been read. */
  method ReadFields(buf: seq<Byte>, start: nat, klen: nat, vlen: nat) returns (f: Found)
    requires start + 9 <= |buf| <= MAX_RECOVERY_BYTES
    ensures f == ExamineFields(buf[start..], klen, vlen)
  {
    ghost var s := buf[start..];
    var kind, offset := buf[start], start + 9;
    if offset + klen + vlen + 4 > |buf| { return Skip; }
    var key := buf[offset..offset + klen];
    offset := offset + klen;
    var value := buf[offset..offset + vlen];
    offset := offset + vlen;
    var stored := UnLe(buf[offset..offset + 4]);
    assert key == s[9..9 + klen] && value == s[9 + klen..9 + klen + vlen];
    assert buf[offset..offset + 4] == s[9 + klen + vlen..13 + klen + vlen];
    var expected := Compute(kind, key, value);
    if stored != expected { return Skip; }
    if kind != 1 && kind != 2 { return Skip; }
    var size := (13 + klen + vlen) % 0x1_0000_0000;  // uint32_t arithmetic
    f := Accept(if kind == 1 then Put(key, value) else Del(key), size);
  }

  /** The body of the recovery loop: reads the entry at `start`. */
  method ReadEntry(buf: seq<Byte>, start: nat) returns (f: Found)
    requires start < |buf| <= MAX_RECOVERY_BYTES
    ensures f == Examine(buf[start..])
  {
    ghost var s := buf[start..];
    var kind, offset := buf[start], start + 1;
    if kind == 0 || offset + 8 > |buf| { return Skip; }
    assert buf[offset..offset + 4] == s[1..5] && buf[offset + 4..offset + 8] == s[5..9];
    var klen := UnLe(buf[offset..offset + 4]);
    var vlen := UnLe(buf[offset + 4..offset + 8]);
    f := ReadFields(buf, start, klen, vlen);
  }

  /** Where the loop goes after what it found at `start`. */
  function NextStart(start: nat, f: Found): nat {
    match f
    case Skip => start + BLOCK
    case Accept(_, size) => start + Aligned(size)
  }

  lemma {:induction false} StepsToBoundary(start: nat, b: nat)
    requires start % 512 == 0
    ensures (start + 512 * b) % 512 == 0 && (start / 512 + 1) * 512 == start + 512
  {
    var q := start / 512;
    assert start == 512 * q;
    assert start + 512 * b == 512 * (q + b);
    Multiple(q + b);
  }

  /** From a block boundary the loop moves forward to another. */
  lemma {:induction false} NextStartAdvances(start: nat, f: Found)
    requires start % BLOCK == 0 && (f.Accept? ==> f.size > 0)
    ensures NextStart(start, f) > start && NextStart(start, f) % BLOCK == 0
  {
    StepsToBoundary(start, if f.Accept? then BlocksFor(f.size) else 1);
  }

  /** The loop's two ways of moving its offset. */
  method Advance(start: nat, f: Found) returns (next: nat)
    requires start % BLOCK == 0
    ensures next == NextStart(start, f)
  {
    match f {
      case Skip =>
        StepsToBoundary(start, 0);
        next := (start / 512 + 1) * 512;
      case Accept(_, size) =>
        AlignedRoundsUp(size);
        next := start + (size + 511) / 512 * 512;
    }
  }

  function Ops(f: Found): seq<Op> { if f.Accept? then [f.op] else [] }

  /** One turn of the recovery loop: what it finds at `start`, and where it goes on. */
  method Turn(buf: seq<Byte>, start: nat, ghost left: seq<Op>) returns (found: seq<Op>, next: nat, ghost more: seq<Op>)
    requires start < |buf| <= MAX_RECOVERY_BYTES && start % BLOCK == 0 && LeftAt(buf, start, left)
    ensures next > start && next % BLOCK == 0
    ensures left == found + more && LeftAt(buf, next, more)
  {
    var f := ReadEntry(buf, start);
    ParseStep(buf, start, f);
    NextStartAdvances(start, f);
    found := Ops(f);
    next := Advance(start, f);
    more := Parse(Drop(buf, next));
  }

  /** recover() on every byte string: the offset stays on a record boundary and always advances. */
  method Recover(buf: seq<Byte>) returns (r: Recovery)
    ensures |buf| > MAX_RECOVERY_BYTES ==> r == TooLarge
    ensures |buf| <= MAX_RECOVERY_BYTES ==> r == Recovered(Parse(buf))
  {
    if |buf| > MAX_RECOVERY_BYTES { return TooLarge; }
    var entries: seq<Op> := [];
    var offset: nat := 0;
    ghost var left := Parse(buf);
    WholeLog(buf);
    while offset < |buf|
      invariant offset % BLOCK == 0 && entries + left == Parse(buf) && LeftAt(buf, offset, left)
      decreases |buf| - offset
    {
      ghost var more;
      var found, next;
      found, next, more := Turn(buf, offset, left);
      entries, offset, left := entries + found, next, more;
    }
    NothingLeft(buf, offset, left);
    r := Recovered(entries);
  }

  /** `left` is what the log holds from `offset` on. */
  ghost predicate LeftAt(buf: seq<Byte>, offset: nat, left: seq<Op>) { left == Parse(Drop(buf, offset)) }

  lemma {:induction false} WholeLog(buf: seq<Byte>)
    ensures LeftAt(buf, 0, Parse(buf))
  {
    assert Drop(buf, 0) == buf;
  }

  lemma {:induction false} NothingLeft(buf: seq<Byte>, offset: nat, left: seq<Op>)
    requires LeftAt(buf, offset, left) && offset >= |buf|
    ensures left == []
  {
  }

  lemma {:induction false} ParseStep(buf: seq<Byte>, start: nat, f: Found)
    requires start < |buf| && start % BLOCK == 0 && f == Examine(buf[start..])
    ensures f.Accept? ==> f.size > 0
    ensures Parse(Drop(buf, start)) == Ops(f) + Parse(Drop(buf, NextStart(start, f)))
  {
    var s := buf[start..];
    assert Drop(buf, start) == s;
    match f
    case Skip => DropTwice(buf, start, BLOCK);
    case Accept(op, size) => DropTwice(buf, start, Aligned(size));
  }

  lemma DropTwice(s: seq<Byte>, m: nat, n: nat)
    ensures Drop(Drop(s, m), n) == Drop(s, m + n)
  {
  }

  /** The bytes a write buffer holds after `src` was copied to `p`. */
  method CopyInto(buf: array<Byte>, p: nat, src: seq<Byte>)
    requires p + |src| <= buf.Length
    modifies buf
    ensures buf[..] == old(buf[..p]) + src + old(buf[p + |src|..])
  {
    for i := 0 to |src|
      invariant buf[..p] == old(buf[..p])
      invariant buf[p..p + i] == src[..i]
      invariant buf[p + i..] == old(buf[p + i..])
    {
      buf[p + i] := src[i];
    }
    assert buf[..] == buf[..p] + buf[p..p + |src|] + buf[p + |src|..];
  }

  lemma {:induction false} Regrouped(a: seq<Byte>, b: seq<Byte>, c: seq<Byte>, d: seq<Byte>)
    ensures a + (b + c) + d == (a + b + c) + d
  {
  }

  /** The buffer writeEntry() submits, or None when a length does not fit its field. */
  method EncodeEntry(op: Op) returns (r: Option<seq<Byte>>)
    ensures r == if Fits(op) then Some(Encode(op)) else None
  {
    if |op.key| > MAX_FIELD_BYTES || |ValueOf(op)| > MAX_FIELD_BYTES { return None; }
    var size := 13 + |op.key| + |ValueOf(op)|;
    var lengths := Le(|op.key|, 4) + Le(|ValueOf(op)|, 4);
    var crc := Compute(TypeOf(op), op.key, ValueOf(op));
    AlignedRoundsUp(size);
    var buf := Fill([TypeOf(op)], lengths, op.key, ValueOf(op), Le(crc, 4), (size + 511) / 512 * 512);
    Regrouped([TypeOf(op)], Le(|op.key|, 4), Le(|ValueOf(op)|, 4), op.key);
    assert buf[..size] == Body(op);
    assert buf == buf[..size] + buf[size..];
    r := Some(buf);
  }

  /** The five fields copied one after the other into a zeroed buffer. */
  method Fill(kind: seq<Byte>, lengths: seq<Byte>, key: Key, value: Value, crc: seq<Byte>, size: nat)
    returns (r: seq<Byte>)
    requires size >= |kind| + |lengths| + |key| + |value| + |crc|
    ensures r == kind + lengths + key + value + crc
                 + Zeros(size - |kind| - |lengths| - |key| - |value| - |crc|)
  {
    var buf := new Byte[size](_ => 0);
    var p := Append(buf, [], 0, kind);
    p := Append(buf, kind, p, lengths);
    p := Append(buf, kind + lengths, p, key);
    p := Append(buf, kind + lengths + key, p, value);
    p := Append(buf, kind + lengths + key + value, p, crc);
    r := buf[..];
  }

  predicate StartsWith(buf: seq<Byte>, s: seq<Byte>) {
    |s| <= |buf| && buf == s + Zeros(|buf| - |s|)
  }

  method Append(buf: array<Byte>, ghost done: seq<Byte>, p: nat, src: seq<Byte>) returns (q: nat)
    requires StartsWith(buf[..], done) && p == |done| && p + |src| <= buf.Length
    modifies buf
    ensures q == p + |src| && StartsWith(buf[..], done + src)
  {
    CopyInto(buf, p, src);
    q := p + |src|;
  }
}
