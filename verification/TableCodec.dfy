/**
  The bytes of table entries and how they are read back.
*/
module TableCodec {
  import opened Wrappers
  import opened Store
  import opened Bytes
  import opened KeyOrder

  const MAX_STRING: nat := 0xFFFF_FFFF

  // ----- strings -----

  function Str(x: seq<Byte>): (s: seq<Byte>)
    ensures |s| == 4 + |x|
  {
    Le(|x|, 4) + x
  }

  /** A length-prefixed string and what follows it. */
  function ReadString(s: seq<Byte>): (r: Option<(seq<Byte>, seq<Byte>)>)
    ensures r.Some? ==> |s| == 4 + |r.value.0| + |r.value.1|
  {
    if |s| < 4 then None
    else
      var n := UnLe(s[..4]);
      if 4 + n > |s| then None else Some((s[4..4 + n], s[4 + n..]))
  }

  lemma {:induction false} StringRoundTrip(x: seq<Byte>, rest: seq<Byte>)
    requires |x| <= MAX_STRING
    ensures ReadString(Str(x) + rest) == Some((x, rest))
  {
    var s := Str(x) + rest;
    assert s[..4] == Le(|x|, 4);
    Le4(|x|);
    assert s[4..4 + |x|] == x && s[4 + |x|..] == rest;
  }

  // ----- entries -----

  function ValueBytes(e: Entry): seq<Byte> { if e.value.Some? then e.value.value else [] }

  function EntryBytes(e: Entry): (s: seq<Byte>)
    ensures |s| == 9 + |e.key| + |ValueBytes(e)|
  {
    [if e.value.Some? then 0 else 1] + Str(e.key) + Str(ValueBytes(e))
  }

  predicate EntryFits(e: Entry) { |e.key| <= MAX_STRING && |ValueBytes(e)| <= MAX_STRING }

  predicate AllFit(es: seq<Entry>) { forall i | 0 <= i < |es| :: EntryFits(es[i]) }

  function Data(es: seq<Entry>): seq<Byte> {
    if es == [] then [] else EntryBytes(es[0]) + Data(es[1..])
  }

  /** One entry and what follows it; a tombstone is any non-zero flag. */
  function ReadEntry(s: seq<Byte>): (r: Option<(Entry, seq<Byte>)>)
    ensures r.Some? ==> |r.value.1| < |s|
  {
    if s == [] then None
    else
      var key := ReadString(s[1..]);
      if key.None? then None
      else
        var value := ReadString(key.value.1);
        if value.None? then None
        else Some((Entry(key.value.0, if s[0] != 0 then None else Some(value.value.0)), value.value.1))
  }

  function ParseBlock(s: seq<Byte>): seq<Entry>
    decreases |s|
  {
    var r := ReadEntry(s);
    if r.None? then [] else [r.value.0] + ParseBlock(r.value.1)
  }

  lemma {:induction false} EntryRoundTrip(e: Entry, rest: seq<Byte>)
    requires EntryFits(e)
    ensures ReadEntry(EntryBytes(e) + rest) == Some((e, rest))
  {
    var s := EntryBytes(e) + rest;
    var tail := Str(ValueBytes(e)) + rest;
    assert s[1..] == Str(e.key) + tail;
    StringRoundTrip(e.key, tail);
    StringRoundTrip(ValueBytes(e), rest);
  }

  lemma {:induction false} DataRoundTrip(es: seq<Entry>)
    requires AllFit(es)
    ensures ParseBlock(Data(es)) == es
  {
    if es != [] {
      EntryRoundTrip(es[0], Data(es[1..]));
      DataRoundTrip(es[1..]);
    }
  }

  lemma {:induction false} DataPositive(es: seq<Entry>)
    requires es != []
    ensures |Data(es)| >= 9
  {
    assert Data(es) == EntryBytes(es[0]) + Data(es[1..]);
  }

  lemma {:induction false} DataConcat(a: seq<Entry>, b: seq<Entry>)
    ensures Data(a + b) == Data(a) + Data(b)
  {
    if a == [] {
      assert a + b == b;
    } else {
      assert (a + b)[1..] == a[1..] + b;
      DataConcat(a[1..], b);
    }
  }

  lemma {:induction false} DataSnoc(a: seq<Entry>, e: Entry)
    ensures Data(a + [e]) == Data(a) + EntryBytes(e)
  {
    DataConcat(a, [e]);
    assert [e][1..] == [] && Data([e]) == EntryBytes(e) + [];
  }

  /** A string at `at`, by offset, or None if it runs past the end. */
  method StringAt(data: seq<Byte>, at: nat) returns (r: Option<seq<Byte>>)
    requires at + 4 <= |data|
    ensures r.None? ==> ReadString(data[at..]) == None
    ensures r.Some? ==> at + 4 + |r.value| <= |data| && ReadString(data[at..]) == Some((r.value, data[at + 4 + |r.value|..]))
  {
    ghost var s := data[at..];
    assert s[..4] == data[at..at + 4];
    var n := UnLe(data[at..at + 4]);
    if at + 4 + n > |data| { return None; }
    assert s[4..4 + n] == data[at + 4..at + 4 + n] && s[4 + n..] == data[at + 4 + n..];
    r := Some(data[at + 4..at + 4 + n]);
  }

  /** One turn of the block parser. */
  method EntryAt(data: seq<Byte>, offset: nat) returns (e: Option<Entry>, next: nat)
    requires offset + 9 <= |data|
    ensures offset <= next <= |data|
    ensures e.None? ==> ReadEntry(data[offset..]) == None
    ensures e.Some? ==> next > offset && ReadEntry(data[offset..]) == Some((e.value, data[next..]))
  {
    ghost var s := data[offset..];
    assert s[1..] == data[offset + 1..];
    var key := StringAt(data, offset + 1);
    if key.None? { return None, offset; }
    var at := offset + 5 + |key.value|;
    if at + 4 > |data| { return None, offset; }
    var value := StringAt(data, at);
    if value.None? { return None, offset; }
    e := Some(Entry(key.value, if data[offset] != 0 then None else Some(value.value)));
    next := at + 4 + |value.value|;
  }

  lemma {:induction false} BlockStep(s: seq<Byte>)
    ensures ParseBlock(s) == if ReadEntry(s).None? then [] else [ReadEntry(s).value.0] + ParseBlock(ReadEntry(s).value.1)
  {
  }

  /** The block parser as the reader runs it, by offset. */
  method ParseBlockEntries(data: seq<Byte>) returns (entries: seq<Entry>)
    ensures entries == ParseBlock(data)
  {
    entries := [];
    var offset := 0;
    assert data[0..] == data;
    while offset + 9 <= |data|
      invariant offset <= |data|
      invariant ParseBlock(data) == entries + ParseBlock(data[offset..])
      decreases |data| - offset
    {
      var e, next := EntryAt(data, offset);
      BlockStep(data[offset..]);
      if e.None? { return; }
      entries := entries + [e.value];
      offset := next;
    }
    ShortBlock(data[offset..]);
  }

  /** Too little is left for a flag and both length fields. */
  lemma {:induction false} ShortBlock(s: seq<Byte>)
    requires |s| < 9
    ensures ParseBlock(s) == []
  {
  }
}
