/**
  A whole table file: data blocks, index, Bloom filter and a 16-byte footer holding the positions
  of the last two.  What the writer lays out, the reader's bounds checks accept and read back.
*/
module TableFile {
  import opened Wrappers
  import opened Store
  import opened Bytes
  import opened KeyOrder
  import opened TableCodec
  import opened TableIndex
  import opened Bloom

  const MAX_FILE: nat := 0x7FFF_FFFF_FFFF_FFFF
  const FOOTER: nat := 16
  const MIN_INDEX_ENTRY: nat := 12
  const BLOOM_BLOCK: nat := 64

  // ----- the index -----

  function IndexEntryBytes(x: IndexEntry): (s: seq<Byte>)
    ensures |s| == 12 + |x.key|
  {
    Str(x.key) + Le(x.offset, 8)
  }

  function IndexEntries(ix: seq<IndexEntry>): (s: seq<Byte>)
    ensures |s| >= 12 * |ix|
  {
    if ix == [] then [] else IndexEntryBytes(ix[0]) + IndexEntries(ix[1..])
  }

  predicate IndexFits(ix: seq<IndexEntry>) {
    forall i | 0 <= i < |ix| :: |ix[i].key| <= MAX_STRING && ix[i].offset <= MAX_FILE
  }

  /** `n` index entries from the front of `s`; no string is longer than the file. */
  function ParseIndex(s: seq<Byte>, n: nat, fileSize: nat): Option<seq<IndexEntry>> {
    if n == 0 then Some([])
    else
      var key := ReadString(s);
      if key.None? || |key.value.0| > fileSize || |key.value.1| < 8 then None
      else
        var more := ParseIndex(key.value.1[8..], n - 1, fileSize);
        if more.None? then None
        else Some([IndexEntry(key.value.0, UnLe(key.value.1[..8]))] + more.value)
  }

  lemma {:induction false} IndexRoundTrip(ix: seq<IndexEntry>, rest: seq<Byte>, fileSize: nat)
    requires IndexFits(ix) && |IndexEntries(ix)| <= fileSize
    ensures ParseIndex(IndexEntries(ix) + rest, |ix|, fileSize) == Some(ix)
  {
    if ix != [] {
      var x, more := ix[0], ix[1..];
      var tail := IndexEntries(more) + rest;
      assert IndexEntries(ix) + rest == Str(x.key) + (Le(x.offset, 8) + tail);
      StringRoundTrip(x.key, Le(x.offset, 8) + tail);
      assert (Le(x.offset, 8) + tail)[..8] == Le(x.offset, 8) && (Le(x.offset, 8) + tail)[8..] == tail;
      Le8(x.offset);
      IndexRoundTrip(more, rest, fileSize);
      assert ix == [IndexEntry(x.key, x.offset)] + more;
    }
  }

  // ----- the file -----

  function IndexSection(ix: seq<IndexEntry>): (s: seq<Byte>)
    ensures |s| >= 4 + 12 * |ix|
  {
    Le(|ix|, 4) + IndexEntries(ix)
  }

  function BloomSection(bits: seq<bool>, blocks: nat): (s: seq<Byte>)
    requires |bits| == 512 * blocks
    ensures |s| == 16 + 64 * blocks
  {
    Le(NUM_HASHES, 8) + Le(blocks, 8) + Serialized(bits, 64 * blocks)
  }

  function Footer(indexOffset: nat, bloomOffset: nat): (s: seq<Byte>)
    ensures |s| == 16
  {
    Le(indexOffset, 8) + Le(bloomOffset, 8)
  }

  function Assemble(data: seq<Byte>, index: seq<Byte>, bloom: seq<Byte>): seq<Byte> {
    data + index + bloom + Footer(|data|, |data| + |index|)
  }

  /** The file of a table. */
  function Layout(es: seq<Entry>, bits: seq<bool>, blocks: nat): seq<Byte>
    requires |bits| == 512 * blocks
  {
    CutFlatten(es);
    Assemble(Data(es), IndexSection(IndexOf(Cut(es))), BloomSection(bits, blocks))
  }

  // ----- reading it back -----

  datatype Corrupt = TooSmall | FooterOutside | TooManyIndexEntries | BadIndex | BadBloom

  datatype Parsed<T> = Ok(value: T) | Bad(error: Corrupt)

  datatype Offsets = Offsets(index: nat, bloom: nat)

  /** The footer's two positions, refused unless they lie in order within the file. */
  function ReadFooter(f: seq<Byte>): (r: Parsed<Offsets>)
    ensures r.Ok? ==> r.value.index <= r.value.bloom <= |f| && |f| >= FOOTER
  {
    if |f| < FOOTER then Bad(TooSmall)
    else
      var index, bloom := UnLe(f[|f| - 16..|f| - 8]), UnLe(f[|f| - 8..]);
      if index > |f| || bloom > |f| || index > bloom then Bad(FooterOutside) else Ok(Offsets(index, bloom))
  }

  /** The index between its two positions; its count is bounded by the room there is. */
  function ReadIndex(f: seq<Byte>, at: Offsets): Parsed<seq<IndexEntry>>
    requires at.index <= at.bloom <= |f|
  {
    if |f| < at.index + 4 then Bad(BadIndex)
    else
      var count := UnLe(f[at.index..at.index + 4]);
      var available := if at.bloom - at.index >= 4 then at.bloom - at.index - 4 else 0;
      if count > available / MIN_INDEX_ENTRY then Bad(TooManyIndexEntries)
      else
        var ix := ParseIndex(f[at.index + 4..], count, |f|);
        if ix.None? then Bad(BadIndex) else Ok(ix.value)
  }

  datatype Filter = Filter(blocks: nat, hashes: nat, data: seq<Byte>)

  /** The filter's counts and bytes; the block count is bounded by the room before the footer. */
  function ReadBloom(f: seq<Byte>, pos: nat): Parsed<Filter>
    requires pos <= |f|
  {
    if |f| < pos + 16 then Bad(BadBloom)
    else
      var hashes, blocks := UnLe(f[pos..pos + 8]), UnLe(f[pos + 8..pos + 16]);
      var here := pos + 16;
      var available := if |f| >= here + FOOTER then |f| - here - FOOTER else 0;
      if blocks > available / BLOOM_BLOCK then Bad(BadBloom)
      else Ok(Filter(blocks, hashes, f[here..here + 64 * blocks]))
  }

  lemma AssembleParts(data: seq<Byte>, index: seq<Byte>, bloom: seq<Byte>)
    ensures var f := Assemble(data, index, bloom); var d, b := |data|, |data| + |index|;
      && |f| == b + |bloom| + 16
      && f[..d] == data && f[d..] == index + (bloom + Footer(d, b)) && f[b..|f| - 16] == bloom
      && f[|f| - 16..] == Footer(d, b)
  {
  }

  /** The footer checks pass on every file the writer makes. */
  lemma {:induction false} FooterRoundTrip(data: seq<Byte>, index: seq<Byte>, bloom: seq<Byte>)
    requires |Assemble(data, index, bloom)| <= MAX_FILE
    ensures ReadFooter(Assemble(data, index, bloom)) == Ok(Offsets(|data|, |data| + |index|))
  {
    AssembleParts(data, index, bloom);
    FooterReads(Assemble(data, index, bloom), |data|, |data| + |index|);
  }

  lemma {:induction false} FooterReads(f: seq<Byte>, index: nat, bloom: nat)
    requires FOOTER <= |f| <= MAX_FILE && index <= bloom <= |f|
    requires f[|f| - 16..] == Footer(index, bloom)
    ensures ReadFooter(f) == Ok(Offsets(index, bloom))
  {
    TwoParts(f, |f| - 16, Le(index, 8), Le(bloom, 8));
    Le8(index);
    Le8(bloom);
  }

  /** So do the index checks, and the index read is the index written. */
  lemma IndexSectionRoundTrip(data: seq<Byte>, ix: seq<IndexEntry>, bloom: seq<Byte>)
    requires IndexFits(ix) && |ix| <= 0xFFFF_FFFF
    ensures var f := Assemble(data, IndexSection(ix), bloom);
      var at := Offsets(|data|, |data| + |IndexSection(ix)|);
      at.bloom <= |f| && ReadIndex(f, at) == Ok(ix)
  {
    var section := IndexSection(ix);
    AssembleParts(data, section, bloom);
    IndexReads(Assemble(data, section, bloom), ix, Offsets(|data|, |data| + |section|),
               bloom + Footer(|data|, |data| + |section|));
  }

  lemma {:induction false} IndexReads(f: seq<Byte>, ix: seq<IndexEntry>, at: Offsets, rest: seq<Byte>)
    requires IndexFits(ix) && |ix| <= 0xFFFF_FFFF
    requires at.index <= at.bloom <= |f| && at.bloom == at.index + |IndexSection(ix)|
    requires f[at.index..] == IndexSection(ix) + rest
    ensures ReadIndex(f, at) == Ok(ix)
  {
    SplitSection(f, at.index, Le(|ix|, 4), IndexEntries(ix), rest);
    Le4(|ix|);
    IndexRoundTrip(ix, rest, |f|);
  }

  lemma {:induction false} TwoParts(f: seq<Byte>, pos: nat, a: seq<Byte>, b: seq<Byte>)
    requires pos <= |f| && f[pos..] == a + b
    ensures f[pos..pos + |a|] == a && f[pos + |a|..] == b
  {
    assert f[pos..pos + |a|] == f[pos..][..|a|];
    assert f[pos + |a|..] == f[pos..][|a|..];
  }

  lemma {:induction false} SplitSection(f: seq<Byte>, pos: nat, a: seq<Byte>, b: seq<Byte>, rest: seq<Byte>)
    requires pos <= |f| && f[pos..] == a + b + rest
    ensures f[pos..pos + |a|] == a && f[pos + |a|..] == b + rest
  {
    assert f[pos..pos + |a|] == f[pos..][..|a|];
    assert f[pos + |a|..] == f[pos..][|a|..];
  }

  /** And so do the filter's. */
  lemma {:induction false} BloomSectionRoundTrip(data: seq<Byte>, index: seq<Byte>, bits: seq<bool>, blocks: nat)
    requires |bits| == 512 * blocks && |Assemble(data, index, BloomSection(bits, blocks))| <= MAX_FILE
    ensures var f := Assemble(data, index, BloomSection(bits, blocks)); var pos := |data| + |index|;
      pos <= |f| && ReadBloom(f, pos) == Ok(Filter(blocks, NUM_HASHES, Serialized(bits, 64 * blocks)))
  {
    var section := BloomSection(bits, blocks);
    var f, pos := Assemble(data, index, section), |data| + |index|;
    AssembleParts(data, index, section);
    BloomReads(f, pos, bits, blocks);
  }

  lemma {:induction false} BloomReads(f: seq<Byte>, pos: nat, bits: seq<bool>, blocks: nat)
    requires |bits| == 512 * blocks && |f| == pos + 16 + 64 * blocks + 16 && |f| <= MAX_FILE
    requires f[pos..|f| - 16] == BloomSection(bits, blocks)
    ensures ReadBloom(f, pos) == Ok(Filter(blocks, NUM_HASHES, Serialized(bits, 64 * blocks)))
  {
    BloomFields(f, pos, bits, blocks);
    Le8(NUM_HASHES);
    Le8(blocks);
  }

  lemma {:induction false} BloomFields(f: seq<Byte>, pos: nat, bits: seq<bool>, blocks: nat)
    requires |bits| == 512 * blocks && |f| == pos + 16 + 64 * blocks + 16
    requires f[pos..|f| - 16] == BloomSection(bits, blocks)
    ensures f[pos..pos + 8] == Le(NUM_HASHES, 8) && f[pos + 8..pos + 16] == Le(blocks, 8)
    ensures f[pos + 16..pos + 16 + 64 * blocks] == Serialized(bits, 64 * blocks)
  {
    ThreeParts(f, pos, |f| - 16, Le(NUM_HASHES, 8), Le(blocks, 8), Serialized(bits, 64 * blocks));
  }

  lemma ThreeParts(f: seq<Byte>, from: nat, to: nat, a: seq<Byte>, b: seq<Byte>, c: seq<Byte>)
    requires from <= to <= |f| && f[from..to] == a + b + c
    ensures f[from..from + |a|] == a && f[from + |a|..from + |a| + |b|] == b && f[from + |a| + |b|..to] == c
  {
    var s := f[from..to];
    assert forall i | 0 <= i < |s| :: f[from + i] == s[i];
    assert s[..|a|] == a && s[|a|..|a| + |b|] == b && s[|a| + |b|..] == c;
    assert f[from..from + |a|] == s[..|a|];
    assert f[from + |a|..from + |a| + |b|] == s[|a|..|a| + |b|];
    assert f[from + |a| + |b|..to] == s[|a| + |b|..];
  }

  /** All three sections of an assembled file, read one after the other. */
  lemma {:induction false} AssembledOpens(f: seq<Byte>, data: seq<Byte>, ix: seq<IndexEntry>, bits: seq<bool>, blocks: nat)
    requires IndexFits(ix) && |ix| <= 0xFFFF_FFFF && |bits| == 512 * blocks && |f| <= MAX_FILE
    requires f == Assemble(data, IndexSection(ix), BloomSection(bits, blocks))
    ensures |data| <= |f| && f[..|data|] == data
    ensures ReadFooter(f).Ok? && ReadFooter(f).value.index == |data|
    ensures ReadIndex(f, ReadFooter(f).value) == Ok(ix)
    ensures ReadBloom(f, ReadFooter(f).value.bloom) == Ok(Filter(blocks, NUM_HASHES, Serialized(bits, 64 * blocks)))
  {
    var index, bloom := IndexSection(ix), BloomSection(bits, blocks);
    var at := Offsets(|data|, |data| + |index|);
    AssembleParts(data, index, bloom);
    FooterReads(f, at.index, at.bloom);
    IndexReads(f, ix, at, bloom + Footer(at.index, at.bloom));
    BloomReads(f, at.bloom, bits, blocks);
  }
}
