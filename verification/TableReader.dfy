/**
  Reading a table back: opening the file with its bounds checks, point lookups through filter,
  index, cache and block, and iteration from a start key.
*/
module TableReader {
  import opened Wrappers
  import opened Store
  import opened KeyOrder
  import opened LoadOrder
  import opened TableCodec
  import opened TableIndex
  import opened TableFile
  import opened Bloom
  import opened BlockCache
  import opened SSTable
  import Reads

  // ----- opening -----

  class Table {
    const path: Name
    const file: seq<Byte>
    const index: seq<IndexEntry>
    const indexOffset: nat
    const bloom: BloomFilter
    const smallest: Key
    const largest: Key

    constructor (path: Name, file: seq<Byte>, index: seq<IndexEntry>, indexOffset: nat,
                 bloom: BloomFilter, smallest: Key, largest: Key)
      ensures this.path == path && this.file == file && this.index == index && this.indexOffset == indexOffset
      ensures this.bloom == bloom && this.smallest == smallest && this.largest == largest
    {
      this.path, this.file, this.index, this.indexOffset := path, file, index, indexOffset;
      this.bloom, this.smallest, this.largest := bloom, smallest, largest;
    }

    /** This table is the table of `es`. */
    ghost predicate Holds(es: seq<Entry>)
      reads bloom, bloom.bits
    {
      CutFlatten(es);
      && Sorted(es) && AllFit(es)
      && indexOffset == |Data(es)| <= |file| && file[..indexOffset] == Data(es)
      && index == IndexOf(Cut(es))
      && bloom.Valid() && FilterOf(bloom.bits[..], bloom.blocks, bloom.hashes, KeysOf(es))
      && (es != [] ==> smallest == es[0].key && largest == es[|es| - 1].key)
    }
  }

  /** The file of a table that write() could make. */
  ghost predicate TableFileOf(f: seq<Byte>, es: seq<Entry>, bits: seq<bool>, blocks: nat) {
    && blocks > 0 && |bits| == 512 * blocks && FilterOf(bits, blocks, NUM_HASHES, KeysOf(es))
    && Sorted(es) && AllFit(es) && |Cut(es)| <= MAX_INDEX
    && f == Layout(es, bits, blocks) && |f| <= MAX_FILE
  }

  lemma {:induction false} IndexKeysFit(es: seq<Entry>)
    requires AllFit(es) && |Data(es)| <= MAX_FILE
    ensures NonEmpty(Cut(es)) && IndexFits(IndexOf(Cut(es)))
  {
    var bs := Cut(es);
    CutFlatten(es);
    forall i | 0 <= i < |bs|
      ensures |IndexOf(bs)[i].key| <= MAX_STRING && IndexOf(bs)[i].offset <= MAX_FILE
    {
      IndexAt(bs, i);
      BlockIn(bs, i, bs[i][0]);
      BlockSlice(bs, i);
    }
  }

  /** Every bounds check of the constructor passes on a written file, and it reads what was written. */
  lemma {:induction false} LayoutOpens(f: seq<Byte>, es: seq<Entry>, bits: seq<bool>, blocks: nat)
    requires TableFileOf(f, es, bits, blocks)
    ensures NonEmpty(Cut(es)) && |Data(es)| <= |f| && f[..|Data(es)|] == Data(es)
    ensures ReadFooter(f).Ok? && ReadFooter(f).value.index == |Data(es)|
    ensures ReadIndex(f, ReadFooter(f).value) == Ok(IndexOf(Cut(es)))
    ensures ReadBloom(f, ReadFooter(f).value.bloom) == Ok(Filter(blocks, NUM_HASHES, Serialized(bits, 64 * blocks)))
  {
    CutFlatten(es);
    assert |Data(es)| <= |f|;
    IndexKeysFit(es);
    AssembledOpens(f, Data(es), IndexOf(Cut(es)), bits, blocks);
  }

  /** From the last index entry on there is only the last block, which ends as the table does. */
  lemma LastBlock(bs: seq<seq<Entry>>, es: seq<Entry>)
    requires NonEmpty(bs) && bs != [] && es == Flatten(bs)
    ensures var b, from := bs[|bs| - 1], IndexOf(bs)[|bs| - 1].offset;
      && from <= |Data(es)| && Data(es)[from..] == Data(b)
      && es != [] && b[|b| - 1] == es[|es| - 1]
  {
    var i := |bs| - 1;
    BlockSlice(bs, i);
    assert bs[i + 1..] == [] && bs[i] + Flatten(bs[i + 1..]) == bs[i];
  }

  lemma {:induction false} BlockFits(bs: seq<seq<Entry>>, i: nat)
    requires i < |bs| && AllFit(Flatten(bs))
    ensures AllFit(bs[i])
  {
    forall j | 0 <= j < |bs[i]| ensures EntryFits(bs[i][j]) { BlockIn(bs, i, bs[i][j]); }
  }

  /** Reading from the last index entry to the index ends at the table's last entry. */
  lemma {:induction false} LargestIsLast(f: seq<Byte>, es: seq<Entry>, bs: seq<seq<Entry>>)
    requires AllFit(es) && NonEmpty(bs) && bs != [] && es == Flatten(bs)
    requires |Data(es)| <= |f| && f[..|Data(es)|] == Data(es)
    ensures var from := IndexOf(bs)[|bs| - 1].offset;
      && es != [] && from <= |Data(es)|
      && ParseBlock(f[from..|Data(es)|]) == bs[|bs| - 1]
      && bs[|bs| - 1][|bs[|bs| - 1]| - 1] == es[|es| - 1]
  {
    var b, from := bs[|bs| - 1], IndexOf(bs)[|bs| - 1].offset;
    LastBlock(bs, es);
    assert f[from..|Data(es)|] == f[..|Data(es)|][from..];
    BlockFits(bs, |bs| - 1);
    DataRoundTrip(b);
  }

  /** What opening a file finds. */
  datatype Reading = Reading(index: seq<IndexEntry>, indexOffset: nat, filter: Filter, smallest: Key, largest: Key)

  function ReadBounds(f: seq<Byte>, index: seq<IndexEntry>, indexOffset: nat): Option<(Key, Key)> {
    if index == [] then Some(([], []))
    else
      var from := index[|index| - 1].offset;
      if !(from <= indexOffset <= |f|) then None
      else
        var entries := ParseBlock(f[from..indexOffset]);
        Some((index[0].key, if entries == [] then [] else entries[|entries| - 1].key))
  }

  function ReadTable(f: seq<Byte>): Parsed<Reading> {
    var at := ReadFooter(f);
    if at.Bad? then Bad(at.error)
    else
      var index := ReadIndex(f, at.value);
      if index.Bad? then Bad(index.error)
      else
        var filter := ReadBloom(f, at.value.bloom);
        if filter.Bad? then Bad(filter.error)
        else
          var bounds := ReadBounds(f, index.value, at.value.index);
          if bounds.None? then Bad(BadIndex)
          else Ok(Reading(index.value, at.value.index, filter.value, bounds.value.0, bounds.value.1))
  }

  lemma {:induction false} FirstKey(bs: seq<seq<Entry>>)
    requires NonEmpty(bs) && bs != []
    ensures Flatten(bs) != [] && IndexOf(bs)[0].key == Flatten(bs)[0].key
  {
    IndexAt(bs, 0);
    SplitAt(bs, 0);
  }

  lemma {:induction false} BoundsOf(f: seq<Byte>, es: seq<Entry>, bs: seq<seq<Entry>>)
    requires AllFit(es) && |Data(es)| <= |f| && f[..|Data(es)|] == Data(es)
    requires NonEmpty(bs) && es == Flatten(bs)
    ensures ReadBounds(f, IndexOf(bs), |Data(es)|) ==
      Some(if es == [] then ([], []) else (es[0].key, es[|es| - 1].key))
  {
    if bs != [] {
      LargestIsLast(f, es, bs);
      FirstKey(bs);
    }
  }

  /** Opening a written file succeeds and finds exactly what was written. */
  lemma {:induction false} OpensWritten(f: seq<Byte>, es: seq<Entry>, bits: seq<bool>, blocks: nat)
    requires TableFileOf(f, es, bits, blocks)
    ensures NonEmpty(Cut(es)) && ReadTable(f).Ok?
    ensures var r := ReadTable(f).value;
      && r.index == IndexOf(Cut(es)) && r.indexOffset == |Data(es)|
      && r.filter == Filter(blocks, NUM_HASHES, Serialized(bits, 64 * blocks))
      && (es != [] ==> r.smallest == es[0].key && r.largest == es[|es| - 1].key)
  {
    LayoutOpens(f, es, bits, blocks);
    CutFlatten(es);
    BoundsOf(f, es, Cut(es));
    var ends := if es == [] then ([], []) else (es[0].key, es[|es| - 1].key);
    ReadInParts(f, ReadFooter(f).value, IndexOf(Cut(es)), Filter(blocks, NUM_HASHES, Serialized(bits, 64 * blocks)), ends);
  }

  lemma {:induction false} ReadInParts(f: seq<Byte>, at: Offsets, index: seq<IndexEntry>, filter: Filter, ends: (Key, Key))
    requires ReadFooter(f) == Ok(at) && ReadIndex(f, at) == Ok(index) && ReadBloom(f, at.bloom) == Ok(filter)
    requires ReadBounds(f, index, at.index) == Some(ends)
    ensures ReadTable(f) == Ok(Reading(index, at.index, filter, ends.0, ends.1))
  {
  }

  /** `t` was opened on `f` and found `r`. */
  ghost predicate OpenedAs(t: Table, path: Name, f: seq<Byte>, r: Reading)
    reads t.bloom, t.bloom.bits
  {
    && t.path == path && t.file == f && t.index == r.index && t.indexOffset == r.indexOffset
    && t.smallest == r.smallest && t.largest == r.largest
    && t.bloom.Valid()
    && t.bloom.blocks == (if r.filter.blocks == 0 then 1 else r.filter.blocks)
    && t.bloom.hashes == (if r.filter.hashes == 0 then 1 else r.filter.hashes)
    && (|r.filter.data| >= 64 * t.bloom.blocks ==> t.bloom.bits[..] == BitsOf(r.filter.data[..64 * t.bloom.blocks]))
  }

  /** First and last key, by reading the last block. */
  method ReadKeyBounds(f: seq<Byte>, index: seq<IndexEntry>, indexOffset: nat) returns (r: Option<(Key, Key)>)
    requires indexOffset <= |f|
    ensures r == ReadBounds(f, index, indexOffset)
  {
    if index == [] { return Some(([], [])); }
    var from := index[|index| - 1].offset;
    if from > indexOffset { return None; }
    var entries := ParseBlockEntries(f[from..indexOffset]);
    r := Some((index[0].key, if entries == [] then [] else entries[|entries| - 1].key));
  }

  /** The constructor's reading: footer, index, filter and key bounds, each checked. */
  method Read(f: seq<Byte>) returns (r: Parsed<Reading>)
    ensures r == ReadTable(f)
  {
    var at := ReadFooter(f);
    if at.Bad? { return Bad(at.error); }
    var index := ReadIndex(f, at.value);
    if index.Bad? { return Bad(index.error); }
    var filter := ReadBloom(f, at.value.bloom);
    if filter.Bad? { return Bad(filter.error); }
    var bounds := ReadKeyBounds(f, index.value, at.value.index);
    if bounds.None? { return Bad(BadIndex); }
    r := Ok(Reading(index.value, at.value.index, filter.value, bounds.value.0, bounds.value.1));
  }

  /** The table object of a reading. */
  method Build(path: Name, f: seq<Byte>, found: Reading) returns (t: Table)
    ensures OpenedAs(t, path, f, found) && fresh(t) && fresh(t.bloom) && fresh(t.bloom.bits)
  {
    var bloom := new BloomFilter.Deserialize(found.filter.blocks, found.filter.hashes, found.filter.data);
    t := new Table(path, f, found.index, found.indexOffset, bloom, found.smallest, found.largest);
  }

  method Open(path: Name, f: seq<Byte>) returns (r: Parsed<Table>)
    ensures r.Ok? == ReadTable(f).Ok? && (r.Bad? ==> ReadTable(f) == Bad(r.error))
    ensures r.Ok? ==> OpenedAs(r.value, path, f, ReadTable(f).value)
    ensures r.Ok? ==> fresh(r.value) && fresh(r.value.bloom) && fresh(r.value.bloom.bits)
  {
    var found := Read(f);
    if found.Bad? { return Bad(found.error); }
    var t := Build(path, f, found.value);
    r := Ok(t);
  }

  /** A table opened on the file written for `es` is the table of `es`. */
  lemma {:induction false} OpenedHolds(t: Table, path: Name, f: seq<Byte>, es: seq<Entry>, bits: seq<bool>, blocks: nat)
    requires TableFileOf(f, es, bits, blocks) && ReadTable(f).Ok? && OpenedAs(t, path, f, ReadTable(f).value)
    ensures t.Holds(es)
  {
    OpensWritten(f, es, bits, blocks);
    LayoutOpens(f, es, bits, blocks);
    SerializedRoundTrip(bits, 64 * blocks);
    var data := Serialized(bits, 64 * blocks);
    assert data[..64 * blocks] == data;
  }

  /** A flush: write the table, then open the file just written.  Only the write can refuse. */
  method WriteAndOpen(path: Name, es: seq<Entry>, sizing: nat)
    returns (t: Option<Table>, ghost bits: seq<bool>, ghost blocks: nat)
    ensures blocks > 0 && |bits| == 512 * blocks
    ensures t.None? <==>
      !Sorted(es) || !AllFit(es) || |Cut(es)| > MAX_INDEX || |Layout(es, bits, blocks)| > MAX_FILE
    ensures t.Some? ==> t.value.path == path && t.value.Holds(es)
    ensures t.Some? ==> fresh(t.value) && fresh(t.value.bloom) && fresh(t.value.bloom.bits)
  {
    var r: WriteResult;
    r, bits, blocks := Write(es, sizing);
    if !r.Written? { t := None; return; }
    OpensWritten(r.file, es, bits, blocks);
    var found := Open(path, r.file);
    OpenedHolds(found.value, path, r.file, es, bits, blocks);
    t := Some(found.value);
  }

  // ----- point lookups -----

  /** Blocks start at increasing positions. */
  lemma {:induction false} OffsetsIncrease(bs: seq<seq<Entry>>, i: nat, j: nat)
    requires NonEmpty(bs) && i < j < |bs|
    ensures IndexOf(bs)[i].offset < IndexOf(bs)[j].offset
  {
    IndexAt(bs, i);
    IndexAt(bs, j);
    DataGrows(bs, i, j);
  }

  lemma {:induction false} DataGrows(bs: seq<seq<Entry>>, i: nat, j: nat)
    requires NonEmpty(bs) && i < j <= |bs|
    ensures |Data(Flatten(bs[..i]))| < |Data(Flatten(bs[..j]))|
    decreases j
  {
    SplitAt(bs, j - 1);
    DataConcat(Flatten(bs[..j - 1]), bs[j - 1]);
    if i < j - 1 { DataGrows(bs, i, j - 1); }
  }

  /** Whatever the cache holds of table `path` is the block at that position. */
  ghost predicate CacheOk(lines: seq<Line>, path: Name, bs: seq<seq<Entry>>)
    requires NonEmpty(bs)
  {
    forall line, i: nat | line in lines && i < |bs| && line.key == CacheKey(path, IndexOf(bs)[i].offset) :: line.value == bs[i]
  }

  lemma {:induction false} TouchedKeepsOk(lines: seq<Line>, path: Name, bs: seq<seq<Entry>>, line: Line)
    requires NonEmpty(bs) && CacheOk(lines, path, bs)
    requires forall i: nat | i < |bs| && line.key == CacheKey(path, IndexOf(bs)[i].offset) :: line.value == bs[i]
    ensures CacheOk(Touched(lines, line), path, bs)
  {
    WithoutSubset(lines, line.key);
    forall x, i: nat | x in Touched(lines, line) && i < |bs| && x.key == CacheKey(path, IndexOf(bs)[i].offset)
      ensures x.value == bs[i]
    {
    }
  }

  lemma {:induction false} StoredKeepsOk(lines: seq<Line>, path: Name, bs: seq<seq<Entry>>, lo: nat, line: Line, capacity: nat, maxBytes: nat)
    requires NonEmpty(bs) && CacheOk(lines, path, bs) && lo < |bs|
    requires line.key == CacheKey(path, IndexOf(bs)[lo].offset) && line.value == bs[lo]
    ensures CacheOk(Stored(lines, line, capacity, maxBytes), path, bs)
  {
    forall i: nat | i < |bs| && line.key == CacheKey(path, IndexOf(bs)[i].offset) ensures i == lo {
      if i < lo { OffsetsIncrease(bs, i, lo); }
      if lo < i { OffsetsIncrease(bs, lo, i); }
    }
    TouchedKeepsOk(lines, path, bs, line);
    FittedIsLongest(Touched(lines, line), capacity, maxBytes);
  }

  /** A key the filter rejects is not in the table. */
  lemma {:induction false} RejectedIsAbsent(bits: seq<bool>, blocks: nat, hashes: nat, es: seq<Entry>, key: Key)
    requires blocks > 0 && FilterOf(bits, blocks, hashes, KeysOf(es)) && !AllSet(bits, blocks, hashes, key)
    ensures Reads.Version(Meaning(es), key) == None
  {
    MeaningKeys(es, key);
    if key in Meaning(es) {
      var i :| 0 <= i < |es| && es[i].key == key;
      assert KeysOf(es)[i] == key;
      NoFalseNegative(bits, blocks, hashes, KeysOf(es), key);
    }
  }

  lemma {:induction false} SliceOfPrefix(f: seq<Byte>, n: nat, from: nat, to: nat)
    requires from <= to <= n <= |f|
    ensures f[..n][from..to] == f[from..to]
  {
  }

  /** The chosen block: its bytes parse to it, and it decides the key. */
  lemma {:induction false} ChosenBlock(f: seq<Byte>, es: seq<Entry>, bs: seq<seq<Entry>>, lo: nat, key: Key)
    requires AllFit(es) && Sorted(es) && NonEmpty(bs) && es == Flatten(bs) && lo < |bs|
    requires |Data(es)| <= |f| && f[..|Data(es)|] == Data(es) && Chosen(IndexOf(bs), lo, key)
    ensures var from, to := IndexOf(bs)[lo].offset, BlockEnd(IndexOf(bs), lo, |Data(es)|);
      && from < to <= |Data(es)| && ParseBlock(f[from..to]) == bs[lo]
    ensures Sorted(bs[lo]) && Reads.Version(Meaning(bs[lo]), key) == Reads.Version(Meaning(es), key)
  {
    var from, to := IndexOf(bs)[lo].offset, BlockEnd(IndexOf(bs), lo, |Data(es)|);
    BlockSlice(bs, lo);
    SliceOfPrefix(f, |Data(es)|, from, to);
    BlockFits(bs, lo);
    DataRoundTrip(bs[lo]);
    DataPositive(bs[lo]);
    ChosenDecides(bs, lo, key);
  }

  /** The block at index entry `lo`, from the cache or from the file. */
  method FetchBlock(t: Table, cache: BlockCache, lo: nat, bytes: nat, ghost es: seq<Entry>, ghost key: Key)
    returns (entries: seq<Entry>)
    requires t.Holds(es) && cache.Valid() && NonEmpty(Cut(es)) && CacheOk(cache.lines, t.path, Cut(es))
    requires lo < |t.index| && Chosen(t.index, lo, key)
    modifies cache
    ensures cache.Valid() && CacheOk(cache.lines, t.path, Cut(es))
    ensures entries == Cut(es)[lo]
  {
    ghost var bs := Cut(es);
    CutFlatten(es);
    ChosenBlock(t.file, es, bs, lo, key);
    var from, to := t.index[lo].offset, BlockEnd(t.index, lo, t.indexOffset);
    var k := CacheKey(t.path, from);
    ghost var lines := cache.lines;
    var hit := cache.Get(k);
    if hit.Some? {
      TouchedKeepsOk(lines, t.path, bs, Cached(lines, k).value);
      return hit.value;
    }
    entries := ParseBlockEntries(t.file[from..to]);
    cache.Put(k, entries, bytes);
    StoredKeepsOk(lines, t.path, bs, lo, Line(k, entries, bytes), cache.capacity, cache.maxBytes);
  }

  /**
    SSTable::get equals lookup in the entry list, for every key: absent, tombstone and value are
    told apart, whatever the cache holds, and the cache stays right.
  */
  method Get(t: Table, cache: BlockCache, key: Key, bytes: nat, ghost es: seq<Entry>)
    returns (r: Option<Option<Value>>)
    requires t.Holds(es) && cache.Valid() && NonEmpty(Cut(es)) && CacheOk(cache.lines, t.path, Cut(es))
    modifies cache
    ensures cache.Valid() && CacheOk(cache.lines, t.path, Cut(es))
    ensures r == Reads.Version(Meaning(es), key)
  {
    var may := t.bloom.MayContain(key);
    if !may {
      RejectedIsAbsent(t.bloom.bits[..], t.bloom.blocks, t.bloom.hashes, es, key);
      return None;
    }
    CutFlatten(es);
    if t.index == [] { return None; }
    IndexIsSorted(Cut(es));
    var lo := FindBlock(t.index, key);
    ChosenBlock(t.file, es, Cut(es), lo, key);
    var entries := FetchBlock(t, cache, lo, bytes, es, key);
    r := Reads.FindIn(entries, key);
  }

  // ----- iteration -----

  /** Reads the entry at an entry boundary. */
  method ReadNext(f: seq<Byte>, pos: nat, end: nat, ghost es: seq<Entry>) returns (e: Entry, next: nat)
    requires pos < end <= |f| && AllFit(es) && f[pos..end] == Data(es)
    ensures es != [] && e == es[0] && next <= end && f[next..end] == Data(es[1..])
  {
    DataNext(f, pos, end, es);
    ghost var after := f[pos + |EntryBytes(es[0])|..];
    EntryRoundTrip(es[0], after);
    var got, at := EntryAt(f, pos);
    assert got == Some(es[0]) && |f[at..]| == |after|;
    e, next := got.value, at;
  }

  class TableIterator {
    const file: seq<Byte>
    const dataEnd: nat
    var pos: nat
    var current: Option<Entry>
    ghost var rest: seq<Entry>

    /** `rest` is what lies between the read position and the end of the data. */
    ghost predicate Valid()
      reads this
    {
      pos <= dataEnd <= |file| && AllFit(rest) && file[pos..dataEnd] == Data(rest) && (current.None? ==> rest == [])
    }

    ghost function Remaining(): seq<Entry>
      reads this
    {
      if current.Some? then [current.value] + rest else []
    }

    constructor (f: seq<Byte>, end: nat, start: nat, ghost es: seq<Entry>)
      requires start <= end <= |f| && AllFit(es) && f[start..end] == Data(es)
      ensures Valid() && Remaining() == es
    {
      file, dataEnd, pos, current, rest := f, end, start, Some(Entry([], None)), es;
      new;
      Advance();
    }

    /** Reads the next entry, or finds the end of the data. */
    method Advance()
      requires Valid()
      modifies this
      ensures Valid() && Remaining() == old(rest)
    {
      if pos < dataEnd {
        var e, next := ReadNext(file, pos, dataEnd, rest);
        current, pos, rest := Some(e), next, rest[1..];
      } else {
        NoData(rest);
        current := None;
      }
    }

    method Next() returns (e: Entry)
      requires Valid() && current.Some?
      modifies this
      ensures Valid() && [e] + Remaining() == old(Remaining())
    {
      e := current.value;
      Advance();
    }
  }

  lemma {:induction false} NoData(es: seq<Entry>)
    requires |Data(es)| == 0
    ensures es == []
  {
    if es != [] { DataPositive(es); }
  }

  /** At an entry boundary the next entry lies whole, and ends at the next boundary. */
  lemma {:induction false} DataNext(f: seq<Byte>, pos: nat, end: nat, es: seq<Entry>)
    requires pos < end <= |f| && f[pos..end] == Data(es)
    ensures es != [] && pos + 9 <= end
    ensures var next := pos + |EntryBytes(es[0])|;
      next <= end && f[pos..] == EntryBytes(es[0]) + f[next..] && f[next..end] == Data(es[1..])
  {
    assert es != [] by { assert |Data(es)| > 0; }
    var a, b := EntryBytes(es[0]), Data(es[1..]);
    assert Data(es) == a + b;
    SliceSplit(f, pos, end, a, b);
  }

  lemma {:induction false} SliceSplit(f: seq<Byte>, from: nat, to: nat, a: seq<Byte>, b: seq<Byte>)
    requires from <= to <= |f| && f[from..to] == a + b
    ensures f[from + |a|..to] == b && f[from..] == a + f[from + |a|..]
  {
    var s := f[from..to];
    assert forall i | 0 <= i < |s| :: f[from + i] == s[i];
    assert f[from + |a|..to] == s[|a|..];
    assert f[from..from + |a|] == s[..|a|];
    assert f[from..] == f[from..from + |a|] + f[from + |a|..];
  }

  /** Everything before the block findBlock() picks lies before the start key. */
  lemma {:induction false} BeforeBlock(bs: seq<seq<Entry>>, lo: nat, start: Key)
    requires NonEmpty(bs) && Sorted(Flatten(bs)) && lo < |bs| && Chosen(IndexOf(bs), lo, start)
    ensures forall e | e in Flatten(bs[..lo]) :: Less(e.key, start)
  {
    SplitAt(bs, lo);
    IndexAt(bs, lo);
    var first := bs[lo][0].key;
    if lo == 0 {
      assert Flatten(bs[..lo]) == [];
    } else {
      forall e | e in Flatten(bs[..lo]) ensures Less(e.key, start) {
        FirstAfter(Flatten(bs[..lo]), bs[lo], Flatten(bs[lo + 1..]), e);
        LessTotal(first, start);
        if first != start { LessTransitive(e.key, first, start); }
      }
    }
  }

  /** From the chosen block on lies a suffix of the table that loses nothing from `start` on. */
  lemma {:induction false} StartBlock(f: seq<Byte>, es: seq<Entry>, bs: seq<seq<Entry>>, lo: nat, start: Key)
    requires AllFit(es) && Sorted(es) && NonEmpty(bs) && es == Flatten(bs) && lo < |bs|
    requires |Data(es)| <= |f| && f[..|Data(es)|] == Data(es) && Chosen(IndexOf(bs), lo, start)
    ensures var from, tail := IndexOf(bs)[lo].offset, bs[lo] + Flatten(bs[lo + 1..]);
      && from <= |Data(es)| && f[from..|Data(es)|] == Data(tail) && AllFit(tail)
      && Reads.From(es, start) == Reads.From(tail, start)
  {
    var from := IndexOf(bs)[lo].offset;
    BlockSlice(bs, lo);
    SliceOfPrefix(f, |Data(es)|, from, |Data(es)|);
    NothingLost(bs, lo, start);
  }

  lemma {:induction false} NothingLost(bs: seq<seq<Entry>>, lo: nat, start: Key)
    requires NonEmpty(bs) && Sorted(Flatten(bs)) && AllFit(Flatten(bs))
    requires lo < |bs| && Chosen(IndexOf(bs), lo, start)
    ensures var tail := bs[lo] + Flatten(bs[lo + 1..]);
      AllFit(tail) && Reads.From(Flatten(bs), start) == Reads.From(tail, start)
  {
    var es, a, tail := Flatten(bs), Flatten(bs[..lo]), bs[lo] + Flatten(bs[lo + 1..]);
    SplitAt(bs, lo);
    assert es == a + tail;
    forall i | 0 <= i < |tail| ensures EntryFits(tail[i]) { assert tail[i] == es[|a| + i]; }
    BeforeBlock(bs, lo, start);
    Reads.FromSkips(a, tail, start);
  }

  /** createIterator(start): the entries from the first key not before `start`, to the end. */
  method CreateIterator(t: Table, start: Key, ghost es: seq<Entry>) returns (it: TableIterator)
    requires t.Holds(es)
    ensures fresh(it) && it.Valid() && it.Remaining() == Reads.From(es, start)
  {
    ghost var bs := Cut(es);
    CutFlatten(es);
    var from, lo := 0, 0;
    ghost var tail := es;
    if t.index != [] {
      IndexIsSorted(bs);
      lo := FindBlock(t.index, start);
      StartBlock(t.file, es, bs, lo, start);
      from := t.index[lo].offset;
      tail := bs[lo] + Flatten(bs[lo + 1..]);
    }
    it := new TableIterator(t.file, t.indexOffset, from, tail);
    SkipTo(it, start);
  }

  /** Steps over the entries before `start`. */
  method SkipTo(it: TableIterator, start: Key)
    requires it.Valid()
    modifies it
    ensures it.Valid() && it.Remaining() == Reads.From(old(it.Remaining()), start)
  {
    while it.current.Some? && Less(it.current.value.key, start)
      invariant it.Valid() && Reads.From(it.Remaining(), start) == Reads.From(old(it.Remaining()), start)
      decreases |it.Remaining()|
    {
      ghost var was := it.Remaining();
      var e := it.Next();
      assert was[1..] == it.Remaining();
    }
  }
}
