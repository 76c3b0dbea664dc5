/** Writing a table: the sortedness check, and one pass that yields data, index and filter. */
module SSTable {
  import opened Store
  import opened KeyOrder
  import opened TableCodec
  import opened TableIndex
  import opened TableFile
  import opened Bloom

  const MAX_INDEX: nat := 0xFFFF_FFFF

  function KeysOf(es: seq<Entry>): (ks: seq<Key>)
    ensures |ks| == |es| && forall i | 0 <= i < |es| :: ks[i] == es[i].key
  {
    seq(|es|, i requires 0 <= i < |es| => es[i].key)
  }

  // ----- writing -----

  datatype WriteResult = Written(file: seq<Byte>) | NotSorted | TooLong | IndexTooLarge | Failed

  lemma {:induction false} AdjacentSorted(es: seq<Entry>, i: nat, j: nat)
    requires forall k | 0 < k < |es| :: Less(es[k - 1].key, es[k].key)
    requires i < j < |es|
    ensures Less(es[i].key, es[j].key)
    decreases j
  {
    if i + 1 < j {
      AdjacentSorted(es, i, j - 1);
      LessTransitive(es[i].key, es[j - 1].key, es[j].key);
    }
  }

  /** Sorted, unique input is checked, neighbour by neighbour. */
  method CheckSorted(es: seq<Entry>) returns (ok: bool)
    ensures ok <==> Sorted(es)
  {
    var i := 1;
    while i < |es|
      invariant 1 <= i && (i <= |es| || es == [])
      invariant forall k | 0 < k < i && k < |es| :: Less(es[k - 1].key, es[k].key)
    {
      if !Less(es[i - 1].key, es[i].key) { return false; }
      i := i + 1;
    }
    forall a, b | 0 <= a < b < |es| ensures Less(es[a].key, es[b].key) { AdjacentSorted(es, a, b); }
    return true;
  }

  function LastSize(bs: seq<seq<Entry>>): nat { if bs == [] then 0 else |Data(bs[|bs| - 1])| }

  /** What the writing loop has produced after the entries `es`. */
  ghost predicate Progress(es: seq<Entry>, out: seq<Byte>, index: seq<IndexEntry>, size: nat) {
    CutFlatten(es);
    out == Data(es) && index == IndexOf(Cut(es)) && size == LastSize(Cut(es))
  }

  lemma ProgressStep(es: seq<Entry>, e: Entry, out: seq<Byte>, index: seq<IndexEntry>, size: nat)
    requires Progress(es, out, index, size)
    ensures var opens := es == [] || size >= TARGET_BLOCK_SIZE;
      Progress(es + [e], out + EntryBytes(e),
               if opens then index + [IndexEntry(e.key, |out|)] else index,
               (if opens then 0 else size) + |EntryBytes(e)|)
  {
    var bs, more := Cut(es), es + [e];
    assert more[..|more| - 1] == es;
    CutFlatten(es);
    CutFlatten(more);
    DataSnoc(es, e);
    IndexAdd(bs, e);
    NoBlocks(es);
    if es == [] || Full(bs[|bs| - 1]) {
      DataOne(e);
    } else {
      DataSnoc(bs[|bs| - 1], e);
    }
  }

  lemma DataOne(e: Entry)
    ensures Data([e]) == EntryBytes(e)
  {
    assert [e][1..] == [] && Data([e]) == EntryBytes(e) + [];
  }

  lemma {:induction false} NoBlocks(es: seq<Entry>)
    ensures Cut(es) == [] <==> es == []
  {
    CutFlatten(es);
  }

  method AddKey(bloom: BloomFilter, ghost es: seq<Entry>, e: Entry)
    requires bloom.Valid() && FilterOf(bloom.bits[..], bloom.blocks, bloom.hashes, KeysOf(es))
    modifies bloom.bits
    ensures FilterOf(bloom.bits[..], bloom.blocks, bloom.hashes, KeysOf(es + [e]))
  {
    ghost var before := bloom.bits[..];
    bloom.Insert(e.key);
    FilterOfSnoc(before, bloom.bits[..], bloom.blocks, bloom.hashes, KeysOf(es), e.key);
    assert KeysOf(es + [e]) == KeysOf(es) + [e.key];
  }

  /** One turn of the writing loop: opens a block if the last one is full, then writes the entry. */
  method PutEntry(ghost done: seq<Entry>, e: Entry, first: bool, out: seq<Byte>, index: seq<IndexEntry>, size: nat)
    returns (out': seq<Byte>, index': seq<IndexEntry>, size': nat)
    requires Progress(done, out, index, size) && first == (done == [])
    ensures Progress(done + [e], out', index', size')
  {
    ProgressStep(done, e, out, index, size);
    index', size' := index, size;
    if first || size >= TARGET_BLOCK_SIZE {
      index', size' := index + [IndexEntry(e.key, |out|)], 0;
    }
    out' := out + EntryBytes(e);
    size' := size' + |EntryBytes(e)|;
  }

  /** Filter, index and data for one entry; false if it is too long for its length fields. */
  method WriteOne(bloom: BloomFilter, ghost done: seq<Entry>, e: Entry, first: bool,
                  out: seq<Byte>, index: seq<IndexEntry>, size: nat)
    returns (ok: bool, out': seq<Byte>, index': seq<IndexEntry>, size': nat)
    requires bloom.Valid() && FilterOf(bloom.bits[..], bloom.blocks, bloom.hashes, KeysOf(done))
    requires Progress(done, out, index, size) && first == (done == [])
    modifies bloom.bits
    ensures ok <==> EntryFits(e)
    ensures FilterOf(bloom.bits[..], bloom.blocks, bloom.hashes, KeysOf(done + [e]))
    ensures ok ==> Progress(done + [e], out', index', size')
  {
    AddKey(bloom, done, e);
    out', index', size' := PutEntry(done, e, first, out, index, size);
    ok := EntryFits(e);
  }

  /** Writes entries, index positions and filter bits in one pass. */
  method WriteEntries(es: seq<Entry>, bloom: BloomFilter)
    returns (ok: bool, out: seq<Byte>, index: seq<IndexEntry>, size: nat)
    requires bloom.Valid() && FilterOf(bloom.bits[..], bloom.blocks, bloom.hashes, [])
    modifies bloom.bits
    ensures ok <==> AllFit(es)
    ensures ok ==> FilterOf(bloom.bits[..], bloom.blocks, bloom.hashes, KeysOf(es))
    ensures ok ==> Progress(es, out, index, size)
  {
    out, index, size := [], [], 0;
    ghost var done: seq<Entry> := [];
    assert KeysOf(done) == [];
    for i := 0 to |es|
      invariant done == es[..i] && AllFit(done)
      invariant Progress(done, out, index, size)
      invariant FilterOf(bloom.bits[..], bloom.blocks, bloom.hashes, KeysOf(done))
    {
      ok, out, index, size := WriteOne(bloom, done, es[i], i == 0, out, index, size);
      if !ok { return; }
      done := done + [es[i]];
    }
    assert done == es;
    ok := true;
  }

  /** SSTable::write, up to the bytes it hands to the file system; `sizing` is the filter's size. */
  method Write(es: seq<Entry>, sizing: nat) returns (r: WriteResult, ghost bits: seq<bool>, ghost blocks: nat)
    ensures r.NotSorted? <==> !Sorted(es)
    ensures r.TooLong? <==> Sorted(es) && !AllFit(es)
    ensures r.IndexTooLarge? <==> Sorted(es) && AllFit(es) && |Cut(es)| > MAX_INDEX
    ensures blocks > 0 && |bits| == 512 * blocks
    ensures r.Failed? ==> |Layout(es, bits, blocks)| > MAX_FILE
    ensures r.Written? ==> r.file == Layout(es, bits, blocks) && |r.file| <= MAX_FILE
    ensures r.Written? ==> FilterOf(bits, blocks, NUM_HASHES, KeysOf(es))
  {
    var bloom := new BloomFilter(sizing);
    bits, blocks := bloom.bits[..], bloom.blocks;
    var sorted := CheckSorted(es);
    if !sorted { r := NotSorted; return; }
    var ok, out, index, _ := WriteEntries(es, bloom);
    bits := bloom.bits[..];
    if !ok { r := TooLong; return; }
    CutFlatten(es);
    if |index| > MAX_INDEX { r := IndexTooLarge; return; }
    var file := Assemble(out, IndexSection(index), BloomSection(bloom.bits[..], bloom.blocks));
    r := if |file| > MAX_FILE then Failed else Written(file);
  }
}
