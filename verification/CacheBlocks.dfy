/**
  What a cached line is in bytes: the block parsed from the file written for its table.  Run beside
  the engine with this reader, the cache always meets the condition table lookups rely on.
*/
module CacheBlocks {
  import opened Store
  import opened KeyOrder
  import opened LoadOrder
  import opened TableCodec
  import opened TableIndex
  import opened TableReader
  import opened BlockCache
  import opened EngineInvariant
  import opened CacheCoherence

  // ----- the entries of a table, from what it means -----

  lemma {:induction false} LeastKey(keys: set<Key>) returns (least: Key)
    requires keys != {}
    ensures least in keys && forall k | k in keys && k != least :: Less(least, k)
  {
    var x :| x in keys;
    var rest := keys - {x};
    assert forall k | k in keys && k != x :: k in rest;
    least := x;
    if rest != {} {
      var y := LeastKey(rest);
      LessTotal(x, y);
      if Less(y, x) {
        least := y;
      } else {
        forall k | k in keys && k != x ensures Less(x, k) {
          if k != y { LessTransitive(x, y, k); }
        }
      }
    }
  }

  lemma {:induction false} SortedCons(e: Entry, t: seq<Entry>)
    requires Sorted(t) && forall k | k in Meaning(t) :: Less(e.key, k)
    ensures Sorted([e] + t) && Meaning([e] + t) == Meaning(t)[e.key := e.value]
  {
    forall i | 0 <= i < |t| ensures Less(e.key, t[i].key) { MeaningAt(t, i); }
    var all := [e] + t;
    MeaningHead(all);
    assert all[1..] == t;
  }

  /** Every table's contents have a sorted entry list. */
  lemma {:induction false} HasListing(c: Contents) returns (es: seq<Entry>)
    ensures Sorted(es) && Meaning(es) == c
  {
    if c == map[] {
      es := [];
    } else {
      var k := LeastKey(c.Keys);
      var rest := HasListing(c - {k});
      SortedCons(Entry(k, c[k]), rest);
      es := [Entry(k, c[k])] + rest;
    }
  }

  /** And only one. */
  lemma {:induction false} ListingIsUnique(a: seq<Entry>, b: seq<Entry>)
    requires Sorted(a) && Sorted(b) && Meaning(a) == Meaning(b)
    ensures a == b
  {
    if a == [] || b == [] {
      if a != [] { MeaningAt(a, 0); }
      if b != [] { MeaningAt(b, 0); }
    } else {
      SameFirst(a, b);
      MeaningHead(a);
      MeaningHead(b);
      ListingIsUnique(a[1..], b[1..]);
      assert a == [a[0]] + a[1..] && b == [b[0]] + b[1..];
    }
  }

  lemma {:induction false} SameFirst(a: seq<Entry>, b: seq<Entry>)
    requires Sorted(a) && Sorted(b) && Meaning(a) == Meaning(b) && a != [] && b != []
    ensures a[0] == b[0]
  {
    MeaningAt(a, 0);
    MeaningAt(b, 0);
    NotBeforeFirst(a, b[0].key);
    NotBeforeFirst(b, a[0].key);
    LessTotal(a[0].key, b[0].key);
  }

  lemma {:induction false} NotBeforeFirst(t: seq<Entry>, k: Key)
    requires Sorted(t) && t != [] && k in Meaning(t)
    ensures !Less(k, t[0].key)
  {
    MeaningKeys(t, k);
    var i :| 0 <= i < |t| && t[i].key == k;
    if i == 0 { LessIrreflexive(k); } else { LessAsymmetric(t[0].key, k); }
  }

  lemma {:induction false} ListingExists(c: Contents)
    ensures exists es :: Sorted(es) && Meaning(es) == c
  {
    var es := HasListing(c);
  }

  /** The entries a table with these contents was written from. */
  ghost function Listing(c: Contents): (es: seq<Entry>)
    ensures Sorted(es) && Meaning(es) == c
  {
    ListingExists(c);
    var es :| Sorted(es) && Meaning(es) == c;
    es
  }

  // ----- the block at an offset -----

  /** Block `i` of a table starts at `off`. */
  ghost predicate StartsAt(bs: seq<seq<Entry>>, i: nat, off: nat) {
    NonEmpty(bs) && i < |bs| && IndexOf(bs)[i].offset == off
  }

  /** The bytes of the file's data from `off` to where the block starting there ends, parsed. */
  ghost function ReadBlock(c: Contents, off: nat): seq<Entry> {
    var es := Listing(c);
    CutFlatten(es);
    if exists i: nat :: StartsAt(Cut(es), i, off) then
      var i: nat :| StartsAt(Cut(es), i, off);
      BlockSlice(Cut(es), i);
      ParseBlock(Data(es)[off..BlockEnd(IndexOf(Cut(es)), i, |Data(es)|)])
    else []
  }

  /** At a block's own offset that is the block. */
  lemma {:induction false} ReadBlockIsBlock(es: seq<Entry>, i: nat)
    requires Sorted(es) && AllFit(es) && i < |Cut(es)|
    ensures NonEmpty(Cut(es)) && ReadBlock(Meaning(es), IndexOf(Cut(es))[i].offset) == Cut(es)[i]
  {
    ListingIsUnique(Listing(Meaning(es)), es);
    CutFlatten(es);
    var bs := Cut(es);
    var off := IndexOf(bs)[i].offset;
    assert StartsAt(bs, i, off);
    forall j: nat | StartsAt(bs, j, off) ensures j == i { SameStart(bs, i, j); }
    BlockSlice(bs, i);
    BlockFits(bs, i);
    DataRoundTrip(bs[i]);
  }

  lemma {:induction false} SameStart(bs: seq<seq<Entry>>, i: nat, j: nat)
    requires NonEmpty(bs) && i < |bs| && j < |bs| && IndexOf(bs)[i].offset == IndexOf(bs)[j].offset
    ensures i == j
  {
    if i < j { OffsetsIncrease(bs, i, j); }
    if j < i { OffsetsIncrease(bs, j, i); }
  }

  // ----- the cache beside the engine -----

  /** A coherent cache holds, for every open table, the blocks lookups in it expect. */
  lemma {:induction false} CoherentIsCacheOk(vec: seq<Name>, files: map<Name, Contents>, v: seq<Line>, name: Name, es: seq<Entry>)
    requires Coherent(ReadBlock, vec, files, v) && name in files && files[name] == Meaning(es)
    requires Sorted(es) && AllFit(es)
    ensures NonEmpty(Cut(es)) && CacheOk(v, name, Cut(es))
  {
    CutFlatten(es);
    var bs := Cut(es);
    forall line, i: nat | line in v && i < |bs| && line.key == CacheKey(name, IndexOf(bs)[i].offset)
      ensures line.value == bs[i]
    {
      assert Fresh(ReadBlock, vec, files, line);
      ReadBlockIsBlock(es, i);
    }
  }

  /**
    Over every run of the engine with the cache beside it, and for every open table: whatever the
    cache holds of it are the blocks parsed from its file, as TableReader.Get requires.
  */
  lemma {:induction false} CacheOkAlways(l: Limits, states: seq<CState>, run: seq<CAction>, k: nat, name: Name, es: seq<Entry>)
    requires CBehavior(ReadBlock, l, states, run) && k <= |run|
    requires name in Files(states[k].engine) && Files(states[k].engine)[name] == Meaning(es)
    requires Sorted(es) && AllFit(es)
    ensures NonEmpty(Cut(es)) && CacheOk(states[k].lines, name, Cut(es))
  {
    CoherentAlways(ReadBlock, l, states, run, k);
    CoherentIsCacheOk(states[k].engine.vec, Files(states[k].engine), states[k].lines, name, es);
  }

  /** A lookup of block `i` is given that block of the table's current file, hit or miss. */
  lemma {:induction false} LookUpIsBlock(l: Limits, states: seq<CState>, run: seq<CAction>, k: nat, es: seq<Entry>, i: nat)
    requires CBehavior(ReadBlock, l, states, run) && k < |run| && run[k].LookUp?
    requires run[k].name in states[k].engine.disk && states[k].engine.disk[run[k].name] == Meaning(es)
    requires Sorted(es) && AllFit(es) && i < |Cut(es)| && NonEmpty(Cut(es)) && run[k].offset == IndexOf(Cut(es))[i].offset
    ensures Answer(ReadBlock, states[k].engine.disk, states[k].lines, CacheKey(run[k].name, run[k].offset)) == Cut(es)[i]
  {
    LookUpIsCurrent(ReadBlock, l, states, run, k);
    ReadBlockIsBlock(es, i);
  }
}
