/**
  The sparse index.  Entries are grouped into blocks of about 4096 bytes; the index holds each
  block's first key and position, and a binary search over it picks the one block to read.
*/
module TableIndex {
  import opened Store
  import opened KeyOrder
  import opened TableCodec

  const TARGET_BLOCK_SIZE: nat := 4096

  /** Entry `e` after the blocks `bs`: in the last one, or in a new one once that has reached its size. */
  function AddEntry(bs: seq<seq<Entry>>, e: Entry): (r: seq<seq<Entry>>) {
    if bs == [] || Full(bs[|bs| - 1]) then bs + [[e]]
    else bs[..|bs| - 1] + [bs[|bs| - 1] + [e]]
  }

  /** The blocks of a table. */
  function Cut(es: seq<Entry>): (bs: seq<seq<Entry>>) {
    if es == [] then [] else AddEntry(Cut(es[..|es| - 1]), es[|es| - 1])
  }

  datatype IndexEntry = IndexEntry(key: Key, offset: nat)

  predicate NonEmpty(bs: seq<seq<Entry>>) { forall i | 0 <= i < |bs| :: bs[i] != [] }

  /** First key and file position of every block. */
  function IndexOf(bs: seq<seq<Entry>>): (ix: seq<IndexEntry>)
    requires NonEmpty(bs)
    ensures |ix| == |bs|
  {
    if bs == [] then []
    else IndexOf(bs[..|bs| - 1]) + [IndexEntry(bs[|bs| - 1][0].key, |Data(Flatten(bs[..|bs| - 1]))|)]
  }

  lemma {:induction false} FlattenAdd(bs: seq<seq<Entry>>, e: Entry)
    requires NonEmpty(bs)
    ensures Flatten(AddEntry(bs, e)) == Flatten(bs) + [e] && NonEmpty(AddEntry(bs, e))
  {
    var r := AddEntry(bs, e);
    if |r| > |bs| {
      assert r[..|r| - 1] == bs;
    } else {
      assert r[..|r| - 1] == bs[..|bs| - 1];
    }
  }

  lemma {:induction false} CutAdd(es: seq<Entry>)
    requires es != []
    ensures Cut(es) == AddEntry(Cut(es[..|es| - 1]), es[|es| - 1])
  {
  }

  /** The blocks are the entries, in order, and none is empty. */
  lemma {:induction false} CutFlatten(es: seq<Entry>)
    ensures NonEmpty(Cut(es)) && Flatten(Cut(es)) == es
  {
    if es != [] {
      var init, e := es[..|es| - 1], es[|es| - 1];
      CutFlatten(init);
      CutAdd(es);
      FlattenAdd(Cut(init), e);
      assert es == init + [e];
    }
  }

  predicate Full(b: seq<Entry>) { |Data(b)| >= TARGET_BLOCK_SIZE }

  /** A block is closed by the entry that takes it to the target size. */
  predicate Sized(b: seq<Entry>) { b != [] && !Full(b[..|b| - 1]) }

  /** Every block but the last has reached the target size, and none had before its last entry. */
  predicate WellCut(bs: seq<seq<Entry>>) {
    && (forall i | 0 <= i < |bs| :: Sized(bs[i]))
    && (forall i | 0 <= i < |bs| - 1 :: Full(bs[i]))
  }

  lemma AddWellCut(bs: seq<seq<Entry>>, e: Entry)
    requires WellCut(bs)
    ensures WellCut(AddEntry(bs, e))
  {
    if bs == [] || Full(bs[|bs| - 1]) {
      assert [e][..0] == [];
    } else {
      assert (bs[|bs| - 1] + [e])[..|bs[|bs| - 1]|] == bs[|bs| - 1];
    }
  }

  lemma {:induction false} CutSizes(es: seq<Entry>)
    ensures WellCut(Cut(es))
  {
    if es != [] {
      CutSizes(es[..|es| - 1]);
      AddWellCut(Cut(es[..|es| - 1]), es[|es| - 1]);
    }
  }

  /** The index grows by one entry exactly when a block is opened. */
  lemma {:induction false} IndexAdd(bs: seq<seq<Entry>>, e: Entry)
    requires NonEmpty(bs)
    ensures NonEmpty(AddEntry(bs, e))
    ensures IndexOf(AddEntry(bs, e)) ==
      if bs == [] || Full(bs[|bs| - 1])
      then IndexOf(bs) + [IndexEntry(e.key, |Data(Flatten(bs))|)] else IndexOf(bs)
  {
    var r := AddEntry(bs, e);
    FlattenAdd(bs, e);
    if |r| > |bs| {
      assert r[..|r| - 1] == bs;
    } else {
      assert r[..|r| - 1] == bs[..|bs| - 1];
      assert r[|r| - 1][0] == bs[|bs| - 1][0];
    }
  }

  // ----- a block by its index entry -----

  lemma {:induction false} FlattenConcat(a: seq<seq<Entry>>, b: seq<seq<Entry>>)
    ensures Flatten(a + b) == Flatten(a) + Flatten(b)
  {
    if b == [] {
      assert a + b == a;
    } else {
      assert (a + b)[..|a + b| - 1] == a + b[..|b| - 1];
      FlattenConcat(a, b[..|b| - 1]);
    }
  }

  /** The entries before, in and after block `i`. */
  lemma {:induction false} SplitAt(bs: seq<seq<Entry>>, i: nat)
    requires i < |bs|
    ensures Flatten(bs) == Flatten(bs[..i]) + bs[i] + Flatten(bs[i + 1..])
    ensures Flatten(bs[..i + 1]) == Flatten(bs[..i]) + bs[i]
  {
    assert bs[..i + 1][..i] == bs[..i];
    assert bs == bs[..i + 1] + bs[i + 1..];
    FlattenConcat(bs[..i + 1], bs[i + 1..]);
  }

  lemma {:induction false} IndexAt(bs: seq<seq<Entry>>, i: nat)
    requires NonEmpty(bs) && i < |bs|
    ensures IndexOf(bs)[i] == IndexEntry(bs[i][0].key, |Data(Flatten(bs[..i]))|)
  {
    var init := bs[..|bs| - 1];
    if i < |bs| - 1 {
      IndexAt(init, i);
      assert init[..i] == bs[..i];
    }
  }

  /** Where block `i` ends: where the next one starts, or where the index does. */
  function BlockEnd(ix: seq<IndexEntry>, i: nat, indexOffset: nat): nat
    requires i < |ix|
  {
    if i + 1 < |ix| then ix[i + 1].offset else indexOffset
  }

  /** Between its index entry and the next lie exactly the bytes of block `i`. */
  lemma {:induction false} BlockSlice(bs: seq<seq<Entry>>, i: nat)
    requires NonEmpty(bs) && i < |bs|
    ensures var data := Data(Flatten(bs)); var ix := IndexOf(bs);
      && ix[i].offset <= BlockEnd(ix, i, |data|) <= |data|
      && data[ix[i].offset..BlockEnd(ix, i, |data|)] == Data(bs[i])
      && data[ix[i].offset..] == Data(bs[i] + Flatten(bs[i + 1..]))
  {
    var a, b, c := Flatten(bs[..i]), bs[i], Flatten(bs[i + 1..]);
    SplitAt(bs, i);
    IndexAt(bs, i);
    DataConcat(a + b, c);
    DataConcat(a, b);
    DataConcat(b, c);
    if i + 1 < |bs| {
      IndexAt(bs, i + 1);
    } else {
      assert bs[..i + 1] == bs;
    }
  }

  /** Block `i` may hold `key`: it starts at or before it, and the next block starts after it. */
  predicate Chosen(ix: seq<IndexEntry>, i: nat, key: Key)
    requires i < |ix|
  {
    (i > 0 ==> !Less(key, ix[i].key)) && (i + 1 < |ix| ==> Less(key, ix[i + 1].key))
  }

  ghost predicate IndexSorted(ix: seq<IndexEntry>) {
    forall i, j | 0 <= i < j < |ix| :: Less(ix[i].key, ix[j].key)
  }

  /** The binary search get() and findBlock() run. */
  method FindBlock(ix: seq<IndexEntry>, key: Key) returns (lo: nat)
    requires ix != [] && IndexSorted(ix)
    ensures lo < |ix| && Chosen(ix, lo, key)
  {
    lo := 0;
    var hi := |ix| - 1;
    while lo < hi
      invariant lo <= hi < |ix|
      invariant lo > 0 ==> !Less(key, ix[lo].key)
      invariant hi + 1 < |ix| ==> Less(key, ix[hi + 1].key)
    {
      var mid := lo + (hi - lo + 1) / 2;
      if !Less(key, ix[mid].key) {
        lo := mid;
      } else {
        hi := mid - 1;
      }
    }
  }

  lemma {:induction false} BlockIn(bs: seq<seq<Entry>>, i: nat, e: Entry)
    requires i < |bs| && e in bs[i]
    ensures e in Flatten(bs)
  {
    SplitAt(bs, i);
  }

  /** Blocks of a sorted table start at increasing keys. */
  lemma {:induction false} IndexIsSorted(bs: seq<seq<Entry>>)
    requires NonEmpty(bs) && Sorted(Flatten(bs))
    ensures IndexSorted(IndexOf(bs))
  {
    var ix := IndexOf(bs);
    forall i, j | 0 <= i < j < |ix| ensures Less(ix[i].key, ix[j].key) {
      IndexAt(bs, i);
      IndexAt(bs, j);
      SplitAt(bs, j);
      BlockIn(bs[..j], i, bs[i][0]);
      FirstAfter(Flatten(bs[..j]), bs[j], Flatten(bs[j + 1..]), bs[i][0]);
    }
  }

  lemma FirstAfter(a: seq<Entry>, b: seq<Entry>, c: seq<Entry>, e: Entry)
    requires Sorted(a + b + c) && e in a && b != []
    ensures Less(e.key, b[0].key)
  {
    var i :| 0 <= i < |a| && a[i] == e;
    var t := a + b + c;
    assert t[i] == e && t[|a|] == b[0];
  }

  /** The block the search chose decides the key: what is not there is nowhere. */
  lemma {:induction false} ChosenDecides(bs: seq<seq<Entry>>, i: nat, key: Key)
    requires NonEmpty(bs) && Sorted(Flatten(bs)) && i < |bs| && Chosen(IndexOf(bs), i, key)
    ensures Sorted(bs[i])
    ensures key in Meaning(Flatten(bs)) <==> key in Meaning(bs[i])
    ensures key in Meaning(bs[i]) ==> Meaning(Flatten(bs))[key] == Meaning(bs[i])[key]
  {
    var a, b, c := Flatten(bs[..i]), bs[i], Flatten(bs[i + 1..]);
    SplitAt(bs, i);
    SortedParts(a, b, c);
    NotBefore(bs, i, key);
    NotAfter(bs, i, key);
    MeaningConcat(a + b, c);
    MeaningConcat(a, b);
  }

  lemma SortedParts(a: seq<Entry>, b: seq<Entry>, c: seq<Entry>)
    requires Sorted(a + b + c)
    ensures Sorted(b)
  {
    var t := a + b + c;
    forall i, j | 0 <= i < j < |b| ensures Less(b[i].key, b[j].key) {
      assert t[|a| + i] == b[i] && t[|a| + j] == b[j];
    }
  }

  lemma {:induction false} NotBefore(bs: seq<seq<Entry>>, i: nat, key: Key)
    requires NonEmpty(bs) && Sorted(Flatten(bs)) && i < |bs| && (i > 0 ==> !Less(key, IndexOf(bs)[i].key))
    ensures key !in Meaning(Flatten(bs[..i]))
  {
    var a := Flatten(bs[..i]);
    SplitAt(bs, i);
    IndexAt(bs, i);
    MeaningKeys(a, key);
    if i == 0 {
      assert a == [];
    } else {
      forall j | 0 <= j < |a| ensures a[j].key != key {
        FirstAfter(a, bs[i], Flatten(bs[i + 1..]), a[j]);
      }
    }
  }

  lemma NotAfter(bs: seq<seq<Entry>>, i: nat, key: Key)
    requires NonEmpty(bs) && Sorted(Flatten(bs)) && i < |bs| && (i + 1 < |bs| ==> Less(key, IndexOf(bs)[i + 1].key))
    ensures key !in Meaning(Flatten(bs[i + 1..]))
  {
    var c := Flatten(bs[i + 1..]);
    MeaningKeys(c, key);
    if i + 1 == |bs| {
      assert c == [];
    } else {
      IndexAt(bs, i + 1);
      var first := bs[i + 1][0];
      StartsWith(bs, i + 1);
      forall j | 0 <= j < |c| ensures c[j].key != key {
        if j > 0 { LessTransitive(key, c[0].key, c[j].key); }
        LessAsymmetric(key, c[j].key);
      }
    }
  }

  lemma FlattenOne(b: seq<Entry>)
    ensures Flatten([b]) == b
  {
    assert [b][..0] == [] && Flatten([b]) == [] + b;
  }

  lemma {:induction false} FlattenCons(b: seq<Entry>, bs: seq<seq<Entry>>)
    ensures Flatten([b] + bs) == b + Flatten(bs)
  {
    FlattenConcat([b], bs);
    FlattenOne(b);
  }

  lemma {:induction false} Suffix(bs: seq<seq<Entry>>, i: nat)
    requires i <= |bs|
    ensures Flatten(bs) == Flatten(bs[..i]) + Flatten(bs[i..])
  {
    assert bs == bs[..i] + bs[i..];
    FlattenConcat(bs[..i], bs[i..]);
  }

  lemma SuffixHead(bs: seq<seq<Entry>>, i: nat)
    requires i < |bs|
    ensures Flatten(bs[i..]) == bs[i] + Flatten(bs[i + 1..])
  {
    assert bs[i..] == [bs[i]] + bs[i + 1..];
    FlattenCons(bs[i], bs[i + 1..]);
  }

  /** What follows the first `i` blocks is sorted and starts with the first entry of block `i`. */
  lemma {:induction false} StartsWith(bs: seq<seq<Entry>>, i: nat)
    requires NonEmpty(bs) && Sorted(Flatten(bs)) && i < |bs|
    ensures var c := Flatten(bs[i..]); c != [] && c[0] == bs[i][0] && Sorted(c)
  {
    var a, c := Flatten(bs[..i]), Flatten(bs[i..]);
    Suffix(bs, i);
    SuffixHead(bs, i);
    assert a + c == a + c + [];
    SortedParts(a, c, []);
  }
}
