/**
  Why compaction may crash anywhere.  `ins` are the input tables in load order, `outs` the
  merged output files.  While outputs appear, and afterwards while inputs disappear oldest
  first, the directory keeps meaning the same live map.
*/
module CompactionView {
  import opened Store
  import opened LoadOrder

  /** The entries of `c` that carry a value. */
  function Survivors(c: Contents): Contents {
    map k | k in c && c[k].Some? :: c[k]
  }

  /** `outs` hold exactly the merge winners of `input`, tombstones dropped, each key in agreement. */
  ghost predicate IsMergeOf(outs: seq<Contents>, input: Contents) {
    && Overlay(outs) == Survivors(input)
    && (forall i, k | 0 <= i < |outs| && k in outs[i] :: k in Survivors(input) && outs[i][k] == input[k])
  }

  lemma {:induction false} PartAgrees(outs: seq<Contents>, input: Contents)
    requires forall i, k | 0 <= i < |outs| && k in outs[i] :: k in Survivors(input) && outs[i][k] == input[k]
    ensures forall k | k in Overlay(outs) :: k in input && Overlay(outs)[k] == input[k]
  {
    if outs != [] {
      var init, last := outs[..|outs| - 1], outs[|outs| - 1];
      forall i, k | 0 <= i < |init| && k in init[i] ensures k in Survivors(input) && init[i][k] == input[k] {
        assert init[i] == outs[i];
      }
      PartAgrees(init, input);
      forall k | k in Overlay(outs) ensures k in input && Overlay(outs)[k] == input[k] {
        if k in last {
          assert k in outs[|outs| - 1];
          assert k in Survivors(input);
          assert k in input;
        } else {
          assert k in Overlay(init);
          assert k in input;
        }
      }
    }
  }

  /** Any part of the outputs may be present between the older inputs and level 0. */
  lemma PublishKeepsView(older: Contents, part: Contents, level0: Contents)
    requires forall k | k in part :: k in older + level0 && part[k] == (older + level0)[k]
    ensures Live(older + part + level0) == Live(older + level0)
  {
    forall k ensures Lookup(older + part + level0, k) == Lookup(older + level0, k) {
    }
    SameLive(older + part + level0, older + level0);
  }

  /** All outputs present: the oldest inputs (`gone`) may be missing from below them. */
  lemma RemoveOlderKeepsView(gone: Contents, kept: Contents, level0: Contents)
    ensures Live(kept + Survivors(gone + kept + level0) + level0) == Live(gone + kept + level0)
  {
    var input := gone + kept + level0;
    forall k ensures Lookup(kept + Survivors(input) + level0, k) == Lookup(input, k) {
    }
    SameLive(kept + Survivors(input) + level0, input);
  }

  /** Where the outputs fall in load order when the first `removed` inputs are gone. */
  function Cut(ins: seq<Name>, removed: nat): (cut: nat)
    requires removed <= |ins|
    ensures removed <= cut <= |ins|
  {
    if Split(ins) < removed then removed else Split(ins)
  }

  /** The load order of a directory holding `ins[removed..]` and `outs`. */
  function Arranged(ins: seq<Name>, removed: nat, outs: seq<Name>): seq<Name>
    requires removed <= |ins|
  {
    ins[removed..Cut(ins, removed)] + outs + ins[Cut(ins, removed)..]
  }

  /** Outputs are numbered past every level-1 input. */
  ghost predicate Numbered(ins: seq<Name>, outs: seq<Name>) {
    && Ordered(outs)
    && (forall o | o in outs :: o.level == 1)
    && (forall n, o | n in ins && o in outs && n.level == 1 :: n.counter < o.counter)
  }

  lemma {:induction false} SplitLevels(ins: seq<Name>, i: nat)
    requires Ordered(ins) && i < |ins|
    ensures i < Split(ins) <==> ins[i].level > 0
  {
    var m := Split(ins);
    if i + 1 < m {
      assert Before(ins[i], ins[m - 1]);
    }
  }

  lemma ArrangedIsOrdered(ins: seq<Name>, removed: nat, outs: seq<Name>)
    requires Ordered(ins) && removed <= |ins| && Numbered(ins, outs)
    ensures Ordered(Arranged(ins, removed, outs))
  {
    var cut := Cut(ins, removed);
    var a, b := ins[removed..cut], ins[cut..];
    forall i, o | 0 <= i < |a| && o in outs ensures Before(a[i], o) {
      SplitLevels(ins, removed + i);
      assert a[i] in ins;
    }
    forall j, o | 0 <= j < |b| && o in outs ensures Before(o, b[j]) {
      SplitLevels(ins, cut + j);
    }
    OrderedConcat(a, outs);
    forall i, j | 0 <= i < |a + outs| && 0 <= j < |b| ensures Before((a + outs)[i], b[j]) {
      if i >= |a| { assert (a + outs)[i] in outs; }
    }
    OrderedConcat(a + outs, b);
  }

  lemma OrderedConcat(a: seq<Name>, b: seq<Name>)
    requires Ordered(a) && Ordered(b)
    requires forall i, j | 0 <= i < |a| && 0 <= j < |b| :: Before(a[i], b[j])
    ensures Ordered(a + b)
  {
  }

  lemma ArrangedMembers(ins: seq<Name>, removed: nat, outs: seq<Name>, n: Name)
    requires removed <= |ins|
    ensures n in Arranged(ins, removed, outs) <==> n in ins[removed..] || n in outs
  {
    var cut := Cut(ins, removed);
    assert ins[removed..] == ins[removed..cut] + ins[cut..];
  }

  lemma TablesConcat(files: map<Name, Contents>, a: seq<Name>, b: seq<Name>)
    requires (forall n | n in a :: n in files) && (forall n | n in b :: n in files)
    ensures forall n | n in a + b :: n in files
    ensures Tables(files, a + b) == Tables(files, a) + Tables(files, b)
    ensures Overlay(Tables(files, a + b)) == Overlay(Tables(files, a)) + Overlay(Tables(files, b))
  {
    OverlayConcat(Tables(files, a), Tables(files, b));
  }

  /** The live map of the tables `vec` names. */
  ghost function LiveOf(files: map<Name, Contents>, vec: seq<Name>): map<Key, Value>
    requires forall n | n in vec :: n in files
  {
    Live(Overlay(Tables(files, vec)))
  }

  /** What a compaction's files satisfy: `all` holds inputs and outputs alike. */
  ghost predicate Compacts(all: map<Name, Contents>, ins: seq<Name>, outs: seq<Name>) {
    && Ordered(ins) && Numbered(ins, outs)
    && (forall n | n in ins :: n in all) && (forall n | n in outs :: n in all)
    && IsMergeOf(Tables(all, outs), Overlay(Tables(all, ins)))
  }

  lemma StretchAgrees(all: map<Name, Contents>, ins: seq<Name>, outs: seq<Name>, lo: nat, hi: nat)
    requires Compacts(all, ins, outs) && lo <= hi <= |outs|
    ensures forall n | n in outs[lo..hi] :: n in all
    ensures var part, input := Overlay(Tables(all, outs[lo..hi])), Overlay(Tables(all, ins));
            forall k | k in part :: k in input && part[k] == input[k]
  {
    var part, whole := Tables(all, outs[lo..hi]), Tables(all, outs);
    forall i | 0 <= i < |part| ensures part[i] == whole[lo + i] {
    }
    PartAgrees(part, Overlay(Tables(all, ins)));
  }

  /** Publishing: with all inputs present, any stretch of the outputs leaves the view alone. */
  lemma PublishedView(all: map<Name, Contents>, ins: seq<Name>, outs: seq<Name>, lo: nat, hi: nat)
    requires Compacts(all, ins, outs) && lo <= hi <= |outs|
    ensures forall n | n in Arranged(ins, 0, outs[lo..hi]) :: n in all
    ensures LiveOf(all, Arranged(ins, 0, outs[lo..hi])) == LiveOf(all, ins)
  {
    var part, cut := outs[lo..hi], Cut(ins, 0);
    var older, level0 := ins[..cut], ins[cut..];
    assert ins == older + level0 && ins[0..cut] == older;
    TablesConcat(all, older, level0);
    TablesConcat(all, older, part);
    TablesConcat(all, older + part, level0);
    StretchAgrees(all, ins, outs, lo, hi);
    PublishKeepsView(Overlay(Tables(all, older)), Overlay(Tables(all, part)), Overlay(Tables(all, level0)));
  }

  /** Removing: with all outputs present, the oldest `removed` inputs may be gone. */
  lemma RemovedView(all: map<Name, Contents>, ins: seq<Name>, outs: seq<Name>, removed: nat)
    requires Compacts(all, ins, outs) && removed <= |ins|
    ensures forall n | n in Arranged(ins, removed, outs) :: n in all
    ensures LiveOf(all, Arranged(ins, removed, outs)) == LiveOf(all, ins)
  {
    var cut := Cut(ins, removed);
    var gone, kept, level0 := ins[..removed], ins[removed..cut], ins[cut..];
    assert ins == gone + kept + level0;
    TablesConcat(all, gone, kept);
    TablesConcat(all, gone + kept, level0);
    TablesConcat(all, kept, outs);
    TablesConcat(all, kept + outs, level0);
    RemoveOlderKeepsView(Overlay(Tables(all, gone)), Overlay(Tables(all, kept)), Overlay(Tables(all, level0)));
  }
}
