/** Lexicographic order on keys (bytes compare unsigned) and tables sorted by it. */
module KeyOrder {
  import opened Wrappers
  import opened Store

  predicate Less(a: Key, b: Key) {
    b != [] && (a == [] || a[0] < b[0] || (a[0] == b[0] && Less(a[1..], b[1..])))
  }

  lemma {:induction false} LessIrreflexive(a: Key)
    ensures !Less(a, a)
  {
    if a != [] { LessIrreflexive(a[1..]); }
  }

  lemma {:induction false} LessTransitive(a: Key, b: Key, c: Key)
    requires Less(a, b) && Less(b, c)
    ensures Less(a, c)
  {
    if a != [] && a[0] == b[0] == c[0] { LessTransitive(a[1..], b[1..], c[1..]); }
  }

  lemma {:induction false} LessTotal(a: Key, b: Key)
    ensures a == b || Less(a, b) || Less(b, a)
  {
    if a != [] && b != [] && a[0] == b[0] {
      LessTotal(a[1..], b[1..]);
      if a[1..] == b[1..] {
        assert a == [a[0]] + a[1..] && b == [b[0]] + b[1..];
      }
    }
  }

  lemma {:induction false} LessAsymmetric(a: Key, b: Key)
    requires Less(a, b)
    ensures !Less(b, a) && a != b
  {
    if Less(b, a) { LessTransitive(a, b, a); }
    LessIrreflexive(a);
  }

  /** `a` and `b` first differ at `i`, where `a` has the smaller byte. */
  predicate SmallerAt(a: Key, b: Key, i: nat) {
    i < |a| && i < |b| && a[..i] == b[..i] && a[i] < b[i]
  }

  /** Lexicographic order: a proper prefix, or a smaller byte where the keys first differ. */
  lemma {:induction false} LessIsLexicographic(a: Key, b: Key)
    ensures Less(a, b) <==> a < b || exists i: nat :: SmallerAt(a, b, i)
  {
    if a == [] || b == [] {
    } else if a[0] != b[0] {
      forall i: nat | i > 0 ensures !SmallerAt(a, b, i) {
        assert i < |a| && i < |b| ==> a[..i][0] == a[0] && b[..i][0] == b[0];
      }
      if a[0] < b[0] { assert SmallerAt(a, b, 0); }
    } else {
      LessIsLexicographic(a[1..], b[1..]);
      SamePrefix(a, b);
      if exists i: nat :: SmallerAt(a, b, i) {
        var i: nat :| SmallerAt(a, b, i);
        SmallerLater(a, b, i - 1);
      }
      if exists i: nat :: SmallerAt(a[1..], b[1..], i) {
        var i: nat :| SmallerAt(a[1..], b[1..], i);
        SmallerLater(a, b, i);
      }
    }
  }

  lemma {:induction false} SamePrefix(a: Key, b: Key)
    requires a != [] && b != [] && a[0] == b[0]
    ensures a < b <==> a[1..] < b[1..]
  {
    assert a == [a[0]] + a[1..] && b == [b[0]] + b[1..];
    if a < b { assert b[1..][..|a| - 1] == b[..|a|][1..]; }
    if a[1..] < b[1..] { assert b[..|a|] == [b[0]] + b[1..][..|a| - 1]; }
  }

  lemma {:induction false} SmallerLater(a: Key, b: Key, i: nat)
    requires a != [] && b != [] && a[0] == b[0]
    ensures SmallerAt(a, b, i + 1) <==> SmallerAt(a[1..], b[1..], i)
  {
    if i + 1 < |a| && i + 1 < |b| {
      assert a[..i + 1] == [a[0]] + a[1..][..i] && b[..i + 1] == [b[0]] + b[1..][..i];
      if a[..i + 1] == b[..i + 1] { assert a[1..][..i] == a[..i + 1][1..] && b[1..][..i] == b[..i + 1][1..]; }
    }
  }

  /** One line of a table: a key with its value or a tombstone. */
  datatype Entry = Entry(key: Key, value: Option<Value>)

  /** Strictly increasing keys. */
  ghost predicate Sorted(t: seq<Entry>) {
    forall i, j | 0 <= i < j < |t| :: Less(t[i].key, t[j].key)
  }

  /** Runs of entries, such as the files of a merge or the blocks of a table, one after the other. */
  function Flatten(runs: seq<seq<Entry>>): seq<Entry> {
    if runs == [] then [] else Flatten(runs[..|runs| - 1]) + runs[|runs| - 1]
  }

  /** The contents a table stands for. */
  function Meaning(t: seq<Entry>): Contents {
    if t == [] then map[] else Meaning(t[..|t| - 1])[t[|t| - 1].key := t[|t| - 1].value]
  }

  lemma {:induction false} MeaningConcat(a: seq<Entry>, b: seq<Entry>)
    ensures Meaning(a + b) == Meaning(a) + Meaning(b)
  {
    if b == [] {
      assert a + b == a;
    } else {
      assert (a + b)[..|a + b| - 1] == a + b[..|b| - 1];
      MeaningConcat(a, b[..|b| - 1]);
    }
  }

  lemma {:induction false} MeaningKeys(t: seq<Entry>, k: Key)
    ensures k in Meaning(t) <==> exists i :: 0 <= i < |t| && t[i].key == k
  {
    if t != [] {
      var init := t[..|t| - 1];
      MeaningKeys(init, k);
      assert forall i | 0 <= i < |init| :: init[i] == t[i];
    }
  }

  lemma {:induction false} MeaningAt(t: seq<Entry>, i: nat)
    requires Sorted(t) && i < |t|
    ensures t[i].key in Meaning(t) && Meaning(t)[t[i].key] == t[i].value
  {
    if i < |t| - 1 {
      MeaningAt(t[..|t| - 1], i);
      LessAsymmetric(t[i].key, t[|t| - 1].key);
    }
  }

  /** The first entry of a sorted table, set apart from the rest. */
  lemma {:induction false} MeaningHead(t: seq<Entry>)
    requires Sorted(t) && t != []
    ensures Sorted(t[1..]) && t[0].key !in Meaning(t[1..])
    ensures Meaning(t) == Meaning(t[1..])[t[0].key := t[0].value]
    ensures Meaning(t[1..]) == Meaning(t) - {t[0].key}
  {
    MeaningKeys(t[1..], t[0].key);
    forall i | 0 <= i < |t[1..]| ensures t[1..][i].key != t[0].key {
      LessAsymmetric(t[0].key, t[i + 1].key);
    }
    assert t == [t[0]] + t[1..];
    MeaningConcat([t[0]], t[1..]);
    assert Meaning([t[0]]) == map[t[0].key := t[0].value];
  }
}
