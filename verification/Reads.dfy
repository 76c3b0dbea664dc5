/**
  Point and range reads.  LSMEngine::scan is a merge of the memtable and every table whose bounds meet the range.
  Sources are listed oldest first, so `rank` (lower is newer) is the reverse of the index.
*/
module Reads {
  import opened Wrappers
  import opened Store
  import opened KeyOrder
  import opened Merge

  predicate InRange(k: Key, start: Key, end: Option<Key>) {
    !Less(k, start) && (end.Some? ==> Less(k, end.value))
  }

  /** What `c` holds for `k`: absent, a tombstone, or a value. */
  function Version(c: Contents, k: Key): Option<Option<Value>> {
    if k in c then Some(c[k]) else None
  }

  /**
    The specification: the first `limit` live pairs of `c` in [start, end), in key order.
    Anything live and in range that is missing lies past the last pair of a full result.
  */
  ghost predicate IsScan(out: seq<(Key, Value)>, c: Contents, start: Key, end: Option<Key>, limit: nat) {
    && |out| <= limit
    && (forall i, j | 0 <= i < j < |out| :: Less(out[i].0, out[j].0))
    && (forall i | 0 <= i < |out| :: InRange(out[i].0, start, end) && Version(c, out[i].0) == Some(Some(out[i].1)))
    && (forall k | k in c && c[k].Some? && InRange(k, start, end) ::
          Has(out, k) || (|out| == limit && forall i | 0 <= i < |out| :: Less(out[i].0, k)))
  }

  ghost predicate Has(out: seq<(Key, Value)>, k: Key) {
    exists i :: 0 <= i < |out| && out[i].0 == k
  }

  // ---- point reads -----------------------------------------------------------------

  lemma {:induction false} FindIsVersion(t: seq<Entry>, i: nat, k: Key)
    requires Sorted(t) && i < |t| && t[i].key == k
    ensures Version(Meaning(t), k) == Some(t[i].value)
  {
    MeaningAt(t, i);
  }

  /** The version of `k` in one sorted table, stopping at the first larger key. */
  method FindIn(t: seq<Entry>, k: Key) returns (v: Option<Option<Value>>)
    requires Sorted(t)
    ensures v == Version(Meaning(t), k)
  {
    MeaningKeys(t, k);
    for i := 0 to |t|
      invariant forall j | 0 <= j < i :: Less(t[j].key, k)
    {
      if t[i].key == k {
        FindIsVersion(t, i, k);
        return Some(t[i].value);
      }
      if Less(k, t[i].key) {
        forall j | 0 <= j < |t| ensures t[j].key != k {
          if j < i { LessAsymmetric(t[j].key, k); }
          if j > i { LessTransitive(k, t[i].key, t[j].key); }
          if j >= i { LessAsymmetric(k, t[j].key); }
        }
        return None;
      }
      LessTotal(t[i].key, k);
    }
    forall j | 0 <= j < |t| ensures t[j].key != k { LessAsymmetric(t[j].key, k); }
    v := None;
  }

  /** LSMEngine::get: the memtable first, then the tables from newest to oldest. */
  method GetNewest(tables: Cursors, mem: seq<Entry>, k: Key) returns (v: Option<Value>)
    requires AllSorted(tables) && Sorted(mem)
    ensures v == Lookup(View(tables + [mem]), k)
  {
    ViewSnoc(tables, mem);
    var found := FindIn(mem, k);
    if found.Some? {
      return found.value;
    }
    var i := |tables|;
    assert tables[..i] == tables;
    while i > 0
      invariant i <= |tables|
      invariant Version(View(tables[..i]), k) == Version(View(tables), k)
    {
      i := i - 1;
      assert tables[..i + 1] == tables[..i] + [tables[i]];
      ViewSnoc(tables[..i], tables[i]);
      found := FindIn(tables[i], k);
      if found.Some? {
        return found.value;
      }
    }
    assert View(tables[..0]) == map[];
    v := None;
  }

  // ---- one source ------------------------------------------------------------------

  /** The entries of a sorted table from the first key not before `start`. */
  function From(t: seq<Entry>, start: Key): seq<Entry> {
    if t != [] && Less(t[0].key, start) then From(t[1..], start) else t
  }

  /** Entries before `start` at the front of a table do not matter to what follows. */
  lemma {:induction false} FromSkips(a: seq<Entry>, b: seq<Entry>, start: Key)
    requires forall i | 0 <= i < |a| :: Less(a[i].key, start)
    ensures From(a + b, start) == From(b, start)
  {
    if a == [] {
      assert a + b == b;
    } else {
      assert (a + b)[1..] == a[1..] + b;
      FromSkips(a[1..], b, start);
    }
  }

  lemma {:induction false} FromKeeps(t: seq<Entry>, start: Key)
    requires Sorted(t)
    ensures Sorted(From(t, start))
    ensures forall k :: k in Meaning(From(t, start)) <==> k in Meaning(t) && !Less(k, start)
    ensures forall k | k in Meaning(From(t, start)) :: Meaning(From(t, start))[k] == Meaning(t)[k]
  {
    if t != [] && Less(t[0].key, start) {
      MeaningHead(t);
      FromKeeps(t[1..], start);
    } else {
      forall k | k in Meaning(t) ensures !Less(k, start) {
        NothingBefore(t, start, k);
      }
    }
  }

  lemma {:induction false} NothingBefore(t: seq<Entry>, start: Key, k: Key)
    requires Sorted(t) && k in Meaning(t) && !(t != [] && Less(t[0].key, start))
    ensures !Less(k, start)
  {
    MeaningKeys(t, k);
    var i :| 0 <= i < |t| && t[i].key == k;
    if i > 0 && Less(k, start) { LessTransitive(t[0].key, k, start); }
  }

  /** The bounds test: a table with nothing at or after `start`, or nothing before `end`. */
  predicate Skipped(t: seq<Entry>, start: Key, end: Option<Key>) {
    || t == []
    || Less(t[|t| - 1].key, start)
    || (end.Some? && !Less(t[0].key, end.value))
  }

  /** Skipping by bounds never loses a key. */
  lemma {:induction false} SkipIsSound(t: seq<Entry>, start: Key, end: Option<Key>, k: Key)
    requires Sorted(t) && Skipped(t, start, end) && InRange(k, start, end)
    ensures k !in Meaning(t)
  {
    MeaningKeys(t, k);
    forall i | 0 <= i < |t| ensures t[i].key != k {
      var last := t[|t| - 1].key;
      if Less(last, start) {
        if i < |t| - 1 { LessTransitive(t[i].key, last, start); }
      } else if i > 0 && Less(t[i].key, end.value) {
        LessTransitive(t[0].key, t[i].key, end.value);
      }
    }
  }

  // ---- all sources -----------------------------------------------------------------

  ghost predicate Agree(c: Contents, d: Contents, start: Key, end: Option<Key>) {
    forall k | InRange(k, start, end) :: Version(c, k) == Version(d, k)
  }

  /** Nothing in `c` comes before `start`. */
  ghost predicate Starts(c: Contents, start: Key) {
    forall k | k in c :: !Less(k, start)
  }

  lemma {:induction false} ViewSnoc(rest: Cursors, t: seq<Entry>)
    ensures View(rest + [t]) == View(rest) + Meaning(t)
  {
    assert Meanings(rest + [t]) == Meanings(rest) + [Meaning(t)];
    assert (Meanings(rest) + [Meaning(t)])[..|rest|] == Meanings(rest);
  }

  lemma {:induction false} KeepSource(sources: Cursors, older: Cursors, t: seq<Entry>, start: Key, end: Option<Key>)
    requires Sorted(t)
    requires Agree(View(sources), View(older), start, end) && Starts(View(sources), start)
    ensures Sorted(From(t, start))
    ensures Agree(View(sources + [From(t, start)]), View(older + [t]), start, end)
    ensures Starts(View(sources + [From(t, start)]), start)
  {
    FromKeeps(t, start);
    ViewSnoc(sources, From(t, start));
    ViewSnoc(older, t);
  }

  lemma SkipSource(sources: Cursors, older: Cursors, t: seq<Entry>, start: Key, end: Option<Key>)
    requires Sorted(t) && Skipped(t, start, end) && Agree(View(sources), View(older), start, end)
    ensures Agree(View(sources), View(older + [t]), start, end)
  {
    ViewSnoc(older, t);
    forall k | InRange(k, start, end) ensures k !in Meaning(t) { SkipIsSound(t, start, end, k); }
  }

  /** The sources of a scan over `tables`, oldest first, the memtable last. */
  method Sources(tables: Cursors, mem: seq<Entry>, start: Key, end: Option<Key>) returns (sources: Cursors)
    requires AllSorted(tables) && Sorted(mem)
    ensures AllSorted(sources)
    ensures Agree(View(sources), View(tables + [mem]), start, end) && Starts(View(sources), start)
  {
    sources := [];
    for i := 0 to |tables|
      invariant AllSorted(sources)
      invariant Agree(View(sources), View(tables[..i]), start, end) && Starts(View(sources), start)
    {
      var t := tables[i];
      assert tables[..i + 1] == tables[..i] + [t];
      if Skipped(t, start, end) {
        SkipSource(sources, tables[..i], t, start, end);
      } else {
        KeepSource(sources, tables[..i], t, start, end);
        sources := sources + [From(t, start)];
      }
    }
    assert tables[..|tables|] == tables;
    KeepSource(sources, tables, mem, start, end);
    sources := sources + [From(mem, start)];
  }

  // ---- the scan --------------------------------------------------------------------

  /** `out` so far, with `left` still to merge. */
  ghost predicate Scanned(out: seq<(Key, Value)>, left: Contents, c: Contents, start: Key, end: Option<Key>) {
    && (forall i, j | 0 <= i < j < |out| :: Less(out[i].0, out[j].0))
    && (forall i | 0 <= i < |out| :: InRange(out[i].0, start, end) && Version(c, out[i].0) == Some(Some(out[i].1)))
    && (forall k | InRange(k, start, end) && k in left :: Version(left, k) == Version(c, k))
    && (forall k | InRange(k, start, end) && k in c && c[k].Some? :: k in left || Has(out, k))
    && (forall i, k | 0 <= i < |out| && k in left :: Less(out[i].0, k))
    && Starts(left, start)
  }

  function Collect(out: seq<(Key, Value)>, e: Entry): seq<(Key, Value)> {
    if e.value.Some? then out + [(e.key, e.value.value)] else out
  }

  lemma CollectKeeps(out: seq<(Key, Value)>, left: Contents, after: Contents, e: Entry,
                     c: Contents, start: Key, end: Option<Key>)
    requires Scanned(out, left, c, start, end)
    requires left == after[e.key := e.value] && e.key !in after
    requires forall k | k in after :: Less(e.key, k)
    requires end.Some? ==> Less(e.key, end.value)
    ensures Scanned(Collect(out, e), after, c, start, end)
  {
    var out' := Collect(out, e);
    assert e.key in left && InRange(e.key, start, end);
    assert Version(left, e.key) == Version(c, e.key);
    forall k | InRange(k, start, end) && k in c && c[k].Some? ensures k in after || Has(out', k) {
      if k == e.key {
        assert out'[|out'| - 1].0 == k;
      } else if k !in after {
        var i :| 0 <= i < |out| && out[i].0 == k;
        assert out'[i].0 == k;
      }
    }
  }

  /** Keys at or past the end of the range leave nothing to collect. */
  lemma PastEnd(rest: Cursors, w: nat, start: Key, end: Option<Key>, k: Key)
    requires AllSorted(rest) && IsTop(rest, w) && end.Some? && !Less(rest[w][0].key, end.value)
    requires k in View(rest)
    ensures !InRange(k, start, end)
  {
    TopIsLeast(rest, w, k);
    if Less(k, end.value) && k != rest[w][0].key { LessTransitive(rest[w][0].key, k, end.value); }
  }

  lemma {:induction false} TopIsLeast(rest: Cursors, w: nat, k: Key)
    requires AllSorted(rest) && IsTop(rest, w) && k in View(rest)
    ensures k == rest[w][0].key || Less(rest[w][0].key, k)
  {
    OverlayKeys(Meanings(rest), k);
    var i :| 0 <= i < |rest| && k in Meanings(rest)[i];
    MeaningKeys(rest[i], k);
    var j :| 0 <= j < |rest[i]| && rest[i][j].key == k;
    assert Ready(rest, i);
    var head := rest[i][0].key;
    if j > 0 && head != rest[w][0].key { LessTransitive(rest[w][0].key, head, k); }
  }

  lemma ScanDone(out: seq<(Key, Value)>, left: Contents, c: Contents, start: Key, end: Option<Key>, limit: nat)
    requires Scanned(out, left, c, start, end) && |out| <= limit
    requires |out| == limit || (forall k | k in left :: !InRange(k, start, end))
    ensures IsScan(out, c, start, end, limit)
  {
  }

  /** A range with nothing in it. */
  lemma {:induction false} EmptyRange(start: Key, end: Option<Key>, k: Key)
    requires end.Some? && !Less(start, end.value)
    ensures !InRange(k, start, end)
  {
    if Less(k, end.value) && !Less(k, start) {
      LessTotal(k, start);
      if k != start { LessTransitive(start, k, end.value); }
    }
  }

  /**
    scan(start, end, limit) over the tables (oldest first) and the memtable: exactly the first
    `limit` live pairs in range of the map get() answers from.  Terminates because every turn
    consumes at least one of the remaining entries.
  */
  method ScanRange(tables: Cursors, mem: seq<Entry>, start: Key, end: Option<Key>, limit: nat)
    returns (out: seq<(Key, Value)>)
    requires AllSorted(tables) && Sorted(mem)
    ensures IsScan(out, View(tables + [mem]), start, end, limit)
  {
    out := [];
    if limit == 0 {
      return;
    }
    if end.Some? && !Less(start, end.value) {
      forall k ensures !InRange(k, start, end) { EmptyRange(start, end, k); }
      return;
    }
    var rest := Sources(tables, mem, start, end);
    ghost var c := View(tables + [mem]);
    ScanStarts(View(rest), c, start, end);
    var top := Top(rest);
    while top.Some? && |out| < limit
      invariant AllSorted(rest) && |out| <= limit
      invariant top.None? ==> forall i :: !Ready(rest, i)
      invariant top.Some? ==> IsTop(rest, top.value)
      invariant Scanned(out, View(rest), c, start, end)
      decreases Remaining(rest)
    {
      if end.Some? && !Less(rest[top.value][0].key, end.value) {
        forall k | k in View(rest) ensures !InRange(k, start, end) { PastEnd(rest, top.value, start, end, k); }
        ScanDone(out, View(rest), c, start, end, limit);
        return;
      }
      ghost var left := View(rest);
      var e;
      e, rest := NextKey(rest, top.value);
      CollectKeeps(out, left, View(rest), e, c, start, end);
      out := Collect(out, e);
      top := Top(rest);
    }
    if top.None? { ExhaustedView(rest); }
    ScanDone(out, View(rest), c, start, end, limit);
  }

  lemma ScanStarts(left: Contents, c: Contents, start: Key, end: Option<Key>)
    requires Agree(left, c, start, end) && Starts(left, start)
    ensures Scanned([], left, c, start, end)
  {
  }

  /**
    A scan and a point read never disagree: every pair returned is what get() returns, and a live key
    of the range is missing only past the last pair of a result that reached its limit.
  */
  lemma ScanAgreesWithGet(out: seq<(Key, Value)>, c: Contents, start: Key, end: Option<Key>, limit: nat, k: Key)
    requires IsScan(out, c, start, end, limit) && InRange(k, start, end)
    ensures Has(out, k) ==> Lookup(c, k).Some?
    ensures Lookup(c, k).Some? && !Has(out, k) ==> |out| == limit && forall i | 0 <= i < |out| :: Less(out[i].0, k)
    ensures forall i | 0 <= i < |out| && out[i].0 == k :: Lookup(c, k) == Some(out[i].1)
  {
    if Has(out, k) {
      var i :| 0 <= i < |out| && out[i].0 == k;
      assert Version(c, out[i].0) == Some(Some(out[i].1));
    }
  }

  /** The specification leaves no choice: two results that meet it are the same. */
  lemma {:induction false} ScanIsUnique(a: seq<(Key, Value)>, b: seq<(Key, Value)>, c: Contents,
                                       start: Key, end: Option<Key>, limit: nat)
    requires IsScan(a, c, start, end, limit) && IsScan(b, c, start, end, limit)
    ensures a == b
  {
    forall n | 0 <= n <= |a| && n <= |b| ensures a[..n] == b[..n] {
      SamePrefix(a, b, c, start, end, limit, n);
    }
    if |a| < |b| { Extends(a, b, c, start, end, limit); }
    if |b| < |a| { Extends(b, a, c, start, end, limit); }
    assert a == a[..|a|] && b == b[..|b|];
  }

  lemma {:induction false} SamePrefix(a: seq<(Key, Value)>, b: seq<(Key, Value)>, c: Contents,
                                     start: Key, end: Option<Key>, limit: nat, n: nat)
    requires IsScan(a, c, start, end, limit) && IsScan(b, c, start, end, limit)
    requires n <= |a| && n <= |b|
    ensures a[..n] == b[..n]
  {
    if n > 0 {
      SamePrefix(a, b, c, start, end, limit, n - 1);
      NotBefore(a, b, c, start, end, limit, n - 1);
      NotBefore(b, a, c, start, end, limit, n - 1);
      LessTotal(a[n - 1].0, b[n - 1].0);
      assert a[..n] == a[..n - 1] + [a[n - 1]] && b[..n] == b[..n - 1] + [b[n - 1]];
    }
  }

  /** After a common prefix, `b` cannot skip a key that `a` has next. */
  lemma NotBefore(a: seq<(Key, Value)>, b: seq<(Key, Value)>, c: Contents,
                  start: Key, end: Option<Key>, limit: nat, n: nat)
    requires IsScan(a, c, start, end, limit) && IsScan(b, c, start, end, limit)
    requires n < |a| && n < |b| && a[..n] == b[..n]
    ensures !Less(a[n].0, b[n].0)
  {
    var k := a[n].0;
    if Less(k, b[n].0) {
      assert k in c && c[k].Some?;
      if Has(b, k) {
        var i :| 0 <= i < |b| && b[i].0 == k;
        Position(a, b, n, i);
      } else {
        assert Less(b[n].0, k);
        LessAsymmetric(k, b[n].0);
      }
    }
  }

  lemma Position(a: seq<(Key, Value)>, b: seq<(Key, Value)>, n: nat, i: nat)
    requires n < |a| && n < |b| && i < |b| && a[..n] == b[..n] && b[i].0 == a[n].0
    requires forall i, j | 0 <= i < j < |a| :: Less(a[i].0, a[j].0)
    requires forall i, j | 0 <= i < j < |b| :: Less(b[i].0, b[j].0)
    ensures !Less(a[n].0, b[n].0)
  {
    if i < n {
      assert a[..n][i] == b[..n][i];
      LessAsymmetric(a[i].0, a[n].0);
    } else if i == n {
      LessIrreflexive(b[n].0);
    } else {
      LessAsymmetric(b[n].0, b[i].0);
    }
  }

  lemma Extends(a: seq<(Key, Value)>, b: seq<(Key, Value)>, c: Contents, start: Key, end: Option<Key>, limit: nat)
    requires IsScan(a, c, start, end, limit) && IsScan(b, c, start, end, limit)
    ensures !(|a| < |b| && a == b[..|a|])
  {
    if |a| < |b| && a == b[..|a|] {
      var k := b[|a|].0;
      assert k in c && c[k].Some? && InRange(k, start, end);
      var i :| 0 <= i < |a| && a[i].0 == k;
      LessAsymmetric(b[i].0, b[|a|].0);
    }
  }
}
