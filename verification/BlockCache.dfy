/**
  The LRU cache of parsed table blocks.

  `lines` is the list, most recently used first; `ids` gives each list node its identity, and
  `index` maps a key to the node that holds it, as the hash map holds list iterators.
*/
module BlockCache {
  import opened Wrappers
  import opened KeyOrder
  import opened LoadOrder

  datatype CacheKey = CacheKey(path: Name, offset: nat)

  datatype Line = Line(key: CacheKey, value: seq<Entry>, bytes: nat)

  // ----- what the operations do to the list -----

  function Total(v: seq<Line>): nat {
    if v == [] then 0 else Total(v[..|v| - 1]) + v[|v| - 1].bytes
  }

  function Without(v: seq<Line>, k: CacheKey): seq<Line> {
    if v == [] then []
    else Without(v[..|v| - 1], k) + if v[|v| - 1].key == k then [] else [v[|v| - 1]]
  }

  function WithoutPath(v: seq<Line>, p: Name): seq<Line> {
    if v == [] then []
    else WithoutPath(v[..|v| - 1], p) + if v[|v| - 1].key.path == p then [] else [v[|v| - 1]]
  }

  predicate WithinLimits(v: seq<Line>, capacity: nat, maxBytes: nat) {
    |v| <= capacity && Total(v) <= maxBytes
  }

  /** Least recently used lines dropped until both limits hold. */
  function Fitted(v: seq<Line>, capacity: nat, maxBytes: nat): seq<Line> {
    if WithinLimits(v, capacity, maxBytes) then v else Fitted(v[..|v| - 1], capacity, maxBytes)
  }

  predicate DistinctKeys(v: seq<Line>) {
    forall i, j | 0 <= i < j < |v| :: v[i].key != v[j].key
  }

  /** The line the cache holds for a key. */
  function Cached(v: seq<Line>, k: CacheKey): (r: Option<Line>)
    ensures r.Some? ==> r.value in v && r.value.key == k
    ensures r.None? ==> forall i | 0 <= i < |v| :: v[i].key != k
  {
    if v == [] then None
    else if v[|v| - 1].key == k then Some(v[|v| - 1])
    else Cached(v[..|v| - 1], k)
  }

  /** The list after a hit on `line`. */
  function Touched(v: seq<Line>, line: Line): seq<Line> { [line] + Without(v, line.key) }

  /** The list after a block was stored. */
  function Stored(v: seq<Line>, line: Line, capacity: nat, maxBytes: nat): seq<Line> {
    Fitted(Touched(v, line), capacity, maxBytes)
  }

  /** `after` is the longest front part of `v` within both limits. */
  ghost predicate LongestWithin(after: seq<Line>, v: seq<Line>, capacity: nat, maxBytes: nat) {
    && after <= v && WithinLimits(after, capacity, maxBytes)
    && (forall n | |after| < n <= |v| :: !WithinLimits(v[..n], capacity, maxBytes))
  }

  /** Eviction keeps exactly the longest prefix that meets both limits. */
  lemma {:induction false} FittedIsLongest(v: seq<Line>, capacity: nat, maxBytes: nat)
    ensures LongestWithin(Fitted(v, capacity, maxBytes), v, capacity, maxBytes)
  {
    if WithinLimits(v, capacity, maxBytes) {
    } else {
      var init := v[..|v| - 1];
      FittedIsLongest(init, capacity, maxBytes);
      assert v[..|v|] == v;
      forall n | |Fitted(v, capacity, maxBytes)| < n <= |v| ensures !WithinLimits(v[..n], capacity, maxBytes) {
        if n < |v| { assert v[..n] == init[..n]; }
      }
    }
  }

  lemma {:induction false} WithoutSubset(v: seq<Line>, k: CacheKey)
    ensures forall x | x in Without(v, k) :: x in v
  {
    if v != [] { WithoutSubset(v[..|v| - 1], k); }
  }

  lemma {:induction false} WithoutAbsent(v: seq<Line>, k: CacheKey)
    requires forall i | 0 <= i < |v| :: v[i].key != k
    ensures Without(v, k) == v
  {
    if v != [] { WithoutAbsent(v[..|v| - 1], k); }
  }

  lemma {:induction false} WithoutAt(v: seq<Line>, i: nat)
    requires DistinctKeys(v) && i < |v|
    ensures Without(v, v[i].key) == v[..i] + v[i + 1..]
  {
    var init := v[..|v| - 1];
    if i == |v| - 1 {
      WithoutAbsent(init, v[i].key);
    } else {
      WithoutAt(init, i);
      assert v[..i] + v[i + 1..] == (init[..i] + init[i + 1..]) + [v[|v| - 1]];
    }
  }

  lemma {:induction false} CachedAt(v: seq<Line>, i: nat)
    requires DistinctKeys(v) && i < |v|
    ensures Cached(v, v[i].key) == Some(v[i])
  {
    if i < |v| - 1 { CachedAt(v[..|v| - 1], i); }
  }

  /** A hit on line `i`, and no other, brings it to the front and leaves the rest in order. */
  lemma {:induction false} HitAt(v: seq<Line>, i: nat)
    requires DistinctKeys(v) && i < |v|
    ensures Cached(v, v[i].key) == Some(v[i]) && Touched(v, v[i]) == [v[i]] + (v[..i] + v[i + 1..])
    ensures forall j | 0 <= j < |v| && v[j].key == v[i].key :: j == i
  {
    CachedAt(v, i);
    WithoutAt(v, i);
  }

  lemma {:induction false} TotalConcat(a: seq<Line>, b: seq<Line>)
    ensures Total(a + b) == Total(a) + Total(b)
  {
    if b == [] {
      assert a + b == a;
    } else {
      assert (a + b)[..|a + b| - 1] == a + b[..|b| - 1];
      TotalConcat(a, b[..|b| - 1]);
    }
  }

  /** Taking one line out takes exactly its bytes out. */
  lemma {:induction false} TotalAt(v: seq<Line>, i: nat)
    requires i < |v|
    ensures Total(v) == Total(v[..i] + v[i + 1..]) + v[i].bytes
  {
    assert v == v[..i] + [v[i]] + v[i + 1..];
    TotalConcat(v[..i] + [v[i]], v[i + 1..]);
    TotalConcat(v[..i], [v[i]]);
    TotalConcat(v[..i], v[i + 1..]);
    assert [v[i]][..0] == [];
  }

  /** One step of filtering a list in place, front to back. */
  lemma {:induction false} FilterStep(was: seq<Line>, now: seq<Line>, j: nat, p: Name)
    requires j < |was| && now == WithoutPath(was[..j], p) + was[j..]
    ensures var i := |WithoutPath(was[..j], p)|; var next := WithoutPath(was[..j + 1], p);
      && i < |now| && now[i] == was[j]
      && (was[j].key.path == p ==> |next| == i && now[..i] + now[i + 1..] == next + was[j + 1..])
      && (was[j].key.path != p ==> |next| == i + 1 && now == next + was[j + 1..])
  {
    var w, next := WithoutPath(was[..j], p), WithoutPath(was[..j + 1], p);
    assert was[..j + 1][..j] == was[..j] && was[..j + 1][j] == was[j];
    assert was[j..] == [was[j]] + was[j + 1..];
    assert next == w + if was[j].key.path == p then [] else [was[j]];
    assert now == (w + [was[j]]) + was[j + 1..];
  }

  // ----- list and map -----

  predicate HasKey(lines: seq<Line>, k: CacheKey) { exists i :: 0 <= i < |lines| && lines[i].key == k }

  /** Every list node is in the map under its key, and every mapped key has its node. */
  ghost predicate Agree(ids: seq<nat>, lines: seq<Line>, index: map<CacheKey, nat>) {
    && |ids| == |lines|
    && (forall i | 0 <= i < |ids| :: lines[i].key in index && index[lines[i].key] == ids[i])
    && (forall k | k in index :: HasKey(lines, k))
    && (forall i, j | 0 <= i < j < |ids| :: ids[i] != ids[j])
  }

  lemma AgreeDistinct(ids: seq<nat>, lines: seq<Line>, index: map<CacheKey, nat>)
    requires Agree(ids, lines, index)
    ensures DistinctKeys(lines)
  {
    forall i, j | 0 <= i < j < |lines| ensures lines[i].key != lines[j].key {
      assert index[lines[i].key] == ids[i] && index[lines[j].key] == ids[j];
    }
  }

  lemma StillHas(lines: seq<Line>, i: nat, k: CacheKey)
    requires i < |lines| && HasKey(lines, k) && lines[i].key != k
    ensures HasKey(lines[..i] + lines[i + 1..], k)
  {
    var lines' := lines[..i] + lines[i + 1..];
    var j :| 0 <= j < |lines| && lines[j].key == k;
    assert lines'[if j < i then j else j - 1].key == k;
  }

  /** Unlinking node `i` and erasing its key. */
  lemma AgreeRemove(ids: seq<nat>, lines: seq<Line>, index: map<CacheKey, nat>, i: nat)
    requires Agree(ids, lines, index) && i < |lines|
    ensures Agree(ids[..i] + ids[i + 1..], lines[..i] + lines[i + 1..], index - {lines[i].key})
  {
    AgreeDistinct(ids, lines, index);
    var ids', lines', index' := ids[..i] + ids[i + 1..], lines[..i] + lines[i + 1..], index - {lines[i].key};
    forall k | k in index' ensures HasKey(lines', k) { StillHas(lines, i, k); }
    forall j | 0 <= j < |ids'| ensures lines'[j].key in index' && index'[lines'[j].key] == ids'[j] {
      var at := if j < i then j else j + 1;
      assert lines'[j] == lines[at] && ids'[j] == ids[at];
    }
  }

  /** Linking a node in front under a key the map does not have. */
  lemma AgreePush(ids: seq<nat>, lines: seq<Line>, index: map<CacheKey, nat>, id: nat, line: Line)
    requires Agree(ids, lines, index) && line.key !in index
    requires forall i | 0 <= i < |ids| :: ids[i] != id
    ensures Agree([id] + ids, [line] + lines, index[line.key := id])
  {
    var lines' := [line] + lines;
    assert lines'[0].key == line.key;
    forall k | k in index ensures HasKey(lines', k) {
      var j :| 0 <= j < |lines| && lines[j].key == k;
      assert lines'[j + 1].key == k;
    }
  }

  lemma {:induction false} AgreeSize(ids: seq<nat>, lines: seq<Line>, index: map<CacheKey, nat>)
    requires Agree(ids, lines, index)
    ensures |index| == |lines|
    decreases |lines|
  {
    if lines == [] {
      assert index == map[];
    } else {
      var i := |lines| - 1;
      AgreeRemove(ids, lines, index, i);
      AgreeSize(ids[..i] + ids[i + 1..], lines[..i] + lines[i + 1..], index - {lines[i].key});
      assert index.Keys == (index - {lines[i].key}).Keys + {lines[i].key};
    }
  }

  class BlockCache {
    const capacity: nat
    const maxBytes: nat
    var currentBytes: nat
    var ids: seq<nat>
    var lines: seq<Line>
    var index: map<CacheKey, nat>
    var nextId: nat

    ghost predicate Valid()
      reads this
    {
      && Agree(ids, lines, index)
      && currentBytes == Total(lines)
      && (forall i | 0 <= i < |ids| :: ids[i] < nextId)
    }

    constructor (capacityBlocks: nat, bytes: nat)
      ensures Valid() && lines == [] && capacity == capacityBlocks && maxBytes == bytes
    {
      capacity, maxBytes := capacityBlocks, bytes;
      currentBytes, ids, lines, index, nextId := 0, [], [], map[], 0;
    }

    /** Follows the iterator the map holds for `k`. */
    method Where(k: CacheKey) returns (i: nat)
      requires Valid() && k in index
      ensures i < |lines| && lines[i].key == k && ids[i] == index[k]
    {
      i := 0;
      ghost var at :| 0 <= at < |lines| && lines[at].key == k;
      while ids[i] != index[k]
        invariant i <= at
        decreases at - i
      {
        i := i + 1;
      }
      AgreeDistinct(ids, lines, index);
    }

    /** Takes node `i` out of list and map. */
    method Unlink(i: nat)
      requires Valid() && i < |lines|
      modifies this
      ensures Valid() && lines == old(lines[..i] + lines[i + 1..]) && nextId == old(nextId)
      ensures index == old(index - {lines[i].key}) && ids == old(ids[..i] + ids[i + 1..])
    {
      AgreeRemove(ids, lines, index, i);
      TotalAt(lines, i);
      currentBytes := currentBytes - lines[i].bytes;
      index := index - {lines[i].key};
      ids, lines := ids[..i] + ids[i + 1..], lines[..i] + lines[i + 1..];
    }

    /** Links a node in front. */
    method Push(id: nat, line: Line)
      requires Valid() && line.key !in index && id < nextId && forall i | 0 <= i < |ids| :: ids[i] != id
      modifies this
      ensures Valid() && lines == [line] + old(lines)
    {
      AgreePush(ids, lines, index, id, line);
      TotalConcat([line], lines);
      assert [line][..0] == [];
      ids, lines, index := [id] + ids, [line] + lines, index[line.key := id];
      currentBytes := currentBytes + line.bytes;
    }

    /** A hit returns the line's block and moves the line to the front; a miss changes nothing. */
    method Get(k: CacheKey) returns (r: Option<seq<Entry>>)
      requires Valid()
      modifies this
      ensures Valid()
      ensures var hit := Cached(old(lines), k);
        if hit.Some? then r == Some(hit.value.value) && lines == Touched(old(lines), hit.value)
        else r == None && lines == old(lines)
      ensures forall i | 0 <= i < |old(lines)| && old(lines)[i].key == k ::
        r == Some(old(lines)[i].value) && lines == [old(lines)[i]] + (old(lines)[..i] + old(lines)[i + 1..])
    {
      if k !in index { return None; }
      var i := Where(k);
      AgreeDistinct(ids, lines, index);
      HitAt(lines, i);
      r := Some(lines[i].value);
      MoveToFront(i);
    }

    method MoveToFront(i: nat)
      requires Valid() && i < |lines|
      modifies this
      ensures Valid() && lines == old([lines[i]] + (lines[..i] + lines[i + 1..]))
    {
      var id, line := ids[i], lines[i];
      Unlink(i);
      Push(id, line);
    }

    /** Stores a block as the most recent line, then drops the least recent until both limits hold. */
    method Put(k: CacheKey, value: seq<Entry>, bytes: nat)
      requires Valid()
      modifies this
      ensures Valid()
      ensures lines == Stored(old(lines), Line(k, value, bytes), capacity, maxBytes)
      ensures forall i | 0 <= i < |old(lines)| && old(lines)[i].key == k ::
        LongestWithin(lines, [Line(k, value, bytes)] + (old(lines)[..i] + old(lines)[i + 1..]), capacity, maxBytes)
      ensures !HasKey(old(lines), k) ==> LongestWithin(lines, [Line(k, value, bytes)] + old(lines), capacity, maxBytes)
      ensures |index| <= capacity && currentBytes <= maxBytes
    {
      var id := Detach(k);
      Push(id, Line(k, value, bytes));
      FittedIsLongest(lines, capacity, maxBytes);
      EvictIfNeeded();
    }

    /** The node to hold `k`: its present one, taken out of the list, or a new one. */
    method Detach(k: CacheKey) returns (id: nat)
      requires Valid()
      modifies this
      ensures Valid() && lines == Without(old(lines), k) && k !in index
      ensures forall i | 0 <= i < |old(lines)| && old(lines)[i].key == k :: lines == old(lines)[..i] + old(lines)[i + 1..]
      ensures !HasKey(old(lines), k) ==> lines == old(lines)
      ensures id < nextId && forall i | 0 <= i < |ids| :: ids[i] != id
    {
      AgreeDistinct(ids, lines, index);
      if k in index {
        var i := Where(k);
        WithoutAt(lines, i);
        HitAt(lines, i);
        id := ids[i];
        Unlink(i);
      } else {
        WithoutAbsent(lines, k);
        id := nextId;
        nextId := nextId + 1;
      }
    }

    /** Evicts the least recently used line. */
    method DropLast()
      requires Valid() && lines != []
      modifies this
      ensures Valid() && lines == old(lines[..|lines| - 1]) && |index| == |lines|
    {
      var i := |lines| - 1;
      assert lines[..i] + lines[i + 1..] == lines[..i];
      Unlink(i);
      AgreeSize(ids, lines, index);
    }

    method EvictIfNeeded()
      requires Valid()
      modifies this
      ensures Valid() && lines == Fitted(old(lines), capacity, maxBytes)
      ensures |index| <= capacity && currentBytes <= maxBytes
    {
      AgreeSize(ids, lines, index);
      while lines != [] && (|index| > capacity || currentBytes > maxBytes)
        invariant Valid() && |index| == |lines|
        invariant Fitted(lines, capacity, maxBytes) == Fitted(old(lines), capacity, maxBytes)
        decreases |lines|
      {
        DropLast();
      }
    }

    /** Drops every line of one table; the other lines keep their order. */
    method InvalidatePath(p: Name)
      requires Valid()
      modifies this
      ensures Valid() && lines == WithoutPath(old(lines), p)
    {
      var i := 0;
      ghost var was, j := lines, 0;
      while i < |lines|
        invariant Valid() && j <= |was| && i == |WithoutPath(was[..j], p)|
        invariant lines == WithoutPath(was[..j], p) + was[j..]
        decreases |lines| - i
      {
        FilterStep(was, lines, j, p);
        j := j + 1;
        if lines[i].key.path == p {
          Unlink(i);
        } else {
          i := i + 1;
        }
      }
      assert was[..j] == was;
    }
  }
}
