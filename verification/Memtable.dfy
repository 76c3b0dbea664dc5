/**
  The memtable read in order: begin() and seek() on the skip list's level-0 chain.  Iteration runs
  under the engine's lock, so the list stands still while the chain is followed.
*/
module Memtable {
  import opened Wrappers
  import opened Store
  import opened KeyOrder
  import opened SkipList
  import opened SkipListInvariant
  import opened SkipListTheorems
  import Reads

  /** The entries an iterator hands out along `path`. */
  function EntriesOn(l: List, path: seq<NodeId>): (es: seq<Entry>)
    requires forall i | 0 <= i < |path| :: path[i] < |l.nodes|
    ensures |es| == |path| && forall i | 0 <= i < |path| :: es[i] == Entry(l.nodes[path[i]].key, l.nodes[path[i]].value)
  {
    seq(|path|, i requires 0 <= i < |path| => Entry(l.nodes[path[i]].key, l.nodes[path[i]].value))
  }

  /** The level-0 chain from the head. */
  ghost predicate Chain(l: List, path: seq<NodeId>) {
    ListInv(l) && Visits(l, 0, HEAD, path) && Increasing(l, path) && forall n :: n in path <==> n in l.linked[0]
  }

  /** Iterating from begin() lists exactly the map, in key order. */
  lemma {:induction false} ChainIsMap(l: List, path: seq<NodeId>)
    requires Chain(l, path)
    ensures Sorted(EntriesOn(l, path)) && Meaning(EntriesOn(l, path)) == MapOf(l)
  {
    var es := EntriesOn(l, path);
    forall k ensures k in Meaning(es) <==> k in MapOf(l) { SameUnder(l, path, k); }
    forall k | k in MapOf(l) ensures Meaning(es)[k] == MapOf(l)[k] { SameUnder(l, path, k); }
  }

  lemma {:induction false} SameUnder(l: List, path: seq<NodeId>, k: Key)
    requires Chain(l, path) && Sorted(EntriesOn(l, path))
    ensures k in Meaning(EntriesOn(l, path)) <==> k in l.index
    ensures k in l.index ==> Meaning(EntriesOn(l, path))[k] == l.nodes[l.index[k]].value
  {
    var es := EntriesOn(l, path);
    if k in l.index {
      var i := InChain(l, path, k);
      MeaningAt(es, i);
    } else {
      MeaningKeys(es, k);
      forall i | 0 <= i < |es| ensures es[i].key != k { assert path[i] in path && path[i] in l.linked[0]; }
    }
  }

  lemma {:induction false} InChain(l: List, path: seq<NodeId>, k: Key) returns (i: nat)
    requires Chain(l, path) && k in l.index
    ensures i < |path| && path[i] == l.index[k] && l.nodes[path[i]].key == k
  {
    assert l.index[k] in path;
    i :| 0 <= i < |path| && path[i] == l.index[k];
  }

  /** A reachable memtable: there is one chain, and it lists the map. */
  lemma {:induction false} BeginListsMap(states: seq<State>, run: seq<Step>, k: nat) returns (path: seq<NodeId>)
    requires Behavior(states, run) && k <= |run|
    ensures Chain(states[k].list, path)
    ensures Sorted(EntriesOn(states[k].list, path)) && Meaning(EntriesOn(states[k].list, path)) == MapOf(states[k].list)
  {
    BehaviorInv(states, run, k);
    path := LevelIsSortedList(states, run, k, 0);
    ChainIsMap(states[k].list, path);
  }

  // ----- seek -----

  /** `n` is the first linked node whose key is not before `key`, or there is none. */
  ghost predicate FirstFrom(l: List, key: Key, n: Link)
    requires Shape(l)
  {
    && (n.Some? ==> n.value in l.linked[0] && n.value < |l.nodes| && !Less(l.nodes[n.value].key, key))
    && (forall m | m in l.linked[0] && m < |l.nodes| && !Less(l.nodes[m].key, key) ::
          n.Some? && (m == n.value || Less(l.nodes[n.value].key, l.nodes[m].key)))
  }

  /** find() ends, hit or miss, with succs[0] on the first key not before the one sought. */
  lemma {:induction false} FindLandsOnFirst(l: List, key: Key, w: Walk)
    requires ListInv(l) && WalkOk(l, key, w) && CanLoad(l, w) && Load(l, key, w).Finished?
    ensures Load(l, key, w).succs[0] == l.nodes[w.x].next[0] && FirstFrom(l, key, Load(l, key, w).succs[0])
  {
    var x, y := w.x, l.nodes[w.x].next[0];
    assert LinkOk(l, 0, x);
    forall m | m in l.linked[0] && !Less(l.nodes[m].key, key)
      ensures y.Some? && (m == y.value || Less(l.nodes[y.value].key, l.nodes[m].key))
    {
      assert !Between(l, x, m, y);
      AfterPred(l, x, key, m);
      if y.Some? {
        LessTotal(l.nodes[m].key, l.nodes[y.value].key);
        if l.nodes[m].key == l.nodes[y.value].key { SameKeySameNode(l, 0, m, y.value); }
      }
    }
  }

  lemma {:induction false} AfterPred(l: List, x: NodeId, key: Key, m: NodeId)
    requires x < |l.nodes| && m < |l.nodes| && Precedes(l.nodes, x, key) && !Less(l.nodes[m].key, key)
    ensures Precedes(l.nodes, x, l.nodes[m].key)
  {
    LessTotal(l.nodes[m].key, key);
    if x != HEAD && l.nodes[m].key != key { LessTransitive(l.nodes[x].key, key, l.nodes[m].key); }
  }

  /** Following the chain to `x` and on from there is following the chain. */
  lemma {:induction false} ChainThrough(l: List, from: NodeId, path: seq<NodeId>, x: NodeId, rest: seq<NodeId>)
    requires Visits(l, 0, from, path) && Visits(l, 0, x, rest) && (x == from || x in path)
    ensures |rest| <= |path| && path[|path| - |rest|..] == rest
    ensures (x == from && rest == path) || (|rest| < |path| && path[|path| - |rest| - 1] == x)
    decreases |path|
  {
    if x == from {
      SameVisit(l, x, path, rest);
    } else {
      assert path == [path[0]] + path[1..];
      ChainThrough(l, path[0], path[1..], x, rest);
    }
  }

  lemma {:induction false} SameVisit(l: List, x: NodeId, a: seq<NodeId>, b: seq<NodeId>)
    requires Visits(l, 0, x, a) && Visits(l, 0, x, b)
    ensures a == b
    decreases |a|
  {
    if a != [] && b != [] {
      SameVisit(l, a[0], a[1..], b[1..]);
      assert a == [a[0]] + a[1..] && b == [b[0]] + b[1..];
    }
  }

  /** Everything on the chain up to `x` is no later than `x`. */
  lemma {:induction false} UpTo(l: List, path: seq<NodeId>, n: nat, key: Key)
    requires Increasing(l, path) && 0 < n <= |path| && Less(l.nodes[path[n - 1]].key, key)
    ensures forall i | 0 <= i < n :: Less(l.nodes[path[i]].key, key)
  {
    forall i | 0 <= i < n ensures Less(l.nodes[path[i]].key, key) {
      if i < n - 1 { LessTransitive(l.nodes[path[i]].key, l.nodes[path[n - 1]].key, key); }
    }
  }

  /** Where seek(key) lands splits the chain: what lies before it is before `key`. */
  lemma {:induction false} SeekSplits(l: List, path: seq<NodeId>, key: Key, w: Walk) returns (before: seq<NodeId>, rest: seq<NodeId>)
    requires Chain(l, path) && WalkOk(l, key, w) && w.level == 0
    ensures Visits(l, 0, w.x, rest) && path == before + rest && InList(l, before) && InList(l, rest)
    ensures forall i | 0 <= i < |before| :: Less(l.nodes[before[i]].key, key)
  {
    rest := PathFrom(l, 0, w.x);
    OnChain(l, path, w.x);
    before := CutChain(l, path, w.x, rest);
    NotHead(l, path, before, rest);
    BeforeRest(l, before, rest, key, w.x);
  }

  lemma {:induction false} CutChain(l: List, path: seq<NodeId>, x: NodeId, rest: seq<NodeId>) returns (before: seq<NodeId>)
    requires Visits(l, 0, HEAD, path) && Visits(l, 0, x, rest) && (x == HEAD || x in path)
    ensures path == before + rest && (before == [] || before[|before| - 1] == x)
  {
    ChainThrough(l, HEAD, path, x, rest);
    before := path[..|path| - |rest|];
  }

  lemma {:induction false} NotHead(l: List, path: seq<NodeId>, before: seq<NodeId>, rest: seq<NodeId>)
    requires Chain(l, path) && path == before + rest
    ensures forall i | 0 <= i < |before| :: before[i] != HEAD
  {
    forall i | 0 <= i < |before| ensures before[i] != HEAD { assert before[i] == path[i] && path[i] in path; }
  }

  lemma {:induction false} OnChain(l: List, path: seq<NodeId>, x: NodeId)
    requires Chain(l, path) && On(l, 0, x)
    ensures x == HEAD || x in path
  {
  }

  lemma {:induction false} BeforeRest(l: List, before: seq<NodeId>, rest: seq<NodeId>, key: Key, x: NodeId)
    requires Increasing(l, before + rest) && x < |l.nodes| && Precedes(l.nodes, x, key)
    requires forall i | 0 <= i < |before| :: before[i] != HEAD
    requires before == [] || before[|before| - 1] == x
    ensures InList(l, before) && InList(l, rest)
    ensures forall i | 0 <= i < |before| :: Less(l.nodes[before[i]].key, key)
  {
    var path := before + rest;
    forall i | 0 <= i < |before| ensures before[i] < |l.nodes| { assert before[i] == path[i]; }
    forall i | 0 <= i < |rest| ensures rest[i] < |l.nodes| { assert rest[i] == path[|before| + i]; }
    if before != [] { UpTo(l, path, |before|, key); }
    forall i | 0 <= i < |before| ensures Less(l.nodes[before[i]].key, key) { assert before[i] == path[i]; }
  }

  /** seek(key) then iterates over exactly the entries whose key is not before `key`, in order. */
  lemma {:induction false} SeekYields(l: List, path: seq<NodeId>, key: Key, w: Walk) returns (rest: seq<NodeId>)
    requires Chain(l, path) && WalkOk(l, key, w) && CanLoad(l, w) && Load(l, key, w).Finished?
    ensures Visits(l, 0, w.x, rest) && Load(l, key, w).succs[0] == (if rest == [] then None else Some(rest[0]))
    ensures InList(l, rest) && EntriesOn(l, rest) == Reads.From(EntriesOn(l, path), key)
  {
    FindLandsOnFirst(l, key, w);
    var before;
    before, rest := SeekSplits(l, path, key, w);
    SuffixIsFrom(l, before, rest, key);
  }

  ghost predicate InList(l: List, path: seq<NodeId>) { forall i | 0 <= i < |path| :: path[i] < |l.nodes| }

  lemma {:induction false} EntriesConcat(l: List, a: seq<NodeId>, b: seq<NodeId>)
    requires InList(l, a) && InList(l, b)
    ensures InList(l, a + b) && EntriesOn(l, a + b) == EntriesOn(l, a) + EntriesOn(l, b)
  {
  }

  lemma {:induction false} SuffixIsFrom(l: List, before: seq<NodeId>, rest: seq<NodeId>, key: Key)
    requires InList(l, before) && InList(l, rest)
    requires forall i | 0 <= i < |before| :: Less(l.nodes[before[i]].key, key)
    requires rest != [] ==> !Less(l.nodes[rest[0]].key, key)
    ensures InList(l, before + rest) && EntriesOn(l, rest) == Reads.From(EntriesOn(l, before + rest), key)
  {
    EntriesConcat(l, before, rest);
    Reads.FromSkips(EntriesOn(l, before), EntriesOn(l, rest), key);
  }
}
