/**
  What tables mean.  A table's contents map keys to a value or a tombstone; a stack of tables,
  oldest first, means its overlay; the live map is what is left once tombstones are dropped.
*/
module Store {
  import opened Wrappers

  type Byte = n: nat | n < 256
  type Key = seq<Byte>
  type Value = seq<Byte>

  /** Key to value, or to a tombstone. */
  type Contents = map<Key, Option<Value>>

  datatype Op = Put(key: Key, value: Value) | Del(key: Key)

  /** What the operation leaves under its key. */
  function Effect(op: Op): Option<Value> {
    match op
    case Put(_, v) => Some(v)
    case Del(_) => None
  }

  function Get(m: map<Key, Value>, k: Key): Option<Value> {
    if k in m then Some(m[k]) else None
  }

  function Apply(m: map<Key, Value>, op: Op): map<Key, Value> {
    match op
    case Put(k, v) => m[k := v]
    case Del(k) => m - {k}
  }

  /** The plain-map reference: operations applied one after the other. */
  function ApplyAll(m: map<Key, Value>, ops: seq<Op>): map<Key, Value> {
    if ops == [] then m else Apply(ApplyAll(m, ops[..|ops| - 1]), ops[|ops| - 1])
  }

  /** The memtable after `ops`: every key touched, with its last effect. */
  function Replay(ops: seq<Op>): Contents {
    if ops == [] then map[] else Replay(ops[..|ops| - 1])[ops[|ops| - 1].key := Effect(ops[|ops| - 1])]
  }

  /** Tables stacked oldest first; a newer table shadows an older one. */
  function Overlay(tables: seq<Contents>): Contents {
    if tables == [] then map[] else Overlay(tables[..|tables| - 1]) + tables[|tables| - 1]
  }

  function Live(c: Contents): map<Key, Value> {
    map k | k in c && c[k].Some? :: c[k].value
  }

  /** What get() returns for `k`: the newest version, a tombstone counting as absent. */
  function Lookup(c: Contents, k: Key): Option<Value> {
    if k in c then c[k] else None
  }

  lemma LiveLookup(c: Contents, k: Key)
    ensures Get(Live(c), k) == Lookup(c, k)
  {
  }

  /** Live maps agree when every lookup does. */
  lemma SameLive(c: Contents, d: Contents)
    requires forall k :: Lookup(c, k) == Lookup(d, k)
    ensures Live(c) == Live(d)
  {
    forall k ensures Get(Live(c), k) == Get(Live(d), k) {
      LiveLookup(c, k);
      LiveLookup(d, k);
    }
    SameMap(Live(c), Live(d));
  }

  lemma SameMap(m: map<Key, Value>, n: map<Key, Value>)
    requires forall k :: Get(m, k) == Get(n, k)
    ensures m == n
  {
    forall k ensures k in m <==> k in n {
      assert Get(m, k) == Get(n, k);
    }
    forall k | k in m ensures m[k] == n[k] {
      assert Get(m, k) == Get(n, k);
    }
  }

  lemma {:induction false} OverlayConcat(a: seq<Contents>, b: seq<Contents>)
    ensures Overlay(a + b) == Overlay(a) + Overlay(b)
  {
    if b == [] {
      assert a + b == a;
    } else {
      assert (a + b)[..|a + b| - 1] == a + b[..|b| - 1];
      OverlayConcat(a, b[..|b| - 1]);
    }
  }

  lemma {:induction false} ApplyAllConcat(m: map<Key, Value>, a: seq<Op>, b: seq<Op>)
    ensures ApplyAll(m, a + b) == ApplyAll(ApplyAll(m, a), b)
  {
    if b == [] {
      assert a + b == a;
    } else {
      assert (a + b)[..|a + b| - 1] == a + b[..|b| - 1];
      ApplyAllConcat(m, a, b[..|b| - 1]);
    }
  }

  /** Replaying operations into a memtable above some tables is applying them to their live map. */
  lemma {:induction false} ReplayIsApply(c: Contents, ops: seq<Op>)
    ensures Live(c + Replay(ops)) == ApplyAll(Live(c), ops)
  {
    if ops == [] {
      assert c + Replay(ops) == c;
    } else {
      var init, op := ops[..|ops| - 1], ops[|ops| - 1];
      ReplayIsApply(c, init);
      assert c + Replay(ops) == (c + Replay(init))[op.key := Effect(op)];
      LiveUpdate(c + Replay(init), op);
    }
  }

  lemma LiveUpdate(c: Contents, op: Op)
    ensures Live(c[op.key := Effect(op)]) == Apply(Live(c), op)
  {
    var d := c[op.key := Effect(op)];
    forall k ensures Get(Live(d), k) == Get(Apply(Live(c), op), k) {
    }
    SameMap(Live(d), Apply(Live(c), op));
  }

  /** Operations that do not touch `k` leave what a reader of `k` sees. */
  lemma {:induction false} Untouched(m: map<Key, Value>, ops: seq<Op>, k: Key)
    requires forall i | 0 <= i < |ops| :: ops[i].key != k
    ensures Get(ApplyAll(m, ops), k) == Get(m, k)
  {
    if ops != [] {
      Untouched(m, ops[..|ops| - 1], k);
    }
  }

  /** The last operation on `k` decides what a reader of `k` sees. */
  lemma {:induction false} LastDecides(m: map<Key, Value>, ops: seq<Op>, i: nat, k: Key)
    requires i < |ops| && ops[i].key == k
    requires forall j | i < j < |ops| :: ops[j].key != k
    ensures Get(ApplyAll(m, ops), k) == Effect(ops[i])
  {
    var head, tail := ops[..i + 1], ops[i + 1..];
    assert ops == head + tail;
    ApplyAllConcat(m, head, tail);
    Untouched(ApplyAll(m, head), tail, k);
    assert head[..|head| - 1] == ops[..i];
  }

  /** The index of the last operation on `k`, or -1. */
  function LastOn(ops: seq<Op>, k: Key): (i: int)
    ensures -1 <= i < |ops|
    ensures i >= 0 ==> ops[i].key == k
    ensures forall j | i < j < |ops| :: ops[j].key != k
  {
    if ops == [] then -1
    else if ops[|ops| - 1].key == k then |ops| - 1
    else LastOn(ops[..|ops| - 1], k)
  }

  /**
    Replaying a log over tables that already hold some of its operations: whatever prefix they
    hold beyond the log's start, the result is all operations applied once.
  */
  lemma {:induction false} ReplayOver(m: map<Key, Value>, ops: seq<Op>, start: nat, stored: nat)
    requires start <= stored <= |ops|
    ensures ApplyAll(ApplyAll(m, ops[..stored]), ops[start..]) == ApplyAll(m, ops)
  {
    var once, tail := ApplyAll(m, ops[..stored]), ops[start..];
    forall k ensures Get(ApplyAll(once, tail), k) == Get(ApplyAll(m, ops), k) {
      var i := LastOn(tail, k);
      if i >= 0 {
        LastDecides(once, tail, i, k);
        OnlyLater(ops, start, i, k);
        LastDecides(m, ops, start + i, k);
      } else {
        Untouched(once, tail, k);
        NoneLater(ops, start, stored, k);
        assert ops == ops[..stored] + ops[stored..];
        ApplyAllConcat(m, ops[..stored], ops[stored..]);
        Untouched(once, ops[stored..], k);
      }
    }
    SameMap(ApplyAll(once, tail), ApplyAll(m, ops));
  }

  lemma {:induction false} OnlyLater(ops: seq<Op>, start: nat, i: nat, k: Key)
    requires start <= |ops| && i < |ops| - start && ops[start..][i].key == k
    requires forall j | i < j < |ops| - start :: ops[start..][j].key != k
    ensures ops[start + i].key == k && ops[start + i] == ops[start..][i]
    ensures forall j | start + i < j < |ops| :: ops[j].key != k
  {
    forall j | start + i < j < |ops| ensures ops[j].key != k { assert ops[start..][j - start] == ops[j]; }
  }

  lemma {:induction false} NoneLater(ops: seq<Op>, start: nat, stored: nat, k: Key)
    requires start <= stored <= |ops| && forall j | 0 <= j < |ops| - start :: ops[start..][j].key != k
    ensures forall j | 0 <= j < |ops| - stored :: ops[stored..][j].key != k
  {
    forall j | 0 <= j < |ops| - stored ensures ops[stored..][j].key != k {
      assert ops[start..][stored - start + j] == ops[stored..][j];
    }
  }
}
