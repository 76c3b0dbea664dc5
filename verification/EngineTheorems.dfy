/**
  What clients of the engine may rely on, over whole runs with automatic flushes and
  compactions and any number of crashes.
*/
module EngineTheorems {
  import opened Store
  import opened LoadOrder
  import opened Engine
  import opened EngineInvariant

  /** What get() answers from: the memtable above the in-memory tables. */
  ghost function Current(s: State): map<Key, Value>
    requires forall n | n in s.vec :: n in Files(s)
  {
    Live(Overlay(Tables(Files(s), s.vec)) + s.mem)
  }

  /** What a reopened engine answers from, had the process died in `s`. */
  ghost function Recovered(s: State, vec: seq<Name>): map<Key, Value>
    requires forall n | n in vec :: n in s.disk
  {
    Live(Overlay(Tables(s.disk, vec)) + Replay(Landed(s.log)))
  }

  // ---- get() is a plain map --------------------------------------------------------

  lemma CurrentIsPlainMap(s: State)
    requires Inv(s)
    ensures forall n | n in s.vec :: n in Files(s)
    ensures Current(s) == ApplyAll(s.round.base, s.round.ops)
  {
    DirFiles(s);
    var r := s.round;
    ReplayIsApply(Overlay(Tables(Files(s), s.vec)), r.ops[r.flushed..]);
    ReplayOver(r.base, r.ops, r.flushed, r.stored);
  }

  /** In every reachable state get() agrees with the operations applied to a plain map. */
  lemma GetIsPlainMap(states: seq<State>, run: seq<Action>, k: nat, key: Key)
    requires Behavior(states, run) && k <= |run|
    ensures forall n | n in states[k].vec :: n in Files(states[k])
    ensures Lookup(Overlay(Tables(Files(states[k]), states[k].vec)) + states[k].mem, key)
            == Get(ApplyAll(states[k].round.base, states[k].round.ops), key)
  {
    BehaviorInv(states, run, k);
    CurrentIsPlainMap(states[k]);
    LiveLookup(Overlay(Tables(Files(states[k]), states[k].vec)) + states[k].mem, key);
  }

  // ---- the Async rule --------------------------------------------------------------

  /** The index of the last landed record on `k`, or -1. */
  function LastLanded(log: seq<Logged>, k: Key): (i: int)
    ensures -1 <= i < |log|
    ensures i >= 0 ==> log[i].op.key == k && log[i].landed
    ensures forall j | i < j < |log| :: !(log[j].op.key == k && log[j].landed)
  {
    if log == [] then -1
    else if log[|log| - 1].op.key == k && log[|log| - 1].landed then |log| - 1
    else LastLanded(log[..|log| - 1], k)
  }

  lemma {:induction false} LandedReplay(log: seq<Logged>, k: Key)
    ensures k in Replay(Landed(log)) <==> LastLanded(log, k) >= 0
    ensures LastLanded(log, k) >= 0 ==> Replay(Landed(log))[k] == Effect(log[LastLanded(log, k)].op)
  {
    if log != [] {
      var init, last := log[..|log| - 1], log[|log| - 1];
      LandedReplay(init, k);
      if last.landed {
        var ops := Landed(log);
        assert ops[..|ops| - 1] == Landed(init);
      } else {
        assert Landed(log) == Landed(init);
      }
    }
  }

  /** Between two prefixes no operation touches `k`. */
  lemma {:induction false} QuietStretch(m: map<Key, Value>, ops: seq<Op>, a: nat, b: nat, k: Key)
    requires a <= b <= |ops|
    requires forall j | a <= j < b :: ops[j].key != k
    ensures Get(ApplyAll(m, ops[..b]), k) == Get(ApplyAll(m, ops[..a]), k)
  {
    assert ops[..b] == ops[..a] + ops[a..b];
    ApplyAllConcat(m, ops[..a], ops[a..b]);
    Untouched(ApplyAll(m, ops[..a]), ops[a..b], k);
  }

  lemma {:induction false} RecoveredLookup(s: State, vec: seq<Name>, k: Key)
    requires Inv(s) && IsLoadOrder(vec, s.disk.Keys)
    ensures forall n | n in vec :: n in s.disk
    ensures var i := LastLanded(s.log, k);
            Get(Recovered(s, vec), k) ==
              if i >= 0 then Effect(s.log[i].op) else Get(ApplyAll(s.round.base, s.round.ops[..s.round.stored]), k)
  {
    ReopenedView(s, vec);
    var tables := Overlay(Tables(s.disk, vec));
    LandedReplay(s.log, k);
    LiveLookup(tables + Replay(Landed(s.log)), k);
    LiveLookup(tables, k);
  }

  /**
    The Async rule at one crash: whatever subset of the uncovered records has landed, each key
    recovers to its value after some prefix of the operations that includes every covered one -
    that is, to the value of its last covered operation or of a later one on the same key.
  */
  lemma AsyncRule(s: State, vec: seq<Name>, k: Key) returns (n: nat)
    requires Inv(s) && IsLoadOrder(vec, s.disk.Keys)
    ensures forall m | m in vec :: m in s.disk
    ensures s.round.covered <= n <= |s.round.ops|
    ensures Get(Recovered(s, vec), k) == Get(ApplyAll(s.round.base, s.round.ops[..n]), k)
  {
    RecoveredLookup(s, vec, k);
    n := AllowedPrefix(s.log, s.mem, s.round, s.round.stored, k);
  }

  /** The log alone: the last landed record on `k`, or the tables, is as good as a prefix. */
  lemma AllowedPrefix(log: seq<Logged>, mem: Contents, r: Round, stable: nat, k: Key) returns (n: nat)
    requires LogOk(log, mem, r) && r.flushed <= stable <= |r.ops|
    ensures r.covered <= n <= |r.ops|
    ensures var i := LastLanded(log, k);
            Get(ApplyAll(r.base, r.ops[..n]), k) ==
              if i >= 0 then Effect(log[i].op) else Get(ApplyAll(r.base, r.ops[..stable]), k)
  {
    var i := LastLanded(log, k);
    if i >= 0 {
      var at := r.flushed + i;
      LastDecides(r.base, r.ops[..at + 1], at, k);
      n := at + 1;
    } else {
      n := stable;
    }
    if n < r.covered {
      forall j | n <= j < r.covered ensures r.ops[j].key != k {
        assert log[j - r.flushed].landed && log[j - r.flushed].op == r.ops[j];
      }
      QuietStretch(r.base, r.ops, n, r.covered, k);
      n := r.covered;
    }
  }

  /** At every crash of every run, the reopened engine answers by the Async rule for the round that ended. */
  lemma AsyncRuleAtCrash(states: seq<State>, run: seq<Action>, k: nat, key: Key) returns (n: nat)
    requires Behavior(states, run) && 0 < k <= |run| && run[k - 1].Crash?
    ensures forall m | m in states[k].vec :: m in Files(states[k])
    ensures states[k - 1].round.covered <= n <= |states[k - 1].round.ops|
    ensures Get(Current(states[k]), key) == Get(ApplyAll(states[k - 1].round.base, states[k - 1].round.ops[..n]), key)
  {
    BehaviorInv(states, run, k - 1);
    ReopenedCurrent(states[k - 1], run[k - 1].vec, run[k - 1].counter);
    n := AsyncRule(states[k - 1], run[k - 1].vec, key);
  }

  /** The reopened engine answers from the recovered map. */
  lemma ReopenedCurrent(s: State, vec: seq<Name>, counter: nat)
    requires CrashEnabled(s, vec, counter)
    ensures var s' := CrashStep(s, vec, counter);
            && (forall m | m in s'.vec :: m in Files(s'))
            && Current(s') == Recovered(s, vec)
            && ApplyAll(s'.round.base, s'.round.ops) == Recovered(s, vec)
  {
    ReplayIsApply(Overlay(Tables(s.disk, vec)), Landed(s.log));
  }

  /** What a returned sync covers stays covered until the engine is reopened. */
  lemma CoveredGrows(s: State, a: Action)
    requires Enabled(s, a) && !a.Crash?
    ensures Do(s, a).round.covered >= s.round.covered && Do(s, a).round.base == s.round.base
    ensures s.round.ops <= Do(s, a).round.ops
    ensures a.Client? && a.client.Acknowledge? ==> Do(s, a).round.covered >= a.client.t.count
  {
  }

  // ---- Durable mode, one client ----------------------------------------------------

  /** The client issues an operation only once the previous one has been acknowledged. */
  ghost predicate OneClient(states: seq<State>, run: seq<Action>) {
    |states| == |run| + 1 &&
    forall k | 0 <= k < |run| && run[k].Client? && run[k].client.Append? ::
      states[k].round.covered == |states[k].round.ops|
  }

  /** With at most one operation unacknowledged, a crash keeps it whole or drops it whole. */
  lemma DurableCrash(s: State, vec: seq<Name>)
    requires Inv(s) && IsLoadOrder(vec, s.disk.Keys) && |s.round.ops| <= s.round.covered + 1
    ensures forall n | n in vec :: n in s.disk
    ensures Recovered(s, vec) == ApplyAll(s.round.base, s.round.ops)
            || Recovered(s, vec) == ApplyAll(s.round.base, s.round.ops[..s.round.covered])
  {
    ReopenedView(s, vec);
    var r := s.round;
    var with, without := ApplyAll(r.base, r.ops), ApplyAll(r.base, r.ops[..r.covered]);
    assert r.ops[..|r.ops|] == r.ops;
    forall k ensures Get(Recovered(s, vec), k) == Get(with, k) || Get(Recovered(s, vec), k) == Get(without, k) {
      var n := AsyncRule(s, vec, k);
      assert n == r.covered || n == |r.ops|;
    }
    if |r.ops| == r.covered {
      SameMap(Recovered(s, vec), with);
    } else {
      var q := r.ops[r.covered].key;
      forall k | k != q ensures Get(with, k) == Get(without, k) {
        QuietStretch(r.base, r.ops, r.covered, |r.ops|, k);
      }
      OneKeyApart(Recovered(s, vec), with, without, q);
    }
  }

  /** A map that agrees, key by key, with one of two maps differing in one key is one of them. */
  lemma OneKeyApart(m: map<Key, Value>, a: map<Key, Value>, b: map<Key, Value>, q: Key)
    requires forall k :: Get(m, k) == Get(a, k) || Get(m, k) == Get(b, k)
    requires forall k | k != q :: Get(a, k) == Get(b, k)
    ensures m == a || m == b
  {
    if Get(m, q) == Get(a, q) {
      SameMap(m, a);
    } else {
      SameMap(m, b);
    }
  }

  /** `h` explains `s`: it yields the current map, and its last operation may be the pending one. */
  ghost predicate Explains(s: State, h: seq<Op>) {
    && |s.round.ops| <= s.round.covered + 1
    && ApplyAll(s.round.base, s.round.ops) == ApplyAll(map[], h)
    && (s.round.covered < |s.round.ops| ==>
          h != [] && ApplyAll(map[], h[..|h| - 1]) == ApplyAll(s.round.base, s.round.ops[..s.round.covered]))
  }

  /** How the history of accepted operations may change in one step. */
  ghost predicate HistoryStep(s: State, a: Action, h: seq<Op>, h': seq<Op>) {
    match a
    case Client(Append(op)) => h' == h + [op]
    case Crash(_, _) => h' == h || (s.round.covered < |s.round.ops| && h != [] && h' == h[..|h| - 1])
    case _ => h' == h
  }

  lemma ExplainFlush(s: State, a: FlushAction, h: seq<Op>)
    requires FlushEnabled(s, a) && Explains(s, h)
    ensures Explains(FlushStep(s, a), h)
  {
  }

  lemma ExplainCompact(s: State, a: CompactAction, h: seq<Op>)
    requires CompactEnabled(s, a) && Explains(s, h)
    ensures Explains(CompactStep(s, a), h)
  {
  }

  lemma ExplainStep(s: State, a: Action, h: seq<Op>) returns (h': seq<Op>)
    requires Inv(s) && Enabled(s, a) && Explains(s, h)
    requires a.Client? && a.client.Append? ==> s.round.covered == |s.round.ops|
    ensures Explains(Do(s, a), h') && HistoryStep(s, a, h, h')
  {
    h' := h;
    match a {
      case Client(b) => h' := ExplainClient(s, b, h);
      case Flush(b) => ExplainFlush(s, b, h);
      case Compact(b) => ExplainCompact(s, b, h);
      case Crash(vec, counter) => h' := ExplainCrash(s, vec, counter, h);
    }
  }

  lemma ExplainClient(s: State, a: ClientAction, h: seq<Op>) returns (h': seq<Op>)
    requires Inv(s) && ClientEnabled(s, a) && Explains(s, h)
    requires a.Append? ==> s.round.covered == |s.round.ops|
    ensures Explains(ClientStep(s, a), h') && HistoryStep(s, Client(a), h, h')
  {
    h' := h;
    if a.Append? {
      h' := h + [a.op];
      var ops' := s.round.ops + [a.op];
      assert h'[..|h'| - 1] == h;
      assert ops'[..|ops'| - 1] == s.round.ops == ops'[..s.round.covered];
    }
  }

  lemma ExplainCrash(s: State, vec: seq<Name>, counter: nat, h: seq<Op>) returns (h': seq<Op>)
    requires Inv(s) && CrashEnabled(s, vec, counter) && Explains(s, h)
    ensures Explains(CrashStep(s, vec, counter), h') && HistoryStep(s, Crash(vec, counter), h, h')
  {
    DurableCrash(s, vec);
    ReopenedCurrent(s, vec, counter);
    if Recovered(s, vec) == ApplyAll(s.round.base, s.round.ops) {
      h' := h;
    } else {
      assert s.round.ops[..|s.round.ops|] == s.round.ops;
      h' := h[..|h| - 1];
    }
  }

  /**
    Durable mode over a whole lifetime of crashes and reopens: the map the engine answers from
    is always exactly the accepted operations applied in order; a crash keeps them all or drops
    only the last one, and that one only if it had not been acknowledged.
  */
  lemma DurableHistory(states: seq<State>, run: seq<Action>, k: nat) returns (hs: seq<seq<Op>>)
    requires Behavior(states, run) && OneClient(states, run) && k <= |run|
    ensures |hs| == k + 1 && hs[0] == []
    ensures forall j | 0 <= j < k :: HistoryStep(states[j], run[j], hs[j], hs[j + 1])
    ensures forall n | n in states[k].vec :: n in Files(states[k])
    ensures Current(states[k]) == ApplyAll(map[], hs[k])
  {
    hs := Explained(states, run, k);
    BehaviorInv(states, run, k);
    CurrentIsPlainMap(states[k]);
  }

  lemma {:induction false} Explained(states: seq<State>, run: seq<Action>, k: nat) returns (hs: seq<seq<Op>>)
    requires Behavior(states, run) && OneClient(states, run) && k <= |run|
    ensures |hs| == k + 1 && hs[0] == []
    ensures forall j | 0 <= j < k :: HistoryStep(states[j], run[j], hs[j], hs[j + 1])
    ensures Explains(states[k], hs[k])
  {
    if k == 0 {
      hs := [[]];
    } else {
      var before := Explained(states, run, k - 1);
      var h := NextHistory(states, run, k - 1, before[k - 1]);
      hs := before + [h];
      forall j | 0 <= j < k ensures HistoryStep(states[j], run[j], hs[j], hs[j + 1]) {
        if j < k - 1 { assert HistoryStep(states[j], run[j], before[j], before[j + 1]); }
      }
    }
  }

  lemma NextHistory(states: seq<State>, run: seq<Action>, k: nat, h: seq<Op>) returns (h': seq<Op>)
    requires Behavior(states, run) && OneClient(states, run) && k < |run| && Explains(states[k], h)
    ensures HistoryStep(states[k], run[k], h, h') && Explains(states[k + 1], h')
  {
    BehaviorInv(states, run, k);
    h' := ExplainStep(states[k], run[k], h);
  }
}
