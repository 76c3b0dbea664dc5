/**
  The Async rule over a whole lifetime of flushes, compactions, crashes and reopens.  An operation
  is named by the step that issued it, so that runs with many crashes have one order of operations.
*/
module AsyncHistory {
  import opened Wrappers
  import opened Store
  import opened LoadOrder
  import opened Engine
  import opened EngineInvariant
  import opened EngineTheorems

  predicate Issues(a: Action) { a.Client? && a.client.Append? }

  /** Step `m` issued an operation on `key`. */
  predicate IssuedOn(run: seq<Action>, m: int, key: Key) {
    0 <= m < |run| && Issues(run[m]) && run[m].client.op.key == key
  }

  /** No crash from step `m` up to step `k`. */
  predicate SameRound(run: seq<Action>, m: nat, k: nat)
    requires k <= |run|
  {
    forall j | m <= j < k :: !run[j].Crash?
  }

  /** The process that issued operation `m` returned, before step `k`, from a sync that covers it. */
  ghost predicate Covered(states: seq<State>, run: seq<Action>, k: nat, m: nat)
    requires k <= |run| < |states|
  {
    m < k && Issues(run[m]) && exists j: nat :: CoveredBy(states, run, k, m, j)
  }

  ghost predicate CoveredBy(states: seq<State>, run: seq<Action>, k: nat, m: nat, j: nat)
    requires m < k <= |run| < |states|
  {
    && m < j < k && SameRound(run, m, j)
    && run[j].Client? && run[j].client.Acknowledge? && |states[m].round.ops| < run[j].client.t.count
  }

  /** `value` is what the operation issued by step `m` left under `key`; -1 stands for none. */
  predicate From(run: seq<Action>, m: int, key: Key, value: Option<Value>) {
    if m == -1 then value == None
    else IssuedOn(run, m, key) && value == Effect(run[m].client.op)
  }

  /** Where the value of `key` after the first `n` operations comes from; `b` is where the base's does. */
  function Source(ops: seq<Op>, at: seq<int>, b: int, n: nat, key: Key): int
    requires |at| == |ops| && n <= |ops|
  {
    var p := LastOn(ops[..n], key);
    if p >= 0 then at[p] else b
  }

  /** `at` gives the issuing step of each operation of the round. */
  ghost predicate Placed(run: seq<Action>, k: nat, ops: seq<Op>, at: seq<int>) {
    && |at| == |ops|
    && (forall p | 0 <= p < |at| :: 0 <= at[p] < k && at[p] < |run| && run[at[p]] == Client(Append(ops[p])))
    && (forall p, q | 0 <= p < q < |at| :: at[p] < at[q])
  }

  /** Operations issued in this round stand where they were appended. */
  ghost predicate Appended(states: seq<State>, run: seq<Action>, k: nat, at: seq<int>)
    requires k <= |run| < |states|
  {
    forall m: nat | m < k && Issues(run[m]) && SameRound(run, m, k) ::
      |states[m].round.ops| < |at| && at[|states[m].round.ops|] == m
  }

  /** The rule for `key`, as the round stands. */
  ghost predicate Rule(states: seq<State>, run: seq<Action>, k: nat, key: Key, at: seq<int>, b: int)
    requires k <= |run| < |states|
  {
    var r := states[k].round;
    && Placed(run, k, r.ops, at) && Appended(states, run, k, at)
    && -1 <= b < k && From(run, b, key, Get(r.base, key))
    && r.covered <= |r.ops| && (forall p | r.covered <= p < |at| :: b < at[p])
    && (forall m: nat | Covered(states, run, k, m) && IssuedOn(run, m, key) :: m <= Source(r.ops, at, b, r.covered, key))
  }

  // ----- sources -----

  /** Operations off `key` do not move its source. */
  lemma {:induction false} QuietSource(ops: seq<Op>, at: seq<int>, b: int, n: nat, n': nat, key: Key)
    requires |at| == |ops| && n <= n' <= |ops| && forall p | n <= p < n' :: ops[p].key != key
    ensures Source(ops, at, b, n', key) == Source(ops, at, b, n, key)
  {
    var p, q := LastOn(ops[..n], key), LastOn(ops[..n'], key);
    if q >= 0 { assert ops[..n'][q] == ops[q] && (q < n ==> ops[..n][q] == ops[q]); }
    if p >= 0 { assert ops[..n][p] == ops[p] == ops[..n'][p]; }
  }

  /** Later operations move a source forward. */
  lemma {:induction false} SourceGrows(ops: seq<Op>, at: seq<int>, b: int, covered: nat, n: nat, n': nat, key: Key)
    requires |at| == |ops| && covered <= n <= n' <= |ops|
    requires forall p, q | 0 <= p < q < |at| :: at[p] < at[q]
    requires forall p | covered <= p < |at| :: b < at[p]
    ensures Source(ops, at, b, n, key) <= Source(ops, at, b, n', key)
  {
    var p, q := LastOn(ops[..n], key), LastOn(ops[..n'], key);
    if p >= 0 { assert ops[..n][p] == ops[p] == ops[..n'][p]; }
    if q >= 0 { assert ops[..n'][q] == ops[q] && (q < n ==> ops[..n][q] == ops[q]); }
  }

  /** An operation among the first `n` is no later than the source after them. */
  lemma {:induction false} SourceCovers(ops: seq<Op>, at: seq<int>, b: int, n: nat, p: nat, key: Key)
    requires |at| == |ops| && p < n <= |ops| && ops[p].key == key
    requires forall p, q | 0 <= p < q < |at| :: at[p] < at[q]
    ensures at[p] <= Source(ops, at, b, n, key)
  {
    assert ops[..n][p] == ops[p];
  }

  /** The value after `n` operations is the one its source left. */
  lemma {:induction false} SourceIsFrom(run: seq<Action>, k: nat, r: Round, at: seq<int>, b: int, n: nat, key: Key)
    requires Placed(run, k, r.ops, at) && From(run, b, key, Get(r.base, key)) && n <= |r.ops|
    ensures From(run, Source(r.ops, at, b, n, key), key, Get(ApplyAll(r.base, r.ops[..n]), key))
  {
    var ops := r.ops[..n];
    var p := LastOn(ops, key);
    if p >= 0 {
      LastDecides(r.base, ops, p, key);
      assert ops[p] == r.ops[p];
    } else {
      Untouched(r.base, ops, key);
    }
  }

  // ----- what a crash leaves -----

  /** The issuing steps of the records that landed. */
  function LandedAt(log: seq<Logged>, at: seq<int>): (r: seq<int>)
    requires |at| == |log|
    ensures |r| == |Landed(log)|
  {
    if log == [] then []
    else LandedAt(log[..|log| - 1], at[..|at| - 1]) + if log[|log| - 1].landed then [at[|at| - 1]] else []
  }

  lemma {:induction false} PlacedSnoc(run: seq<Action>, last: nat, k: nat, ops: seq<Op>, at: seq<int>, op: Op)
    requires Placed(run, last, ops, at) && last < k && last < |run| && run[last] == Client(Append(op))
    ensures Placed(run, k, ops + [op], at + [last])
  {
  }

  lemma {:induction false} PlacedInit(run: seq<Action>, k: nat, ops: seq<Op>, at: seq<int>)
    requires Placed(run, k, ops, at) && ops != []
    ensures Placed(run, at[|at| - 1], ops[..|ops| - 1], at[..|at| - 1])
  {
  }

  lemma {:induction false} PlacedTail(run: seq<Action>, k: nat, ops: seq<Op>, at: seq<int>, n: nat)
    requires Placed(run, k, ops, at) && n <= |ops|
    ensures Placed(run, k, ops[n..], at[n..])
  {
  }

  lemma {:induction false} LandedPlaced(run: seq<Action>, k: nat, log: seq<Logged>, ops: seq<Op>, at: seq<int>)
    requires |log| == |ops| && Placed(run, k, ops, at) && forall i | 0 <= i < |log| :: log[i].op == ops[i]
    ensures Placed(run, k, Landed(log), LandedAt(log, at))
  {
    if log != [] {
      var init, ops', at' := log[..|log| - 1], ops[..|ops| - 1], at[..|at| - 1];
      var last := at[|at| - 1];
      PlacedInit(run, k, ops, at);
      LandedPlaced(run, last, init, ops', at');
      if log[|log| - 1].landed { PlacedSnoc(run, last, k, Landed(init), LandedAt(init, at'), log[|log| - 1].op); }
    }
  }

  /** Replayed records: the source of `key` is its last landed record, or the tables. */
  lemma {:induction false} LandedSource(log: seq<Logged>, at: seq<int>, b: int, key: Key)
    requires |at| == |log|
    ensures var i := LastLanded(log, key);
      Source(Landed(log), LandedAt(log, at), b, |Landed(log)|, key) == if i >= 0 then at[i] else b
  {
    var ops := Landed(log);
    assert ops[..|ops|] == ops;
    if log != [] {
      var init, at' := log[..|log| - 1], at[..|at| - 1];
      LandedSource(init, at', b, key);
      var ops' := Landed(init);
      assert ops'[..|ops'|] == ops';
      if log[|log| - 1].landed { assert ops[..|ops| - 1] == ops'; }
    }
  }

  /** However the log landed, the value of `key` recovered comes from no earlier than its last covered source. */
  lemma {:induction false} CrashSource(log: seq<Logged>, mem: Contents, r: Round, stable: nat, at: seq<int>, b: int, key: Key)
    requires LogOk(log, mem, r) && r.flushed <= stable <= |r.ops| && |at| == |r.ops|
    requires forall p, q | 0 <= p < q < |at| :: at[p] < at[q]
    requires forall p | r.covered <= p < |at| :: b < at[p]
    ensures var i := LastLanded(log, key);
      Source(r.ops, at, b, r.covered, key) <= if i >= 0 then at[r.flushed + i] else Source(r.ops, at, b, stable, key)
  {
    var i := LastLanded(log, key);
    var n := if i >= 0 then r.flushed + i + 1 else stable;
    if i >= 0 { LastAtEnd(r.ops, at, b, n, key); }
    if n < r.covered {
      forall j | n <= j < r.covered ensures r.ops[j].key != key {
        assert log[j - r.flushed].landed && log[j - r.flushed].op == r.ops[j];
      }
      QuietSource(r.ops, at, b, n, r.covered, key);
    } else {
      SourceGrows(r.ops, at, b, r.covered, r.covered, n, key);
    }
  }

  lemma {:induction false} LastAtEnd(ops: seq<Op>, at: seq<int>, b: int, n: nat, key: Key)
    requires |at| == |ops| && 0 < n <= |ops| && ops[n - 1].key == key
    ensures Source(ops, at, b, n, key) == at[n - 1]
  {
    assert ops[..n][n - 1] == ops[n - 1];
  }

  // ----- steps -----

  /** A step that acknowledges nothing covers nothing new. */
  lemma {:induction false} CoveredBefore(states: seq<State>, run: seq<Action>, k: nat, m: nat)
    requires k < |run| < |states| && Covered(states, run, k + 1, m)
    requires !(run[k].Client? && run[k].client.Acknowledge?)
    ensures Covered(states, run, k, m)
  {
    var j: nat :| CoveredBy(states, run, k + 1, m, j);
    assert CoveredBy(states, run, k, m, j);
  }

  /** An acknowledgement covers nothing new but operations of its own round below its ticket's count. */
  lemma {:induction false} CoveredNow(states: seq<State>, run: seq<Action>, k: nat, m: nat)
    requires k < |run| < |states| && Covered(states, run, k + 1, m)
    requires run[k].Client? && run[k].client.Acknowledge?
    ensures Covered(states, run, k, m)
            || (m < k && SameRound(run, m, k) && |states[m].round.ops| < run[k].client.t.count)
  {
    var j: nat :| CoveredBy(states, run, k + 1, m, j);
    if j < k { assert CoveredBy(states, run, k, m, j); }
  }

  /** Steps other than appends, acknowledgements and crashes leave the round's operations alone. */
  lemma {:induction false} RoundStands(s: State, a: Action)
    requires Enabled(s, a) && !a.Crash? && !Issues(a) && !(a.Client? && a.client.Acknowledge?)
    ensures var r, r' := s.round, Do(s, a).round; r'.ops == r.ops && r'.base == r.base && r'.covered == r.covered
  {
  }

  lemma {:induction false} AppendedOn(states: seq<State>, run: seq<Action>, k: nat, at: seq<int>)
    requires k < |run| < |states| && Appended(states, run, k, at) && !run[k].Crash? && !Issues(run[k])
    ensures Appended(states, run, k + 1, at)
  {
    forall m: nat | m < k + 1 && Issues(run[m]) && SameRound(run, m, k + 1)
      ensures |states[m].round.ops| < |at| && at[|states[m].round.ops|] == m
    {
      assert m < k && SameRound(run, m, k);
    }
  }

  lemma {:induction false} QuietRule(states: seq<State>, run: seq<Action>, k: nat, key: Key, at: seq<int>, b: int)
    requires k < |run| < |states| && Rule(states, run, k, key, at, b)
    requires !run[k].Crash? && !Issues(run[k]) && !(run[k].Client? && run[k].client.Acknowledge?)
    requires Enabled(states[k], run[k]) && states[k + 1] == Do(states[k], run[k])
    ensures Rule(states, run, k + 1, key, at, b)
  {
    RoundStands(states[k], run[k]);
    AppendedOn(states, run, k, at);
    forall m: nat | Covered(states, run, k + 1, m) && IssuedOn(run, m, key)
      ensures m <= Source(states[k + 1].round.ops, at, b, states[k + 1].round.covered, key)
    {
      CoveredBefore(states, run, k, m);
    }
  }

  lemma {:induction false} AppendRule(states: seq<State>, run: seq<Action>, k: nat, key: Key, at: seq<int>, b: int)
    requires k < |run| < |states| && Rule(states, run, k, key, at, b) && Issues(run[k])
    requires Enabled(states[k], run[k]) && states[k + 1] == Do(states[k], run[k])
    ensures Rule(states, run, k + 1, key, at + [k], b)
  {
    var r, r', at' := states[k].round, states[k + 1].round, at + [k];
    var op := run[k].client.op;
    assert r'.ops == r.ops + [op] && r'.base == r.base && r'.covered == r.covered;
    PlacedSnoc(run, k, k + 1, r.ops, at, op);
    forall m: nat | m < k + 1 && Issues(run[m]) && SameRound(run, m, k + 1)
      ensures |states[m].round.ops| < |at'| && at'[|states[m].round.ops|] == m
    {
      if m < k { assert SameRound(run, m, k); }
    }
    assert r'.ops[..r.covered] == r.ops[..r.covered];
    assert Source(r'.ops, at', b, r.covered, key) == Source(r.ops, at, b, r.covered, key);
    forall m: nat | Covered(states, run, k + 1, m) && IssuedOn(run, m, key)
      ensures m <= Source(r'.ops, at', b, r'.covered, key)
    {
      CoveredBefore(states, run, k, m);
    }
  }

  lemma {:induction false} AcknowledgeRule(states: seq<State>, run: seq<Action>, k: nat, key: Key, at: seq<int>, b: int)
    requires k < |run| < |states| && Rule(states, run, k, key, at, b) && run[k].Client? && run[k].client.Acknowledge?
    requires Enabled(states[k], run[k]) && states[k + 1] == Do(states[k], run[k])
    requires run[k].client.t.count <= |states[k].round.ops|
    ensures Rule(states, run, k + 1, key, at, b)
  {
    var r, r' := states[k].round, states[k + 1].round;
    assert r'.ops == r.ops && r'.base == r.base && r.covered <= r'.covered <= |r.ops|;
    AppendedOn(states, run, k, at);
    SourceGrows(r.ops, at, b, r.covered, r.covered, r'.covered, key);
    forall m: nat | Covered(states, run, k + 1, m) && IssuedOn(run, m, key)
      ensures m <= Source(r'.ops, at, b, r'.covered, key)
    {
      CoveredNow(states, run, k, m);
      if !Covered(states, run, k, m) {
        var p := |states[m].round.ops|;
        assert at[p] == m && r.ops[p].key == key;
        SourceCovers(r.ops, at, b, r'.covered, p, key);
      }
    }
  }

  lemma {:induction false} PlacedLater(run: seq<Action>, k: nat, k': nat, ops: seq<Op>, at: seq<int>)
    requires Placed(run, k, ops, at) && k <= k'
    ensures Placed(run, k', ops, at)
  {
  }

  lemma {:induction false} NothingAppended(states: seq<State>, run: seq<Action>, k: nat, at: seq<int>)
    requires k < |run| < |states| && run[k].Crash?
    ensures Appended(states, run, k + 1, at)
  {
    forall m: nat | m < k + 1 && Issues(run[m]) ensures !SameRound(run, m, k + 1) {
      assert run[k].Crash?;
    }
  }

  /** Reopening after a crash: the base comes from the tables, the operations from the landed records. */
  lemma {:induction false} ReopenedRound(s: State, vec: seq<Name>, counter: nat)
    requires Inv(s) && CrashEnabled(s, vec, counter)
    ensures var r' := CrashStep(s, vec, counter).round;
      && r'.ops == Landed(s.log) && r'.covered == |r'.ops|
      && s.round.stored <= |s.round.ops| && r'.base == ApplyAll(s.round.base, s.round.ops[..s.round.stored])
  {
    ReopenedView(s, vec);
  }

  /** What the crash leaves of the log is placed as it was. */
  lemma {:induction false} CrashPlaces(run: seq<Action>, k: nat, log: seq<Logged>, mem: Contents, r: Round, at: seq<int>)
    requires LogOk(log, mem, r) && Placed(run, k, r.ops, at)
    ensures Placed(run, k + 1, Landed(log), LandedAt(log, at[r.flushed..]))
  {
    var tail := at[r.flushed..];
    PlacedTail(run, k, r.ops, at, r.flushed);
    LandedPlaced(run, k, log, r.ops[r.flushed..], tail);
    PlacedLater(run, k, k + 1, Landed(log), LandedAt(log, tail));
  }

  /** And the reopened value of `key` has a source no earlier than the covered one. */
  lemma {:induction false} CrashMoves(log: seq<Logged>, mem: Contents, r: Round, at: seq<int>, b: int, key: Key)
    requires LogOk(log, mem, r) && |at| == |r.ops|
    requires forall p, q | 0 <= p < q < |at| :: at[p] < at[q]
    requires forall p | r.covered <= p < |at| :: b < at[p]
    ensures var b', ops' := Source(r.ops, at, b, r.stored, key), Landed(log);
      Source(r.ops, at, b, r.covered, key) <= Source(ops', LandedAt(log, at[r.flushed..]), b', |ops'|, key)
  {
    LandedSource(log, at[r.flushed..], Source(r.ops, at, b, r.stored, key), key);
    CrashSource(log, mem, r, r.stored, at, b, key);
  }

  lemma {:induction false} CrashRule(states: seq<State>, run: seq<Action>, k: nat, key: Key, at: seq<int>, b: int)
    returns (at': seq<int>, b': int)
    requires k < |run| < |states| && Inv(states[k]) && Rule(states, run, k, key, at, b) && run[k].Crash?
    requires Enabled(states[k], run[k]) && states[k + 1] == Do(states[k], run[k])
    ensures Rule(states, run, k + 1, key, at', b')
  {
    var s, r := states[k], states[k].round;
    ReopenedRound(s, run[k].vec, run[k].counter);
    CrashPlaces(run, k, s.log, s.mem, r, at);
    CrashMoves(s.log, s.mem, r, at, b, key);
    at', b' := LandedAt(s.log, at[r.flushed..]), Source(r.ops, at, b, s.round.stored, key);
    NothingAppended(states, run, k, at');
    SourceIsFrom(run, k, r, at, b, s.round.stored, key);
    forall m: nat | Covered(states, run, k + 1, m) && IssuedOn(run, m, key)
      ensures m <= Source(states[k + 1].round.ops, at', b', states[k + 1].round.covered, key)
    {
      CoveredBefore(states, run, k, m);
    }
  }

  lemma {:induction false} NextRule(states: seq<State>, run: seq<Action>, k: nat, key: Key, at: seq<int>, b: int)
    returns (at': seq<int>, b': int)
    requires Behavior(states, run) && k < |run| && Inv(states[k]) && Rule(states, run, k, key, at, b)
    ensures Rule(states, run, k + 1, key, at', b')
  {
    var a := run[k];
    assert Enabled(states[k], a) && states[k + 1] == Do(states[k], a);
    at', b' := at, b;
    if a.Crash? {
      at', b' := CrashRule(states, run, k, key, at, b);
    } else if Issues(a) {
      AppendRule(states, run, k, key, at, b);
      at' := at + [k];
    } else if a.Client? && a.client.Acknowledge? {
      assert a.client.t in states[k].round.tickets;
      AcknowledgeRule(states, run, k, key, at, b);
    } else {
      QuietRule(states, run, k, key, at, b);
    }
  }

  lemma {:induction false} RuleAlways(states: seq<State>, run: seq<Action>, k: nat, key: Key)
    returns (at: seq<int>, b: int)
    requires Behavior(states, run) && k <= |run|
    ensures Rule(states, run, k, key, at, b)
  {
    if k == 0 {
      at, b := [], -1;
    } else {
      at, b := RuleAlways(states, run, k - 1, key);
      BehaviorInv(states, run, k - 1);
      at, b := NextRule(states, run, k - 1, key, at, b);
    }
  }

  /**
    The Async rule over a lifetime.  In every reachable state, however many crashes it took, the
    value the engine gives for `key` was left by some issued operation on that key, or the key is
    absent and none did; and no operation on the key that any returned sync ever covered came after
    that one.
  */
  lemma {:induction false} AsyncRuleOverRuns(states: seq<State>, run: seq<Action>, k: nat, key: Key) returns (m: int)
    requires Behavior(states, run) && k <= |run|
    ensures forall n | n in states[k].vec :: n in Files(states[k])
    ensures -1 <= m < k && From(run, m, key, Get(Current(states[k]), key))
    ensures forall c: nat | Covered(states, run, k, c) && IssuedOn(run, c, key) :: c <= m
  {
    var at, b := RuleAlways(states, run, k, key);
    BehaviorInv(states, run, k);
    CurrentIsPlainMap(states[k]);
    var r := states[k].round;
    m := Source(r.ops, at, b, |r.ops|, key);
    SourceIsFrom(run, k, r, at, b, |r.ops|, key);
    assert r.ops[..|r.ops|] == r.ops;
    SourceGrows(r.ops, at, b, r.covered, r.covered, |r.ops|, key);
  }

  // ----- what a sync covers -----

  lemma {:induction false} OpsGrowAt(states: seq<State>, run: seq<Action>, k: nat)
    requires Behavior(states, run) && k < |run| && !run[k].Crash?
    ensures |states[k + 1].round.ops| == |states[k].round.ops| + if Issues(run[k]) then 1 else 0
  {
    var a := run[k];
    assert Enabled(states[k], a) && states[k + 1] == Do(states[k], a);
    if !Issues(a) && !(a.Client? && a.client.Acknowledge?) { RoundStands(states[k], a); }
  }

  lemma {:induction false} OpsGrow(states: seq<State>, run: seq<Action>, m: nat, k: nat)
    requires Behavior(states, run) && m <= k <= |run| && SameRound(run, m, k)
    ensures |states[m].round.ops| <= |states[k].round.ops|
    decreases k
  {
    if m < k {
      OpsGrow(states, run, m, k - 1);
      OpsGrowAt(states, run, k - 1);
    }
  }

  /**
    A sync covers what was issued before it: the ticket it takes counts every operation issued earlier
    in its round, so that once the wait for it returns they are covered for good.
  */
  lemma {:induction false} SyncCovers(states: seq<State>, run: seq<Action>, m: nat, q: nat) returns (t: Ticket)
    requires Behavior(states, run) && m < q < |run| && Issues(run[m]) && run[q] == Client(TakeTicket) && SameRound(run, m, q)
    ensures states[q + 1].round.tickets == states[q].round.tickets + {t} && t.epoch == states[q].epoch
    ensures |states[m].round.ops| < t.count
    ensures forall j: nat | q < j < |run| && SameRound(run, m, j) && run[j] == Client(Acknowledge(t)) ::
              forall k: nat | j < k <= |run| :: Covered(states, run, k, m)
  {
    OpsGrowAt(states, run, m) by { assert !run[m].Crash?; }
    OpsGrow(states, run, m + 1, q);
    t := Ticket(|states[q].round.ops|, states[q].epoch);
    assert Enabled(states[q], run[q]) && states[q + 1] == Do(states[q], run[q]);
    forall j: nat, k: nat | q < j < |run| && SameRound(run, m, j) && run[j] == Client(Acknowledge(t)) && j < k <= |run|
      ensures Covered(states, run, k, m)
    {
      assert CoveredBy(states, run, k, m, j);
    }
  }

  /** Once every record has landed a sync gets through, and then every operation is covered. */
  lemma {:induction false} SyncGetsThrough(s: State) returns (t: Ticket)
    requires Inv(s) && forall i | 0 <= i < |s.log| :: s.log[i].landed
    ensures ClientEnabled(s, TakeTicket)
    ensures var s1 := ClientStep(s, TakeTicket);
      && s1.round.tickets == s.round.tickets + {t} && ClientEnabled(s1, Acknowledge(t))
      && ClientStep(s1, Acknowledge(t)).round.covered == |s.round.ops| == |s1.round.ops|
  {
    t := Ticket(|s.round.ops|, s.epoch);
  }
}
