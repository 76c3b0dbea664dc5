/**
  What the group-commit protocol guarantees over whole runs: safety of a normal return
  from waitDurable, control (one leader, no lost wake-up, no deadlock, one fdatasync per
  call), and the accounting and termination of cancelled writes.
*/
module GroupCommitTheorems {
  import opened Wrappers
  import opened Bytes
  import opened GroupCommit
  import opened GroupCommitInvariant

  lemma {:induction false} BehaviorInv(states: seq<State>, run: seq<Action>, k: nat)
    requires Behavior(states, run) && k <= |run|
    ensures Inv(states[k])
  {
    if k == 0 {
      InitInv(states[0]);
    } else {
      BehaviorInv(states, run, k - 1);
      assert StepAt(states, run, k - 1);
      StepInv(states[k - 1], run[k - 1]);
    }
  }

  // ---- safety ----------------------------------------------------------------------

  /** Before step `k` the kernel answered record `r` with a full-length success. */
  ghost predicate LandedBefore(run: seq<Action>, k: nat, r: RecId) {
    exists a :: 0 <= a < k && a < |run| && run[a] == Ring(Complete(r, Full))
  }

  /** Step `b` begins an fdatasync of thread `i`, after `r` landed. */
  ghost predicate SyncBegunAfter(run: seq<Action>, b: nat, i: Tid, r: RecId) {
    b < |run| && run[b] == Leading(i, SyncBegin) && LandedBefore(run, b, r)
  }

  /** Before step `k` record `r` landed, then an fdatasync began, then that fdatasync succeeded. */
  ghost predicate StableBefore(run: seq<Action>, k: nat, r: RecId) {
    exists i: Tid, b: nat, c: nat ::
      SyncBegunAfter(run, b, i, r) && b < c < k && c < |run| && run[c] == Leading(i, SyncEnd(true))
  }

  lemma LandedStep(s: State, a: Action, r: RecId)
    requires Enabled(s, a)
    requires r in Do(s, a).log.landed && r !in s.log.landed
    ensures a == Ring(Complete(r, Full))
  {
  }

  lemma {:induction false} LandedMeans(states: seq<State>, run: seq<Action>, k: nat, r: RecId)
    requires Behavior(states, run) && k <= |run|
    requires r in states[k].log.landed
    ensures LandedBefore(run, k, r)
  {
    if k > 0 {
      if r in states[k - 1].log.landed {
        LandedMeans(states, run, k - 1, r);
      } else {
        assert StepAt(states, run, k - 1);
        LandedStep(states[k - 1], run[k - 1], r);
      }
    }
  }

  lemma LandedGrows(s: State, a: Action)
    requires Enabled(s, a)
    ensures s.log.landed <= Do(s, a).log.landed
    ensures a.Ring? && a.ring.Complete? && a.ring.outcome.Full? ==> a.ring.r in Do(s, a).log.landed
  {
  }

  /** Once answered with a full-length success, a record counts as landed for ever. */
  lemma {:induction false} LandedFrom(states: seq<State>, run: seq<Action>, k: nat, r: RecId)
    requires Behavior(states, run) && k <= |run| && LandedBefore(run, k, r)
    ensures r in states[k].log.landed
  {
    LandedGrowsAt(states, run, k - 1);
    if run[k - 1] != Ring(Complete(r, Full)) {
      assert LandedBefore(run, k - 1, r);
      LandedFrom(states, run, k - 1, r);
    }
  }

  lemma {:induction false} LandedGrowsAt(states: seq<State>, run: seq<Action>, k: nat)
    requires Behavior(states, run) && k < |run|
    ensures states[k].log.landed <= states[k + 1].log.landed
    ensures run[k].Ring? && run[k].ring.Complete? && run[k].ring.outcome.Full? ==> run[k].ring.r in states[k + 1].log.landed
  {
    assert StepAt(states, run, k);
    LandedGrows(states[k], run[k]);
  }

  /** A stable record has landed. */
  lemma {:induction false} StableHasLanded(states: seq<State>, run: seq<Action>, k: nat, r: RecId)
    requires Behavior(states, run) && k <= |run| && StableBefore(run, k, r)
    ensures r in states[k].log.landed
  {
    var i: Tid, b: nat, c: nat :|
      SyncBegunAfter(run, b, i, r) && b < c < k && c < |run| && run[c] == Leading(i, SyncEnd(true));
    assert LandedBefore(run, k, r);
    LandedFrom(states, run, k, r);
  }

  /** The fdatasync thread `i` is inside of, if any, covers `r`. */
  predicate SyncingOver(s: State, i: Tid, r: RecId) {
    At(s, i).Lead? && At(s, i).stage.Syncing? && r in At(s, i).stage.covered
  }

  lemma SyncingStep(s: State, a: Action, i: Tid, r: RecId)
    requires Enabled(s, a)
    requires SyncingOver(Do(s, a), i, r) && !SyncingOver(s, i, r)
    ensures a == Leading(i, SyncBegin) && r in s.log.landed
  {
  }

  lemma SyncingNotFirst(states: seq<State>, run: seq<Action>, k: nat, i: Tid, r: RecId)
    requires Behavior(states, run) && k <= |run| && SyncingOver(states[k], i, r)
    ensures k > 0
  {
  }

  lemma {:induction false} SyncingMeans(states: seq<State>, run: seq<Action>, k: nat, i: Tid, r: RecId) returns (b: nat)
    requires Behavior(states, run) && k <= |run|
    requires SyncingOver(states[k], i, r)
    ensures b < k && SyncBegunAfter(run, b, i, r)
  {
    SyncingNotFirst(states, run, k, i, r);
    if SyncingOver(states[k - 1], i, r) {
      b := SyncingMeans(states, run, k - 1, i, r);
    } else {
      SyncingBegan(states, run, k - 1, i, r);
      b := k - 1;
    }
  }

  lemma {:induction false} SyncingBegan(states: seq<State>, run: seq<Action>, k: nat, i: Tid, r: RecId)
    requires Behavior(states, run) && k < |run|
    requires SyncingOver(states[k + 1], i, r) && !SyncingOver(states[k], i, r)
    ensures SyncBegunAfter(run, k, i, r)
  {
    assert StepAt(states, run, k);
    SyncingStep(states[k], run[k], i, r);
    LandedMeans(states, run, k, r);
  }

  lemma SyncedStep(s: State, a: Action, r: RecId)
    requires Enabled(s, a)
    requires r in Do(s, a).log.synced && r !in s.log.synced
    ensures a.Leading? && a.lead == SyncEnd(true) && SyncingOver(s, a.i, r)
  {
  }

  lemma {:induction false} SyncedMeans(states: seq<State>, run: seq<Action>, k: nat, r: RecId)
    requires Behavior(states, run) && k <= |run|
    requires r in states[k].log.synced
    ensures StableBefore(run, k, r)
  {
    if k > 0 {
      if r in states[k - 1].log.synced {
        SyncedMeans(states, run, k - 1, r);
      } else {
        assert StepAt(states, run, k - 1);
        SyncedStep(states[k - 1], run[k - 1], r);
        var i := run[k - 1].i;
        var b := SyncingMeans(states, run, k - 1, i, r);
        assert SyncBegunAfter(run, b, i, r) && run[k - 1] == Leading(i, SyncEnd(true));
      }
    }
  }

  /**
    Group-commit safety.  When waitDurable(t) returns normally at step `k`, either the log
    file of t's epoch has already been replaced by clear(), or every record submitted in
    t's epoch that ends at or before t.end had a full-length successful completion,
    followed by the beginning of an fdatasync that succeeded before the return.
  */
  lemma WaitDurableIsSafe(states: seq<State>, run: seq<Action>, k: nat, i: Tid, r: RecId)
    requires Behavior(states, run) && k < |run| && run[k] == Waiting(i, Return)
    requires r in states[k].log.recs
    ensures At(states[k], i).WaitTest?
    ensures var t := At(states[k], i).t;
            states[k].log.recs[r].epoch == t.epoch && states[k].log.recs[r].End() <= t.end ==>
              t.epoch < states[k].sync.fileEpoch || StableBefore(run, k, r)
  {
    ReturnAcknowledges(states, run, k, i);
    var s, t := states[k], At(states[k], i).t;
    PromiseAt(states, run, k + 1, t);
    if s.log.recs[r].epoch == t.epoch && s.log.recs[r].End() <= t.end && t.epoch >= s.sync.fileEpoch {
      SyncedMeans(states, run, k, r);
    }
  }

  lemma {:induction false} ReturnAcknowledges(states: seq<State>, run: seq<Action>, k: nat, i: Tid)
    requires Behavior(states, run) && k < |run| && run[k] == Waiting(i, Return)
    ensures At(states[k], i).WaitTest? && At(states[k], i).t in states[k + 1].acked
    ensures states[k + 1].log == states[k].log && states[k + 1].sync == states[k].sync
  {
    assert StepAt(states, run, k);
  }

  lemma {:induction false} PromiseAt(states: seq<State>, run: seq<Action>, k: nat, t: Ticket)
    requires Behavior(states, run) && k <= |run| && t in states[k].acked
    ensures Promise(states[k].log, states[k].sync.fileEpoch, t)
  {
    BehaviorInv(states, run, k);
  }

  lemma {:induction false} ControlAt(states: seq<State>, run: seq<Action>, k: nat)
    requires Behavior(states, run) && k <= |run|
    ensures Control(states[k])
  {
    BehaviorInv(states, run, k);
  }

  /** The promise outlives the call: it holds of every acknowledged ticket for ever after. */
  lemma AcknowledgedStaysStable(states: seq<State>, run: seq<Action>, k: nat, t: Ticket, r: RecId)
    requires Behavior(states, run) && k <= |run|
    requires t in states[k].acked && t.epoch >= states[k].sync.fileEpoch
    requires r in states[k].log.recs && states[k].log.recs[r].epoch == t.epoch && states[k].log.recs[r].End() <= t.end
    ensures StableBefore(run, k, r)
  {
    BehaviorInv(states, run, k);
    assert Promise(states[k].log, states[k].sync.fileEpoch, t);
    SyncedMeans(states, run, k, r);
  }

  // ---- control ---------------------------------------------------------------------

  /** At most one leader; waiters blocked on sync_cv_ always have one; durable_end_ is inside the log. */
  lemma OneLeader(states: seq<State>, run: seq<Action>, k: nat)
    requires Behavior(states, run) && k <= |run|
    ensures forall i, j :: At(states[k], i).Lead? && At(states[k], j).Lead? ==> i == j
    ensures forall i :: At(states[k], i).Sleeps() ==>
              states[k].sync.leader.Some? && At(states[k], states[k].sync.leader.value).Lead?
    ensures states[k].sync.durableEnd <= states[k].log.writeOffset
  {
    BehaviorInv(states, run, k);
  }

  /** The epoch does not change, and the log file is not replaced, while a leader runs. */
  lemma EpochFixedUnderLeader(states: seq<State>, run: seq<Action>, k: nat, i: Tid)
    requires Behavior(states, run) && k < |run|
    requires At(states[k], i).Lead? && At(states[k + 1], i).Lead?
    ensures states[k + 1].sync.epoch == states[k].sync.epoch == At(states[k], i).e
    ensures states[k + 1].sync.fileEpoch == states[k].sync.fileEpoch == states[k].sync.epoch
  {
    BehaviorInv(states, run, k);
    LeaderHasFile(states[k], i);
    assert StepAt(states, run, k);
    EpochStep(states[k], run[k], i);
  }

  lemma LeaderHasFile(s: State, i: Tid)
    requires Leadership(s) && Control(s) && At(s, i).Lead?
    ensures s.sync.fileEpoch == s.sync.epoch == At(s, i).e
  {
    if s.sync.fileEpoch < s.sync.epoch {
      assert false;
    }
  }

  lemma EpochStep(s: State, a: Action, i: Tid)
    requires Leadership(s) && Control(s) && Enabled(s, a) && At(s, i).Lead?
    ensures Do(s, a).sync.epoch == s.sync.epoch
    ensures Do(s, a).sync.fileEpoch == s.sync.fileEpoch
  {
    match a
    case Appending(_, _) =>
    case Ring(_) =>
    case Waiting(_, _) =>
    case Leading(_, _) =>
    case Clear(j, b) => ClearStopsForLeader(s, j, b, i);
  }

  lemma EpochStepByOne(s: State, a: Action)
    requires Control(s) && Enabled(s, a) && s.sync.epoch <= s.sync.fileEpoch + 1
    ensures Do(s, a).sync.epoch <= Do(s, a).sync.fileEpoch + 1
  {
  }

  /** A replacement is never more than one epoch ahead of the file it replaces. */
  lemma {:induction false} EpochIsNext(states: seq<State>, run: seq<Action>, k: nat)
    requires Behavior(states, run) && k <= |run|
    ensures states[k].sync.epoch <= states[k].sync.fileEpoch + 1
  {
    if k > 0 {
      EpochIsNext(states, run, k - 1);
      ControlAt(states, run, k - 1);
      EpochStepAt(states, run, k - 1);
    }
  }

  lemma {:induction false} EpochStepAt(states: seq<State>, run: seq<Action>, k: nat)
    requires Behavior(states, run) && k < |run| && Control(states[k]) && states[k].sync.epoch <= states[k].sync.fileEpoch + 1
    ensures states[k + 1].sync.epoch <= states[k + 1].sync.fileEpoch + 1
  {
    assert StepAt(states, run, k);
    EpochStepByOne(states[k], run[k]);
  }

  lemma ClearStopsForLeader(s: State, j: Tid, b: ClearAction, i: Tid)
    requires Leadership(s) && Control(s) && ClearEnabled(s, j, b) && At(s, i).Lead?
    ensures b != TakeMu && b != Replace
  {
    assert s.sync.inProgress;
    assert !At(s, j).Clearing();
  }

  /** One call of waitDurable issues at most one fdatasync. */
  lemma OneSyncPerCall(states: seq<State>, run: seq<Action>, k: nat, i: Tid)
    requires Behavior(states, run) && k <= |run| && At(states[k], i).Waits()
    ensures At(states[k], i).n <= 1
    ensures At(states[k], i).n == 1 && k < |run| ==> run[k] != Leading(i, SyncBegin) && run[k] != Waiting(i, BecomeLeader)
  {
    BehaviorInv(states, run, k);
    assert OneSync(states[k].sync, states[k].threads[i]);
    if k < |run| {
      NoSecondSyncAt(states, run, k, i);
    }
  }

  lemma NoSecondSyncAt(states: seq<State>, run: seq<Action>, k: nat, i: Tid)
    requires Behavior(states, run) && k < |run|
    requires i < |states[k].threads| && states[k].threads[i].Waits() && OneSync(states[k].sync, states[k].threads[i])
    ensures states[k].threads[i].n == 1 ==> run[k] != Leading(i, SyncBegin) && run[k] != Waiting(i, BecomeLeader)
  {
    assert StepAt(states, run, k);
    NoSecondSync(states[k], i, run[k]);
  }

  lemma NoSecondSync(s: State, i: Tid, a: Action)
    requires i < |s.threads| && s.threads[i].Waits() && OneSync(s.sync, s.threads[i]) && Enabled(s, a)
    ensures s.threads[i].n == 1 ==> a != Leading(i, SyncBegin) && a != Waiting(i, BecomeLeader)
  {
  }

  /** A thread that has called something and cannot move on its own. */
  predicate Blocked(s: State, i: Tid) {
    var pc := At(s, i);
    || (pc.AppendWait? && s.mu != None) || (pc.SyncWant? && s.mu != None)
    || (pc.ClearWantMu? && s.mu != None) || (pc.Lead? && pc.stage.Lock? && s.mu != None)
    || (pc.WaitLock? && s.syncMu != None) || (pc.ClearLock? && s.syncMu != None)
    || (pc.Lead? && pc.stage.Finish? && s.syncMu != None)
    || pc.Sleeps()
  }

  predicate Acts(a: Action, i: Tid) {
    match a
    case Ring(b) => (match b case Complete(_, _) => false
                             case Reap(j, _, _) => j == i
                             case DrainTimeout(j) => j == i
                             case DrainDone(j) => j == i)
    case _ => a.i == i
  }

  /** A thread inside a call that is not blocked has an action of its own to take. */
  lemma UnblockedCanStep(s: State, i: Tid) returns (a: Action)
    requires Inv(s) && i < |s.threads| && !s.threads[i].NoThread? && !s.threads[i].Idle? && !Blocked(s, i)
    ensures Enabled(s, a) && Acts(a, i)
  {
    var pc := s.threads[i];
    match pc {
      case AppendWait => a := Appending(i, Enter);
      case AppendIn => a := Appending(i, if s.log.failure then Refuse else Submit(1));
      case AppendReap =>
        if r :| r in s.log.completed { a := Ring(Reap(i, r, NoSlot)); } else { a := Appending(i, ReturnTicket); }
      case SyncWant => a := Waiting(i, TakeTicket);
      case WaitLock(t, n) => a := Waiting(i, Contend);
      case WaitTest(t, n) =>
        a := Waiting(i, if Satisfied(s.sync, t) then Return else if s.sync.inProgress then Sleep else BecomeLeader);
      case Lead(t, n, e, stage) => a := LeaderCanStep(s, i);
      case ClearLock => a := Clear(i, ClearContend);
      case ClearTest => a := Clear(i, if s.sync.inProgress then ClearBlock else ClearGo);
      case ClearWantMu => a := Clear(i, TakeMu);
      case ClearDrain => a := DrainCanStep(s, i);
      case ClearReset => a := Clear(i, Replace);
    }
  }

  lemma DrainCanStep(s: State, i: Tid) returns (a: Action)
    requires Inv(s) && i < |s.threads| && s.threads[i].Drains()
    ensures Enabled(s, a) && Acts(a, i)
  {
    if r :| r in s.log.completed {
      a := Ring(Reap(i, r, NoSlot));
    } else {
      a := Ring(if s.log.pending == 0 then DrainDone(i) else DrainTimeout(i));
    }
  }

  lemma LeaderCanStep(s: State, i: Tid) returns (a: Action)
    requires Inv(s) && i < |s.threads| && s.threads[i].Lead? && !Blocked(s, i)
    ensures Enabled(s, a) && Acts(a, i)
  {
    match s.threads[i].stage {
      case Lock => a := Leading(i, LeadEnter);
      case Drain => a := DrainCanStep(s, i);
      case Decide => a := Leading(i, if s.log.failure then LeadFail else Target);
      case Begin(target) => a := Leading(i, SyncBegin);
      case Syncing(target, covered) => a := Leading(i, SyncEnd(true));
      case Finish(target, ok) => a := Leading(i, Publish);
    }
  }

  lemma MuHolderRuns(s: State, j: Tid)
    requires Locks(s) && s.mu == Some(j)
    ensures j < |s.threads| && !s.threads[j].Idle? && !s.threads[j].NoThread? && !Blocked(s, j)
  {
    assert s.threads[j].HoldsMu();
  }

  lemma SyncHolderRuns(s: State, j: Tid)
    requires Locks(s) && s.syncMu == Some(j) && s.mu == None
    ensures j < |s.threads| && !s.threads[j].Idle? && !s.threads[j].NoThread? && !Blocked(s, j)
  {
    assert s.threads[j].HoldsSync();
  }

  /** If thread `i` is blocked, some thread inside a call is not: follow the locks, then the leader. */
  lemma SomeoneUnblocked(s: State, i: Tid) returns (j: Tid)
    requires Locks(s) && Leadership(s) && Control(s)
    requires i < |s.threads| && !s.threads[i].Idle? && !s.threads[i].NoThread?
    ensures j < |s.threads| && !s.threads[j].Idle? && !s.threads[j].NoThread? && !Blocked(s, j)
  {
    if !Blocked(s, i) {
      j := i;
    } else if s.mu.Some? {
      j := s.mu.value;
      MuHolderRuns(s, j);
    } else if s.syncMu.Some? {
      j := s.syncMu.value;
      SyncHolderRuns(s, j);
    } else {
      assert s.threads[i].Sleeps();
      j := s.sync.leader.value;
      assert s.threads[j].Lead?;
    }
  }

  /**
    No deadlock and no lost wake-up: while any thread is inside a call, some thread inside a call
    waits neither for a lock nor for a wake-up, and has a step of its own to take.
  */
  lemma NoDeadlock(states: seq<State>, run: seq<Action>, k: nat, i: Tid) returns (j: Tid, a: Action)
    requires Behavior(states, run) && k <= |run|
    requires i < |states[k].threads| && !states[k].threads[i].Idle? && !states[k].threads[i].NoThread?
    ensures j < |states[k].threads| && !states[k].threads[j].Idle? && !states[k].threads[j].NoThread?
    ensures !Blocked(states[k], j) && Acts(a, j) && Enabled(states[k], a)
  {
    BehaviorInv(states, run, k);
    j := SomeoneUnblocked(states[k], i);
    a := UnblockedCanStep(states[k], j);
  }

  // ---- cancellation accounting and termination -------------------------------------

  /** Submissions a request may still need before it is given up, plus the last answer. */
  function Fuel(w: Write): nat {
    if w.attempts <= MAX_WRITE_ATTEMPTS then MAX_WRITE_ATTEMPTS + 1 - w.attempts else 0
  }

  ghost function FuelOf(log: Log, r: RecId): nat {
    if r in log.inflight then Fuel(log.inflight[r])
    else if r in log.completed then Fuel(log.completed[r].w)
    else 0
  }

  /** Total fuel of the records with id below `n`. */
  ghost function Work(log: Log, n: nat): nat {
    if n == 0 then 0 else Work(log, n - 1) + FuelOf(log, n - 1)
  }

  lemma {:induction false} WorkChanges(log: Log, log': Log, n: nat, r: RecId)
    requires forall q | q != r :: FuelOf(log', q) == FuelOf(log, q)
    ensures Work(log', n) == if r < n then Work(log, n) - FuelOf(log, r) + FuelOf(log', r) else Work(log, n)
  {
    if n > 0 {
      WorkChanges(log, log', n - 1, r);
    }
  }

  /** Each completion reaped uses up work; a completion delivered does not change it. */
  lemma {:induction false} ReapUsesWork(log: Log, epoch: nat, r: RecId, resubmit: Resubmit)
    requires LogInv(log, epoch) && r in log.completed
    ensures var log' := ReapOne(log, r, resubmit);
            Work(log', log'.nextId) < Work(log, log.nextId)
  {
    var log' := ReapOne(log, r, resubmit);
    assert Issued(log, r, log.completed[r].w);
    ReapUsesFuel(log, r, resubmit);
    WorkChanges(log, log', log.nextId, r);
  }

  lemma {:induction false} ReapUsesFuel(log: Log, r: RecId, resubmit: Resubmit)
    requires Counted(log) && r in log.completed && 1 <= log.completed[r].w.attempts <= MAX_WRITE_ATTEMPTS
    ensures var log' := ReapOne(log, r, resubmit);
      && log'.nextId == log.nextId && FuelOf(log', r) < FuelOf(log, r)
      && forall q | q != r :: FuelOf(log', q) == FuelOf(log, q)
  {
  }

  lemma {:induction false} DeliverKeepsWork(log: Log, epoch: nat, r: RecId, outcome: Outcome)
    requires LogInv(log, epoch) && r in log.inflight
    ensures Work(Deliver(log, r, outcome), log.nextId) == Work(log, log.nextId)
  {
    WorkChanges(log, Deliver(log, r, outcome), log.nextId, r);
  }

  /**
    Accounting of every request in every reachable state: pending_cqes_ counts the writes the
    kernel still owes an answer for, each is the request first issued for its record and has
    been submitted at most six times, and no buffer the kernel may read has been freed.
  */
  lemma CancellationAccounting(states: seq<State>, run: seq<Action>, k: nat)
    requires Behavior(states, run) && k <= |run|
    ensures var log := states[k].log;
            && log.pending == |log.inflight.Keys| + |log.completed.Keys|
            && (forall r | r in log.inflight :: Issued(log, r, log.inflight[r]) && r !in log.freed)
            && (forall r | r in log.completed :: Issued(log, r, log.completed[r].w) && r !in log.freed)
  {
    BehaviorInv(states, run, k);
  }

  lemma ReapFrees(log: Log, r: RecId, resubmit: Resubmit)
    requires Counted(log) && Owned(log) && r in log.completed
    ensures r !in log.freed
    ensures var log' := ReapOne(log, r, resubmit);
            && log.freed <= log'.freed
            && (forall q | q in log'.freed && q !in log.freed :: q == r)
            && (r in log'.freed ==> r !in log'.inflight && r !in log'.completed)
  {
  }

  /** The record whose completion the action takes off the ring, if it is a reap. */
  function Reaped(a: Action): set<RecId> {
    if a.Ring? && a.ring.Reap? then {a.ring.c} else {}
  }

  lemma OnlyReapFrees(s: State, a: Action)
    requires Enabled(s, a) && !(a.Ring? && a.ring.Reap?)
    ensures Do(s, a).log.freed == s.log.freed
  {
  }

  /**
    A buffer is freed at most once and never while the kernel may read it: only a reap frees, it
    frees nothing but the buffer of the completion it takes, that buffer was not free before, and
    from then on no request refers to it.
  */
  lemma FreedOnce(states: seq<State>, run: seq<Action>, k: nat)
    requires Behavior(states, run) && k < |run|
    ensures Reaped(run[k]) !! states[k].log.freed
    ensures states[k].log.freed <= states[k + 1].log.freed <= states[k].log.freed + Reaped(run[k])
    ensures states[k + 1].log.freed !! states[k + 1].log.inflight.Keys
    ensures states[k + 1].log.freed !! states[k + 1].log.completed.Keys
  {
    BehaviorInv(states, run, k);
    assert StepAt(states, run, k);
    FreedStep(states[k], run[k]);
    BehaviorInv(states, run, k + 1);
    FreedIsGone(states[k + 1].log);
  }

  lemma FreedStep(s: State, a: Action)
    requires Counted(s.log) && Owned(s.log) && Enabled(s, a)
    ensures Reaped(a) !! s.log.freed && s.log.freed <= Do(s, a).log.freed <= s.log.freed + Reaped(a)
  {
    if a.Ring? && a.ring.Reap? {
      ReapFrees(s.log, a.ring.c, a.ring.resubmit);
    } else {
      OnlyReapFrees(s, a);
    }
  }

  lemma FreedIsGone(log: Log)
    requires Owned(log)
    ensures log.freed !! log.inflight.Keys && log.freed !! log.completed.Keys
  {
  }

  /** Records tile the log in disjoint aligned intervals whose order is submission order. */
  lemma LogOrderIsSubmissionOrder(states: seq<State>, run: seq<Action>, k: nat, q: RecId, r: RecId)
    requires Behavior(states, run) && k <= |run|
    requires q in states[k].log.recs && r in states[k].log.recs && q < r
    requires states[k].log.recs[q].epoch == states[k].log.recs[r].epoch
    ensures states[k].log.recs[q].End() <= states[k].log.recs[r].off
    ensures states[k].log.recs[r].off % BLOCK == 0 && states[k].log.recs[r].bytes % BLOCK == 0
  {
    BehaviorInv(states, run, k);
  }

  lemma RecordsAreAligned(states: seq<State>, run: seq<Action>, k: nat, r: RecId)
    requires Behavior(states, run) && k <= |run| && r in states[k].log.recs
    ensures states[k].log.recs[r].off % BLOCK == 0 && states[k].log.recs[r].bytes % BLOCK == 0
  {
    BehaviorInv(states, run, k);
  }

  /** Until the first clear(), the log stays above what the file held when it was opened. */
  ghost predicate AboveStart(s: State, start: nat) {
    && (s.sync.epoch == 0 ==> start <= s.log.writeOffset)
    && (forall r | r in s.log.recs && s.log.recs[r].epoch == 0 :: start <= s.log.recs[r].off)
  }

  lemma StepStaysAbove(s: State, a: Action, start: nat)
    requires Control(s) && Enabled(s, a) && AboveStart(s, start)
    ensures AboveStart(Do(s, a), start)
  {
  }

  lemma {:induction false} FirstEpochAbove(states: seq<State>, run: seq<Action>, k: nat, r: RecId)
    requires Behavior(states, run) && k <= |run|
    requires r in states[k].log.recs && states[k].log.recs[r].epoch == 0
    ensures states[0].log.writeOffset <= states[k].log.recs[r].off
    ensures states[0].log.writeOffset % BLOCK == 0
  {
    StaysAbove(states, run, k);
  }

  lemma {:induction false} StaysAbove(states: seq<State>, run: seq<Action>, k: nat)
    requires Behavior(states, run) && k <= |run|
    ensures AboveStart(states[k], states[0].log.writeOffset)
  {
    if k > 0 {
      StaysAbove(states, run, k - 1);
      ControlAt(states, run, k - 1);
      StaysAboveAt(states, run, k - 1, states[0].log.writeOffset);
    }
  }

  lemma {:induction false} StaysAboveAt(states: seq<State>, run: seq<Action>, k: nat, start: nat)
    requires Behavior(states, run) && k < |run| && Control(states[k]) && AboveStart(states[k], start)
    ensures AboveStart(states[k + 1], start)
  {
    assert StepAt(states, run, k);
    StepStaysAbove(states[k], run[k], start);
  }

  lemma DrainedHasLanded(log: Log, epoch: nat)
    requires LogInv(log, epoch) && log.pending == 0
    ensures log.inflight == map[] && log.completed == map[]
    ensures log.failure || Covers(log, epoch, log.writeOffset, log.landed)
  {
    assert log.inflight.Keys == {} && log.completed.Keys == {};
  }

  /** The kernel's next move during a drain: it answers one write, or the wait fails. */
  datatype Answer = Answered(r: RecId, outcome: Outcome, resubmit: Resubmit) | TimedOut

  predicate Owed(log: Log, r: RecId) { r in log.inflight || r in log.completed }

  /** The kernel answers `r` if it has not done so already. */
  method KernelAnswers(log: Log, epoch: nat, r: RecId, outcome: Outcome) returns (after: Log)
    requires LogInv(log, epoch) && Owed(log, r)
    ensures LogInv(after, epoch) && r in after.completed
    ensures after.recs == log.recs && after.writeOffset == log.writeOffset && after.failure == log.failure
    ensures after.inflight == log.inflight - {r}
    ensures after.completed == if r in log.inflight then log.completed[r := Completion(log.inflight[r], outcome)] else log.completed
    ensures Work(after, after.nextId) == Work(log, log.nextId)
  {
    after := log;
    if r in log.inflight {
      DeliverKeepsLog(log, epoch, r, outcome);
      DeliverKeepsWork(log, epoch, r, outcome);
      after := Deliver(log, r, outcome);
    }
  }

  /**
    `log'` is `log` with the completion of `r` taken off the ring.  A cancelled write with fewer than
    six attempts goes back in flight at the same place, one attempt on, and nothing else changes.  Any
    other completion is done with: it is no longer counted, its buffer is freed unless a failed
    resubmission may still read it, and a failure is recorded unless the write went through in full.
  */
  ghost predicate TakenOff(log: Log, r: RecId, resubmit: Resubmit, log': Log)
    requires r in log.completed && r in log.recs
  {
    var c, place := log.completed[r], log.recs[r];
    var again := c.outcome.Cancelled? && c.w.attempts < 6;
    && log'.completed == log.completed - {r} && log'.recs == log.recs && log'.writeOffset == log.writeOffset
    && log'.landed == log.landed && log'.synced == log.synced && log'.nextId == log.nextId
    && if again && resubmit.Queued? then
         && log'.inflight == log.inflight[r := Write(c.w.attempts + 1, place.off, place.bytes)]
         && log'.failure == log.failure && log'.pending == log.pending && log'.freed == log.freed
       else
         && log'.inflight == log.inflight && log'.pending == log.pending - 1
         && log'.failure == (log.failure || !c.outcome.Full?)
         && log'.freed == if again && resubmit.SubmitFailed? then log.freed else log.freed + {r}
  }

  lemma ReapDoes(log: Log, r: RecId, resubmit: Resubmit)
    requires r in log.completed && Counted(log) && Issued(log, r, log.completed[r].w)
    ensures TakenOff(log, r, resubmit, ReapOne(log, r, resubmit))
  {
    assert r in log.completed.Keys;
  }

  /** One turn of the reap loop. */
  method ReapCompletion(log: Log, epoch: nat, r: RecId, resubmit: Resubmit) returns (after: Log)
    requires LogInv(log, epoch) && r in log.completed
    ensures LogInv(after, epoch) && TakenOff(log, r, resubmit, after)
    ensures Work(after, after.nextId) < Work(log, log.nextId)
  {
    after := ReapOne(log, r, resubmit);
    assert Issued(log, r, log.completed[r].w);
    ReapDoes(log, r, resubmit);
    ReapKeepsLog(log, epoch, r, resubmit);
    ReapUsesWork(log, epoch, r, resubmit);
  }

  /** The write went through in full, or was cancelled and may be tried again. */
  predicate Mild(c: Completion) { c.outcome.Full? || (c.outcome.Cancelled? && c.w.attempts < 6) }

  /** No failure, and none among the completions waiting to be reaped. */
  predicate Healthy(log: Log) { !log.failure && forall r | r in log.completed :: Mild(log.completed[r]) }

  /** An answer that need not fail the log. */
  predicate MildAnswer(log: Log, a: Answer) {
    && a.Answered? && a.resubmit.Queued? && Owed(log, a.r)
    && (a.r in log.inflight ==> Mild(Completion(log.inflight[a.r], a.outcome)))
  }

  ghost predicate MildKernel(epoch: nat, kernel: (nat, Log) -> Answer) {
    forall n: nat, log: Log | LogInv(log, epoch) && log.pending > 0 && Healthy(log) :: MildAnswer(log, kernel(n, log))
  }

  /** One answer arrives and is reaped. */
  method DrainTurn(log: Log, epoch: nat, answer: Answer) returns (after: Log)
    requires LogInv(log, epoch) && answer.Answered? && Owed(log, answer.r)
    ensures LogInv(after, epoch) && after.recs == log.recs && after.writeOffset == log.writeOffset
    ensures Work(after, after.nextId) < Work(log, log.nextId)
    ensures Healthy(log) && MildAnswer(log, answer) ==> Healthy(after)
  {
    var answered := KernelAnswers(log, epoch, answer.r, answer.outcome);
    after := ReapCompletion(answered, epoch, answer.r, answer.resubmit);
    HealthyReap(answered, answer.r, answer.resubmit, after);
  }

  lemma {:induction false} HealthyReap(log: Log, r: RecId, resubmit: Resubmit, log': Log)
    requires r in log.completed && r in log.recs && TakenOff(log, r, resubmit, log')
    ensures Healthy(log) && resubmit.Queued? ==> Healthy(log')
  {
  }

  /**
    drain() for every kernel behaviour: it ends after at most Work completions, and either has
    recorded a failure or leaves no write owed an answer, so that every record of the log has
    landed.  Cancellations alone, short of the sixth of a record, never make it fail.
  */
  method Drain(start: Log, epoch: nat, kernel: (nat, Log) -> Answer) returns (log: Log)
    requires LogInv(start, epoch)
    ensures LogInv(log, epoch)
    ensures log.recs == start.recs && log.writeOffset == start.writeOffset
    ensures log.failure || (log.pending == 0 && Covers(log, epoch, log.writeOffset, log.landed))
    ensures Healthy(start) && MildKernel(epoch, kernel) ==> !log.failure
  {
    log := start;
    ghost var mild := Healthy(start) && MildKernel(epoch, kernel);
    var n := 0;
    while log.pending > 0
      invariant LogInv(log, epoch)
      invariant log.recs == start.recs && log.writeOffset == start.writeOffset
      invariant mild ==> Healthy(log)
      decreases Work(log, log.nextId)
    {
      var answer := kernel(n, log);
      if mild { MildAnswers(epoch, kernel, n, log); }
      if answer.TimedOut? || !Owed(log, answer.r) {
        log := GiveUp(log, epoch);
        return;
      }
      log := DrainTurn(log, epoch, answer);
      n := n + 1;
    }
    DrainedHasLanded(log, epoch);
  }

  /** The wait failed or timed out. */
  method GiveUp(log: Log, epoch: nat) returns (after: Log)
    requires LogInv(log, epoch)
    ensures LogInv(after, epoch) && after.recs == log.recs && after.writeOffset == log.writeOffset && after.failure
  {
    FailureKeepsLog(log, epoch);
    after := log.(failure := true);
  }

  lemma {:induction false} MildAnswers(epoch: nat, kernel: (nat, Log) -> Answer, n: nat, log: Log)
    requires MildKernel(epoch, kernel) && LogInv(log, epoch) && log.pending > 0 && Healthy(log)
    ensures MildAnswer(log, kernel(n, log))
  {
  }

  lemma FailureKeepsLog(log: Log, epoch: nat)
    requires LogInv(log, epoch)
    ensures LogInv(log.(failure := true), epoch)
  {
  }
}
