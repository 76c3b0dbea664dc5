/**
  Cancelled writes and failures over whole runs.  A request's attempts are its cancellations and the
  one under way; and whenever the log has recorded a failure, something since it was opened or last replaced
  explains it.
*/
module GroupCommitCauses {
  import opened Bytes
  import opened GroupCommit
  import opened GroupCommitInvariant
  import opened GroupCommitTheorems

  // ----- counting cancellations -----

  /** How often the kernel cancelled record `r` in the first `k` steps. */
  function Cancellations(run: seq<Action>, k: nat, r: RecId): nat
    requires k <= |run|
  {
    if k == 0 then 0
    else Cancellations(run, k - 1, r) + if run[k - 1] == Ring(Complete(r, Cancelled)) then 1 else 0
  }

  /** The attempts of a request are its cancellations, and the one under way. */
  ghost predicate Attempted(log: Log, run: seq<Action>, k: nat)
    requires k <= |run|
  {
    && (forall r | r in log.inflight :: log.inflight[r].attempts == Cancellations(run, k, r) + 1)
    && (forall r | r in log.completed :: log.completed[r].w.attempts
          == Cancellations(run, k, r) + if log.completed[r].outcome.Cancelled? then 0 else 1)
    && (forall r: RecId | log.nextId <= r :: Cancellations(run, k, r) == 0)
  }

  lemma {:induction false} CountStep(run: seq<Action>, k: nat)
    requires k < |run|
    ensures forall r: RecId ::
      Cancellations(run, k + 1, r) == Cancellations(run, k, r) + if run[k] == Ring(Complete(r, Cancelled)) then 1 else 0
  {
  }

  lemma {:induction false} DeliverAttempted(log: Log, r: RecId, outcome: Outcome, run: seq<Action>, k: nat)
    requires k < |run| && run[k] == Ring(Complete(r, outcome)) && r in log.inflight
    requires Owned(log) && Counted(log) && Attempted(log, run, k)
    ensures Attempted(Deliver(log, r, outcome), run, k + 1)
  {
    CountStep(run, k);
  }

  lemma {:induction false} ReapAttempted(log: Log, r: RecId, resubmit: Resubmit, run: seq<Action>, k: nat)
    requires k < |run| && !(run[k].Ring? && run[k].ring.Complete?) && r in log.completed && Attempted(log, run, k)
    ensures Attempted(ReapOne(log, r, resubmit), run, k + 1)
  {
    CountStep(run, k);
  }

  lemma {:induction false} SubmitAttempted(log: Log, epoch: nat, bytes: nat, run: seq<Action>, k: nat)
    requires k < |run| && !(run[k].Ring? && run[k].ring.Complete?) && Attempted(log, run, k)
    ensures Attempted(SubmitRecord(log, epoch, bytes), run, k + 1)
  {
    CountStep(run, k);
  }

  lemma {:induction false} QuietAttempted(log: Log, log': Log, run: seq<Action>, k: nat)
    requires k < |run| && !(run[k].Ring? && run[k].ring.Complete?) && Attempted(log, run, k)
    requires log'.nextId == log.nextId && (log'.inflight == log.inflight || log'.inflight == map[])
    requires log'.completed == log.completed || log'.completed == map[]
    ensures Attempted(log', run, k + 1)
  {
    CountStep(run, k);
  }

  /** What an action does to the requests. */
  lemma QuietLog(s: State, a: Action)
    requires Enabled(s, a) && !(a.Appending? && a.append.Submit?)
    requires !(a.Ring? && (a.ring.Complete? || a.ring.Reap?))
    ensures var log, log' := s.log, Do(s, a).log;
      && log'.nextId == log.nextId && (log'.inflight == log.inflight || log'.inflight == map[])
      && (log'.completed == log.completed || log'.completed == map[])
  {
  }

  lemma {:induction false} AttemptedStep(s: State, run: seq<Action>, k: nat)
    requires k < |run| && Enabled(s, run[k]) && Owned(s.log) && Counted(s.log) && Attempted(s.log, run, k)
    ensures Attempted(Do(s, run[k]).log, run, k + 1)
  {
    var a := run[k];
    if a.Ring? && a.ring.Complete? {
      DeliverAttempted(s.log, a.ring.r, a.ring.outcome, run, k);
    } else if a.Ring? && a.ring.Reap? {
      ReapAttempted(s.log, a.ring.c, a.ring.resubmit, run, k);
    } else if a.Appending? && a.append.Submit? {
      SubmitAttempted(s.log, s.sync.epoch, a.append.blocks * BLOCK, run, k);
    } else {
      QuietLog(s, a);
      QuietAttempted(s.log, Do(s, a).log, run, k);
    }
  }

  lemma {:induction false} AttemptedAlways(states: seq<State>, run: seq<Action>, k: nat)
    requires Behavior(states, run) && k <= |run|
    ensures Attempted(states[k].log, run, k)
  {
    if k > 0 {
      AttemptedAlways(states, run, k - 1);
      AttemptedAt(states, run, k - 1);
    }
  }

  lemma {:induction false} AttemptedAt(states: seq<State>, run: seq<Action>, k: nat)
    requires Behavior(states, run) && k < |run| && Attempted(states[k].log, run, k)
    ensures Attempted(states[k + 1].log, run, k + 1)
  {
    BehaviorInv(states, run, k);
    assert StepAt(states, run, k);
    AttemptedStep(states[k], run, k);
  }

  /** Every reap of every run does what `TakenOff` says: a cancelled write is tried again up to six times. */
  lemma {:induction false} EveryReap(states: seq<State>, run: seq<Action>, k: nat)
    requires Behavior(states, run) && k < |run| && run[k].Ring? && run[k].ring.Reap?
    ensures var r, log := run[k].ring.c, states[k].log;
      r in log.completed && r in log.recs && TakenOff(log, r, run[k].ring.resubmit, states[k + 1].log)
  {
    var r, log := run[k].ring.c, states[k].log;
    LogAt(states, run, k);
    assert StepAt(states, run, k);
    assert Issued(log, r, log.completed[r].w);
    ReapDoes(log, r, run[k].ring.resubmit);
  }

  // ----- causes -----

  /** Step `c` can make the log fail. */
  ghost predicate CauseAt(states: seq<State>, run: seq<Action>, c: nat)
    requires c < |run| < |states|
  {
    match run[c]
    case Ring(Complete(r, outcome)) =>
      outcome.Short? || outcome.Failed? || (outcome.Cancelled? && Cancellations(run, c, r) == 5)  // the sixth
    case Ring(Reap(_, r, resubmit)) =>
      && r in states[c].log.completed && states[c].log.completed[r].outcome.Cancelled?
      && states[c].log.completed[r].w.attempts < 6 && !resubmit.Queued?
    case Ring(DrainTimeout(_)) => true
    case _ => false
  }

  predicate IsReplace(a: Action) { a.Clear? && a.clear.Replace? }

  /** The log file has not been replaced from step `c` up to step `k`. */
  predicate SameFile(run: seq<Action>, c: nat, k: nat)
    requires k <= |run|
  {
    forall j | c <= j < k :: !IsReplace(run[j])
  }

  ghost predicate Caused(states: seq<State>, run: seq<Action>, k: nat)
    requires k <= |run| < |states|
  {
    exists c: nat :: c < k && CauseAt(states, run, c) && SameFile(run, c, k)
  }

  /** Step `c` delivered the completion of `r` the log still holds. */
  ghost predicate DeliveredAt(states: seq<State>, run: seq<Action>, k: nat, r: RecId, c: nat)
    requires k <= |run| < |states| && r in states[k].log.completed
  {
    && c < k && run[c] == Ring(Complete(r, states[k].log.completed[r].outcome)) && SameFile(run, c, k)
    && (states[k].log.completed[r].outcome.Cancelled? ==> Cancellations(run, c, r) + 1 == states[k].log.completed[r].w.attempts)
  }

  ghost predicate Delivered(states: seq<State>, run: seq<Action>, k: nat, r: RecId)
    requires k <= |run| < |states|
  {
    r in states[k].log.completed ==> exists c: nat :: DeliveredAt(states, run, k, r, c)
  }

  ghost predicate AllDelivered(states: seq<State>, run: seq<Action>, k: nat)
    requires k <= |run| < |states|
  {
    forall r: RecId :: Delivered(states, run, k, r)
  }

  ghost predicate Explained(states: seq<State>, run: seq<Action>, k: nat)
    requires k <= |run| < |states|
  {
    (states[k].log.failure ==> Caused(states, run, k)) && AllDelivered(states, run, k)
  }

  lemma {:induction false} CausedLater(states: seq<State>, run: seq<Action>, k: nat)
    requires k < |run| < |states| && Caused(states, run, k) && !IsReplace(run[k])
    ensures Caused(states, run, k + 1)
  {
    var c: nat :| c < k && CauseAt(states, run, c) && SameFile(run, c, k);
    assert SameFile(run, c, k + 1);
  }

  lemma {:induction false} CausedNow(states: seq<State>, run: seq<Action>, k: nat)
    requires k < |run| < |states| && CauseAt(states, run, k)
    ensures Caused(states, run, k + 1)
  {
    assert SameFile(run, k, k + 1);
  }

  lemma {:induction false} DeliveredLater(states: seq<State>, run: seq<Action>, k: nat, r: RecId)
    requires k < |run| < |states| && r in states[k].log.completed && r in states[k + 1].log.completed
    requires states[k + 1].log.completed[r] == states[k].log.completed[r] && !IsReplace(run[k])
    requires Delivered(states, run, k, r)
    ensures Delivered(states, run, k + 1, r)
  {
    var c: nat :| DeliveredAt(states, run, k, r, c);
    assert SameFile(run, c, k + 1);
    assert DeliveredAt(states, run, k + 1, r, c);
  }

  lemma {:induction false} DeliveredNow(states: seq<State>, run: seq<Action>, k: nat, r: RecId, outcome: Outcome)
    requires k < |run| < |states| && run[k] == Ring(Complete(r, outcome)) && r in states[k].log.inflight
    requires Attempted(states[k].log, run, k)
    requires r in states[k + 1].log.completed && states[k + 1].log.completed[r] == Completion(states[k].log.inflight[r], outcome)
    ensures Delivered(states, run, k + 1, r)
  {
    assert SameFile(run, k, k + 1);
    assert DeliveredAt(states, run, k + 1, r, k);
  }

  /** Why reaping `r` at step `k` can make the log fail. */
  lemma {:induction false} ReapCaused(states: seq<State>, run: seq<Action>, k: nat, i: Tid, r: RecId, resubmit: Resubmit)
    requires k < |run| < |states| && run[k] == Ring(Reap(i, r, resubmit)) && r in states[k].log.completed
    requires states[k].log.completed[r].w.attempts <= 6 && !states[k].log.completed[r].outcome.Full?
    requires !(states[k].log.completed[r].outcome.Cancelled? && states[k].log.completed[r].w.attempts < 6 && resubmit.Queued?)
    requires Delivered(states, run, k, r)
    ensures Caused(states, run, k + 1)
  {
    var done := states[k].log.completed[r];
    if done.outcome.Cancelled? && done.w.attempts < 6 {
      CausedNow(states, run, k);
    } else {
      var c: nat :| DeliveredAt(states, run, k, r, c);
      assert CauseAt(states, run, c);
      CausedLater(states, run, k) by { assert Caused(states, run, k); }
    }
  }

  /** What a step does to the failure flag and the completions. */
  lemma FailureMoves(s: State, a: Action)
    requires Enabled(s, a) && !(a.Ring? && (a.ring.Complete? || a.ring.Reap?)) && !IsReplace(a)
    ensures var log, log' := s.log, Do(s, a).log;
      log'.completed == log.completed && (log'.failure ==> log.failure || (a.Ring? && a.ring.DrainTimeout?))
  {
  }

  lemma {:induction false} ExplainedAt(states: seq<State>, run: seq<Action>, k: nat)
    requires Behavior(states, run) && k < |run| && Explained(states, run, k)
    ensures Explained(states, run, k + 1)
  {
    AttemptedAlways(states, run, k);
    LogAt(states, run, k);
    assert StepAt(states, run, k);
    ExplainedStep(states, run, k);
  }

  lemma {:induction false} LogAt(states: seq<State>, run: seq<Action>, k: nat)
    requires Behavior(states, run) && k <= |run|
    ensures LogInv(states[k].log, states[k].sync.epoch)
  {
    BehaviorInv(states, run, k);
  }

  lemma {:induction false} ExplainedStep(states: seq<State>, run: seq<Action>, k: nat)
    requires k < |run| < |states| && StepAt(states, run, k) && Explained(states, run, k)
    requires Attempted(states[k].log, run, k) && LogInv(states[k].log, states[k].sync.epoch)
    ensures Explained(states, run, k + 1)
  {
    var a := run[k];
    if IsReplace(a) {
    } else if a.Ring? && a.ring.Complete? {
      DeliverExplained(states, run, k, a.ring.r, a.ring.outcome);
    } else if a.Ring? && a.ring.Reap? {
      assert Issued(states[k].log, a.ring.c, states[k].log.completed[a.ring.c].w);
      ReapExplained(states, run, k, a.ring.i, a.ring.c, a.ring.resubmit);
    } else {
      FailureMoves(states[k], a);
      QuietExplained(states, run, k);
    }
  }

  lemma {:induction false} DeliverExplained(states: seq<State>, run: seq<Action>, k: nat, r: RecId, outcome: Outcome)
    requires k < |run| < |states| && run[k] == Ring(Complete(r, outcome)) && Explained(states, run, k)
    requires Attempted(states[k].log, run, k) && r in states[k].log.inflight
    requires states[k + 1].log == Deliver(states[k].log, r, outcome)
    ensures Explained(states, run, k + 1)
  {
    if states[k].log.failure { CausedLater(states, run, k); }
    var k' := k + 1;
    forall q: RecId ensures Delivered(states, run, k', q) {
      if q == r {
        DeliveredNow(states, run, k, r, outcome);
      } else if q in states[k].log.completed {
        DeliveredLater(states, run, k, q);
      }
    }
  }

  lemma {:induction false} ReapExplained(states: seq<State>, run: seq<Action>, k: nat, i: Tid, r: RecId, resubmit: Resubmit)
    requires k < |run| < |states| && run[k] == Ring(Reap(i, r, resubmit)) && Explained(states, run, k)
    requires r in states[k].log.completed && states[k].log.completed[r].w.attempts <= 6
    requires states[k + 1].log == ReapOne(states[k].log, r, resubmit)
    ensures Explained(states, run, k + 1)
  {
    var log, log' := states[k].log, states[k + 1].log;
    ReapFails(log, r, resubmit);
    if log.failure {
      CausedLater(states, run, k);
    } else if log'.failure {
      assert Delivered(states, run, k, r);
      ReapCaused(states, run, k, i, r, resubmit);
    }
    DeliveredStay(states, run, k);
  }

  lemma ReapFails(log: Log, r: RecId, resubmit: Resubmit)
    requires r in log.completed
    ensures var c, log' := log.completed[r], ReapOne(log, r, resubmit);
      && log'.completed == log.completed - {r}
      && (log'.failure && !log.failure ==>
            !c.outcome.Full? && !(c.outcome.Cancelled? && c.w.attempts < 6 && resubmit.Queued?))
  {
  }

  lemma {:induction false} DeliveredStay(states: seq<State>, run: seq<Action>, k: nat)
    requires k < |run| < |states| && !IsReplace(run[k]) && AllDelivered(states, run, k)
    requires forall q | q in states[k + 1].log.completed ::
      q in states[k].log.completed && states[k].log.completed[q] == states[k + 1].log.completed[q]
    ensures AllDelivered(states, run, k + 1)
  {
    var k' := k + 1;
    forall q: RecId ensures Delivered(states, run, k', q) {
      if q in states[k + 1].log.completed { DeliveredLater(states, run, k, q); }
    }
  }

  lemma {:induction false} QuietExplained(states: seq<State>, run: seq<Action>, k: nat)
    requires k < |run| < |states| && Explained(states, run, k) && !IsReplace(run[k])
    requires states[k + 1].log.completed == states[k].log.completed
    requires states[k + 1].log.failure ==> states[k].log.failure || (run[k].Ring? && run[k].ring.DrainTimeout?)
    ensures Explained(states, run, k + 1)
  {
    if states[k].log.failure {
      CausedLater(states, run, k);
    } else if states[k + 1].log.failure {
      CausedNow(states, run, k);
    }
    DeliveredStay(states, run, k);
  }

  lemma {:induction false} ExplainedAlways(states: seq<State>, run: seq<Action>, k: nat)
    requires Behavior(states, run) && k <= |run|
    ensures Explained(states, run, k)
  {
    if k > 0 {
      ExplainedAlways(states, run, k - 1);
      ExplainedAt(states, run, k - 1);
    }
  }

  /**
    A recorded failure has a cause: since the log was opened or last replaced there was a short or
    failed write, a sixth cancellation of one record, a cancelled write that could not be submitted
    again, or a drain that timed out.
  */
  lemma {:induction false} FailureHasCause(states: seq<State>, run: seq<Action>, k: nat) returns (c: nat)
    requires Behavior(states, run) && k <= |run| && states[k].log.failure
    ensures c < k && CauseAt(states, run, c) && SameFile(run, c, k)
  {
    ExplainedAlways(states, run, k);
    c :| c < k && CauseAt(states, run, c) && SameFile(run, c, k);
  }

  // ----- a failed log -----

  lemma FailedStep(s: State, a: Action)
    requires Enabled(s, a) && s.log.failure && !IsReplace(a)
    ensures Do(s, a).log.failure && Do(s, a).log.recs == s.log.recs
  {
  }

  /** Once a failure is recorded it stays, and no record is added, until the log is replaced. */
  lemma {:induction false} FailedLogStops(states: seq<State>, run: seq<Action>, k: nat, n: nat)
    requires Behavior(states, run) && k <= n <= |run| && states[k].log.failure && SameFile(run, k, n)
    ensures states[n].log.failure && states[n].log.recs == states[k].log.recs
    decreases n
  {
    if k < n {
      FailedLogStops(states, run, k, n - 1);
      assert StepAt(states, run, n - 1) && !IsReplace(run[n - 1]);
      FailedStep(states[n - 1], run[n - 1]);
    }
  }
}
