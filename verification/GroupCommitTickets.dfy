/**
  What the tickets that the log hands out cover: an append's ends where the record just appended ends,
  sync()'s covers every record of the log so far.  And what clear() leaves behind.
*/
module GroupCommitTickets {
  import opened Wrappers
  import opened GroupCommit
  import opened GroupCommitInvariant
  import opened GroupCommitTheorems

  // ----- the ticket an append returns -----

  /** Record `r` is the last of the current log. */
  predicate Current(s: State, r: RecId) {
    r in s.log.recs && s.log.recs[r].epoch == s.sync.epoch && s.log.recs[r].End() == s.log.writeOffset
  }

  /** Thread `i` has submitted a record since its call, and holds mu_. */
  lemma ReapBegins(s: State, a: Action, i: Tid)
    requires Enabled(s, a) && At(Do(s, a), i).AppendReap? && !At(s, i).AppendReap?
    ensures a.Appending? && a.i == i && a.append.Submit?
  {
  }

  lemma SubmitIsCurrent(s: State, i: Tid, blocks: nat)
    requires Enabled(s, Appending(i, Submit(blocks)))
    ensures Current(Do(s, Appending(i, Submit(blocks))), s.log.nextId)
  {
  }

  lemma ReapHoldsMu(s: State, a: Action, i: Tid, r: RecId)
    requires Locks(s) && Enabled(s, a) && At(s, i).AppendReap? && Current(s, r)
    ensures Current(Do(s, a), r)
  {
    assert s.mu == Some(i);
  }

  /** While thread `i` is about to return its ticket: when it submitted, and which record. */
  lemma {:induction false} ReapStory(states: seq<State>, run: seq<Action>, k: nat, i: Tid) returns (j: nat)
    requires Behavior(states, run) && k <= |run| && At(states[k], i).AppendReap?
    ensures j < k && run[j].Appending? && run[j].i == i && run[j].append.Submit?
    ensures forall m | j < m <= k :: At(states[m], i).AppendReap?
    ensures Current(states[k], states[j].log.nextId)
  {
    NotAtStart(states, run, k, i);
    if At(states[k - 1], i).AppendReap? {
      j := ReapStory(states, run, k - 1, i);
      ReapGoesOn(states, run, k - 1, i, states[j].log.nextId);
    } else {
      j := k - 1;
      ReapBeginsAt(states, run, k - 1, i);
    }
  }

  lemma {:induction false} NotAtStart(states: seq<State>, run: seq<Action>, k: nat, i: Tid)
    requires Behavior(states, run) && k <= |run| && At(states[k], i).AppendReap?
    ensures k > 0
  {
  }

  lemma {:induction false} ReapGoesOn(states: seq<State>, run: seq<Action>, k: nat, i: Tid, r: RecId)
    requires Behavior(states, run) && k < |run| && At(states[k], i).AppendReap? && Current(states[k], r)
    ensures Current(states[k + 1], r)
  {
    BehaviorInv(states, run, k);
    assert StepAt(states, run, k);
    ReapHoldsMu(states[k], run[k], i, r);
  }

  lemma {:induction false} ReapBeginsAt(states: seq<State>, run: seq<Action>, k: nat, i: Tid)
    requires Behavior(states, run) && k < |run| && At(states[k + 1], i).AppendReap? && !At(states[k], i).AppendReap?
    ensures run[k].Appending? && run[k].i == i && run[k].append.Submit?
    ensures Current(states[k + 1], states[k].log.nextId)
  {
    assert StepAt(states, run, k);
    ReapBegins(states[k], run[k], i);
    SubmitIsCurrent(states[k], i, run[k].append.blocks);
  }

  /** What the step of returning a ticket adds. */
  lemma {:induction false} TicketAdded(states: seq<State>, run: seq<Action>, k: nat, i: Tid)
    requires Behavior(states, run) && k < |run| && run[k] == Appending(i, ReturnTicket)
    ensures At(states[k], i).AppendReap?
    ensures states[k + 1].tickets == states[k].tickets + {Ticket(states[k].sync.epoch, states[k].log.writeOffset)}
  {
    assert StepAt(states, run, k);
  }

  /**
    The ticket an append returns names the record it appended: it has that record's epoch and end.
    `j` is the step that submitted the record, since the call.
  */
  lemma {:induction false} AppendTicketCovers(states: seq<State>, run: seq<Action>, k: nat, i: Tid)
    returns (j: nat, t: Ticket)
    requires Behavior(states, run) && k < |run| && run[k] == Appending(i, ReturnTicket)
    ensures j < k && run[j].Appending? && run[j].i == i && run[j].append.Submit?
    ensures forall m | j < m <= k :: At(states[m], i).AppendReap?
    ensures states[k + 1].tickets == states[k].tickets + {t}
    ensures var r := states[j].log.nextId;
      && r in states[k].log.recs
      && t.epoch == states[k].log.recs[r].epoch && t.end == states[k].log.recs[r].End()
  {
    TicketAdded(states, run, k, i);
    j := ReapStory(states, run, k, i);
    t := Ticket(states[k].sync.epoch, states[k].log.writeOffset);
  }

  /** sync() takes a ticket that covers every record of the log so far. */
  lemma {:induction false} SyncTicketCovers(states: seq<State>, run: seq<Action>, k: nat, i: Tid, r: RecId)
    requires Behavior(states, run) && k < |run| && run[k] == Waiting(i, TakeTicket)
    requires r in states[k].log.recs && states[k].log.recs[r].epoch == states[k].sync.epoch
    ensures At(states[k + 1], i).WaitLock? && At(states[k + 1], i).t in states[k + 1].tickets
    ensures At(states[k + 1], i).t.epoch == states[k].sync.epoch && states[k].log.recs[r].End() <= At(states[k + 1], i).t.end
  {
    BehaviorInv(states, run, k);
    assert StepAt(states, run, k);
  }

  /**
    A durable append: when a wait for the ticket it returned ends normally, its own record is stable,
    or the log it was in has been replaced.
  */
  lemma {:induction false} DurableAppend(states: seq<State>, run: seq<Action>, k: nat, i: Tid, n: nat, w: Tid)
    returns (j: nat, t: Ticket)
    requires Behavior(states, run) && k < n < |run| && run[k] == Appending(i, ReturnTicket) && run[n] == Waiting(w, Return)
    ensures j < k && run[j].Appending? && run[j].i == i && run[j].append.Submit?
    ensures states[k + 1].tickets == states[k].tickets + {t}
    ensures At(states[n], w).WaitTest?
    ensures At(states[n], w).t == t ==> t.epoch < states[n].sync.fileEpoch || StableBefore(run, n, states[j].log.nextId)
  {
    j, t := AppendTicketCovers(states, run, k, i);
    var r := states[j].log.nextId;
    RecordStays(states, run, k, n, r);
    WaitDurableIsSafe(states, run, n, w, r);
  }

  lemma RecordKept(s: State, a: Action, r: RecId)
    requires Enabled(s, a) && r in s.log.recs && (forall q | q in s.log.recs :: q < s.log.nextId)
    ensures r in Do(s, a).log.recs && Do(s, a).log.recs[r] == s.log.recs[r]
  {
  }

  /** A record's place never changes. */
  lemma {:induction false} RecordStays(states: seq<State>, run: seq<Action>, k: nat, n: nat, r: RecId)
    requires Behavior(states, run) && k <= n <= |run| && r in states[k].log.recs
    ensures r in states[n].log.recs && states[n].log.recs[r] == states[k].log.recs[r]
    decreases n
  {
    if k < n {
      RecordStays(states, run, k, n - 1, r);
      RecordKeptAt(states, run, n - 1, r);
    }
  }

  lemma {:induction false} RecordKeptAt(states: seq<State>, run: seq<Action>, k: nat, r: RecId)
    requires Behavior(states, run) && k < |run| && r in states[k].log.recs
    ensures r in states[k + 1].log.recs && states[k + 1].log.recs[r] == states[k].log.recs[r]
  {
    BehaviorInv(states, run, k);
    assert StepAt(states, run, k);
    RecordKept(states[k], run[k], r);
  }

  // ----- a replaced log -----

  /** clear() leaves an empty log at offset zero, nothing outstanding and no failure, in the new epoch. */
  lemma {:induction false} ReplacedLogIsFresh(states: seq<State>, run: seq<Action>, k: nat, i: Tid)
    requires Behavior(states, run) && k < |run| && run[k] == Clear(i, Replace)
    ensures var log := states[k + 1].log;
      && log.writeOffset == 0 && !log.failure && log.pending == 0 && log.inflight == map[] && log.completed == map[]
    ensures states[k + 1].sync.fileEpoch == states[k + 1].sync.epoch == states[k].sync.fileEpoch + 1
    ensures forall r | r in states[k].log.recs :: states[k].log.recs[r].epoch < states[k + 1].sync.epoch
  {
    ControlAt(states, run, k);
    EpochIsNext(states, run, k);
    FreshAt(states, run, k);
    assert StepAt(states, run, k);
  }

  lemma {:induction false} FreshAt(states: seq<State>, run: seq<Action>, k: nat)
    requires Behavior(states, run) && k <= |run|
    ensures Fresh(states[k])
  {
    BehaviorInv(states, run, k);
  }
}
