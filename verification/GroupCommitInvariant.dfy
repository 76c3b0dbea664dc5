/**
  The inductive invariant of the group-commit protocol, split by subject, and the
  lemmas that every enabled action keeps each part.
*/
module GroupCommitInvariant {
  import opened Wrappers
  import opened Bytes
  import opened GroupCommit

  /** Lock ownership is what the program counters say it is. */
  ghost predicate Locks(s: State) {
    && (forall i | 0 <= i < |s.threads| :: s.threads[i].HoldsMu() <==> s.mu == Some(i))
    && (forall i | 0 <= i < |s.threads| :: s.threads[i].HoldsSync() <==> s.syncMu == Some(i))
    && (s.mu.Some? ==> s.mu.value < |s.threads|)
    && (s.syncMu.Some? ==> s.syncMu.value < |s.threads|)
  }

  /** There is a leader exactly while a sync is in progress, and only one. */
  ghost predicate Leadership(s: State) {
    && (forall i | 0 <= i < |s.threads| :: s.threads[i].Lead? <==> s.sync.leader == Some(i))
    && (s.sync.inProgress <==> s.sync.leader.Some?)
    && (s.sync.leader.Some? ==> s.sync.leader.value < |s.threads|)
    && (forall i | 0 <= i < |s.threads| && s.threads[i].Lead? :: s.threads[i].e == s.sync.epoch)
  }

  /** Nobody sleeps without a leader to wake it; nobody clears while a leader runs. */
  ghost predicate Control(s: State) {
    && (forall i | 0 <= i < |s.threads| :: s.threads[i].Sleeps() ==> s.sync.inProgress)
    && (forall i | 0 <= i < |s.threads| :: s.threads[i].Clearing() ==> !s.sync.inProgress && s.sync.durableEnd == 0)
    && (forall i | 0 <= i < |s.threads| :: s.threads[i].Replacing() ==> s.sync.fileEpoch < s.sync.epoch)
    && s.sync.fileEpoch <= s.sync.epoch
    && (s.sync.fileEpoch < s.sync.epoch ==> s.mu.Some? && At(s, s.mu.value).Replacing())
  }

  /** The completion counter counts exactly the writes the kernel still owes an answer for. */
  ghost predicate Counted(log: Log) {
    && log.pending == |log.inflight.Keys| + |log.completed.Keys|
    && (forall r | r in log.inflight :: r !in log.completed)
  }

  /** A buffer is freed only once its write is out of the kernel's hands. */
  ghost predicate Owned(log: Log) {
    && (forall r | r in log.inflight :: r in log.recs && r !in log.freed)
    && (forall r | r in log.completed :: r in log.recs && r !in log.freed)
    && (forall r | r in log.freed :: r in log.recs)
    && (forall r | r in log.landed :: r in log.recs)
    && (forall r | r in log.recs :: r < log.nextId)
  }

  /** `w` is the request first issued for `r`, submitted no more than the limit. */
  predicate Issued(log: Log, r: RecId, w: Write) {
    && r in log.recs
    && w.off == log.recs[r].off && w.bytes == log.recs[r].bytes
    && 1 <= w.attempts <= MAX_WRITE_ATTEMPTS
  }

  ghost predicate Requests(log: Log) {
    && (forall r | r in log.inflight :: Issued(log, r, log.inflight[r]))
    && (forall r | r in log.completed :: Issued(log, r, log.completed[r].w))
    && (forall r | r in log.completed :: log.completed[r].outcome.Full? ==> r in log.landed)
  }

  /** A record of the current log has landed, is still owed an answer, or has failed the log. */
  ghost predicate Accounted(log: Log, epoch: nat) {
    && (forall r | r in log.recs :: log.recs[r].epoch <= epoch)
    && (forall r | r in log.recs && log.recs[r].epoch == epoch ::
          r in log.landed || r in log.inflight || r in log.completed || log.failure)
  }

  /** Records tile the log in disjoint intervals, in submission order. */
  ghost predicate Tiled(log: Log, epoch: nat) {
    && (forall r | r in log.recs :: log.recs[r].bytes > 0)
    && (forall r | r in log.recs && log.recs[r].epoch == epoch :: log.recs[r].End() <= log.writeOffset)
    && (forall q, r | q in log.recs && r in log.recs && q < r && log.recs[q].epoch == log.recs[r].epoch ::
          log.recs[q].End() <= log.recs[r].off)
  }

  /** Every record starts on a block boundary and fills whole blocks. */
  ghost predicate Aligned(log: Log) {
    && log.writeOffset % BLOCK == 0
    && (forall r | r in log.recs :: log.recs[r].off % BLOCK == 0 && log.recs[r].bytes % BLOCK == 0)
  }

  /** Every ticket of the current epoch names a position the log has reached. */
  ghost predicate Ticketed(s: State) {
    && (forall t | t in s.tickets :: t.epoch <= s.sync.epoch && (t.epoch == s.sync.epoch ==> t.end <= s.log.writeOffset))
    && (forall i | 0 <= i < |s.threads| && s.threads[i].Waits() :: s.threads[i].t in s.tickets)
    && s.acked <= s.tickets
  }

  /** While the log is being replaced, nothing belongs to the new epoch yet. */
  ghost predicate Fresh(s: State) {
    s.sync.fileEpoch < s.sync.epoch ==>
      && (forall r | r in s.log.recs :: s.log.recs[r].epoch < s.sync.epoch)
      && (forall t | t in s.tickets :: t.epoch < s.sync.epoch)
  }

  /** Every record of epoch `e` ending at or before `end` is in `done`. */
  ghost predicate Covers(log: Log, e: nat, end: nat, done: set<RecId>) {
    forall r | r in log.recs && log.recs[r].epoch == e && log.recs[r].End() <= end :: r in done
  }

  /** What the leader has established at each point of its work. */
  ghost predicate LeaderKnows(log: Log, e: nat, stage: Stage) {
    match stage
    case Decide => log.failure || Covers(log, e, log.writeOffset, log.landed)
    case Begin(target) => target <= log.writeOffset && Covers(log, e, target, log.landed)
    case Syncing(target, covered) => target <= log.writeOffset && Covers(log, e, target, covered)
    case Finish(target, ok) => ok ==> target <= log.writeOffset && Covers(log, e, target, log.synced)
    case _ => true
  }

  ghost predicate Durable(s: State) {
    && s.sync.durableEnd <= s.log.writeOffset
    && Covers(s.log, s.sync.epoch, s.sync.durableEnd, s.log.synced)
    && (s.sync.leader.Some? && At(s, s.sync.leader.value).Lead? ==>
          LeaderKnows(s.log, s.sync.epoch, At(s, s.sync.leader.value).stage))
  }

  /** What a normal return of waitDurable(t) promises, from then on. */
  ghost predicate Promise(log: Log, fileEpoch: nat, t: Ticket) {
    t.epoch < fileEpoch || Covers(log, t.epoch, t.end, log.synced)
  }

  ghost predicate Promises(s: State) {
    forall t | t in s.acked :: Promise(s.log, s.sync.fileEpoch, t)
  }

  /** One call of waitDurable makes at most one fdatasync, and its target reaches the ticket. */
  ghost predicate OneSync(y: Sync, pc: Pc) {
    match pc
    case WaitLock(t, n) => n == 0
    case WaitTest(t, n) => n == 0 || (n == 1 && Satisfied(y, t))
    case WaitSleep(t, n) => n == 0
    case Lead(t, n, e, stage) =>
      t.epoch == y.epoch &&
      (match stage
       case Begin(target) => n == 0 && t.end <= target
       case Syncing(target, covered) => n == 1 && t.end <= target
       case Finish(target, ok) => n <= 1 && (ok ==> n == 1 && t.end <= target)
       case _ => n == 0)
    case _ => true
  }

  ghost predicate OneSyncEach(s: State) {
    forall i | 0 <= i < |s.threads| :: OneSync(s.sync, s.threads[i])
  }

  ghost predicate Inv(s: State) {
    && Locks(s) && Leadership(s) && Control(s)
    && LogInv(s.log, s.sync.epoch) && Aligned(s.log)
    && Ticketed(s) && Fresh(s) && Durable(s) && Promises(s) && OneSyncEach(s)
  }

  lemma InitInv(s: State)
    requires Init(s)
    ensures Inv(s)
  {
  }

  // ---- the log on its own ----------------------------------------------------------

  ghost predicate LogInv(log: Log, epoch: nat) {
    Counted(log) && Owned(log) && Requests(log) && Accounted(log, epoch) && Tiled(log, epoch)
  }

  lemma KeysUpdate<K, V>(m: map<K, V>, k: K, v: V)
    ensures m[k := v].Keys == m.Keys + {k}
    ensures |m[k := v].Keys| == if k in m then |m.Keys| else |m.Keys| + 1
  {
    assert m[k := v].Keys == m.Keys + {k};
  }

  lemma KeysRemove<K, V>(m: map<K, V>, k: K)
    requires k in m
    ensures |(m - {k}).Keys| == |m.Keys| - 1
  {
    assert (m - {k}).Keys == m.Keys - {k};
  }

  lemma SubmitKeepsCounts(log: Log, epoch: nat, bytes: nat)
    requires Counted(log) && Owned(log)
    ensures var log' := SubmitRecord(log, epoch, bytes); Counted(log') && Owned(log')
  {
    KeysUpdate(log.inflight, log.nextId, Write(1, log.writeOffset, bytes));
  }

  lemma SubmitKeepsRecords(log: Log, epoch: nat, blocks: nat)
    requires Owned(log) && Requests(log) && Accounted(log, epoch)
    ensures var log' := SubmitRecord(log, epoch, blocks * BLOCK);
            Requests(log') && Accounted(log', epoch)
  {
  }

  lemma SubmitKeepsTiling(log: Log, epoch: nat, blocks: nat)
    requires Owned(log) && Accounted(log, epoch) && Tiled(log, epoch) && blocks >= 1
    ensures Tiled(SubmitRecord(log, epoch, blocks * BLOCK), epoch)
  {
  }

  lemma DeliverKeepsCounts(log: Log, r: RecId, outcome: Outcome)
    requires Counted(log) && Owned(log) && r in log.inflight
    ensures var log' := Deliver(log, r, outcome); Counted(log') && Owned(log')
  {
    KeysRemove(log.inflight, r);
    KeysUpdate(log.completed, r, Completion(log.inflight[r], outcome));
  }

  lemma DeliverKeepsRecords(log: Log, epoch: nat, r: RecId, outcome: Outcome)
    requires LogInv(log, epoch) && r in log.inflight
    ensures var log' := Deliver(log, r, outcome);
            Requests(log') && Accounted(log', epoch) && Tiled(log', epoch)
  {
  }

  lemma ReapKeepsCounts(log: Log, r: RecId, resubmit: Resubmit)
    requires Counted(log) && Owned(log) && r in log.completed
    ensures var log' := ReapOne(log, r, resubmit); Counted(log') && Owned(log')
  {
    KeysRemove(log.completed, r);
    var w := log.completed[r].w;
    KeysUpdate(log.inflight, r, w.(attempts := w.attempts + 1));
  }

  lemma ReapKeepsRequests(log: Log, r: RecId, resubmit: Resubmit)
    requires Counted(log) && Requests(log) && r in log.completed
    ensures Requests(ReapOne(log, r, resubmit))
  {
  }

  lemma ReapKeepsAccounts(log: Log, epoch: nat, r: RecId, resubmit: Resubmit)
    requires Requests(log) && Accounted(log, epoch) && r in log.completed
    ensures Accounted(ReapOne(log, r, resubmit), epoch)
  {
  }

  lemma ReapKeepsRecords(log: Log, epoch: nat, r: RecId, resubmit: Resubmit)
    requires LogInv(log, epoch) && r in log.completed
    ensures var log' := ReapOne(log, r, resubmit);
            Requests(log') && Accounted(log', epoch) && Tiled(log', epoch)
  {
    ReapKeepsRequests(log, r, resubmit);
    ReapKeepsAccounts(log, epoch, r, resubmit);
  }

  lemma SubmitKeepsLog(log: Log, epoch: nat, blocks: nat)
    requires LogInv(log, epoch) && blocks >= 1
    ensures LogInv(SubmitRecord(log, epoch, blocks * BLOCK), epoch)
  {
    SubmitKeepsCounts(log, epoch, blocks * BLOCK);
    SubmitKeepsRecords(log, epoch, blocks);
    SubmitKeepsTiling(log, epoch, blocks);
  }

  /** A submission that fails leaves a hole. */
  lemma HoleKeepsLog(log: Log, epoch: nat, offset: nat)
    requires LogInv(log, epoch) && offset >= log.writeOffset
    ensures LogInv(log.(writeOffset := offset), epoch)
  {
  }

  lemma DeliverKeepsLog(log: Log, epoch: nat, r: RecId, outcome: Outcome)
    requires LogInv(log, epoch) && r in log.inflight
    ensures LogInv(Deliver(log, r, outcome), epoch)
  {
    DeliverKeepsCounts(log, r, outcome);
    DeliverKeepsRecords(log, epoch, r, outcome);
  }

  lemma ReapKeepsLog(log: Log, epoch: nat, r: RecId, resubmit: Resubmit)
    requires LogInv(log, epoch) && r in log.completed
    ensures LogInv(ReapOne(log, r, resubmit), epoch)
  {
    ReapKeepsCounts(log, r, resubmit);
    ReapKeepsRecords(log, epoch, r, resubmit);
  }

  lemma AppendKeepsLocks(s: State, i: Tid, a: AppendAction)
    requires Locks(s) && AppendEnabled(s, i, a)
    ensures var s' := AppendStep(s, i, a); Locks(s')
  {
  }

  lemma AppendKeepsLeadership(s: State, i: Tid, a: AppendAction)
    requires Locks(s) && Leadership(s) && Control(s) && AppendEnabled(s, i, a)
    ensures var s' := AppendStep(s, i, a); Leadership(s')
  {
  }

  lemma AppendKeepsControl(s: State, i: Tid, a: AppendAction)
    requires Locks(s) && Leadership(s) && Control(s) && AppendEnabled(s, i, a)
    ensures var s' := AppendStep(s, i, a); Control(s')
  {
  }

  lemma AppendKeepsTickets(s: State, i: Tid, a: AppendAction)
    requires Locks(s) && Leadership(s) && Control(s) && Ticketed(s) && Fresh(s) && OneSyncEach(s)
             && Accounted(s.log, s.sync.epoch) && AppendEnabled(s, i, a)
    ensures var s' := AppendStep(s, i, a); Ticketed(s') && Fresh(s') && OneSyncEach(s')
  {
  }

  lemma AppendKeepsDurable(s: State, i: Tid, a: AppendAction)
    requires Locks(s) && Leadership(s) && Durable(s) && Owned(s.log) && Tiled(s.log, s.sync.epoch) && AppendEnabled(s, i, a)
    ensures var s' := AppendStep(s, i, a); Durable(s')
  {
  }

  lemma AppendKeepsPromises(s: State, i: Tid, a: AppendAction)
    requires Promises(s) && Ticketed(s) && Owned(s.log) && Accounted(s.log, s.sync.epoch) && AppendEnabled(s, i, a)
    ensures var s' := AppendStep(s, i, a); Promises(s')
  {
  }

  lemma RingKeepsLocks(s: State, a: RingAction)
    requires Locks(s) && RingEnabled(s, a)
    ensures var s' := RingStep(s, a); Locks(s')
  {
  }

  lemma RingKeepsLeadership(s: State, a: RingAction)
    requires Locks(s) && Leadership(s) && Control(s) && RingEnabled(s, a)
    ensures var s' := RingStep(s, a); Leadership(s')
  {
  }

  lemma RingKeepsControl(s: State, a: RingAction)
    requires Locks(s) && Leadership(s) && Control(s) && RingEnabled(s, a)
    ensures var s' := RingStep(s, a); Control(s')
  {
  }

  lemma RingKeepsTickets(s: State, a: RingAction)
    requires Locks(s) && Leadership(s) && Control(s) && Ticketed(s) && Fresh(s) && OneSyncEach(s)
             && Accounted(s.log, s.sync.epoch) && RingEnabled(s, a)
    ensures var s' := RingStep(s, a); Ticketed(s') && Fresh(s') && OneSyncEach(s')
  {
  }

  lemma RingKeepsDurable(s: State, a: RingAction)
    requires Locks(s) && Leadership(s) && Durable(s) && Counted(s.log) && Accounted(s.log, s.sync.epoch) && RingEnabled(s, a)
    ensures var s' := RingStep(s, a); Durable(s')
  {
  }

  lemma RingKeepsPromises(s: State, a: RingAction)
    requires Promises(s) && RingEnabled(s, a)
    ensures var s' := RingStep(s, a); Promises(s')
  {
  }

  lemma WaitKeepsLocks(s: State, i: Tid, a: WaitAction)
    requires Locks(s) && WaitEnabled(s, i, a)
    ensures var s' := WaitStep(s, i, a); Locks(s')
  {
  }

  lemma WaitKeepsLeadership(s: State, i: Tid, a: WaitAction)
    requires Locks(s) && Leadership(s) && Control(s) && WaitEnabled(s, i, a)
    ensures var s' := WaitStep(s, i, a); Leadership(s')
  {
  }

  lemma WaitKeepsControl(s: State, i: Tid, a: WaitAction)
    requires Locks(s) && Leadership(s) && Control(s) && WaitEnabled(s, i, a)
    ensures var s' := WaitStep(s, i, a); Control(s')
  {
  }

  lemma WaitKeepsTicketed(s: State, i: Tid, a: WaitAction)
    requires Locks(s) && Leadership(s) && Control(s) && Ticketed(s) && Fresh(s) && OneSyncEach(s)
             && Accounted(s.log, s.sync.epoch) && WaitEnabled(s, i, a)
    ensures Ticketed(WaitStep(s, i, a))
  {
  }

  lemma WaitKeepsFresh(s: State, i: Tid, a: WaitAction)
    requires Locks(s) && Leadership(s) && Control(s) && Ticketed(s) && Fresh(s) && OneSyncEach(s)
             && Accounted(s.log, s.sync.epoch) && WaitEnabled(s, i, a)
    ensures Fresh(WaitStep(s, i, a))
  {
  }

  lemma WaitKeepsOneSync(s: State, i: Tid, a: WaitAction)
    requires Locks(s) && Leadership(s) && Control(s) && Ticketed(s) && Fresh(s) && OneSyncEach(s)
             && Accounted(s.log, s.sync.epoch) && WaitEnabled(s, i, a)
    ensures OneSyncEach(WaitStep(s, i, a))
  {
  }

  lemma WaitKeepsTickets(s: State, i: Tid, a: WaitAction)
    requires Locks(s) && Leadership(s) && Control(s) && Ticketed(s) && Fresh(s) && OneSyncEach(s)
             && Accounted(s.log, s.sync.epoch) && WaitEnabled(s, i, a)
    ensures var s' := WaitStep(s, i, a); Ticketed(s') && Fresh(s') && OneSyncEach(s')
  {
    WaitKeepsTicketed(s, i, a);
    WaitKeepsFresh(s, i, a);
    WaitKeepsOneSync(s, i, a);
  }

  lemma WaitKeepsDurable(s: State, i: Tid, a: WaitAction)
    requires Locks(s) && Leadership(s) && Durable(s) && WaitEnabled(s, i, a)
    ensures var s' := WaitStep(s, i, a); Durable(s')
  {
  }

  lemma WaitKeepsPromises(s: State, i: Tid, a: WaitAction)
    requires Promises(s) && Locks(s) && Control(s) && Ticketed(s) && Durable(s) && WaitEnabled(s, i, a)
    ensures var s' := WaitStep(s, i, a); Promises(s')
  {
  }

  lemma LeadKeepsLocks(s: State, i: Tid, a: LeadAction)
    requires Locks(s) && LeadEnabled(s, i, a)
    ensures var s' := LeadStep(s, i, a); Locks(s')
  {
  }

  lemma LeadKeepsLeadership(s: State, i: Tid, a: LeadAction)
    requires Locks(s) && Leadership(s) && Control(s) && LeadEnabled(s, i, a)
    ensures var s' := LeadStep(s, i, a); Leadership(s')
  {
  }

  lemma LeadKeepsControl(s: State, i: Tid, a: LeadAction)
    requires Locks(s) && Leadership(s) && Control(s) && LeadEnabled(s, i, a)
    ensures var s' := LeadStep(s, i, a); Control(s')
  {
  }

  lemma LeadKeepsTicketed(s: State, i: Tid, a: LeadAction)
    requires Locks(s) && Leadership(s) && Control(s) && Ticketed(s) && Fresh(s) && OneSyncEach(s)
             && Accounted(s.log, s.sync.epoch) && LeadEnabled(s, i, a)
    ensures Ticketed(LeadStep(s, i, a))
  {
  }

  lemma LeadKeepsFresh(s: State, i: Tid, a: LeadAction)
    requires Locks(s) && Leadership(s) && Control(s) && Ticketed(s) && Fresh(s) && OneSyncEach(s)
             && Accounted(s.log, s.sync.epoch) && LeadEnabled(s, i, a)
    ensures Fresh(LeadStep(s, i, a))
  {
  }

  lemma LeadKeepsOneSync(s: State, i: Tid, a: LeadAction)
    requires Locks(s) && Leadership(s) && Control(s) && Ticketed(s) && Fresh(s) && OneSyncEach(s)
             && Accounted(s.log, s.sync.epoch) && LeadEnabled(s, i, a)
    ensures OneSyncEach(LeadStep(s, i, a))
  {
  }

  lemma LeadKeepsTickets(s: State, i: Tid, a: LeadAction)
    requires Locks(s) && Leadership(s) && Control(s) && Ticketed(s) && Fresh(s) && OneSyncEach(s)
             && Accounted(s.log, s.sync.epoch) && LeadEnabled(s, i, a)
    ensures var s' := LeadStep(s, i, a); Ticketed(s') && Fresh(s') && OneSyncEach(s')
  {
    LeadKeepsTicketed(s, i, a);
    LeadKeepsFresh(s, i, a);
    LeadKeepsOneSync(s, i, a);
  }

  lemma LeadKeepsDurable(s: State, i: Tid, a: LeadAction)
    requires Locks(s) && Leadership(s) && Control(s) && Durable(s) && LeadEnabled(s, i, a)
    ensures var s' := LeadStep(s, i, a); Durable(s')
  {
  }

  lemma LeadKeepsPromises(s: State, i: Tid, a: LeadAction)
    requires Promises(s) && LeadEnabled(s, i, a)
    ensures var s' := LeadStep(s, i, a); Promises(s')
  {
  }

  lemma TakeMuKeepsLocks(s: State, i: Tid)
    requires Locks(s) && ClearEnabled(s, i, TakeMu)
    ensures Locks(ClearStep(s, i, TakeMu))
  {
  }

  lemma ClearKeepsLocks(s: State, i: Tid, a: ClearAction)
    requires Locks(s) && ClearEnabled(s, i, a)
    ensures var s' := ClearStep(s, i, a); Locks(s')
  {
    if a.TakeMu? { TakeMuKeepsLocks(s, i); }
  }

  lemma ClearKeepsLeadership(s: State, i: Tid, a: ClearAction)
    requires Locks(s) && Leadership(s) && Control(s) && ClearEnabled(s, i, a)
    ensures var s' := ClearStep(s, i, a); Leadership(s')
  {
  }

  lemma ClearKeepsControl(s: State, i: Tid, a: ClearAction)
    requires Locks(s) && Leadership(s) && Control(s) && ClearEnabled(s, i, a)
    ensures var s' := ClearStep(s, i, a); Control(s')
  {
  }

  lemma ClearKeepsTicketed(s: State, i: Tid, a: ClearAction)
    requires Locks(s) && Leadership(s) && Control(s) && Ticketed(s) && Fresh(s) && OneSyncEach(s)
             && Accounted(s.log, s.sync.epoch) && ClearEnabled(s, i, a)
    ensures Ticketed(ClearStep(s, i, a))
  {
  }

  lemma ClearKeepsFresh(s: State, i: Tid, a: ClearAction)
    requires Locks(s) && Leadership(s) && Control(s) && Ticketed(s) && Fresh(s) && OneSyncEach(s)
             && Accounted(s.log, s.sync.epoch) && ClearEnabled(s, i, a)
    ensures Fresh(ClearStep(s, i, a))
  {
  }

  lemma ClearKeepsOneSync(s: State, i: Tid, a: ClearAction)
    requires Locks(s) && Leadership(s) && Control(s) && Ticketed(s) && Fresh(s) && OneSyncEach(s)
             && Accounted(s.log, s.sync.epoch) && ClearEnabled(s, i, a)
    ensures OneSyncEach(ClearStep(s, i, a))
  {
  }

  lemma ClearKeepsTickets(s: State, i: Tid, a: ClearAction)
    requires Locks(s) && Leadership(s) && Control(s) && Ticketed(s) && Fresh(s) && OneSyncEach(s)
             && Accounted(s.log, s.sync.epoch) && ClearEnabled(s, i, a)
    ensures var s' := ClearStep(s, i, a); Ticketed(s') && Fresh(s') && OneSyncEach(s')
  {
    ClearKeepsTicketed(s, i, a);
    ClearKeepsFresh(s, i, a);
    ClearKeepsOneSync(s, i, a);
  }

  lemma ClearKeepsDurable(s: State, i: Tid, a: ClearAction)
    requires Locks(s) && Leadership(s) && Control(s) && Durable(s) && Fresh(s) && Accounted(s.log, s.sync.epoch) && ClearEnabled(s, i, a)
    ensures var s' := ClearStep(s, i, a); Durable(s')
  {
  }

  lemma ClearKeepsPromises(s: State, i: Tid, a: ClearAction)
    requires Promises(s) && Control(s) && ClearEnabled(s, i, a)
    ensures var s' := ClearStep(s, i, a); Promises(s')
  {
  }

  lemma AppendKeepsLog(s: State, i: Tid, a: AppendAction)
    requires LogInv(s.log, s.sync.epoch) && AppendEnabled(s, i, a)
    ensures var s' := AppendStep(s, i, a); LogInv(s'.log, s'.sync.epoch)
  {
    var log, e := s.log, s.sync.epoch;
    match a {
      case Submit(blocks) => SubmitKeepsLog(log, e, blocks);
      case SubmitFail(blocks) =>
        HoleKeepsLog(log, e, log.writeOffset + blocks * BLOCK);
      case CallAppend => assert AppendStep(s, i, a).log == log;
      case Enter => assert AppendStep(s, i, a).log == log;
      case Refuse => assert AppendStep(s, i, a).log == log;
      case ReturnTicket => assert AppendStep(s, i, a).log == log;
    }
  }

  lemma AppendKeepsAlignment(s: State, i: Tid, a: AppendAction)
    requires Aligned(s.log) && AppendEnabled(s, i, a)
    ensures Aligned(AppendStep(s, i, a).log)
  {
  }

  lemma AppendKeeps(s: State, i: Tid, a: AppendAction)
    requires Inv(s) && AppendEnabled(s, i, a)
    ensures Inv(AppendStep(s, i, a))
  {
    AppendKeepsLocks(s, i, a); AppendKeepsLeadership(s, i, a); AppendKeepsControl(s, i, a);
    AppendKeepsLog(s, i, a); AppendKeepsAlignment(s, i, a); AppendKeepsTickets(s, i, a);
    AppendKeepsDurable(s, i, a); AppendKeepsPromises(s, i, a);
  }

  lemma RingKeepsLog(s: State, a: RingAction)
    requires LogInv(s.log, s.sync.epoch) && RingEnabled(s, a)
    ensures var s' := RingStep(s, a); LogInv(s'.log, s'.sync.epoch)
  {
    match a {
      case Complete(r, outcome) =>
        DeliverKeepsLog(s.log, s.sync.epoch, r, outcome);
      case Reap(i, r, resubmit) =>
        ReapKeepsLog(s.log, s.sync.epoch, r, resubmit);
      case _ =>
    }
  }

  lemma RingKeepsAlignment(s: State, a: RingAction)
    requires Aligned(s.log) && RingEnabled(s, a)
    ensures Aligned(RingStep(s, a).log)
  {
  }

  lemma RingKeeps(s: State, a: RingAction)
    requires Inv(s) && RingEnabled(s, a)
    ensures Inv(RingStep(s, a))
  {
    RingKeepsLocks(s, a); RingKeepsLeadership(s, a); RingKeepsControl(s, a);
    RingKeepsLog(s, a); RingKeepsAlignment(s, a); RingKeepsTickets(s, a);
    RingKeepsDurable(s, a); RingKeepsPromises(s, a);
  }

  lemma WaitKeepsLog(s: State, i: Tid, a: WaitAction)
    requires LogInv(s.log, s.sync.epoch) && WaitEnabled(s, i, a)
    ensures var s' := WaitStep(s, i, a); LogInv(s'.log, s'.sync.epoch)
  {
  }

  lemma WaitKeepsAlignment(s: State, i: Tid, a: WaitAction)
    requires Aligned(s.log) && WaitEnabled(s, i, a)
    ensures Aligned(WaitStep(s, i, a).log)
  {
  }

  lemma WaitKeeps(s: State, i: Tid, a: WaitAction)
    requires Inv(s) && WaitEnabled(s, i, a)
    ensures Inv(WaitStep(s, i, a))
  {
    WaitKeepsLocks(s, i, a); WaitKeepsLeadership(s, i, a); WaitKeepsControl(s, i, a);
    WaitKeepsLog(s, i, a); WaitKeepsAlignment(s, i, a); WaitKeepsTickets(s, i, a);
    WaitKeepsDurable(s, i, a); WaitKeepsPromises(s, i, a);
  }

  lemma LeadKeepsLog(s: State, i: Tid, a: LeadAction)
    requires LogInv(s.log, s.sync.epoch) && LeadEnabled(s, i, a)
    ensures var s' := LeadStep(s, i, a); LogInv(s'.log, s'.sync.epoch)
  {
  }

  lemma LeadKeepsAlignment(s: State, i: Tid, a: LeadAction)
    requires Aligned(s.log) && LeadEnabled(s, i, a)
    ensures Aligned(LeadStep(s, i, a).log)
  {
  }

  lemma LeadKeeps(s: State, i: Tid, a: LeadAction)
    requires Inv(s) && LeadEnabled(s, i, a)
    ensures Inv(LeadStep(s, i, a))
  {
    LeadKeepsLocks(s, i, a); LeadKeepsLeadership(s, i, a); LeadKeepsControl(s, i, a);
    LeadKeepsLog(s, i, a); LeadKeepsAlignment(s, i, a); LeadKeepsTickets(s, i, a);
    LeadKeepsDurable(s, i, a); LeadKeepsPromises(s, i, a);
  }

  /** A recreated log holds nothing of the new epoch. */
  lemma RecreateKeepsLog(log: Log, epoch: nat)
    requires LogInv(log, epoch) && forall r | r in log.recs :: log.recs[r].epoch < epoch
    ensures LogInv(Recreate(log), epoch)
  {
  }

  /** Nor does an epoch that has only just begun. */
  lemma NextEpochKeepsLog(log: Log, epoch: nat)
    requires LogInv(log, epoch)
    ensures LogInv(log, epoch + 1)
  {
  }

  lemma ClearKeepsLog(s: State, i: Tid, a: ClearAction)
    requires LogInv(s.log, s.sync.epoch) && Control(s) && Fresh(s) && ClearEnabled(s, i, a)
    ensures var s' := ClearStep(s, i, a); LogInv(s'.log, s'.sync.epoch)
  {
    match a
    case Replace => RecreateKeepsLog(s.log, s.sync.epoch);
    case TakeMu => NextEpochKeepsLog(s.log, s.sync.epoch);
    case _ =>
  }

  lemma ClearKeepsAlignment(s: State, i: Tid, a: ClearAction)
    requires Aligned(s.log) && ClearEnabled(s, i, a)
    ensures Aligned(ClearStep(s, i, a).log)
  {
  }

  lemma ClearKeeps(s: State, i: Tid, a: ClearAction)
    requires Inv(s) && ClearEnabled(s, i, a)
    ensures Inv(ClearStep(s, i, a))
  {
    ClearKeepsLocks(s, i, a); ClearKeepsLeadership(s, i, a); ClearKeepsControl(s, i, a);
    ClearKeepsLog(s, i, a); ClearKeepsAlignment(s, i, a); ClearKeepsTickets(s, i, a);
    ClearKeepsDurable(s, i, a); ClearKeepsPromises(s, i, a);
  }

  /** Every enabled action of any thread or of the kernel keeps the invariant. */
  lemma StepInv(s: State, a: Action)
    requires Inv(s) && Enabled(s, a)
    ensures Inv(Do(s, a))
  {
    match a
    case Appending(i, b) => AppendKeeps(s, i, b);
    case Ring(b) => RingKeeps(s, b);
    case Waiting(i, b) => WaitKeeps(s, i, b);
    case Leading(i, b) => LeadKeeps(s, i, b);
    case Clear(i, b) => ClearKeeps(s, i, b);
  }
}
