/**
  The write-ahead log's append / group-commit / clear protocol as a step system.

  Any number of threads run writeEntry, waitDurable, sync and clear.  Every step is
  either one action of one thread between two points at which another thread (or the
  kernel) can interfere, or one completion delivered by the kernel.  The kernel may
  complete any write in flight, in any order, with any outcome.

  Fields that mirror the source keep its meaning; `leader`, `fileEpoch`, `recs`, `landed`,
  `synced`, `freed`, `tickets` and `acked` are history the theorems speak about.
*/
module GroupCommit {
  import opened Wrappers
  import opened Bytes

  type Tid = nat
  type RecId = nat

  const MAX_WRITE_ATTEMPTS: nat := 6

  /** A log position: valid until the epoch changes. */
  datatype Ticket = Ticket(epoch: nat, end: nat)

  /** Where a record was placed when it was submitted. */
  datatype Rec = Rec(epoch: nat, off: nat, bytes: nat) {
    function End(): nat { off + bytes }
  }

  /** One request as the kernel holds it. */
  datatype Write = Write(attempts: nat, off: nat, bytes: nat)

  datatype Outcome = Full | Short | Failed | Cancelled

  datatype Completion = Completion(w: Write, outcome: Outcome)

  /** What resubmitting a cancelled write came to. */
  datatype Resubmit = Queued | NoSlot | SubmitFailed

  /** Program counters.  `t` is the ticket waited for, `n` the fdatasync calls made so far. */
  datatype Pc =
    | NoThread                                               // not a thread of this system
    | Idle
    | AppendWait                                             // wants mu_
    | AppendIn                                               // holds mu_
    | AppendReap                                             // holds mu_, record submitted
    | SyncWant                                               // sync(): wants mu_
    | WaitLock(t: Ticket, n: nat)                            // wants sync_mu_
    | WaitTest(t: Ticket, n: nat)                            // holds sync_mu_, top of the loop
    | WaitSleep(t: Ticket, n: nat)                           // inside sync_cv_.wait
    | Lead(t: Ticket, n: nat, e: nat, stage: Stage)          // group-commit leader
    | ClearLock                                              // wants sync_mu_
    | ClearTest                                              // holds sync_mu_
    | ClearSleep                                             // inside sync_cv_.wait
    | ClearWantMu                                            // holds sync_mu_, wants mu_
    | ClearDrain                                             // holds both, draining
    | ClearReset                                             // holds both, drained
  {
    predicate HoldsMu() {
      AppendIn? || AppendReap? || ClearDrain? || ClearReset? || (Lead? && (stage.Drain? || stage.Decide?))
    }
    predicate HoldsSync() { WaitTest? || ClearTest? || Clearing() }
    predicate Sleeps() { WaitSleep? || ClearSleep? }
    predicate Clearing() { ClearWantMu? || Replacing() }
    predicate Replacing() { ClearDrain? || ClearReset? }
    predicate Drains() { ClearDrain? || (Lead? && stage.Drain?) }
    predicate Reaps() { AppendReap? || Drains() }
    predicate Waits() { WaitLock? || WaitTest? || WaitSleep? || Lead? }
  }

  /** How far a leader has got. */
  datatype Stage =
    | Lock                                       // wants mu_
    | Drain                                      // holds mu_, draining
    | Decide                                     // holds mu_, drained
    | Begin(target: nat)                         // about to call fdatasync
    | Syncing(target: nat, covered: set<RecId>)  // inside fdatasync
    | Finish(target: nat, ok: bool)              // wants sync_mu_

  /** Group-commit state, guarded by sync_mu_ (epoch also by mu_). */
  datatype Sync = Sync(epoch: nat, durableEnd: nat, inProgress: bool, leader: Option<Tid>, fileEpoch: nat)

  /** Log and ring state, guarded by mu_, with the kernel's side of the ring. */
  datatype Log = Log(
    writeOffset: nat,
    pending: nat,
    failure: bool,
    inflight: map<RecId, Write>,
    completed: map<RecId, Completion>,
    nextId: RecId,
    recs: map<RecId, Rec>,
    landed: set<RecId>,
    synced: set<RecId>,
    freed: set<RecId>)

  datatype State = State(
    threads: seq<Pc>,
    mu: Option<Tid>,
    syncMu: Option<Tid>,
    sync: Sync,
    log: Log,
    tickets: set<Ticket>,
    acked: set<Ticket>)

  /** The program counter of thread `i`; `NoThread` when there is no such thread. */
  function At(s: State, i: Tid): Pc {
    if i < |s.threads| then s.threads[i] else NoThread
  }

  /** A log opened on a file that already holds a whole number of blocks. */
  ghost predicate Init(s: State) {
    && (forall i | 0 <= i < |s.threads| :: s.threads[i] == Idle)
    && s.mu == None && s.syncMu == None
    && s.sync == Sync(0, 0, false, None, 0)
    && s.log == Log(s.log.writeOffset, 0, false, map[], map[], 0, map[], {}, {}, {})
    && s.log.writeOffset % BLOCK == 0
    && s.tickets == {} && s.acked == {}
  }

  function Goto(s: State, i: Tid, pc: Pc): State
    requires i < |s.threads|
  {
    s.(threads := s.threads[i := pc])
  }

  function Awake(pc: Pc): Pc {
    match pc
    case WaitSleep(t, n) => WaitLock(t, n)
    case ClearSleep => ClearLock
    case _ => pc
  }

  /** notify_all: every sleeper goes back to contending for sync_mu_. */
  function NotifyAll(threads: seq<Pc>): (r: seq<Pc>)
    ensures |r| == |threads|
    ensures forall i | 0 <= i < |r| :: r[i] == Awake(threads[i])
  {
    seq(|threads|, i requires 0 <= i < |threads| => Awake(threads[i]))
  }

  // ---- writeEntry ------------------------------------------------------------------

  datatype AppendAction = CallAppend | Enter | Refuse | Submit(blocks: nat) | SubmitFail(blocks: nat) | ReturnTicket

  predicate AppendEnabled(s: State, i: Tid, a: AppendAction) {
    match a
    case CallAppend => At(s, i).Idle?
    case Enter => At(s, i).AppendWait? && s.mu == None
    case Refuse => At(s, i).AppendIn? && s.log.failure
    case Submit(blocks) => At(s, i).AppendIn? && !s.log.failure && blocks >= 1
    case SubmitFail(blocks) => At(s, i).AppendIn? && !s.log.failure && blocks >= 1
    case ReturnTicket => At(s, i).AppendReap? && s.log.completed == map[]
  }

  /** The offset is taken and advanced under mu_, so it fixes the record's place in the log. */
  function SubmitRecord(log: Log, epoch: nat, bytes: nat): Log {
    log.(
      recs := log.recs[log.nextId := Rec(epoch, log.writeOffset, bytes)],
      inflight := log.inflight[log.nextId := Write(1, log.writeOffset, bytes)],
      nextId := log.nextId + 1,
      writeOffset := log.writeOffset + bytes,
      pending := log.pending + 1)
  }

  function AppendStep(s: State, i: Tid, a: AppendAction): State
    requires AppendEnabled(s, i, a)
  {
    match a
    case CallAppend => Goto(s, i, AppendWait)
    case Enter => Goto(s, i, AppendIn).(mu := Some(i))
    case Refuse => Goto(s, i, Idle).(mu := None)
    case Submit(blocks) => Goto(s, i, AppendReap).(log := SubmitRecord(s.log, s.sync.epoch, blocks * BLOCK))
    case SubmitFail(blocks) =>
      Goto(s, i, Idle).(mu := None, log := s.log.(writeOffset := s.log.writeOffset + blocks * BLOCK))
    case ReturnTicket =>
      Goto(s, i, Idle).(mu := None, tickets := s.tickets + {Ticket(s.sync.epoch, s.log.writeOffset)})
  }

  // ---- reap, drain and the kernel --------------------------------------------------

  datatype RingAction = Complete(r: RecId, outcome: Outcome) | Reap(i: Tid, c: RecId, resubmit: Resubmit)
                      | DrainTimeout(j: Tid) | DrainDone(k: Tid)

  predicate RingEnabled(s: State, a: RingAction) {
    match a
    case Complete(r, outcome) => r in s.log.inflight
    case Reap(i, r, resubmit) => At(s, i).Reaps() && r in s.log.completed
    case DrainTimeout(i) => At(s, i).Drains() && s.log.pending > 0
    case DrainDone(i) => At(s, i).Drains() && s.log.pending == 0 && s.log.completed == map[]
  }

  /** The kernel delivers a completion; only a full-length success puts the record in `landed`. */
  function Deliver(log: Log, r: RecId, outcome: Outcome): Log
    requires r in log.inflight
  {
    log.(inflight := log.inflight - {r},
         completed := log.completed[r := Completion(log.inflight[r], outcome)],
         landed := if outcome.Full? then log.landed + {r} else log.landed)
  }

  /** One completion taken off the ring by the thread that holds mu_. */
  function ReapOne(log: Log, r: RecId, resubmit: Resubmit): Log
    requires r in log.completed
  {
    var c := log.completed[r];
    var rest := log.completed - {r};
    var left := if log.pending > 0 then log.pending - 1 else 0;
    var retry := c.outcome.Cancelled? && c.w.attempts < MAX_WRITE_ATTEMPTS;
    if retry && resubmit.Queued? then
      log.(completed := rest, inflight := log.inflight[r := c.w.(attempts := c.w.attempts + 1)])
    else if retry && resubmit.SubmitFailed? then
      log.(completed := rest, failure := true, pending := left)           // buffer retained
    else
      log.(completed := rest, failure := log.failure || !c.outcome.Full?, pending := left, freed := log.freed + {r})
  }

  function Drained(pc: Pc): Pc
    requires pc.Drains()
  {
    match pc
    case Lead(t, n, e, stage) => Lead(t, n, e, Decide)
    case ClearDrain => ClearReset
  }

  function RingStep(s: State, a: RingAction): State
    requires RingEnabled(s, a)
  {
    match a
    case Complete(r, outcome) => s.(log := Deliver(s.log, r, outcome))
    case Reap(i, r, resubmit) => s.(log := ReapOne(s.log, r, resubmit))
    case DrainTimeout(i) => Goto(s, i, Drained(s.threads[i])).(log := s.log.(failure := true))
    case DrainDone(i) => Goto(s, i, Drained(s.threads[i]))
  }

  // ---- waitDurable and sync: the waiter's side -------------------------------------

  datatype WaitAction = CallWait(t: Ticket) | CallSync | TakeTicket | Contend | Return | Sleep | Spurious | BecomeLeader

  predicate Satisfied(y: Sync, t: Ticket) {
    t.epoch != y.epoch || y.durableEnd >= t.end
  }

  predicate WaitEnabled(s: State, i: Tid, a: WaitAction) {
    match a
    case CallWait(t) => At(s, i).Idle? && t in s.tickets
    case CallSync => At(s, i).Idle?
    case TakeTicket => At(s, i).SyncWant? && s.mu == None
    case Contend => At(s, i).WaitLock? && s.syncMu == None
    case Return => At(s, i).WaitTest? && Satisfied(s.sync, At(s, i).t)
    case Sleep => At(s, i).WaitTest? && !Satisfied(s.sync, At(s, i).t) && s.sync.inProgress
    case Spurious => At(s, i).WaitSleep?
    case BecomeLeader => At(s, i).WaitTest? && !Satisfied(s.sync, At(s, i).t) && !s.sync.inProgress
  }

  function WaitStep(s: State, i: Tid, a: WaitAction): State
    requires WaitEnabled(s, i, a)
  {
    match a
    case CallWait(t) => Goto(s, i, WaitLock(t, 0))
    case CallSync => Goto(s, i, SyncWant)
    case TakeTicket =>
      var t := Ticket(s.sync.epoch, s.log.writeOffset);
      Goto(s, i, WaitLock(t, 0)).(tickets := s.tickets + {t})
    case Contend => Goto(s, i, WaitTest(s.threads[i].t, s.threads[i].n)).(syncMu := Some(i))
    case Return => Goto(s, i, Idle).(syncMu := None, acked := s.acked + {s.threads[i].t})
    case Sleep => Goto(s, i, WaitSleep(s.threads[i].t, s.threads[i].n)).(syncMu := None)
    case Spurious => Goto(s, i, Awake(s.threads[i]))
    case BecomeLeader =>
      Goto(s, i, Lead(s.threads[i].t, s.threads[i].n, s.sync.epoch, Lock)).(
        syncMu := None, sync := s.sync.(inProgress := true, leader := Some(i)))
  }

  // ---- waitDurable: the leader's side ----------------------------------------------

  datatype LeadAction = LeadEnter | LeadFail | Target | Throw | SyncBegin | SyncEnd(ok: bool) | Publish

  predicate LeadEnabled(s: State, i: Tid, a: LeadAction) {
    At(s, i).Lead? &&
    match a
    case LeadEnter => At(s, i).stage.Lock? && s.mu == None
    case LeadFail => At(s, i).stage.Decide? && s.log.failure
    case Target => At(s, i).stage.Decide? && !s.log.failure
    case Throw => At(s, i).stage.Begin?
    case SyncBegin => At(s, i).stage.Begin?
    case SyncEnd(ok) => At(s, i).stage.Syncing?
    case Publish => At(s, i).stage.Finish? && s.syncMu == None
  }

  /** Records of the current log whose full-length completion the kernel has delivered. */
  function LandedNow(s: State): set<RecId> {
    set r | r in s.log.landed && r in s.log.recs && s.log.recs[r].epoch == s.sync.epoch
  }

  function LeadStep(s: State, i: Tid, a: LeadAction): State
    requires LeadEnabled(s, i, a)
  {
    var pc := s.threads[i];
    match a
    case LeadEnter => Goto(s, i, pc.(stage := Drain)).(mu := Some(i))
    case LeadFail => Goto(s, i, pc.(stage := Finish(0, false))).(mu := None)
    case Target => Goto(s, i, pc.(stage := Begin(s.log.writeOffset))).(mu := None)
    case Throw => Goto(s, i, pc.(stage := Finish(0, false)))
    case SyncBegin => Goto(s, i, pc.(n := pc.n + 1, stage := Syncing(pc.stage.target, LandedNow(s))))
    case SyncEnd(ok) =>
      Goto(s, i, pc.(stage := Finish(pc.stage.target, ok))).(
        log := s.log.(synced := if ok then s.log.synced + pc.stage.covered else s.log.synced))
    case Publish =>
      var ok := pc.stage.ok;
      s.(threads := NotifyAll(s.threads[i := if ok then WaitTest(pc.t, pc.n) else Idle]),
         syncMu := if ok then Some(i) else None,
         sync := s.sync.(inProgress := false, leader := None,
           durableEnd := if ok && s.sync.epoch == pc.e && s.sync.durableEnd < pc.stage.target
                         then pc.stage.target else s.sync.durableEnd))
  }

  // ---- clear -----------------------------------------------------------------------

  datatype ClearAction = CallClear | ClearContend | ClearBlock | ClearSpurious | ClearGo | TakeMu | Replace

  predicate ClearEnabled(s: State, i: Tid, a: ClearAction) {
    match a
    case CallClear => At(s, i).Idle?
    case ClearContend => At(s, i).ClearLock? && s.syncMu == None
    case ClearBlock => At(s, i).ClearTest? && s.sync.inProgress
    case ClearSpurious => At(s, i).ClearSleep?
    case ClearGo => At(s, i).ClearTest? && !s.sync.inProgress
    case TakeMu => At(s, i).ClearWantMu? && s.mu == None
    case Replace => At(s, i).ClearReset?
  }

  /** The file is removed and recreated, the ring torn down and set up again. */
  function Recreate(log: Log): Log {
    log.(writeOffset := 0, pending := 0, failure := false, inflight := map[], completed := map[])
  }

  function ClearStep(s: State, i: Tid, a: ClearAction): State
    requires ClearEnabled(s, i, a)
  {
    match a
    case CallClear => Goto(s, i, ClearLock)
    case ClearContend => Goto(s, i, ClearTest).(syncMu := Some(i))
    case ClearBlock => Goto(s, i, ClearSleep).(syncMu := None)
    case ClearSpurious => Goto(s, i, Awake(s.threads[i]))
    case ClearGo => Goto(s, i, ClearWantMu).(sync := s.sync.(durableEnd := 0))
    case TakeMu =>
      s.(threads := NotifyAll(s.threads[i := ClearDrain]), mu := Some(i), sync := s.sync.(epoch := s.sync.epoch + 1))
    case Replace =>
      Goto(s, i, Idle).(mu := None, syncMu := None, log := Recreate(s.log),
                        sync := s.sync.(fileEpoch := s.sync.epoch))
  }

  // ---- the whole system ------------------------------------------------------------

  datatype Action =
    | Appending(i: Tid, append: AppendAction)
    | Ring(ring: RingAction)
    | Waiting(i: Tid, wait: WaitAction)
    | Leading(i: Tid, lead: LeadAction)
    | Clear(i: Tid, clear: ClearAction)

  predicate Enabled(s: State, a: Action) {
    match a
    case Appending(i, b) => AppendEnabled(s, i, b)
    case Ring(b) => RingEnabled(s, b)
    case Waiting(i, b) => WaitEnabled(s, i, b)
    case Leading(i, b) => LeadEnabled(s, i, b)
    case Clear(i, b) => ClearEnabled(s, i, b)
  }

  function Do(s: State, a: Action): State
    requires Enabled(s, a)
  {
    match a
    case Appending(i, b) => AppendStep(s, i, b)
    case Ring(b) => RingStep(s, b)
    case Waiting(i, b) => WaitStep(s, i, b)
    case Leading(i, b) => LeadStep(s, i, b)
    case Clear(i, b) => ClearStep(s, i, b)
  }

  /** `run` takes the system through `states`, one action at a time. */
  ghost predicate Behavior(states: seq<State>, run: seq<Action>) {
    && |states| == |run| + 1
    && Init(states[0])
    && (forall k: nat | k < |run| :: StepAt(states, run, k))
  }

  ghost predicate StepAt(states: seq<State>, run: seq<Action>, k: nat)
    requires k < |run| < |states|
  {
    Enabled(states[k], run[k]) && states[k + 1] == Do(states[k], run[k])
  }
}
