/**
  The engine as a step system over its durable state: the directory of table files, the log
  with the records that have landed, the in-memory tables and memtable, and where a flush or
  a compaction has got to.  A crash may happen before or after any step; the process then
  reopens from the directory and the log alone.

  `round` is history: everything since the engine was last opened.
*/
module Engine {
  import opened Store
  import opened LoadOrder
  import opened CompactionView

  const L0_THRESHOLD: nat := 4

  /** A log record and whether its write has reached the file. */
  datatype Logged = Logged(op: Op, landed: bool)

  /** What a waiter holds: the operations issued before it, and the log epoch it belongs to. */
  datatype Ticket = Ticket(count: nat, epoch: nat)

  datatype Stage = Publishing | RollingBack | Removing

  datatype Phase =
    | Idle
    | Renamed      // flush: the table has its name, the log still holds the same operations
    | Cleared      // flush: the log is gone, compaction has not been considered yet
    | Compacting(all: map<Name, Contents>, outs: seq<Name>, lo: nat, hi: nat, removed: nat, stage: Stage)

  /** Since the engine was opened: what the tables held, the operations replayed or issued,
      how many of them a returned sync or durable write covers, how many have left the log, and
      how many are in tables. */
  datatype Round = Round(base: map<Key, Value>, ops: seq<Op>, covered: nat, flushed: nat, stored: nat, tickets: set<Ticket>)

  datatype State = State(
    disk: map<Name, Contents>,
    vec: seq<Name>,
    counter: nat,
    log: seq<Logged>,
    mem: Contents,
    epoch: nat,
    phase: Phase,
    round: Round)

  function Landed(log: seq<Logged>): seq<Op> {
    if log == [] then []
    else Landed(log[..|log| - 1]) + if log[|log| - 1].landed then [log[|log| - 1].op] else []
  }

  function AllLanded(ops: seq<Op>): seq<Logged> {
    seq(|ops|, i requires 0 <= i < |ops| => Logged(ops[i], true))
  }

  /** A directory with no tables and no log. */
  predicate Init(s: State) {
    s == State(map[], [], 0, [], map[], 0, Idle, Round(map[], [], 0, 0, 0, {}))
  }

  // ---- clients and the kernel ------------------------------------------------------

  datatype ClientAction = Append(op: Op) | Land(i: nat) | TakeTicket | Acknowledge(t: Ticket)

  /** The guarantee of waitDurable: the epoch has moved on, or every record covered has landed. */
  predicate Durable(s: State, t: Ticket) {
    || t.epoch != s.epoch
    || (forall i | 0 <= i < |s.log| && s.round.flushed + i < t.count :: s.log[i].landed)
  }

  predicate ClientEnabled(s: State, a: ClientAction) {
    match a
    case Append(op) => s.phase.Idle?
    case Land(i) => i < |s.log|
    case TakeTicket => true
    case Acknowledge(t) => t in s.round.tickets && Durable(s, t)
  }

  /** Append covers the log append and the memtable insert, both under the engine lock. */
  function ClientStep(s: State, a: ClientAction): State
    requires ClientEnabled(s, a)
  {
    match a
    case Append(op) =>
      s.(log := s.log + [Logged(op, false)],
         mem := s.mem[op.key := Effect(op)],
         round := s.round.(ops := s.round.ops + [op]))
    case Land(i) => s.(log := s.log[i := s.log[i].(landed := true)])
    case TakeTicket => s.(round := s.round.(tickets := s.round.tickets + {Ticket(|s.round.ops|, s.epoch)}))
    case Acknowledge(t) =>
      s.(round := s.round.(covered := if s.round.covered < t.count then t.count else s.round.covered))
  }

  // ---- flushMemtable ---------------------------------------------------------------

  /** Abandon: an exception after the table is registered, or after the log is cleared. */
  datatype FlushAction = FlushFails | Rename | ClearLog | Abandon

  predicate FlushEnabled(s: State, a: FlushAction) {
    match a
    case FlushFails => s.phase.Idle? && s.mem != map[]
    case Rename => s.phase.Idle? && s.mem != map[]
    case ClearLog => s.phase.Renamed?
    case Abandon => s.phase.Renamed? || s.phase.Cleared?
  }

  function FlushStep(s: State, a: FlushAction): State
    requires FlushEnabled(s, a)
  {
    match a
    case FlushFails => s.(counter := s.counter + 1)
    case Rename =>
      s.(disk := s.disk[Name(0, s.counter) := s.mem],
         vec := s.vec + [Name(0, s.counter)],
         counter := s.counter + 1,
         phase := Renamed,
         round := s.round.(stored := |s.round.ops|))
    case ClearLog =>
      s.(log := [], mem := map[], epoch := s.epoch + 1, phase := Cleared,
         round := s.round.(flushed := |s.round.ops|, stored := |s.round.ops|))
    case Abandon => s.(phase := Idle)
  }

  // ---- LeveledCompactor::run -------------------------------------------------------

  datatype CompactAction =
    | Skip | MergeThrows | StageOutputs(outs: seq<Contents>) | PublishNext | PublishThrows
    | RollBackNext | RolledBack | BeginRemove | RemoveNext | Finish

  ghost predicate CompactEnabled(s: State, a: CompactAction) {
    match a
    case Skip => s.phase.Cleared? && L0Count(s.vec) < L0_THRESHOLD
    case MergeThrows => s.phase.Cleared? && L0Count(s.vec) >= L0_THRESHOLD
    case StageOutputs(outs) =>
      && s.phase.Cleared? && L0Count(s.vec) >= L0_THRESHOLD
      && (forall n | n in s.vec :: n in s.disk)
      && IsMergeOf(outs, Overlay(Tables(s.disk, s.vec)))
    case PublishNext => s.phase.Compacting? && s.phase.stage.Publishing? && s.phase.hi < |s.phase.outs|
                        && s.phase.outs[s.phase.hi] in s.phase.all
    case PublishThrows => s.phase.Compacting? && s.phase.stage.Publishing?
    case RollBackNext => s.phase.Compacting? && s.phase.stage.RollingBack? && s.phase.lo < s.phase.hi <= |s.phase.outs|
    case RolledBack => s.phase.Compacting? && s.phase.stage.RollingBack? && s.phase.lo == s.phase.hi
    case BeginRemove => s.phase.Compacting? && s.phase.stage.Publishing? && s.phase.hi == |s.phase.outs|
    case RemoveNext => s.phase.Compacting? && s.phase.stage.Removing? && s.phase.removed < |s.vec|
    case Finish => s.phase.Compacting? && s.phase.stage.Removing? && s.phase.removed == |s.vec|
  }

  function WithOutputs(files: map<Name, Contents>, names: seq<Name>, outs: seq<Contents>): map<Name, Contents>
    requires |names| == |outs|
  {
    if names == [] then files
    else WithOutputs(files, names[..|names| - 1], outs[..|outs| - 1])[names[|names| - 1] := outs[|outs| - 1]]
  }

  ghost function CompactStep(s: State, a: CompactAction): State
    requires CompactEnabled(s, a)
  {
    match a
    case Skip => s.(phase := Idle)
    case MergeThrows => s.(phase := Idle)
    case StageOutputs(outs) =>
      var names := OutputNames(L1Start(s.vec), |outs|);
      s.(phase := Compacting(WithOutputs(s.disk, names, outs), names, 0, 0, 0, Publishing))
    case PublishNext =>
      var n := s.phase.outs[s.phase.hi];
      s.(disk := s.disk[n := s.phase.all[n]], phase := s.phase.(hi := s.phase.hi + 1))
    case PublishThrows => s.(phase := s.phase.(stage := RollingBack))
    case RollBackNext => s.(disk := s.disk - {s.phase.outs[s.phase.lo]}, phase := s.phase.(lo := s.phase.lo + 1))
    case RolledBack => s.(phase := Idle)
    case BeginRemove => s.(phase := s.phase.(stage := Removing))
    case RemoveNext => s.(disk := s.disk - {s.vec[s.phase.removed]}, phase := s.phase.(removed := s.phase.removed + 1))
    case Finish => s.(vec := s.phase.outs, counter := 0, phase := Idle)
  }

  // ---- crash and reopen ------------------------------------------------------------

  /** Reopening: replay the records that landed, list the directory in load order. */
  ghost predicate CrashEnabled(s: State, vec: seq<Name>, counter: nat) {
    && IsLoadOrder(vec, s.disk.Keys)
    && (forall n | n in s.disk && n.level == 0 :: n.counter < counter)
  }

  ghost function CrashStep(s: State, vec: seq<Name>, counter: nat): State
    requires CrashEnabled(s, vec, counter)
  {
    var ops := Landed(s.log);
    State(s.disk, vec, counter, AllLanded(ops), Replay(ops), 0, Idle,
          Round(LiveOf(s.disk, vec), ops, |ops|, 0, 0, {}))
  }

  // ---- the whole system ------------------------------------------------------------

  datatype Action =
    | Client(client: ClientAction)
    | Flush(flush: FlushAction)
    | Compact(compact: CompactAction)
    | Crash(vec: seq<Name>, counter: nat)

  ghost predicate Enabled(s: State, a: Action) {
    match a
    case Client(b) => ClientEnabled(s, b)
    case Flush(b) => FlushEnabled(s, b)
    case Compact(b) => CompactEnabled(s, b)
    case Crash(vec, counter) => CrashEnabled(s, vec, counter)
  }

  ghost function Do(s: State, a: Action): State
    requires Enabled(s, a)
  {
    match a
    case Client(b) => ClientStep(s, b)
    case Flush(b) => FlushStep(s, b)
    case Compact(b) => CompactStep(s, b)
    case Crash(vec, counter) => CrashStep(s, vec, counter)
  }

  ghost predicate Behavior(states: seq<State>, run: seq<Action>) {
    && |states| == |run| + 1
    && Init(states[0])
    && (forall k | 0 <= k < |run| :: Enabled(states[k], run[k]) && states[k + 1] == Do(states[k], run[k]))
  }
}
