/** The engine's inductive invariant and the lemmas that every step keeps it. */
module EngineInvariant {
  import opened Store
  import opened LoadOrder
  import opened CompactionView
  import opened Engine

  /** The table files the in-memory list refers to. */
  function Files(s: State): map<Name, Contents> {
    if s.phase.Compacting? then s.phase.all else s.disk
  }

  /** The directory during a compaction: the inputs not yet removed and the outputs published. */
  ghost predicate CompactingOk(disk: map<Name, Contents>, vec: seq<Name>, p: Phase)
    requires p.Compacting?
  {
    && Compacts(p.all, vec, p.outs)
    && p.lo <= p.hi <= |p.outs| && p.removed <= |vec|
    && (p.stage.Publishing? ==> p.lo == 0 && p.removed == 0)
    && (p.stage.RollingBack? ==> p.removed == 0)
    && (p.stage.Removing? ==> p.lo == 0 && p.hi == |p.outs|)
    && (forall n :: n in disk <==> n in vec[p.removed..] || n in p.outs[p.lo..p.hi])
    && (forall n | n in disk :: n in p.all && disk[n] == p.all[n])
  }

  ghost predicate DirOk(s: State) {
    && (if s.phase.Compacting? then CompactingOk(s.disk, s.vec, s.phase) else IsLoadOrder(s.vec, s.disk.Keys))
    && (forall n | n in s.disk && n.level == 0 :: n.counter < s.counter)
  }

  lemma DirFiles(s: State)
    requires DirOk(s)
    ensures forall n | n in s.vec :: n in Files(s)
  {
  }

  ghost predicate LogOk(log: seq<Logged>, mem: Contents, r: Round) {
    && r.flushed <= r.stored <= |r.ops| && r.covered <= |r.ops|
    && |log| == |r.ops| - r.flushed
    && (forall i | 0 <= i < |log| :: log[i].op == r.ops[r.flushed + i])
    && (forall i | 0 <= i < |log| && r.flushed + i < r.covered :: log[i].landed)
    && mem == Replay(r.ops[r.flushed..])
  }

  ghost predicate TicketsOk(epoch: nat, r: Round) {
    forall t | t in r.tickets :: t.count <= |r.ops| && t.epoch <= epoch && (t.epoch < epoch ==> t.count <= r.flushed)
  }

  /** What the tables hold, as a plain map. */
  ghost predicate ViewOk(s: State)
    requires DirOk(s)
  {
    DirFiles(s);
    s.round.stored <= |s.round.ops| &&
    LiveOf(Files(s), s.vec) == ApplyAll(s.round.base, s.round.ops[..s.round.stored])
  }

  /** While a flush is about to clear the log, nothing was appended since its table was named. */
  predicate StoredOk(s: State) {
    s.phase.Renamed? ==> s.round.stored == |s.round.ops|
  }

  ghost predicate Inv(s: State) {
    StoredOk(s) && DirOk(s) && LogOk(s.log, s.mem, s.round) && TicketsOk(s.epoch, s.round) && ViewOk(s)
  }

  // ---- what reopening finds --------------------------------------------------------

  lemma TablesAgree(f: map<Name, Contents>, g: map<Name, Contents>, vec: seq<Name>)
    requires forall n | n in vec :: n in f && n in g && f[n] == g[n]
    ensures Tables(f, vec) == Tables(g, vec)
  {
    forall i | 0 <= i < |vec| ensures Tables(f, vec)[i] == Tables(g, vec)[i] {
      assert vec[i] in vec;
    }
  }

  lemma StretchNumbered(ins: seq<Name>, outs: seq<Name>, lo: nat, hi: nat)
    requires Numbered(ins, outs) && lo <= hi <= |outs|
    ensures Numbered(ins, outs[lo..hi])
  {
  }

  /** During a compaction the directory's load order is the arranged one. */
  lemma CompactingOrder(disk: map<Name, Contents>, vec: seq<Name>, p: Phase)
    requires p.Compacting? && CompactingOk(disk, vec, p)
    ensures IsLoadOrder(Arranged(vec, p.removed, p.outs[p.lo..p.hi]), disk.Keys)
  {
    var part := p.outs[p.lo..p.hi];
    StretchNumbered(vec, p.outs, p.lo, p.hi);
    ArrangedIsOrdered(vec, p.removed, part);
    forall n ensures n in disk.Keys <==> n in Arranged(vec, p.removed, part) {
      ArrangedMembers(vec, p.removed, part, n);
    }
  }

  /** However far a compaction has got, its directory reopens to the view of its inputs. */
  lemma CompactingView(disk: map<Name, Contents>, ins: seq<Name>, p: Phase, vec: seq<Name>)
    requires p.Compacting? && CompactingOk(disk, ins, p) && IsLoadOrder(vec, disk.Keys)
    ensures (forall n | n in vec :: n in disk) && (forall n | n in ins :: n in p.all)
    ensures LiveOf(disk, vec) == LiveOf(p.all, ins)
  {
    CompactingOrder(disk, ins, p);
    LoadOrderUnique(vec, Arranged(ins, p.removed, p.outs[p.lo..p.hi]), disk.Keys);
    if p.removed == 0 {
      PublishedView(p.all, ins, p.outs, p.lo, p.hi);
    } else {
      assert p.outs[p.lo..p.hi] == p.outs;
      RemovedView(p.all, ins, p.outs, p.removed);
    }
    TablesAgree(disk, p.all, vec);
  }

  /**
    Crash safety of flush and compaction: wherever a crash falls, the names on disk alone
    rebuild the same live map the in-memory tables stood for.
  */
  lemma ReopenedView(s: State, vec: seq<Name>)
    requires DirOk(s) && IsLoadOrder(vec, s.disk.Keys)
    ensures forall n | n in vec :: n in s.disk
    ensures forall n | n in s.vec :: n in Files(s)
    ensures LiveOf(s.disk, vec) == LiveOf(Files(s), s.vec)
  {
    if s.phase.Compacting? {
      CompactingView(s.disk, s.vec, s.phase, vec);
    } else {
      LoadOrderUnique(vec, s.vec, s.disk.Keys);
    }
  }

  // ---- steps -----------------------------------------------------------------------

  lemma InitInv(s: State)
    requires Init(s)
    ensures Inv(s)
  {
  }

  lemma ClientKeepsLog(s: State, a: ClientAction)
    requires LogOk(s.log, s.mem, s.round) && TicketsOk(s.epoch, s.round) && ClientEnabled(s, a)
    ensures var s' := ClientStep(s, a); LogOk(s'.log, s'.mem, s'.round) && TicketsOk(s'.epoch, s'.round)
  {
    match a
    case Append(op) =>
      var before, after := s.round.ops[s.round.flushed..], (s.round.ops + [op])[s.round.flushed..];
      assert after[..|after| - 1] == before;
    case _ =>
  }

  lemma ClientKeeps(s: State, a: ClientAction)
    requires Inv(s) && ClientEnabled(s, a)
    ensures Inv(ClientStep(s, a))
  {
    ClientKeepsLog(s, a);
    match a
    case Append(op) =>
      assert (s.round.ops + [op])[..s.round.stored] == s.round.ops[..s.round.stored];
    case _ =>
  }

  lemma FlushKeepsLog(s: State, a: FlushAction)
    requires LogOk(s.log, s.mem, s.round) && TicketsOk(s.epoch, s.round) && FlushEnabled(s, a)
    ensures var s' := FlushStep(s, a); LogOk(s'.log, s'.mem, s'.round) && TicketsOk(s'.epoch, s'.round)
  {
  }

  /** Naming a new level-0 table puts the memtable on top of the stack. */
  lemma RenameKeepsDir(s: State)
    requires DirOk(s) && s.phase.Idle?
    ensures var n := Name(0, s.counter);
            && n !in s.disk
            && IsLoadOrder(s.vec + [n], s.disk[n := s.mem].Keys)
            && (forall m | m in s.vec :: m in s.disk)
            && (forall m | m in s.vec + [n] :: m in s.disk[n := s.mem])
            && Overlay(Tables(s.disk[n := s.mem], s.vec + [n])) == Overlay(Tables(s.disk, s.vec)) + s.mem
  {
    var n := Name(0, s.counter);
    assert n !in s.disk;
    forall i | 0 <= i < |s.vec| ensures Before(s.vec[i], n) {
      assert s.vec[i] in s.disk;
    }
    TopTable(s.disk, s.vec, n, s.mem);
  }

  lemma {:induction false} TopTable(disk: map<Name, Contents>, vec: seq<Name>, n: Name, top: Contents)
    requires n !in disk && forall m | m in vec :: m in disk
    ensures forall m | m in vec + [n] :: m in disk[n := top]
    ensures Overlay(Tables(disk[n := top], vec + [n])) == Overlay(Tables(disk, vec)) + top
  {
    var disk' := disk[n := top];
    TablesAgree(disk', disk, vec);
    TablesConcat(disk', vec, [n]);
    assert Tables(disk', [n]) == [top];
    OverlayTop(Tables(disk, vec), top);
  }

  lemma {:induction false} OverlayTop(tables: seq<Contents>, top: Contents)
    ensures Overlay(tables + [top]) == Overlay(tables) + top
  {
    assert (tables + [top])[..|tables|] == tables;
  }

  /** Between a flush's rename and its clear the tables hold every operation of the round. */
  lemma AllStored(s: State)
    requires StoredOk(s) && s.phase.Renamed?
    ensures s.round.stored == |s.round.ops|
  {
  }

  lemma FlushKeeps(s: State, a: FlushAction)
    requires Inv(s) && FlushEnabled(s, a)
    ensures Inv(FlushStep(s, a))
  {
    FlushKeepsLog(s, a);
    match a
    case FlushFails =>
    case Rename =>
      RenameKeepsDir(s);
      var r := s.round;
      ReplayIsApply(Overlay(Tables(s.disk, s.vec)), r.ops[r.flushed..]);
      ReplayOver(r.base, r.ops, r.flushed, r.stored);
      assert r.ops[..|r.ops|] == r.ops;
    case ClearLog => AllStored(s);
    case Abandon =>
  }

  lemma {:induction false} WithOutputsHas(files: map<Name, Contents>, names: seq<Name>, outs: seq<Contents>)
    requires |names| == |outs| && Ordered(names)
    ensures forall n :: n in WithOutputs(files, names, outs) <==> n in files || n in names
    ensures forall n | n in files && n !in names :: WithOutputs(files, names, outs)[n] == files[n]
    ensures forall i | 0 <= i < |names| :: WithOutputs(files, names, outs)[names[i]] == outs[i]
  {
    if names != [] {
      var init, last := names[..|names| - 1], names[|names| - 1];
      WithOutputsHas(files, init, outs[..|outs| - 1]);
      assert names == init + [last];
      forall i | 0 <= i < |init| ensures init[i] != last {
        assert Before(names[i], names[|names| - 1]);
      }
    }
  }

  lemma {:induction false} OutputsNumbered(vec: seq<Name>, count: nat)
    ensures Numbered(vec, OutputNames(L1Start(vec), count))
  {
  }

  lemma {:induction false} StageTables(disk: map<Name, Contents>, vec: seq<Name>, outs: seq<Contents>)
    requires IsLoadOrder(vec, disk.Keys)
    ensures var names := OutputNames(L1Start(vec), |outs|);
            var all := WithOutputs(disk, names, outs);
            && (forall n | n in disk :: n in all && disk[n] == all[n])
            && (forall i | 0 <= i < |outs| :: names[i] in all && all[names[i]] == outs[i])
  {
    var names := OutputNames(L1Start(vec), |outs|);
    OutputsNumbered(vec, |outs|);
    WithOutputsHas(disk, names, outs);
    forall n | n in disk ensures n !in names {
      assert n in disk.Keys;
      OutputsAreNew(vec, names, n);
    }
  }

  /** Staging: nothing published yet, outputs numbered past every level-1 table. */
  lemma {:induction false} StageOk(disk: map<Name, Contents>, vec: seq<Name>, outs: seq<Contents>)
    requires IsLoadOrder(vec, disk.Keys) && IsMergeOf(outs, Overlay(Tables(disk, vec)))
    ensures var names := OutputNames(L1Start(vec), |outs|);
            var all := WithOutputs(disk, names, outs);
            && CompactingOk(disk, vec, Compacting(all, names, 0, 0, 0, Publishing))
            && Tables(all, vec) == Tables(disk, vec)
  {
    var names := OutputNames(L1Start(vec), |outs|);
    var all := WithOutputs(disk, names, outs);
    OutputsNumbered(vec, |outs|);
    StageTables(disk, vec, outs);
    TablesAgree(all, disk, vec);
    assert Tables(all, names) == outs;
    assert vec[0..] == vec && names[0..0] == [];
  }

  lemma PublishOk(disk: map<Name, Contents>, vec: seq<Name>, p: Phase)
    requires p.Compacting? && CompactingOk(disk, vec, p) && p.stage.Publishing? && p.hi < |p.outs|
    ensures p.outs[p.hi] in p.all
    ensures CompactingOk(disk[p.outs[p.hi] := p.all[p.outs[p.hi]]], vec, p.(hi := p.hi + 1))
  {
    assert p.outs[p.lo..p.hi + 1] == p.outs[p.lo..p.hi] + [p.outs[p.hi]];
    assert p.outs[p.hi] in p.outs;
  }

  lemma RollBackOk(disk: map<Name, Contents>, vec: seq<Name>, p: Phase)
    requires p.Compacting? && CompactingOk(disk, vec, p) && p.stage.RollingBack? && p.lo < p.hi
    ensures CompactingOk(disk - {p.outs[p.lo]}, vec, p.(lo := p.lo + 1))
  {
    var n := p.outs[p.lo];
    RemainingOutputs(p.outs, p.lo, p.hi);
    OutputsAreNew(vec, p.outs, n);
    assert vec[0..] == vec;
  }

  lemma {:induction false} RemainingOutputs(outs: seq<Name>, lo: nat, hi: nat)
    requires Ordered(outs) && lo < hi <= |outs|
    ensures outs[lo..hi] == [outs[lo]] + outs[lo + 1..hi] && outs[lo] !in outs[lo + 1..hi]
  {
    NoRepeat(outs, lo, hi);
  }

  lemma RemoveOk(disk: map<Name, Contents>, vec: seq<Name>, p: Phase)
    requires p.Compacting? && CompactingOk(disk, vec, p) && p.stage.Removing? && p.removed < |vec|
    ensures CompactingOk(disk - {vec[p.removed]}, vec, p.(removed := p.removed + 1))
  {
    var n := vec[p.removed];
    RemainingInputs(vec, p.removed);
    assert p.outs[p.lo..p.hi] == p.outs;
    OutputsAreNew(vec, p.outs, n);
  }

  lemma {:induction false} RemainingInputs(vec: seq<Name>, i: nat)
    requires Ordered(vec) && i < |vec|
    ensures vec[i..] == [vec[i]] + vec[i + 1..] && vec[i] !in vec[i + 1..]
  {
    NoRepeat(vec, i, |vec|);
    assert vec[i + 1..] == vec[i + 1..|vec|];
  }

  /** All inputs gone: the outputs are the directory, already in load order. */
  lemma FinishOk(disk: map<Name, Contents>, vec: seq<Name>, p: Phase)
    requires p.Compacting? && CompactingOk(disk, vec, p) && p.stage.Removing? && p.removed == |vec|
    ensures IsLoadOrder(p.outs, disk.Keys)
    ensures forall n | n in disk :: n.level == 1
  {
    assert p.outs[p.lo..p.hi] == p.outs && vec[p.removed..] == [];
  }

  /** All published outputs undone: the directory is what it was. */
  lemma RolledBackOk(disk: map<Name, Contents>, vec: seq<Name>, p: Phase)
    requires p.Compacting? && CompactingOk(disk, vec, p) && p.stage.RollingBack? && p.lo == p.hi
    ensures IsLoadOrder(vec, disk.Keys)
    ensures Tables(disk, vec) == Tables(p.all, vec)
  {
    assert vec[0..] == vec;
    TablesAgree(disk, p.all, vec);
  }

  lemma NoRepeat(vec: seq<Name>, i: nat, j: nat)
    requires Ordered(vec) && i < j <= |vec|
    ensures vec[i] !in vec[i + 1..j]
  {
  }

  lemma OutputsAreNew(ins: seq<Name>, outs: seq<Name>, n: Name)
    requires Numbered(ins, outs)
    ensures !(n in ins && n in outs)
  {
  }

  lemma FinishKeeps(s: State)
    requires DirOk(s) && ViewOk(s) && CompactEnabled(s, Finish)
    ensures DirOk(CompactStep(s, Finish)) && ViewOk(CompactStep(s, Finish))
  {
    FinishOk(s.disk, s.vec, s.phase);
    ReopenedView(s, s.phase.outs);
  }

  lemma StageKeeps(s: State, outs: seq<Contents>)
    requires DirOk(s) && ViewOk(s) && CompactEnabled(s, StageOutputs(outs))
    ensures DirOk(CompactStep(s, StageOutputs(outs))) && ViewOk(CompactStep(s, StageOutputs(outs)))
  {
    StageOk(s.disk, s.vec, outs);
  }

  lemma PublishKeeps(s: State)
    requires DirOk(s) && ViewOk(s) && CompactEnabled(s, PublishNext)
    ensures DirOk(CompactStep(s, PublishNext)) && ViewOk(CompactStep(s, PublishNext))
  {
    PublishOk(s.disk, s.vec, s.phase);
  }

  lemma CompactKeepsDir(s: State, a: CompactAction)
    requires DirOk(s) && ViewOk(s) && CompactEnabled(s, a)
    ensures DirOk(CompactStep(s, a)) && ViewOk(CompactStep(s, a))
  {
    match a
    case StageOutputs(outs) => StageKeeps(s, outs);
    case PublishNext => PublishKeeps(s);
    case RollBackNext => RollBackOk(s.disk, s.vec, s.phase);
    case RemoveNext => RemoveOk(s.disk, s.vec, s.phase);
    case Finish => FinishKeeps(s);
    case RolledBack => RolledBackOk(s.disk, s.vec, s.phase);
    case _ =>
  }

  lemma CompactKeeps(s: State, a: CompactAction)
    requires Inv(s) && CompactEnabled(s, a)
    ensures Inv(CompactStep(s, a))
  {
    CompactKeepsDir(s, a);
  }

  lemma CrashKeeps(s: State, vec: seq<Name>, counter: nat)
    requires Inv(s) && CrashEnabled(s, vec, counter)
    ensures Inv(CrashStep(s, vec, counter))
  {
    var s' := CrashStep(s, vec, counter);
    assert s'.round.ops[0..] == s'.round.ops;
    assert s'.round.ops[..0] == [];
  }

  /** Every step, including a crash and reopen, keeps the invariant. */
  lemma StepInv(s: State, a: Action)
    requires Inv(s) && Enabled(s, a)
    ensures Inv(Do(s, a))
  {
    match a
    case Client(b) => ClientKeeps(s, b);
    case Flush(b) => FlushKeeps(s, b);
    case Compact(b) => CompactKeeps(s, b);
    case Crash(vec, counter) => CrashKeeps(s, vec, counter);
  }

  lemma {:induction false} BehaviorInv(states: seq<State>, run: seq<Action>, k: nat)
    requires Behavior(states, run) && k <= |run|
    ensures Inv(states[k])
  {
    if k == 0 {
      InitInv(states[0]);
    } else {
      BehaviorInv(states, run, k - 1);
      StepInv(states[k - 1], run[k - 1]);
    }
  }
}
