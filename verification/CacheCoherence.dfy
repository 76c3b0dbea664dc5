/**
  The block cache beside the running engine.  Table names are reused once the counters reset, so
  a line keyed by name and offset must never outlive the table it was read from.

  Readers share the engine's lock, so lookups happen only while no flush or compaction runs.
  Replacing the in-memory table list destroys the old table objects, and each drops its lines.
*/
module CacheCoherence {
  import opened Store
  import opened KeyOrder
  import opened LoadOrder
  import opened Engine
  import opened EngineInvariant
  import opened BlockCache

  /** Reading a block: the entries a table with these contents holds at an offset. */
  type Reader = (Contents, nat) -> seq<Entry>

  datatype CState = CState(engine: State, lines: seq<Line>)

  datatype CAction = Run(act: Action) | LookUp(name: Name, offset: nat, bytes: nat)

  datatype Limits = Limits(capacity: nat, maxBytes: nat)

  /** Every table of `names` is destroyed. */
  function Closed(v: seq<Line>, names: seq<Name>): seq<Line> {
    if names == [] then v else WithoutPath(Closed(v, names[..|names| - 1]), names[|names| - 1])
  }

  ghost predicate CEnabled(c: CState, a: CAction) {
    match a
    case Run(act) => Enabled(c.engine, act)
    case LookUp(name, _, _) => c.engine.phase.Idle? && name in c.engine.vec && name in c.engine.disk
  }

  /** What a lookup is given, and the list it leaves. */
  function Answer(read: Reader, disk: map<Name, Contents>, v: seq<Line>, k: CacheKey): seq<Entry>
    requires k.path in disk
  {
    var hit := Cached(v, k);
    if hit.Some? then hit.value.value else read(disk[k.path], k.offset)
  }

  function AfterLookUp(read: Reader, disk: map<Name, Contents>, v: seq<Line>, k: CacheKey, bytes: nat, l: Limits)
    : seq<Line>
    requires k.path in disk
  {
    var hit := Cached(v, k);
    if hit.Some? then Touched(v, hit.value)
    else Stored(v, Line(k, read(disk[k.path], k.offset), bytes), l.capacity, l.maxBytes)
  }

  ghost function CDo(read: Reader, l: Limits, c: CState, a: CAction): CState
    requires CEnabled(c, a)
  {
    match a
    case Run(act) =>
      CState(Do(c.engine, act),
             if act.Crash? then []
             else if act == Compact(Finish) then Closed(c.lines, c.engine.vec)
             else c.lines)
    case LookUp(name, offset, bytes) =>
      c.(lines := AfterLookUp(read, c.engine.disk, c.lines, CacheKey(name, offset), bytes, l))
  }

  ghost predicate CBehavior(read: Reader, l: Limits, states: seq<CState>, run: seq<CAction>) {
    && |states| == |run| + 1
    && Init(states[0].engine) && states[0].lines == []
    && (forall k | 0 <= k < |run| :: CEnabled(states[k], run[k]) && states[k + 1] == CDo(read, l, states[k], run[k]))
  }

  /** Every line belongs to an open table and holds what that table's file holds there. */
  ghost predicate Coherent(read: Reader, vec: seq<Name>, files: map<Name, Contents>, v: seq<Line>) {
    forall line | line in v :: Fresh(read, vec, files, line)
  }

  ghost predicate Fresh(read: Reader, vec: seq<Name>, files: map<Name, Contents>, line: Line) {
    line.key.path in vec && line.key.path in files && line.value == read(files[line.key.path], line.key.offset)
  }

  ghost predicate CInv(read: Reader, c: CState) {
    Inv(c.engine) && Coherent(read, c.engine.vec, Files(c.engine), c.lines)
  }

  // ----- lists -----

  lemma {:induction false} WithoutPathMembers(v: seq<Line>, p: Name)
    ensures forall x :: x in WithoutPath(v, p) <==> x in v && x.key.path != p
  {
    if v != [] {
      var init, last := v[..|v| - 1], v[|v| - 1];
      WithoutPathMembers(init, p);
      assert v == init + [last];
    }
  }

  lemma {:induction false} ClosedMembers(v: seq<Line>, names: seq<Name>)
    ensures forall x :: x in Closed(v, names) <==> x in v && x.key.path !in names
  {
    if names != [] {
      var init, last := names[..|names| - 1], names[|names| - 1];
      ClosedMembers(v, init);
      WithoutPathMembers(Closed(v, init), last);
      assert names == init + [last];
    }
  }

  lemma LookUpKeeps(read: Reader, vec: seq<Name>, disk: map<Name, Contents>, v: seq<Line>, k: CacheKey, bytes: nat, l: Limits)
    requires Coherent(read, vec, disk, v) && k.path in vec && k.path in disk
    ensures Coherent(read, vec, disk, AfterLookUp(read, disk, v, k, bytes, l))
  {
    var hit := Cached(v, k);
    var line := if hit.Some? then hit.value else Line(k, read(disk[k.path], k.offset), bytes);
    assert Fresh(read, vec, disk, line);
    WithoutSubset(v, k);
    FittedIsLongest(Touched(v, line), l.capacity, l.maxBytes);
  }

  // ----- the engine never changes a file under an open table -----

  ghost predicate SameFile(s: State, s': State, n: Name) {
    n in s'.vec && n in Files(s) && n in Files(s') && Files(s')[n] == Files(s)[n]
  }

  lemma FilesStable(s: State, a: Action, n: Name)
    requires DirOk(s) && Enabled(s, a) && !a.Crash? && a != Compact(Finish) && n in s.vec
    ensures SameFile(s, Do(s, a), n)
  {
    match a
    case Client(b) => ClientStable(s, b, n);
    case Flush(b) => FlushStable(s, b, n);
    case Compact(b) => CompactStable(s, b, n);
  }

  lemma ClientStable(s: State, a: ClientAction, n: Name)
    requires DirOk(s) && ClientEnabled(s, a) && n in s.vec
    ensures SameFile(s, ClientStep(s, a), n)
  {
    DirFiles(s);
  }

  lemma FlushStable(s: State, a: FlushAction, n: Name)
    requires DirOk(s) && FlushEnabled(s, a) && n in s.vec
    ensures SameFile(s, FlushStep(s, a), n)
  {
    DirFiles(s);
  }

  lemma CompactStable(s: State, a: CompactAction, n: Name)
    requires DirOk(s) && CompactEnabled(s, a) && a != Finish && n in s.vec
    ensures SameFile(s, CompactStep(s, a), n)
  {
    DirFiles(s);
    match a
    case StageOutputs(outs) =>
      var names := OutputNames(L1Start(s.vec), |outs|);
      OutputsNumbered(s.vec, |outs|);
      OutputsAreNew(s.vec, names, n);
      WithOutputsHas(s.disk, names, outs);
    case RolledBack =>
      RolledBackOk(s.disk, s.vec, s.phase);
    case _ =>
  }

  /** The compaction's outputs are new names, so no line survives to meet one. */
  lemma StepKeeps(read: Reader, l: Limits, c: CState, a: CAction)
    requires CInv(read, c) && CEnabled(c, a)
    ensures CInv(read, CDo(read, l, c, a))
  {
    match a
    case Run(act) =>
      StepInv(c.engine, act);
      if act == Compact(Finish) {
        ClosedMembers(c.lines, c.engine.vec);
      } else if !act.Crash? {
        forall line | line in c.lines ensures Fresh(read, Do(c.engine, act).vec, Files(Do(c.engine, act)), line) {
          assert Fresh(read, c.engine.vec, Files(c.engine), line);
          FilesStable(c.engine, act, line.key.path);
        }
      }
    case LookUp(name, offset, bytes) =>
      LookUpKeeps(read, c.engine.vec, c.engine.disk, c.lines, CacheKey(name, offset), bytes, l);
  }

  lemma {:induction false} CoherentAlways(read: Reader, l: Limits, states: seq<CState>, run: seq<CAction>, k: nat)
    requires CBehavior(read, l, states, run) && k <= |run|
    ensures CInv(read, states[k])
  {
    if k == 0 {
      InitInv(states[0].engine);
    } else {
      CoherentAlways(read, l, states, run, k - 1);
      StepKeeps(read, l, states[k - 1], run[k - 1]);
    }
  }

  /**
    Over every run with flushes, compactions, reused names, evictions and crashes, a lookup, hit or
    miss, is given the block that the table's current file holds.
  */
  lemma LookUpIsCurrent(read: Reader, l: Limits, states: seq<CState>, run: seq<CAction>, k: nat)
    requires CBehavior(read, l, states, run) && k < |run| && run[k].LookUp?
    ensures run[k].name in states[k].engine.disk
    ensures Answer(read, states[k].engine.disk, states[k].lines, CacheKey(run[k].name, run[k].offset))
         == read(states[k].engine.disk[run[k].name], run[k].offset)
  {
    CoherentAlways(read, l, states, run, k);
    var key := CacheKey(run[k].name, run[k].offset);
    assert CEnabled(states[k], run[k]);
    var hit := Cached(states[k].lines, key);
    if hit.Some? {
      assert Fresh(read, states[k].engine.vec, Files(states[k].engine), hit.value);
    }
  }
}
