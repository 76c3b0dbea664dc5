/**
  LeveledCompactor::run over a directory of table files.  The merge streams the newest live
  version of every key into files of at most L1_MAX_FILE_ENTRIES entries; the outputs are
  published one rename at a time, undone if publishing throws, and the inputs are removed
  oldest first.  `seen` records the directory after every atomic action: each is a state a
  crash could leave behind.
*/
module Compactor {
  import opened Wrappers
  import opened Store
  import opened KeyOrder
  import opened LoadOrder
  import opened CompactionView
  import opened Merge
  import opened Engine
  import opened EngineInvariant

  const L1_MAX_FILE_ENTRIES: nat := 1000

  // ---- phase 1: merge and cut ------------------------------------------------------

  lemma {:induction false} FlattenSnoc(files: seq<seq<Entry>>, f: seq<Entry>)
    ensures Flatten(files + [f]) == Flatten(files) + f
  {
    assert (files + [f])[..|files|] == files;
  }

  /** Every file but the last is full, and the last is neither empty nor over full. */
  ghost predicate FilesSized(files: seq<seq<Entry>>) {
    && (forall i | 0 <= i < |files| :: 0 < |files[i]| <= L1_MAX_FILE_ENTRIES)
    && (forall i | 0 <= i < |files| - 1 :: |files[i]| == L1_MAX_FILE_ENTRIES)
  }

  /** Only values, no tombstones. */
  ghost predicate AllValues(t: seq<Entry>) {
    forall i | 0 <= i < |t| :: t[i].value.Some?
  }

  /** Nothing in `c` comes at or before an entry of `t`. */
  ghost predicate Precedes(t: seq<Entry>, c: Contents) {
    forall i, k | 0 <= i < |t| && k in c :: Less(t[i].key, k)
  }

  /** What has been written together with what is left makes up the merged input. */
  ghost predicate Accounts(out: seq<Entry>, left: Contents, input: Contents) {
    Meaning(out) + Survivors(left) == Survivors(input)
  }

  /** The state of the merge: `out` written so far, `left` still to come. */
  ghost predicate Streamed(out: seq<Entry>, left: Contents, input: Contents) {
    Sorted(out) && AllValues(out) && Precedes(out, left) && Accounts(out, left, input)
  }

  function Emit(out: seq<Entry>, e: Entry): seq<Entry> {
    if e.value.Some? then out + [e] else out
  }

  lemma EmitKeepsOrder(out: seq<Entry>, left: Contents, after: Contents, e: Entry)
    requires Sorted(out) && AllValues(out) && Precedes(out, left)
    requires e.key in left && (forall k | k in after :: k in left && Less(e.key, k))
    ensures Sorted(Emit(out, e)) && AllValues(Emit(out, e)) && Precedes(Emit(out, e), after)
  {
    forall i | 0 <= i < |out| ensures Less(out[i].key, e.key) {
    }
  }

  lemma EmitKeepsAccount(out: seq<Entry>, left: Contents, after: Contents, e: Entry, input: Contents)
    requires Accounts(out, left, input)
    requires left == after[e.key := e.value] && e.key !in after
    ensures Accounts(Emit(out, e), after, input)
  {
    if e.value.Some? {
      var out' := out + [e];
      assert out'[..|out'| - 1] == out;
      assert Meaning(out') == Meaning(out)[e.key := e.value];
      assert Survivors(left) == Survivors(after)[e.key := e.value];
      assert e.key !in Survivors(after);
    } else {
      assert Survivors(left) == Survivors(after);
    }
  }

  lemma EmitKeepsStream(out: seq<Entry>, left: Contents, after: Contents, e: Entry, input: Contents)
    requires Streamed(out, left, input)
    requires left == after[e.key := e.value] && e.key !in after
    requires forall k | k in after :: Less(e.key, k)
    ensures Streamed(Emit(out, e), after, input)
  {
    EmitKeepsOrder(out, left, after, e);
    EmitKeepsAccount(out, left, after, e, input);
  }

  lemma StreamStarts(input: Contents)
    ensures Streamed([], input, input)
  {
    assert Meaning([]) + Survivors(input) == Survivors(input);
  }

  lemma {:induction false} StreamEnds(out: seq<Entry>, input: Contents)
    requires Streamed(out, map[], input)
    ensures Meaning(out) == Survivors(input)
  {
    assert Meaning(out) + Survivors(map[]) == Meaning(out);
  }

  /** Files closed so far, and the buffer of the one being filled. */
  ghost predicate Cutting(files: seq<seq<Entry>>, buffer: seq<Entry>) {
    (forall i | 0 <= i < |files| :: |files[i]| == L1_MAX_FILE_ENTRIES) && |buffer| < L1_MAX_FILE_ENTRIES
  }

  /** Streams a live entry to the buffer, closing the file when it is full. */
  method Push(files0: seq<seq<Entry>>, buffer0: seq<Entry>, e: Entry) returns (files: seq<seq<Entry>>, buffer: seq<Entry>)
    requires Cutting(files0, buffer0)
    ensures Cutting(files, buffer)
    ensures Flatten(files) + buffer == Emit(Flatten(files0) + buffer0, e)
  {
    files, buffer := files0, buffer0;
    if e.value.Some? {
      buffer := buffer + [e];
      if |buffer| >= L1_MAX_FILE_ENTRIES {
        FlattenSnoc(files, buffer);
        files, buffer := files + [buffer], [];
      }
    }
  }

  /** Closes the last file, unless there is nothing in it. */
  method CloseLast(files0: seq<seq<Entry>>, buffer: seq<Entry>) returns (files: seq<seq<Entry>>)
    requires Cutting(files0, buffer)
    ensures FilesSized(files) && Flatten(files) == Flatten(files0) + buffer
  {
    files := files0;
    if buffer != [] {
      FlattenSnoc(files, buffer);
      files := files + [buffer];
    }
  }

  /**
    The streaming merge.  The files, read one after the other, are strictly increasing in key
    within and across files and hold exactly the newest version of every key that is live.
  */
  method MergeTables(tables: Cursors) returns (files: seq<seq<Entry>>)
    requires AllSorted(tables)
    ensures FilesSized(files) && Sorted(Flatten(files)) && AllValues(Flatten(files))
    ensures Meaning(Flatten(files)) == Survivors(View(tables))
  {
    var rest, buffer := tables, [];
    files := [];
    StreamStarts(View(tables));
    var top := Top(rest);
    while top.Some?
      invariant AllSorted(rest)
      invariant top.None? ==> forall i :: !Ready(rest, i)
      invariant top.Some? ==> IsTop(rest, top.value)
      invariant Cutting(files, buffer)
      invariant Streamed(Flatten(files) + buffer, View(rest), View(tables))
      decreases Remaining(rest)
    {
      ghost var left := View(rest);
      var e;
      e, rest := NextKey(rest, top.value);
      EmitKeepsStream(Flatten(files) + buffer, left, View(rest), e, View(tables));
      files, buffer := Push(files, buffer, e);
      top := Top(rest);
    }
    ExhaustedView(rest);
    StreamEnds(Flatten(files) + buffer, View(tables));
    files := CloseLast(files, buffer);
  }

  // ---- how many files ----------------------------------------------------------------

  /** The files a live map of this size is cut into. */
  function OutputCount(live: nat): nat { (live + 999) / 1000 }

  lemma {:induction false} FullFiles(files: seq<seq<Entry>>)
    requires forall i | 0 <= i < |files| :: |files[i]| == L1_MAX_FILE_ENTRIES
    ensures |Flatten(files)| == 1000 * |files|
  {
    if files != [] { FullFiles(files[..|files| - 1]); }
  }

  lemma {:induction false} FileCount(files: seq<seq<Entry>>)
    requires FilesSized(files)
    ensures |files| == OutputCount(|Flatten(files)|)
  {
    if files != [] { FullFiles(files[..|files| - 1]); }
  }

  /** A sorted table has one entry for each key. */
  lemma {:induction false} SortedSize(t: seq<Entry>)
    requires Sorted(t)
    ensures |Meaning(t)| == |t|
  {
    if t != [] {
      var init, last := t[..|t| - 1], t[|t| - 1];
      SortedSize(init);
      MeaningKeys(init, last.key);
      forall i | 0 <= i < |init| ensures init[i].key != last.key { LessAsymmetric(t[i].key, last.key); }
      assert Meaning(t).Keys == Meaning(init).Keys + {last.key};
      assert |Meaning(t).Keys| == |Meaning(init).Keys| + 1;
    }
  }

  lemma {:induction false} SurvivorsSize(c: Contents)
    ensures |Survivors(c)| == |Live(c)|
  {
    assert Survivors(c).Keys == Live(c).Keys;
    assert |Survivors(c)| == |Survivors(c).Keys| && |Live(c)| == |Live(c).Keys|;
  }

  /** The merge of tables with `c` as their contents comes to that many files. */
  lemma {:induction false} MergeCount(files: seq<seq<Entry>>, c: Contents)
    requires FilesSized(files) && Sorted(Flatten(files)) && Meaning(Flatten(files)) == Survivors(c)
    ensures |files| == OutputCount(|Live(c)|)
  {
    FileCount(files);
    SortedSize(Flatten(files));
    SurvivorsSize(c);
  }

  lemma {:induction false} FlattenMeaning(files: seq<seq<Entry>>)
    ensures Meaning(Flatten(files)) == Overlay(Meanings(files))
  {
    if files != [] {
      var init, last := files[..|files| - 1], files[|files| - 1];
      FlattenMeaning(init);
      MeaningConcat(Flatten(init), last);
      assert Meanings(files)[..|files| - 1] == Meanings(init);
    }
  }

  lemma {:induction false} InFlatten(files: seq<seq<Entry>>, i: nat, j: nat) returns (at: nat)
    requires i < |files| && j < |files[i]|
    ensures at < |Flatten(files)| && Flatten(files)[at] == files[i][j]
  {
    var init := files[..|files| - 1];
    if i == |files| - 1 {
      at := |Flatten(init)| + j;
    } else {
      at := InFlatten(init, i, j);
    }
  }

  /** Cutting the merged stream into files gives outputs a compaction may publish. */
  lemma {:induction false} FilesAreMerge(files: seq<seq<Entry>>, input: Contents)
    requires Sorted(Flatten(files)) && Meaning(Flatten(files)) == Survivors(input)
    ensures IsMergeOf(Meanings(files), input)
  {
    FlattenMeaning(files);
    forall i, k | 0 <= i < |files| && k in Meanings(files)[i]
      ensures k in Survivors(input) && Meanings(files)[i][k] == input[k]
    {
      FileAgrees(files, i, k);
    }
  }

  lemma {:induction false} FileAgrees(files: seq<seq<Entry>>, i: nat, k: Key)
    requires Sorted(Flatten(files)) && i < |files| && k in Meaning(files[i])
    ensures k in Meaning(Flatten(files)) && Meaning(files[i])[k] == Meaning(Flatten(files))[k]
  {
    MeaningKeys(files[i], k);
    var j :| 0 <= j < |files[i]| && files[i][j].key == k;
    var at := InFlatten(files, i, j);
    MeaningAt(Flatten(files), at);
    FileSorted(files, i);
    MeaningAt(files[i], j);
  }

  lemma {:induction false} FileSorted(files: seq<seq<Entry>>, i: nat)
    requires Sorted(Flatten(files)) && i < |files|
    ensures Sorted(files[i])
  {
    var init, last := files[..|files| - 1], files[|files| - 1];
    var all, n := Flatten(files), |Flatten(init)|;
    if i == |files| - 1 {
      forall a, b | 0 <= a < b < |last| ensures Less(last[a].key, last[b].key) {
        assert all[n + a] == last[a] && all[n + b] == last[b];
      }
    } else {
      forall a, b | 0 <= a < b < n ensures Less(Flatten(init)[a].key, Flatten(init)[b].key) {
        assert all[a] == Flatten(init)[a] && all[b] == Flatten(init)[b];
      }
      FileSorted(init, i);
    }
  }

  // ---- phases 2 and 3: publish, or undo; then remove -------------------------------

  /** What the files of a directory stand for. */
  function Abstract(files: map<Name, seq<Entry>>): (r: map<Name, Contents>)
    ensures r.Keys == files.Keys
    ensures forall n | n in files :: r[n] == Meaning(files[n])
  {
    map n | n in files :: Meaning(files[n])
  }

  ghost predicate AllFilesSorted(files: map<Name, seq<Entry>>) {
    forall n | n in files :: Sorted(files[n])
  }

  /** Reopening a directory in this state yields the live map `want`. */
  ghost predicate Reopens(files: map<Name, seq<Entry>>, want: map<Key, Value>) {
    forall vec | IsLoadOrder(vec, files.Keys) :: LiveOf(Abstract(files), vec) == want
  }

  /** The table directory.  Each method is one atomic action of the file system. */
  class Directory {
    var files: map<Name, seq<Entry>>
    ghost var seen: seq<map<Name, seq<Entry>>>   // the directory after each action so far

    /** rename(2) of a finished temporary to its final name. */
    method Rename(n: Name, t: seq<Entry>)
      modifies this
      ensures files == old(files)[n := t] && seen == old(seen) + [files]
    {
      files := files[n := t];
      seen := seen + [files];
    }

    method Remove(n: Name)
      modifies this
      ensures files == old(files) - {n} && seen == old(seen) + [files]
    {
      files := files - {n};
      seen := seen + [files];
    }
  }

  /** Every directory state recorded from position `from` on reopens to `want`. */
  ghost predicate SafeSince(seen: seq<map<Name, seq<Entry>>>, from: nat, want: map<Key, Value>) {
    from <= |seen| && forall i | from <= i < |seen| :: Reopens(seen[i], want)
  }

  lemma SafeSnoc(seen: seq<map<Name, seq<Entry>>>, from: nat, want: map<Key, Value>, files: map<Name, seq<Entry>>)
    requires SafeSince(seen, from, want) && Reopens(files, want)
    ensures SafeSince(seen + [files], from, want)
  {
  }

  lemma CompactingReopens(files: map<Name, seq<Entry>>, ins: seq<Name>, p: Phase)
    requires p.Compacting? && CompactingOk(Abstract(files), ins, p)
    ensures forall n | n in ins :: n in p.all
    ensures Reopens(files, LiveOf(p.all, ins))
  {
    forall vec | IsLoadOrder(vec, files.Keys) ensures LiveOf(Abstract(files), vec) == LiveOf(p.all, ins) {
      CompactingView(Abstract(files), ins, p, vec);
    }
  }

  lemma {:induction false} AbstractAdd(files: map<Name, seq<Entry>>, n: Name, t: seq<Entry>)
    ensures Abstract(files[n := t]) == Abstract(files)[n := Meaning(t)]
  {
  }

  lemma AbstractRemove(files: map<Name, seq<Entry>>, n: Name)
    ensures Abstract(files - {n}) == Abstract(files) - {n}
  {
  }

  /** A compaction of `vec` under way in `dir`, every directory state since `from` safe to crash in. */
  ghost predicate Underway(dir: Directory, vec: seq<Name>, p: Phase, from: nat)
    reads dir
  {
    && p.Compacting? && CompactingOk(Abstract(dir.files), vec, p)
    && (forall n | n in vec :: n in p.all)
    && SafeSince(dir.seen, from, LiveOf(p.all, vec))
  }

  /** Tables of `vec` still present are the files they were. */
  ghost predicate InputsKept(before: map<Name, seq<Entry>>, now: map<Name, seq<Entry>>, vec: seq<Name>) {
    forall n | n in vec && n in now :: n in before && now[n] == before[n]
  }

  lemma {:induction false} PublishOne(files: map<Name, seq<Entry>>, vec: seq<Name>, p: Phase, t: seq<Entry>)
    requires p.Compacting? && CompactingOk(Abstract(files), vec, p) && p.stage.Publishing? && p.hi < |p.outs|
    requires p.outs[p.hi] in p.all && p.all[p.outs[p.hi]] == Meaning(t)
    ensures (forall n | n in vec :: n in p.all) && p.outs[p.hi] !in vec
    ensures var files' := files[p.outs[p.hi] := t];
            CompactingOk(Abstract(files'), vec, p.(hi := p.hi + 1)) && Reopens(files', LiveOf(p.all, vec))
  {
    PublishOk(Abstract(files), vec, p);
    AbstractAdd(files, p.outs[p.hi], t);
    OutputsAreNew(vec, p.outs, p.outs[p.hi]);
    CompactingReopens(files[p.outs[p.hi] := t], vec, p.(hi := p.hi + 1));
  }

  lemma RollBackOne(files: map<Name, seq<Entry>>, vec: seq<Name>, p: Phase)
    requires p.Compacting? && CompactingOk(Abstract(files), vec, p) && p.stage.RollingBack? && p.lo < p.hi
    ensures forall n | n in vec :: n in p.all
    ensures var files' := files - {p.outs[p.lo]};
            CompactingOk(Abstract(files'), vec, p.(lo := p.lo + 1)) && Reopens(files', LiveOf(p.all, vec))
  {
    RollBackOk(Abstract(files), vec, p);
    AbstractRemove(files, p.outs[p.lo]);
    CompactingReopens(files - {p.outs[p.lo]}, vec, p.(lo := p.lo + 1));
  }

  lemma RemoveOne(files: map<Name, seq<Entry>>, vec: seq<Name>, p: Phase)
    requires p.Compacting? && CompactingOk(Abstract(files), vec, p) && p.stage.Removing? && p.removed < |vec|
    ensures forall n | n in vec :: n in p.all
    ensures var files' := files - {vec[p.removed]};
            CompactingOk(Abstract(files'), vec, p.(removed := p.removed + 1)) && Reopens(files', LiveOf(p.all, vec))
  {
    RemoveOk(Abstract(files), vec, p);
    AbstractRemove(files, vec[p.removed]);
    CompactingReopens(files - {vec[p.removed]}, vec, p.(removed := p.removed + 1));
  }

  /** The first `n` outputs have their names. */
  ghost predicate Published(files: map<Name, seq<Entry>>, names: seq<Name>, outs: seq<seq<Entry>>, n: nat) {
    n <= |names| && n <= |outs| && forall i | 0 <= i < n :: names[i] in files && files[names[i]] == outs[i]
  }

  lemma {:induction false} PublishedNext(files: map<Name, seq<Entry>>, names: seq<Name>, outs: seq<seq<Entry>>, i: nat)
    requires Ordered(names) && i < |names| == |outs| && Published(files, names, outs, i)
    ensures Published(files[names[i] := outs[i]], names, outs, i + 1)
  {
  }

  /** Publishes the first `count` outputs, one atomic rename each. */
  method Publish(dir: Directory, vec: seq<Name>, p: Phase, outs: seq<seq<Entry>>, count: nat, ghost from: nat)
    requires Underway(dir, vec, p, from) && p.stage.Publishing? && p.hi == 0
    requires |p.outs| == |outs| && count <= |outs|
    requires forall i | 0 <= i < |outs| :: p.outs[i] in p.all && p.all[p.outs[i]] == Meaning(outs[i])
    modifies dir
    ensures Underway(dir, vec, p.(hi := count), from)
    ensures old(dir.seen) <= dir.seen
    ensures InputsKept(old(dir.files), dir.files, vec)
    ensures Published(dir.files, p.outs, outs, count)
  {
    var i := 0;
    while i < count
      invariant i <= count
      invariant Underway(dir, vec, p.(hi := i), from)
      invariant old(dir.seen) <= dir.seen
      invariant InputsKept(old(dir.files), dir.files, vec)
      invariant Published(dir.files, p.outs, outs, i)
    {
      PublishOne(dir.files, vec, p.(hi := i), outs[i]);
      SafeSnoc(dir.seen, from, LiveOf(p.all, vec), dir.files[p.outs[i] := outs[i]]);
      PublishedNext(dir.files, p.outs, outs, i);
      dir.Rename(p.outs[i], outs[i]);
      i := i + 1;
    }
  }


  /** Publishing threw: removes the outputs that already have their names. */
  method RollBack(dir: Directory, vec: seq<Name>, p: Phase, ghost from: nat)
    requires Underway(dir, vec, p, from) && p.stage.RollingBack? && p.lo == 0
    modifies dir
    ensures IsLoadOrder(vec, dir.files.Keys)
    ensures old(dir.seen) <= dir.seen && SafeSince(dir.seen, from, LiveOf(p.all, vec))
    ensures InputsKept(old(dir.files), dir.files, vec)
  {
    var i := 0;
    while i < p.hi
      invariant i <= p.hi
      invariant Underway(dir, vec, p.(lo := i), from)
      invariant old(dir.seen) <= dir.seen
      invariant InputsKept(old(dir.files), dir.files, vec)
    {
      RollBackOne(dir.files, vec, p.(lo := i));
      SafeSnoc(dir.seen, from, LiveOf(p.all, vec), dir.files - {p.outs[i]});
      dir.Remove(p.outs[i]);
      i := i + 1;
    }
    RolledBackOk(Abstract(dir.files), vec, p.(lo := i));
  }

  /** The inputs are expendable: removes them oldest first. */
  method RemoveInputs(dir: Directory, vec: seq<Name>, p: Phase, ghost from: nat)
    requires Underway(dir, vec, p, from) && p.stage.Removing? && p.removed == 0
    modifies dir
    ensures IsLoadOrder(p.outs, dir.files.Keys)
    ensures old(dir.seen) <= dir.seen && SafeSince(dir.seen, from, LiveOf(p.all, vec))
    ensures Reopens(dir.files, LiveOf(p.all, vec))
    ensures forall n | n in dir.files :: n in old(dir.files) && dir.files[n] == old(dir.files[n])
  {
    CompactingReopens(dir.files, vec, p);
    var i := 0;
    while i < |vec|
      invariant i <= |vec|
      invariant Underway(dir, vec, p.(removed := i), from)
      invariant old(dir.seen) <= dir.seen
      invariant Reopens(dir.files, LiveOf(p.all, vec))
      invariant forall n | n in dir.files :: n in old(dir.files) && dir.files[n] == old(dir.files[n])
    {
      RemoveOne(dir.files, vec, p.(removed := i));
      SafeSnoc(dir.seen, from, LiveOf(p.all, vec), dir.files - {vec[i]});
      dir.Remove(vec[i]);
      i := i + 1;
    }
    FinishOk(Abstract(dir.files), vec, p.(removed := i));
  }

  /** The tables the compactor reads, oldest first. */
  function Inputs(files: map<Name, seq<Entry>>, vec: seq<Name>): (r: Cursors)
    requires forall n | n in vec :: n in files
    ensures |r| == |vec| && forall i | 0 <= i < |vec| :: r[i] == files[vec[i]]
  {
    seq(|vec|, i requires 0 <= i < |vec| => assert vec[i] in vec; files[vec[i]])
  }

  lemma InputsView(files: map<Name, seq<Entry>>, vec: seq<Name>)
    requires forall n | n in vec :: n in files
    ensures View(Inputs(files, vec)) == Overlay(Tables(Abstract(files), vec))
  {
    assert Meanings(Inputs(files, vec)) == Tables(Abstract(files), vec);
  }

  /** Phase 1 of run: the merged files, and the compaction they make ready to publish. */
  method Stage(dir: Directory, vec: seq<Name>) returns (outs: seq<seq<Entry>>, p: Phase)
    requires IsLoadOrder(vec, dir.files.Keys) && AllFilesSorted(dir.files)
    ensures FilesSized(outs) && Sorted(Flatten(outs))
    ensures Underway(dir, vec, p, |dir.seen|) && p.stage.Publishing? && p.hi == 0
    ensures |p.outs| == |outs| && forall i | 0 <= i < |outs| :: p.outs[i] in p.all && p.all[p.outs[i]] == Meaning(outs[i])
    ensures LiveOf(p.all, vec) == LiveOf(Abstract(dir.files), vec)
    ensures |outs| == OutputCount(|LiveOf(Abstract(dir.files), vec)|) && p.outs == OutputNames(L1Start(vec), |outs|)
  {
    outs := MergeTables(Inputs(dir.files, vec));
    p := Staged(Abstract(dir.files), vec, outs);
    InputsView(dir.files, vec);
    MergeCount(outs, View(Inputs(dir.files, vec)));
    StagedOk(dir.files, vec, outs);
  }

  function Staged(disk: map<Name, Contents>, vec: seq<Name>, outs: seq<seq<Entry>>): Phase {
    var names := OutputNames(L1Start(vec), |outs|);
    Compacting(WithOutputs(disk, names, Meanings(outs)), names, 0, 0, 0, Publishing)
  }

  lemma {:induction false} StagedOk(files: map<Name, seq<Entry>>, vec: seq<Name>, outs: seq<seq<Entry>>)
    requires IsLoadOrder(vec, files.Keys)
    requires Sorted(Flatten(outs)) && Meaning(Flatten(outs)) == Survivors(View(Inputs(files, vec)))
    ensures var p := Staged(Abstract(files), vec, outs);
            && CompactingOk(Abstract(files), vec, p) && (forall n | n in vec :: n in p.all)
            && (forall i | 0 <= i < |outs| :: p.outs[i] in p.all && p.all[p.outs[i]] == Meaning(outs[i]))
            && LiveOf(p.all, vec) == LiveOf(Abstract(files), vec)
  {
    assert IsMergeOf(Meanings(outs), Overlay(Tables(Abstract(files), vec))) by {
      InputsView(files, vec);
      FilesAreMerge(outs, View(Inputs(files, vec)));
    }
    StageOk(Abstract(files), vec, Meanings(outs));
    StageTables(Abstract(files), vec, Meanings(outs));
  }

  lemma SameFiles(before: map<Name, seq<Entry>>, now: map<Name, seq<Entry>>, vec: seq<Name>)
    requires IsLoadOrder(vec, before.Keys) && IsLoadOrder(vec, now.Keys) && InputsKept(before, now, vec)
    ensures now == before
  {
    assert now.Keys == before.Keys;
    forall n | n in now ensures now[n] == before[n] {
      assert n in now.Keys;
    }
  }

  /**
    One run of the compactor.  `mergeThrows` and `publishThrows` say where, if anywhere, an
    exception surfaces: during the merge, or after that many renames.

    It throws if and only if it got past the threshold and one of these applies.  Below the
    threshold, and whenever it throws, the directory, the table list and the counter are what they
    were.  Otherwise the outputs are the only tables, numbered on from the largest level-1 number,
    all full but the last.  Either way every directory state in between reopens to the same live map.
  */
  method Run(dir: Directory, vec: seq<Name>, counter: nat, mergeThrows: bool, publishThrows: Option<nat>)
    returns (tables: seq<Name>, next: nat, threw: bool)
    requires IsLoadOrder(vec, dir.files.Keys) && AllFilesSorted(dir.files)
    modifies dir
    ensures old(dir.seen) <= dir.seen
    ensures SafeSince(dir.seen, |old(dir.seen)|, LiveOf(Abstract(old(dir.files)), vec))
    ensures var n := OutputCount(|LiveOf(Abstract(old(dir.files)), vec)|);
            threw <==> L0Count(vec) >= L0_THRESHOLD
                       && (mergeThrows || (publishThrows.Some? && publishThrows.value <= n))
    ensures threw || L0Count(vec) < L0_THRESHOLD ==> dir.files == old(dir.files) && tables == vec && next == counter
    ensures !threw && L0Count(vec) >= L0_THRESHOLD ==>
              && next == 0 && tables == OutputNames(L1Start(vec), OutputCount(|LiveOf(Abstract(old(dir.files)), vec)|))
              && (forall i | 0 <= i < |tables| - 1 :: tables[i] in dir.files && |dir.files[tables[i]]| == L1_MAX_FILE_ENTRIES)
              && (forall n | n in dir.files :: Sorted(dir.files[n]) && 0 < |dir.files[n]| <= L1_MAX_FILE_ENTRIES)
    ensures IsLoadOrder(tables, dir.files.Keys) && AllFilesSorted(dir.files)
    ensures LiveOf(Abstract(dir.files), tables) == LiveOf(Abstract(old(dir.files)), vec)
  {
    tables, next, threw := vec, counter, false;
    if L0Count(vec) < L0_THRESHOLD {
      return;
    }
    if mergeThrows {
      threw := true;
      return;
    }
    ghost var from, before := |dir.seen|, dir.files;
    var outs, p := Stage(dir, vec);
    if publishThrows.Some? && publishThrows.value <= |outs| {
      Publish(dir, vec, p, outs, publishThrows.value, from);
      RollBack(dir, vec, p.(hi := publishThrows.value, stage := RollingBack), from);
      SameFiles(before, dir.files, vec);
      threw := true;
      return;
    }
    Publish(dir, vec, p, outs, |outs|, from);
    RemoveInputs(dir, vec, p.(hi := |outs|, stage := Removing), from);
    OutputFilesSorted(dir.files, p.outs, outs);
    tables, next := p.outs, 0;
  }

  lemma {:induction false} OutputFilesSorted(files: map<Name, seq<Entry>>, names: seq<Name>, outs: seq<seq<Entry>>)
    requires |names| == |outs| && IsLoadOrder(names, files.Keys) && FilesSized(outs) && Sorted(Flatten(outs))
    requires forall i | 0 <= i < |outs| :: names[i] in files && files[names[i]] == outs[i]
    ensures forall n | n in files :: Sorted(files[n]) && 0 < |files[n]| <= L1_MAX_FILE_ENTRIES
  {
    forall n | n in files ensures Sorted(files[n]) && 0 < |files[n]| <= L1_MAX_FILE_ENTRIES {
      assert n in files.Keys;
      var i :| 0 <= i < |names| && names[i] == n;
      FileSorted(outs, i);
    }
  }
}
