/** From the running log to recovery: what the group-commit protocol places, the parser reads back. */
module WalRecovery {
  import opened Store
  import G = GroupCommit
  import GroupCommitTheorems
  import opened WalCodec
  import opened WalImage

  /** `ids` are records of one epoch in submission order, and `ops` what they were encoded from. */
  ghost predicate Submissions(log: G.Log, epoch: nat, ids: seq<G.RecId>, ops: seq<Op>) {
    && |ids| == |ops|
    && (forall i, j | 0 <= i < j < |ids| :: ids[i] < ids[j])
    && (forall i | 0 <= i < |ids| :: ids[i] in log.recs && log.recs[ids[i]].epoch == epoch)
    && (forall i | 0 <= i < |ids| :: Fits(ops[i]) && log.recs[ids[i]].bytes == |Encode(ops[i])|)
  }

  /** The block each record was given. */
  ghost function Positions(log: G.Log, ids: seq<G.RecId>): (at: seq<nat>)
    requires forall i | 0 <= i < |ids| :: ids[i] in log.recs
    ensures |at| == |ids| && forall i | 0 <= i < |ids| :: at[i] == log.recs[ids[i]].off / 512
  {
    seq(|ids|, i requires 0 <= i < |ids| => log.recs[ids[i]].off / 512)
  }

  lemma {:induction false} InBlocks(off: nat, bytes: nat, next: nat, n: nat)
    requires off % 512 == 0 && next % 512 == 0 && bytes == 512 * n && off + bytes <= next
    ensures off / 512 + n <= next / 512
  {
  }

  /** What the file of `epoch` held when it was opened: the log found then, or nothing once cleared. */
  function Opening(found: seq<Slot>, epoch: nat): seq<Slot> { if epoch == 0 then found else [] }

  /**
    In every reachable state of a log opened on a file that held `found`, with any number of
    writers: if the writes of some records of an epoch landed, in any order and any number of
    times, recovery returns the records the epoch's file held at first, then exactly the landed
    records' operations, in submission order.
  */
  lemma {:induction false} LogRecoversLanded(
    states: seq<G.State>, run: seq<G.Action>, k: nat, found: seq<Slot>, epoch: nat,
    ids: seq<G.RecId>, ops: seq<Op>, order: seq<nat>)
    requires G.Behavior(states, run) && k <= |run| && Submissions(states[k].log, epoch, ids, ops)
    requires SlotsOk(found) && |Image(found)| == states[0].log.writeOffset
    requires forall j | 0 <= j < |order| :: order[j] < |ops|
    ensures var recs, before := Submitted(ops, Positions(states[k].log, ids)), Opening(found, epoch);
      Parse(File(Image(before), recs, order)) == Landed(before) + Kept(recs, Members(order), |ops|)
  {
    var log := states[k].log;
    var at := Positions(log, ids);
    var before := Opening(found, epoch);
    var n := |Image(before)| / 512;
    forall i | 0 <= i < |ops| ensures n <= at[i] {
      if epoch == 0 { GroupCommitTheorems.FirstEpochAbove(states, run, k, ids[i]); }
    }
    forall i, j | 0 <= i < j < |ops| ensures at[i] + Blocks(ops[i]) <= at[j] {
      GroupCommitTheorems.LogOrderIsSubmissionOrder(states, run, k, ids[i], ids[j]);
      GroupCommitTheorems.RecordsAreAligned(states, run, k, ids[i]);
      InBlocks(log.recs[ids[i]].off, log.recs[ids[i]].bytes, log.recs[ids[j]].off, Blocks(ops[i]));
    }
    RecoverLanded(before, n, ops, at, order);
  }

  /** A record's file position is the block it was given. */
  lemma {:induction false} PositionIsOffset(states: seq<G.State>, run: seq<G.Action>, k: nat, ids: seq<G.RecId>, i: nat)
    requires G.Behavior(states, run) && k <= |run| && i < |ids|
    requires forall j | 0 <= j < |ids| :: ids[j] in states[k].log.recs
    ensures 512 * Positions(states[k].log, ids)[i] == states[k].log.recs[ids[i]].off
  {
    GroupCommitTheorems.RecordsAreAligned(states, run, k, ids[i]);
  }
}
