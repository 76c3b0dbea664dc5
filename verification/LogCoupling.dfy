/**
  The log as the engine sees it and the log as its writers run it.  Each engine record is a record
  of the group-commit protocol, each ticket a ticket; under this coupling the promise a returned
  waitDurable gives is the one the engine's acknowledgements rest on.
*/
module LogCoupling {
  import opened Store
  import G = GroupCommit
  import GI = GroupCommitInvariant
  import GT = GroupCommitTheorems
  import E = Engine

  /**
    The engine's log is `found` records found when the log was opened, all landed, and then the
    records `ids` of the current log file, in submission order.
  */
  ghost predicate Coupled(g: G.State, e: E.State, found: nat, ids: seq<G.RecId>) {
    && e.epoch == g.sync.fileEpoch
    && |e.log| == found + |ids| && |e.round.ops| == e.round.flushed + |e.log|
    && (forall i | 0 <= i < found :: e.log[i].landed)
    && (forall i | 0 <= i < |ids| :: RecordOk(g.log, e, found, ids, i))
  }

  /** Record `ids[i]` belongs to the current log, and if it has landed so has the engine's record. */
  ghost predicate RecordOk(log: G.Log, e: E.State, found: nat, ids: seq<G.RecId>, i: nat)
    requires i < |ids| && |e.log| == found + |ids|
  {
    && ids[i] in log.recs && log.recs[ids[i]].epoch == e.epoch && ids[i] < log.nextId
    && (ids[i] in log.landed ==> e.log[found + i].landed)
  }

  /** The two tickets name the same position: every record counted ends at or before it. */
  ghost predicate SameTicket(g: G.State, e: E.State, found: nat, ids: seq<G.RecId>, t: E.Ticket, w: G.Ticket)
    requires forall i | 0 <= i < |ids| :: ids[i] in g.log.recs
  {
    && t.epoch == w.epoch && t.count <= |e.round.ops|
    && (t.epoch == e.epoch ==>
          forall i | 0 <= i < |ids| && e.round.flushed + found + i < t.count :: g.log.recs[ids[i]].End() <= w.end)
  }

  /** A returned waitDurable justifies the engine's acknowledgement of the same ticket. */
  lemma {:induction false} WaitJustifiesAcknowledge(
    states: seq<G.State>, run: seq<G.Action>, k: nat, i: G.Tid, e: E.State, found: nat, ids: seq<G.RecId>, t: E.Ticket)
    requires G.Behavior(states, run) && k < |run| && run[k] == G.Waiting(i, G.Return)
    requires G.At(states[k], i).WaitTest? && Coupled(states[k], e, found, ids)
    requires forall i | 0 <= i < |ids| :: ids[i] in states[k].log.recs
    requires SameTicket(states[k], e, found, ids, t, G.At(states[k], i).t)
    ensures E.Durable(e, t)
  {
    var g := states[k];
    if t.epoch == e.epoch {
      forall n | 0 <= n < |e.log| && e.round.flushed + n < t.count ensures e.log[n].landed {
        if n >= found {
          var r := ids[n - found];
          assert RecordOk(g.log, e, found, ids, n - found);
          GT.WaitDurableIsSafe(states, run, k, i, r);
          GT.StableHasLanded(states, run, k, r);
        }
      }
    }
  }

  // ----- the coupling is kept -----

  /** Outside a replacement both epochs agree. */
  lemma {:induction false} FileIsCurrent(g: G.State, i: G.Tid)
    requires GI.Locks(g) && GI.Control(g) && G.At(g, i).HoldsMu() && !G.At(g, i).Replacing()
    ensures g.sync.fileEpoch == g.sync.epoch
  {
  }

  /** Submitting a record is appending to the engine's log. */
  lemma {:induction false} SubmitIsAppend(g: G.State, i: G.Tid, blocks: nat, e: E.State, op: Op, found: nat, ids: seq<G.RecId>)
    requires GI.Locks(g) && GI.Control(g) && GI.Owned(g.log) && G.AppendEnabled(g, i, G.Submit(blocks))
    requires E.ClientEnabled(e, E.Append(op)) && Coupled(g, e, found, ids)
    ensures Coupled(G.AppendStep(g, i, G.Submit(blocks)), E.ClientStep(e, E.Append(op)), found, ids + [g.log.nextId])
  {
    FileIsCurrent(g, i);
    var g', e' := G.AppendStep(g, i, G.Submit(blocks)), E.ClientStep(e, E.Append(op));
    var ids' := ids + [g.log.nextId];
    forall j | 0 <= j < |ids'| ensures RecordOk(g'.log, e', found, ids', j) {
      if j < |ids| {
        assert RecordOk(g.log, e, found, ids, j);
      } else {
        assert g.log.nextId !in g.log.landed;
      }
    }
  }

  /** A full-length completion is a landing. */
  lemma {:induction false} CompleteIsLand(g: G.State, e: E.State, found: nat, ids: seq<G.RecId>, n: nat)
    requires Coupled(g, e, found, ids) && n < |ids| && ids[n] in g.log.inflight
    requires forall i, j | 0 <= i < j < |ids| :: ids[i] != ids[j]
    ensures E.ClientEnabled(e, E.Land(found + n))
    ensures Coupled(G.RingStep(g, G.Complete(ids[n], G.Full)), E.ClientStep(e, E.Land(found + n)), found, ids)
  {
    var g', e' := G.RingStep(g, G.Complete(ids[n], G.Full)), E.ClientStep(e, E.Land(found + n));
    forall j | 0 <= j < |ids| ensures RecordOk(g'.log, e', found, ids, j) {
      assert RecordOk(g.log, e, found, ids, j);
    }
  }

  /** Replacing the log file is clearing the engine's log. */
  lemma {:induction false} ReplaceIsClear(g: G.State, i: G.Tid, e: E.State, found: nat, ids: seq<G.RecId>)
    requires G.ClearEnabled(g, i, G.Replace) && E.FlushEnabled(e, E.ClearLog) && Coupled(g, e, found, ids)
    requires g.sync.epoch == g.sync.fileEpoch + 1
    ensures Coupled(G.ClearStep(g, i, G.Replace), E.FlushStep(e, E.ClearLog), 0, [])
  {
  }

  /** Any other step of the log's threads leaves the coupling as it is. */
  lemma {:induction false} OtherStep(g: G.State, a: G.Action, e: E.State, found: nat, ids: seq<G.RecId>)
    requires G.Enabled(g, a) && Coupled(g, e, found, ids)
    requires !(a.Appending? && a.append.Submit?) && !(a.Clear? && a.clear.Replace?)
    requires a.Ring? && a.ring.Complete? && a.ring.outcome.Full? ==> a.ring.r !in ids
    ensures Coupled(G.Do(g, a), e, found, ids)
  {
    var g' := G.Do(g, a);
    forall j | 0 <= j < |ids| ensures RecordOk(g'.log, e, found, ids, j) {
      assert RecordOk(g.log, e, found, ids, j);
    }
  }

  /** So does any engine step that touches neither log nor epoch. */
  lemma {:induction false} EngineStep(g: G.State, e: E.State, a: E.Action, found: nat, ids: seq<G.RecId>)
    requires E.Enabled(e, a) && Coupled(g, e, found, ids) && !a.Crash?
    requires a.Client? ==> a.client.TakeTicket? || a.client.Acknowledge?
    requires a.Flush? ==> !a.flush.ClearLog?
    ensures Coupled(g, E.Do(e, a), found, ids)
  {
    var e' := E.Do(e, a);
    assert e'.log == e.log && e'.epoch == e.epoch && e'.round.ops == e.round.ops && e'.round.flushed == e.round.flushed;
    forall j | 0 <= j < |ids| ensures RecordOk(g.log, e', found, ids, j) {
      assert RecordOk(g.log, e, found, ids, j);
    }
  }

  predicate TakesTicket(a: G.Action) {
    (a.Appending? && a.append.ReturnTicket?) || (a.Waiting? && a.wait.TakeTicket?)
  }

  /** Both logs hand out a ticket: `w` is the one an append or a sync() takes, `t` the engine's. */
  ghost predicate TakeTickets(g: G.State, a: G.Action, e: E.State, g': G.State, e': E.State, t: E.Ticket, w: G.Ticket) {
    && TakesTicket(a)
    && G.Enabled(g, a) && g' == G.Do(g, a) && g'.tickets == g.tickets + {w}
    && e' == E.ClientStep(e, E.TakeTicket) && e'.round.tickets == e.round.tickets + {t}
  }

  /** Tickets handed out at the same moment count every operation and name the same position. */
  lemma {:induction false} TicketsTaken(g: G.State, a: G.Action, e: E.State, found: nat, ids: seq<G.RecId>)
    returns (g': G.State, e': E.State, t: E.Ticket, w: G.Ticket)
    requires Coupled(g, e, found, ids) && GI.Tiled(g.log, g.sync.epoch) && GI.Locks(g) && GI.Control(g)
    requires G.Enabled(g, a) && TakesTicket(a)
    ensures TakeTickets(g, a, e, g', e', t, w) && Coupled(g', e', found, ids)
    ensures forall i | 0 <= i < |ids| :: ids[i] in g'.log.recs
    ensures t.epoch == e.epoch && t.count == |e.round.ops| && SameTicket(g', e', found, ids, t, w)
  {
    g', e' := G.Do(g, a), E.ClientStep(e, E.TakeTicket);
    t, w := E.Ticket(|e.round.ops|, e.epoch), G.Ticket(g.sync.epoch, g.log.writeOffset);
    OtherStep(g, a, e, found, ids);
    EngineStep(g', e, E.Client(E.TakeTicket), found, ids);
    assert g'.log == g.log;
    forall i | 0 <= i < |ids| ensures ids[i] in g.log.recs && g.log.recs[ids[i]].End() <= g.log.writeOffset {
      assert RecordOk(g.log, e, found, ids, i);
    }
  }

  /** And go on doing so as records are added. */
  lemma {:induction false} TicketStays(g: G.State, g': G.State, e: E.State, e': E.State, found: nat,
                                       ids: seq<G.RecId>, r: G.RecId, t: E.Ticket, w: G.Ticket)
    requires Coupled(g, e, found, ids) && forall i | 0 <= i < |ids| :: ids[i] in g.log.recs
    requires SameTicket(g, e, found, ids, t, w)
    requires forall q | q in g.log.recs :: q in g'.log.recs && g'.log.recs[q] == g.log.recs[q]
    requires r in g'.log.recs && |e'.round.ops| == |e.round.ops| + 1 && e'.round.flushed == e.round.flushed && e'.epoch == e.epoch
    ensures (forall i | 0 <= i < |ids + [r]| :: (ids + [r])[i] in g'.log.recs)
    ensures SameTicket(g', e', found, ids + [r], t, w)
  {
  }
}
