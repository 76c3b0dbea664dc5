/**
  Calls and returns of skip-list operations: every return was preceded, since its call, by exactly
  one step at which the operation took effect, and gives the answer of that step.  With
  linearisability this orders operations as their callers see them.
*/
module SkipListCalls {
  import opened Wrappers
  import opened SkipList
  import opened SkipListInvariant
  import opened SkipListTheorems

  /** The operation an action calls, if it is a call. */
  function CallOf(a: Action): Option<MapOp> {
    match a
    case CallInsert(k, v) => Some(Insert(k, v))
    case CallGet(k) => Some(Find(k))
    case _ => None
  }

  /** What the caller is given. */
  function Returned(pc: Pc): Response
    requires pc.InsertDone? || pc.GetDone?
  {
    if pc.InsertDone? then Inserted(pc.inserted) else Answer(pc.found)
  }

  /** What one step does to the client of its thread. */
  lemma {:induction false} ClientMoves(s: State, t: Tid, a: Action)
    requires Enabled(s, t, a)
    ensures var c, c' := ClientOf(s.threads[t]), ClientOf(Do(s, t, a).threads[t]);
      if CallOf(a).Some? then c == Outside && c' == Called(CallOf(a).value)
      else if a == Return then c.Answered? && c' == Outside
      else !c.Outside? && (c' == c || (c.Called? && c'.Answered?))
  {
  }

  lemma {:induction false} OthersStay(s: State, t: Tid, a: Action, u: Tid)
    requires Enabled(s, t, a) && u < |s.threads| && u != t
    ensures |Do(s, t, a).threads| == |s.threads| && Do(s, t, a).threads[u] == s.threads[u]
  {
  }

  /** From step `from` up to step `to` thread `t` neither calls nor returns, and no operation of its takes effect. */
  ghost predicate Quiet(states: seq<State>, run: seq<Step>, t: Tid, from: nat, to: nat)
    requires to <= |run| < |states|
  {
    forall j | from <= j < to && run[j].t == t :: QuietAt(states, run, t, j)
  }

  ghost predicate QuietAt(states: seq<State>, run: seq<Step>, t: Tid, j: nat)
    requires j < |run| < |states|
  {
    CallOf(run[j].a) == None && run[j].a != Return && EventOf(states[j], t, states[j + 1]) == []
  }

  /** Step `c` is the call of `op` by thread `t`. */
  predicate CallsAt(run: seq<Step>, t: Tid, c: nat, op: MapOp) {
    c < |run| && run[c].t == t && CallOf(run[c].a) == Some(op)
  }

  /** At step `e`, and at no other step since its call at `c`, thread `t`'s operation took effect. */
  ghost predicate TookEffect(states: seq<State>, run: seq<Step>, t: Tid, c: nat, e: nat, k: nat, r: Response)
    requires k <= |run| < |states|
  {
    && c < e < k && run[c].t == run[e].t == t && CallOf(run[c].a).Some?
    && EventOf(states[e], t, states[e + 1]) == [Event(t, CallOf(run[c].a).value, r)]
    && Quiet(states, run, t, c + 1, e) && Quiet(states, run, t, e + 1, k)
  }

  /** What has happened to the operation thread `t` is inside at `k`. */
  ghost predicate Story(states: seq<State>, run: seq<Step>, t: Tid, k: nat, c: nat, e: nat)
    requires k <= |run| < |states| && t < |states[k].threads|
  {
    match ClientOf(states[k].threads[t])
    case Outside => true
    case Called(op) => c < k && CallsAt(run, t, c, op) && Quiet(states, run, t, c + 1, k)
    case Answered(r) => TookEffect(states, run, t, c, e, k, r)
  }

  lemma {:induction false} QuietLonger(states: seq<State>, run: seq<Step>, t: Tid, from: nat, to: nat)
    requires to < |run| < |states| && Quiet(states, run, t, from, to) && (run[to].t == t ==> QuietAt(states, run, t, to))
    ensures Quiet(states, run, t, from, to + 1)
  {
  }

  lemma {:induction false} StoryStep(states: seq<State>, run: seq<Step>, t: Tid, k: nat, c: nat, e: nat)
    returns (c': nat, e': nat)
    requires Behavior(states, run) && k < |run| && t < |states[k].threads| && Story(states, run, t, k, c, e)
    ensures t < |states[k + 1].threads| && Story(states, run, t, k + 1, c', e')
  {
    c', e' := c, e;
    var s, u, a := states[k], run[k].t, run[k].a;
    assert Enabled(s, u, a) && states[k + 1] == Do(s, u, a);
    if u != t {
      OthersStay(s, u, a, t);
      if ClientOf(s.threads[t]).Called? { QuietLonger(states, run, t, c + 1, k); }
      if ClientOf(s.threads[t]).Answered? { QuietLonger(states, run, t, e + 1, k); }
    } else {
      ClientMoves(s, t, a);
      var before, after := ClientOf(s.threads[t]), ClientOf(states[k + 1].threads[t]);
      if CallOf(a).Some? {
        c' := k;
      } else if a != Return {
        if before.Called? && after.Answered? {
          e' := k;
        } else {
          assert QuietAt(states, run, t, k);
          if before.Called? { QuietLonger(states, run, t, c + 1, k); }
          if before.Answered? { QuietLonger(states, run, t, e + 1, k); }
        }
      }
    }
  }

  lemma {:induction false} StoryAlways(states: seq<State>, run: seq<Step>, t: Tid, k: nat) returns (c: nat, e: nat)
    requires Behavior(states, run) && k <= |run| && t < |states[0].threads|
    ensures t < |states[k].threads| && Story(states, run, t, k, c, e)
  {
    c, e := 0, 0;
    if k > 0 {
      c, e := StoryAlways(states, run, t, k - 1);
      c, e := StoryStep(states, run, t, k - 1, c, e);
    }
  }

  lemma {:induction false} SameThreads(states: seq<State>, run: seq<Step>, k: nat)
    requires Behavior(states, run) && k <= |run|
    ensures |states[k].threads| == |states[0].threads|
  {
    if k > 0 {
      SameThreads(states, run, k - 1);
      assert states[k] == Do(states[k - 1], run[k - 1].t, run[k - 1].a);
    }
  }

  /**
    When an operation returns, there are a call before it and exactly one step between the two at
    which it took effect, and the answer returned is the one it had there.
  */
  lemma {:induction false} ReturnsWereEffective(states: seq<State>, run: seq<Step>, k: nat) returns (c: nat, e: nat)
    requires Behavior(states, run) && k < |run| && run[k].a == Return
    ensures run[k].t < |states[k].threads|
    ensures states[k].threads[run[k].t].InsertDone? || states[k].threads[run[k].t].GetDone?
    ensures TookEffect(states, run, run[k].t, c, e, k, Returned(states[k].threads[run[k].t]))
  {
    assert Enabled(states[k], run[k].t, run[k].a);
    SameThreads(states, run, k);
    c, e := StoryAlways(states, run, run[k].t, k);
  }

  /** Step `j` returns the answer of the one step, since its call, at which its operation took effect. */
  ghost predicate ReturnOk(states: seq<State>, run: seq<Step>, j: nat)
    requires j < |run| < |states|
  {
    && run[j].t < |states[j].threads|
    && (states[j].threads[run[j].t].InsertDone? || states[j].threads[run[j].t].GetDone?)
    && exists c: nat, e: nat :: TookEffect(states, run, run[j].t, c, e, j, Returned(states[j].threads[run[j].t]))
  }

  /**
    Linearisability.  The steps at which operations take effect form a sequential run of a map that
    ends in the map the level-0 chain and its value cells hold; and every operation that returns
    took effect at exactly one of them, between its call and its return, with the answer returned.
  */
  lemma {:induction false} Linearisable(states: seq<State>, run: seq<Step>, k: nat)
    requires Behavior(states, run) && k <= |run|
    ensures ListInv(states[k].list) && Sequential(Events(states, run, k), MapOf(states[k].list))
    ensures forall j | 0 <= j < k && run[j].a == Return :: ReturnOk(states, run, j)
  {
    EffectsAreSequential(states, run, k);
    forall j | 0 <= j < k && run[j].a == Return ensures ReturnOk(states, run, j) {
      var c, e := ReturnsWereEffective(states, run, j);
    }
  }
}
