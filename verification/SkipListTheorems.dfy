/** What the skip list guarantees in every reachable state and over every run. */
module SkipListTheorems {
  import opened Wrappers
  import opened Store
  import opened KeyOrder
  import opened SkipList
  import opened SkipListInvariant

  // ---- structure -------------------------------------------------------------------

  /** `path` is what following level-`i` links from `x` visits, down to the null link. */
  ghost predicate Visits(l: List, i: nat, x: NodeId, path: seq<NodeId>)
    decreases |path|
  {
    x < |l.nodes| && i < |l.nodes[x].next| &&
    if path == [] then l.nodes[x].next[i] == None
    else l.nodes[x].next[i] == Some(path[0]) && Visits(l, i, path[0], path[1..])
  }

  /** Keys strictly increase along `path`, so no node occurs twice. */
  ghost predicate Increasing(l: List, path: seq<NodeId>) {
    && (forall a | 0 <= a < |path| :: path[a] < |l.nodes|)
    && (forall a, b | 0 <= a < b < |path| :: Less(l.nodes[path[a]].key, l.nodes[path[b]].key))
  }

  /** The nodes linked on level `i` that come after `x`. */
  ghost function Later(l: List, i: nat, x: NodeId): set<NodeId>
    requires Shape(l) && i < MAX_HEIGHT && x < |l.nodes|
  {
    set m | m in l.linked[i] && m < |l.nodes| && Precedes(l.nodes, x, l.nodes[m].key)
  }

  lemma LaterSteps(l: List, i: nat, x: NodeId)
    requires ListInv(l) && i < MAX_HEIGHT && On(l, i, x)
    ensures var y := l.nodes[x].next[i];
            if y.None? then Later(l, i, x) == {}
            else y.value in Later(l, i, x) && Later(l, i, y.value) == Later(l, i, x) - {y.value}
  {
    assert LinkOk(l, i, x);
    var y := l.nodes[x].next[i];
    if y.Some? {
      forall m ensures m in Later(l, i, y.value) <==> m in Later(l, i, x) - {y.value} {
        if m in l.linked[i] { LaterThanNext(l, i, x, y.value, m); }
      }
    } else {
      forall m | m in l.linked[i] && m < |l.nodes| ensures !Precedes(l.nodes, x, l.nodes[m].key) {
        assert !Between(l, x, m, y);
      }
    }
  }

  lemma LaterThanNext(l: List, i: nat, x: NodeId, y: NodeId, m: NodeId)
    requires ListInv(l) && i < MAX_HEIGHT && On(l, i, x) && l.nodes[x].next[i] == Some(y)
    requires m in l.linked[i]
    ensures Less(l.nodes[y].key, l.nodes[m].key) <==> Precedes(l.nodes, x, l.nodes[m].key) && m != y
  {
    assert LinkOk(l, i, x);
    assert !Between(l, x, m, Some(y));
    LessTotal(l.nodes[y].key, l.nodes[m].key);
    if Less(l.nodes[y].key, l.nodes[m].key) {
      LessAsymmetric(l.nodes[y].key, l.nodes[m].key);
      if x != HEAD { LessTransitive(l.nodes[x].key, l.nodes[y].key, l.nodes[m].key); }
    } else if l.nodes[y].key == l.nodes[m].key {
      SameKeySameNode(l, i, y, m);
    }
  }

  lemma {:induction false} PathFrom(l: List, i: nat, x: NodeId) returns (path: seq<NodeId>)
    requires ListInv(l) && i < MAX_HEIGHT && On(l, i, x)
    ensures Visits(l, i, x, path) && Increasing(l, path)
    ensures forall n :: n in path <==> n in Later(l, i, x)
    decreases |Later(l, i, x)|
  {
    LaterSteps(l, i, x);
    assert LinkOk(l, i, x);
    var y := l.nodes[x].next[i];
    if y.None? {
      path := [];
    } else {
      var rest := PathFrom(l, i, y.value);
      path := [y.value] + rest;
      assert path[1..] == rest;
      forall b | 0 <= b < |rest| ensures rest[b] < |l.nodes| && Less(l.nodes[y.value].key, l.nodes[rest[b]].key) {
        assert rest[b] in Later(l, i, y.value);
      }
    }
  }

  /**
    Structure: in every reachable state the level-`i` links from the head lead, in strictly
    increasing key order and to a null link, through exactly the nodes linked on that level;
    each level is contained in the one below.
  */
  lemma LevelIsSortedList(states: seq<State>, run: seq<Step>, k: nat, i: nat) returns (path: seq<NodeId>)
    requires Behavior(states, run) && k <= |run| && i < MAX_HEIGHT
    ensures var l := states[k].list;
            && |l.linked| == MAX_HEIGHT
            && Visits(l, i, HEAD, path) && Increasing(l, path)
            && (forall n :: n in path <==> n in l.linked[i])
            && (i > 0 ==> l.linked[i] <= l.linked[i - 1])
  {
    BehaviorInv(states, run, k);
    var l := states[k].list;
    path := PathFrom(l, i, HEAD);
    assert forall n :: n in Later(l, i, HEAD) <==> n in l.linked[i];
  }

  /** No linked node and no key is ever lost, on any level. */
  lemma NothingIsLost(states: seq<State>, run: seq<Step>, k: nat)
    requires Behavior(states, run) && k < |run|
    ensures forall i, n | 0 <= i < |states[k].list.linked| && n in states[k].list.linked[i] ::
              i < |states[k + 1].list.linked| && n in states[k + 1].list.linked[i]
    ensures forall key | key in states[k].list.index ::
              key in states[k + 1].list.index && states[k + 1].list.index[key] == states[k].list.index[key]
  {
    BehaviorInv(states, run, k);
    KeepsIndex(states[k], run[k].t, run[k].a);
  }

  lemma KeepsIndex(s: State, t: Tid, a: Action)
    requires Inv(s) && Enabled(s, t, a)
    ensures var l, l' := s.list, Do(s, t, a).list;
            && |l.linked| == |l'.linked|
            && (forall i, n | 0 <= i < |l.linked| && n in l.linked[i] :: n in l'.linked[i])
            && (forall key | key in l.index :: key in l'.index && l'.index[key] == l.index[key])
  {
    var l, pc := s.list, s.threads[t];
    if a == CasLevel0 && CasHits(l, 0, pc.preds[0], pc.succs[0]) {
      assert Straddle(l, pc.key, 0, pc.preds[0], pc.succs[0]);
      AdjacentMeansAbsent(l, pc.key, pc.preds[0], pc.succs[0]);
    }
  }

  // ---- linearisability -------------------------------------------------------------

  datatype MapOp = Insert(key: Key, value: Option<Value>) | Find(key: Key)

  datatype Response = Inserted(isNew: bool) | Answer(found: Option<Option<Value>>)

  /** A client of an atomic map: outside, waiting for an operation to take effect, or answered. */
  datatype Client = Outside | Called(op: MapOp) | Answered(response: Response)

  /** The atomic map: what an operation does and answers, all at once. */
  function Effected(m: Contents, op: MapOp): (Contents, Response) {
    match op
    case Insert(k, v) => (m[k := v], Inserted(k !in m))
    case Find(k) => (m, Answer(if k in m then Some(m[k]) else None))
  }

  /** One step of a client of the atomic map. */
  predicate AtomicStep(m: Contents, c: Client, m': Contents, c': Client) {
    || (m' == m && c' == c)
    || (m' == m && c.Outside? && c'.Called?)
    || (c.Called? && (m', c') == (Effected(m, c.op).0, Answered(Effected(m, c.op).1)))
    || (m' == m && c.Answered? && c'.Outside?)
  }

  /** The level-0 chain with its value cells, as a map. */
  function MapOf(l: List): Contents
    requires forall k | k in l.index :: l.index[k] < |l.nodes|
  {
    map k | k in l.index :: l.nodes[l.index[k]].value
  }

  function ClientOf(pc: Pc): Client {
    match pc
    case Idle => Outside
    case InsertFind(k, v, _) => Called(Insert(k, v))
    case InsertStore(k, v, _) => Called(Insert(k, v))
    case InsertCreate(k, v, _, _) => Called(Insert(k, v))
    case InsertCas(k, v, _, _, _) => Called(Insert(k, v))
    case LinkStore(_, _, _, _, _) => Answered(Inserted(true))
    case LinkCas(_, _, _, _, _) => Answered(Inserted(true))
    case LinkFind(_, _, _, _) => Answered(Inserted(true))
    case InsertDone(_, isNew) => Answered(Inserted(isNew))
    case GetFind(k, _) => Called(Find(k))
    case GetLoad(k, _) => Called(Find(k))
    case GetDone(_, found) => Answered(Answer(found))
  }

  /** Steps that change neither the index nor a linked node's value leave the map alone. */
  lemma SameMapOf(l: List, l': List)
    requires ListInv(l) && ListInv(l') && l'.index == l.index
    requires forall n | n in l.linked[0] && n < |l.nodes| :: n < |l'.nodes| && l'.nodes[n].value == l.nodes[n].value
    ensures MapOf(l') == MapOf(l)
  {
  }

  lemma StoreTakesEffect(l: List, n: NodeId, key: Key, value: Option<Value>)
    requires ListInv(l) && Holds(l, key, n)
    requires var l' := l.(nodes := l.nodes[n := l.nodes[n].(value := value)]); ListInv(l')
    ensures var l' := l.(nodes := l.nodes[n := l.nodes[n].(value := value)]);
            key in MapOf(l) && MapOf(l') == MapOf(l)[key := value]
  {
  }

  lemma PublishTakesEffect(l: List, key: Key, node: NodeId, pred: NodeId, succ: Link)
    requires ListInv(l) && Ready(l, key, node, 0, pred, succ) && ListInv(Publish(l, key, node, 0, pred))
    ensures key !in MapOf(l)
    ensures MapOf(Publish(l, key, node, 0, pred)) == MapOf(l)[key := l.nodes[node].value]
  {
    AdjacentMeansAbsent(l, key, pred, succ);
  }

  /** A lookup that misses was right at its last level-0 load. */
  lemma MissIsRight(l: List, pc: Pc)
    requires ListInv(l) && PcOk(l, pc) && pc.GetFind? && CanFinish(l, pc.key, pc.w) && AfterLoad(l, pc).GetDone?
    ensures AfterLoad(l, pc) == GetDone(pc.key, None) && pc.key !in l.index
  {
    LoadKeepsWalk(l, pc.key, pc.w);
    var r := Load(l, pc.key, pc.w);
    assert Neighbours(l, pc.key, 0, r.preds[0], r.succs[0]);
    MissIsAround(l, pc.key, r.preds, r.succs);
  }

  /** An insert of a new key takes effect at its level-0 CAS. */
  lemma CasTakesEffect(l: List, pc: Pc)
    requires ListInv(l) && PcOk(l, pc) && pc.InsertCas? && CasHits(l, 0, pc.preds[0], pc.succs[0])
    ensures var l' := Publish(l, pc.key, pc.node, 0, pc.preds[0]);
            ListInv(l') && pc.key !in MapOf(l) && MapOf(l') == MapOf(l)[pc.key := pc.value]
  {
    assert Straddle(l, pc.key, 0, pc.preds[0], pc.succs[0]);
    PublishKeepsList(l, pc.key, pc.node, 0, pc.preds[0], pc.succs[0]);
    PublishTakesEffect(l, pc.key, pc.node, pc.preds[0], pc.succs[0]);
  }

  lemma CasRefines(s: State, t: Tid)
    requires Inv(s) && Enabled(s, t, CasLevel0)
    ensures var s' := Do(s, t, CasLevel0); ListInv(s'.list) && Refines(s, t, s')
  {
    var l, pc := s.list, s.threads[t];
    if CasHits(l, 0, pc.preds[0], pc.succs[0]) { CasTakesEffect(l, pc); }
  }

  /** Creating a node, storing its link and linking it on a higher level leave index and values alone. */
  lemma QuietList(s: State, t: Tid, a: Action)
    requires ListInv(s.list) && Enabled(s, t, a) && (a.Create? || a.StoreLink? || a.CasLink?)
    requires PcOk(s.list, s.threads[t])
    ensures var l, l' := s.list, Do(s, t, a).list;
      && l'.index == l.index && |l.nodes| <= |l'.nodes|
      && (forall n | 0 <= n < |l.nodes| :: l'.nodes[n].value == l.nodes[n].value)
  {
  }

  lemma QuietClient(s: State, t: Tid, a: Action)
    requires Enabled(s, t, a) && (a.Create? || a.StoreLink? || a.CasLink?)
    ensures t < |Do(s, t, a).threads| && ClientOf(Do(s, t, a).threads[t]) == ClientOf(s.threads[t])
  {
  }

  lemma QuietRefines(s: State, t: Tid, a: Action)
    requires Inv(s) && Enabled(s, t, a) && (a.Create? || a.StoreLink? || a.CasLink?)
    ensures var s' := Do(s, t, a);
            ListInv(s'.list) && MapOf(s'.list) == MapOf(s.list) && ClientOf(s'.threads[t]) == ClientOf(s.threads[t])
  {
    StepInv(s, t, a);
    QuietList(s, t, a);
    QuietClient(s, t, a);
    SameMapOf(s.list, Do(s, t, a).list);
  }

  /** The step of thread `t` is one step of an atomic map, or none. */
  ghost predicate Refines(s: State, t: Tid, s': State)
    requires t < |s.threads| && t < |s'.threads| && ListInv(s.list) && ListInv(s'.list)
  {
    AtomicStep(MapOf(s.list), ClientOf(s.threads[t]), MapOf(s'.list), ClientOf(s'.threads[t]))
  }

  lemma LoadRefines(s: State, t: Tid)
    requires Inv(s) && Enabled(s, t, LoadNext)
    ensures Refines(s, t, Do(s, t, LoadNext))
  {
    var l, pc := s.list, s.threads[t];
    if pc.GetFind? && AfterLoad(l, pc).GetDone? { MissIsRight(l, pc); }
  }

  lemma StoreRefines(s: State, t: Tid)
    requires Inv(s) && Enabled(s, t, StoreValue)
    ensures var s' := Do(s, t, StoreValue); ListInv(s'.list) && Refines(s, t, s')
  {
    var l, pc := s.list, s.threads[t];
    StoreValueKeepsList(l, pc.n, pc.value);
    StoreTakesEffect(l, pc.n, pc.key, pc.value);
  }

  /** Every step of every thread is one step of an atomic map, or none; other clients see nothing. */
  lemma StepRefines(s: State, t: Tid, a: Action)
    requires Inv(s) && Enabled(s, t, a)
    ensures var s' := Do(s, t, a);
            && |s'.threads| == |s.threads| && ListInv(s'.list) && Refines(s, t, s')
            && (forall u | 0 <= u < |s.threads| && u != t :: s'.threads[u] == s.threads[u])
  {
    match a
    case LoadNext => LoadRefines(s, t);
    case StoreValue => StoreRefines(s, t);
    case CasLevel0 => CasRefines(s, t);
    case Create(_) => QuietRefines(s, t, a);
    case StoreLink => QuietRefines(s, t, a);
    case CasLink => QuietRefines(s, t, a);
    case LoadValue =>
    case CallInsert(_, _) =>
    case CallGet(_) =>
    case Return =>
  }

  /** An operation taking effect: who, what, and the answer it will return. */
  datatype Event = Event(t: Tid, op: MapOp, response: Response)

  /** The operations that took effect in the first `k` steps, in the order they did. */
  ghost function Events(states: seq<State>, run: seq<Step>, k: nat): seq<Event>
    requires |states| == |run| + 1 && k <= |run|
  {
    if k == 0 then []
    else Events(states, run, k - 1) + EventOf(states[k - 1], run[k - 1].t, states[k])
  }

  ghost function EventOf(s: State, t: Tid, s': State): seq<Event> {
    if t < |s.threads| && t < |s'.threads| && ClientOf(s.threads[t]).Called? && ClientOf(s'.threads[t]).Answered?
    then [Event(t, ClientOf(s.threads[t]).op, ClientOf(s'.threads[t]).response)]
    else []
  }

  /** `events` is a sequential run of the atomic map from empty to `m`, with these answers. */
  ghost predicate Sequential(events: seq<Event>, m: Contents)
    decreases |events|
  {
    if events == [] then m == map[]
    else
      var last := events[|events| - 1];
      exists before :: Sequential(events[..|events| - 1], before) && Effected(before, last.op) == (m, last.response)
  }

  /**
    Taking each operation to happen at the step where its client goes from waiting to answered,
    the operations form a sequential run of a map, with exactly the answers given, that ends in
    the map the level-0 chain and its value cells hold.
  */
  lemma {:induction false} EffectsAreSequential(states: seq<State>, run: seq<Step>, k: nat)
    requires Behavior(states, run) && k <= |run|
    ensures ListInv(states[k].list)
    ensures Sequential(Events(states, run, k), MapOf(states[k].list))
  {
    BehaviorInv(states, run, k);
    if k > 0 {
      EffectsAreSequential(states, run, k - 1);
      BehaviorInv(states, run, k - 1);
      var s, s', t := states[k - 1], states[k], run[k - 1].t;
      StepRefines(s, t, run[k - 1].a);
      ExtendHistory(Events(states, run, k - 1), MapOf(s.list), s, t, s');
    }
  }

  lemma {:induction false} ExtendHistory(events: seq<Event>, m: Contents, s: State, t: Tid, s': State)
    requires Sequential(events, m) && t < |s.threads| && t < |s'.threads|
    requires forall k | k in s'.list.index :: s'.list.index[k] < |s'.list.nodes|
    requires AtomicStep(m, ClientOf(s.threads[t]), MapOf(s'.list), ClientOf(s'.threads[t]))
    ensures Sequential(events + EventOf(s, t, s'), MapOf(s'.list))
  {
    var next := EventOf(s, t, s');
    if next == [] {
      assert events + next == events;
    } else {
      var all := events + next;
      assert all[..|all| - 1] == events && all[|all| - 1] == next[0];
      assert Sequential(events, m) && Effected(m, next[0].op) == (MapOf(s'.list), next[0].response);
    }
  }

  // ---- progress of each step -------------------------------------------------------

  /** No thread is ever stuck: every pointer it holds is one it may follow. */
  lemma NeverStuck(states: seq<State>, run: seq<Step>, k: nat, t: Tid) returns (a: Action)
    requires Behavior(states, run) && k <= |run| && t < |states[k].threads| && !states[k].threads[t].Idle?
    ensures Enabled(states[k], t, a)
  {
    BehaviorInv(states, run, k);
    var l, pc := states[k].list, states[k].threads[t];
    assert PcOk(l, pc);
    match pc {
      case InsertFind(key, _, w) => WalkCanLoad(l, key, w); a := LoadNext;
      case InsertStore(_, _, _) => a := StoreValue;
      case InsertCreate(_, _, _, _) => a := Create(1);
      case InsertCas(key, _, _, preds, succs) => assert Straddle(l, key, 0, preds[0], succs[0]); a := CasLevel0;
      case LinkStore(_, _, _, _, _) => a := StoreLink;
      case LinkCas(key, _, i, preds, succs) => assert Straddle(l, key, i, preds[i], succs[i]); a := CasLink;
      case LinkFind(key, _, _, w) => WalkCanLoad(l, key, w); a := LoadNext;
      case InsertDone(_, _) => a := Return;
      case GetFind(key, w) => WalkCanLoad(l, key, w); a := LoadNext;
      case GetLoad(_, _) => a := LoadValue;
      case GetDone(_, _) => a := Return;
    }
  }
}
