/**
  The lock-free skip list as a step system: any number of threads insert and look up keys,
  every load, store and compare-and-swap is one step, and steps of different threads
  interleave freely.  Atomics are sequentially consistent.

  Nodes are never unlinked or freed, so a node is a position in `nodes`; position 0 is the
  head, which precedes every key.  `linked` (per level) and `index` (level 0, by key) are
  history: what has been published by a successful CAS.
*/
module SkipList {
  import opened Wrappers
  import opened Store
  import opened KeyOrder

  type NodeId = nat
  type Tid = nat
  type Link = Option<NodeId>

  const MAX_HEIGHT: nat := 12
  const HEAD: NodeId := 0

  datatype Node = Node(key: Key, value: Option<Value>, next: seq<Link>)

  datatype List = List(nodes: seq<Node>, linked: seq<set<NodeId>>, index: map<Key, NodeId>)

  /** Local state of find(): the level being walked, the node reached, what upper levels gave. */
  datatype Walk = Walk(level: nat, x: NodeId, preds: seq<NodeId>, succs: seq<Link>)

  datatype Pc =
    | Idle
    | InsertFind(key: Key, value: Option<Value>, w: Walk)      // first find of an attempt
    | InsertStore(key: Key, value: Option<Value>, n: NodeId)   // key present: about to swap the value cell
    | InsertCreate(key: Key, value: Option<Value>, preds: seq<NodeId>, succs: seq<Link>)
    | InsertCas(key: Key, value: Option<Value>, node: NodeId, preds: seq<NodeId>, succs: seq<Link>)
    | LinkStore(key: Key, node: NodeId, level: nat, preds: seq<NodeId>, succs: seq<Link>)
    | LinkCas(key: Key, node: NodeId, level: nat, preds: seq<NodeId>, succs: seq<Link>)
    | LinkFind(key: Key, node: NodeId, level: nat, w: Walk)    // CAS failed: find the neighbours again
    | InsertDone(key: Key, inserted: bool)
    | GetFind(key: Key, w: Walk)
    | GetLoad(key: Key, n: NodeId)                             // key present: about to load the value cell
    | GetDone(key: Key, found: Option<Option<Value>>)

  datatype State = State(list: List, threads: seq<Pc>)

  /** A list holding nothing but the head, and no thread inside a call. */
  ghost predicate Init(s: State) {
    && s.list == List([Node([], None, seq(MAX_HEIGHT, _ => None))], seq(MAX_HEIGHT, _ => {}), map[])
    && (forall t | 0 <= t < |s.threads| :: s.threads[t] == Idle)
  }

  /** `x` comes before key `k`. */
  predicate Precedes(nodes: seq<Node>, x: NodeId, k: Key)
    requires x < |nodes|
  {
    x == HEAD || Less(nodes[x].key, k)
  }

  function StartWalk(): Walk {
    Walk(MAX_HEIGHT - 1, HEAD, seq(MAX_HEIGHT, _ => HEAD), seq(MAX_HEIGHT, _ => None))
  }

  /** The walk is at a link that exists. */
  predicate CanLoad(l: List, w: Walk) {
    && w.x < |l.nodes| && w.level < |l.nodes[w.x].next|
    && w.level < |w.preds| && w.level < |w.succs|
    && (l.nodes[w.x].next[w.level].Some? ==> l.nodes[w.x].next[w.level].value < |l.nodes|)
  }

  /** One load of find(): go right, or record the neighbours and go down; None when level 0 is done. */
  datatype Loaded = Moved(w: Walk) | Finished(preds: seq<NodeId>, succs: seq<Link>)

  function Load(l: List, key: Key, w: Walk): Loaded
    requires CanLoad(l, w)
  {
    var n := l.nodes[w.x].next[w.level];
    if n.Some? && Less(l.nodes[n.value].key, key) then Moved(w.(x := n.value))
    else
      var preds, succs := w.preds[w.level := w.x], w.succs[w.level := n];
      if w.level > 0 then Moved(Walk(w.level - 1, w.x, preds, succs)) else Finished(preds, succs)
  }

  /** find()'s result: the node holding the key, if there is one. */
  function Found(l: List, key: Key, succs: seq<Link>): Link
    requires 0 < |succs| && (succs[0].Some? ==> succs[0].value < |l.nodes|)
  {
    if succs[0].Some? && l.nodes[succs[0].value].key == key then succs[0] else None
  }

  /** compare_exchange on pred->next[level], publishing `node`. */
  predicate CasHits(l: List, level: nat, pred: NodeId, succ: Link) {
    pred < |l.nodes| && level < |l.nodes[pred].next| && l.nodes[pred].next[level] == succ
  }

  function SetNext(nodes: seq<Node>, n: NodeId, level: nat, to: Link): seq<Node>
    requires n < |nodes| && level < |nodes[n].next|
  {
    nodes[n := nodes[n].(next := nodes[n].next[level := to])]
  }

  function Publish(l: List, key: Key, node: NodeId, level: nat, pred: NodeId): List
    requires pred < |l.nodes| && level < |l.nodes[pred].next| && level < |l.linked|
  {
    List(SetNext(l.nodes, pred, level, Some(node)),
         l.linked[level := l.linked[level] + {node}],
         if level == 0 then l.index[key := node] else l.index)
  }

  // ---- steps -----------------------------------------------------------------------

  datatype Action =
    | CallInsert(key: Key, value: Option<Value>) | CallGet(key: Key)
    | LoadNext                        // one load of a running find
    | StoreValue                      // overwrite: publish a new value cell
    | Create(height: nat)             // allocate the node and set its private links
    | CasLevel0 | StoreLink | CasLink
    | LoadValue
    | Return

  predicate Enabled(s: State, t: Tid, a: Action) {
    t < |s.threads| &&
    var pc := s.threads[t];
    match a
    case CallInsert(_, _) => pc.Idle?
    case CallGet(_) => pc.Idle?
    case LoadNext => (pc.InsertFind? || pc.LinkFind? || pc.GetFind?) && CanFinish(s.list, pc.key, pc.w)
    case StoreValue => pc.InsertStore? && pc.n < |s.list.nodes|
    case Create(h) => pc.InsertCreate? && 1 <= h <= MAX_HEIGHT && |pc.succs| == MAX_HEIGHT
    case CasLevel0 =>
      pc.InsertCas? && 0 < |pc.preds| && 0 < |pc.succs| && 0 < |s.list.linked|
      && pc.preds[0] < |s.list.nodes| && 0 < |s.list.nodes[pc.preds[0]].next| && pc.node < |s.list.nodes|
    case StoreLink =>
      pc.LinkStore? && pc.level < |pc.succs| && pc.node < |s.list.nodes| && pc.level < |s.list.nodes[pc.node].next|
    case CasLink =>
      pc.LinkCas? && pc.level < |pc.preds| && pc.level < |pc.succs| && pc.level < |s.list.linked|
      && pc.preds[pc.level] < |s.list.nodes| && pc.level < |s.list.nodes[pc.preds[pc.level]].next|
      && pc.node < |s.list.nodes|
    case LoadValue => pc.GetLoad? && pc.n < |s.list.nodes|
    case Return => pc.InsertDone? || pc.GetDone?
  }

  predicate CanFinish(l: List, key: Key, w: Walk) {
    CanLoad(l, w) &&
    match Load(l, key, w)
    case Moved(_) => true
    case Finished(_, succs) => 0 < |succs| && (succs[0].Some? ==> succs[0].value < |l.nodes|)
  }

  /** Where a thread goes when its find moves or finishes. */
  function AfterLoad(l: List, pc: Pc): Pc
    requires (pc.InsertFind? || pc.LinkFind? || pc.GetFind?) && CanFinish(l, pc.key, pc.w)
  {
    match Load(l, pc.key, pc.w)
    case Moved(w) => pc.(w := w)
    case Finished(preds, succs) =>
      var hit := Found(l, pc.key, succs);
      match pc
      case InsertFind(key, value, _) =>
        if hit.Some? then InsertStore(key, value, hit.value) else InsertCreate(key, value, preds, succs)
      case LinkFind(key, node, level, _) => LinkStore(key, node, level, preds, succs)
      case GetFind(key, _) => if hit.Some? then GetLoad(key, hit.value) else GetDone(key, None)
  }

  /** After linking level `level`, go on to the next level or finish. */
  function AfterLink(l: List, key: Key, node: NodeId, level: nat, preds: seq<NodeId>, succs: seq<Link>): Pc
    requires node < |l.nodes|
  {
    if level + 1 < |l.nodes[node].next| then LinkStore(key, node, level + 1, preds, succs)
    else InsertDone(key, true)
  }

  function Do(s: State, t: Tid, a: Action): State
    requires Enabled(s, t, a)
  {
    var l, pc := s.list, s.threads[t];
    match a
    case CallInsert(key, value) => Goto(s, t, InsertFind(key, value, StartWalk()))
    case CallGet(key) => Goto(s, t, GetFind(key, StartWalk()))
    case LoadNext => Goto(s, t, AfterLoad(l, pc))
    case StoreValue =>
      State(l.(nodes := l.nodes[pc.n := l.nodes[pc.n].(value := pc.value)]),
            s.threads[t := InsertDone(pc.key, false)])
    case Create(h) =>
      State(l.(nodes := l.nodes + [Node(pc.key, pc.value, pc.succs[..h])]),
            s.threads[t := InsertCas(pc.key, pc.value, |l.nodes|, pc.preds, pc.succs)])
    case CasLevel0 =>
      if CasHits(l, 0, pc.preds[0], pc.succs[0]) then
        State(Publish(l, pc.key, pc.node, 0, pc.preds[0]),
              s.threads[t := AfterLink(l, pc.key, pc.node, 0, pc.preds, pc.succs)])
      else Goto(s, t, InsertFind(pc.key, pc.value, StartWalk()))
    case StoreLink =>
      State(l.(nodes := SetNext(l.nodes, pc.node, pc.level, pc.succs[pc.level])),
            s.threads[t := LinkCas(pc.key, pc.node, pc.level, pc.preds, pc.succs)])
    case CasLink =>
      if CasHits(l, pc.level, pc.preds[pc.level], pc.succs[pc.level]) then
        State(Publish(l, pc.key, pc.node, pc.level, pc.preds[pc.level]),
              s.threads[t := AfterLink(l, pc.key, pc.node, pc.level, pc.preds, pc.succs)])
      else Goto(s, t, LinkFind(pc.key, pc.node, pc.level, StartWalk()))
    case LoadValue => Goto(s, t, GetDone(pc.key, Some(l.nodes[pc.n].value)))
    case Return => Goto(s, t, Idle)
  }

  function Goto(s: State, t: Tid, pc: Pc): State
    requires t < |s.threads|
  {
    s.(threads := s.threads[t := pc])
  }

  datatype Step = Step(t: Tid, a: Action)

  ghost predicate Behavior(states: seq<State>, run: seq<Step>) {
    && |states| == |run| + 1
    && Init(states[0])
    && (forall k | 0 <= k < |run| ::
          Enabled(states[k], run[k].t, run[k].a) && states[k + 1] == Do(states[k], run[k].t, run[k].a))
  }
}
