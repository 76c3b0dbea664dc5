/** The skip list's inductive invariant and the lemmas that every step of every thread keeps it. */
module SkipListInvariant {
  import opened Wrappers
  import opened Store
  import opened KeyOrder
  import opened SkipList

  // ---- the list --------------------------------------------------------------------

  ghost predicate Shape(l: List) {
    && |l.nodes| > 0 && |l.linked| == MAX_HEIGHT && |l.nodes[HEAD].next| == MAX_HEIGHT
    && (forall n | 0 <= n < |l.nodes| :: 1 <= |l.nodes[n].next| <= MAX_HEIGHT)
    && (forall n, i | 0 <= n < |l.nodes| && 0 <= i < |l.nodes[n].next| :: LinkInBounds(l, l.nodes[n].next[i]))
    && (forall i, n | 0 <= i < MAX_HEIGHT && n in l.linked[i] :: 0 < n < |l.nodes| && i < |l.nodes[n].next|)
    && (forall i, j, n | 0 <= i < j < MAX_HEIGHT && n in l.linked[j] :: n in l.linked[i])
  }

  predicate LinkInBounds(l: List, link: Link) {
    link.Some? ==> 0 < link.value < |l.nodes|
  }

  /** `x` is on level `i`: the head, or linked there. */
  predicate On(l: List, i: nat, x: NodeId) {
    i < |l.linked| && (x == HEAD || x in l.linked[i])
  }

  /** Node `m` lies after `x` and, if there is a `y`, before it. */
  predicate Between(l: List, x: NodeId, m: NodeId, y: Link)
    requires x < |l.nodes| && m < |l.nodes| && LinkInBounds(l, y)
  {
    Precedes(l.nodes, x, l.nodes[m].key) && (y.Some? ==> Less(l.nodes[m].key, l.nodes[y.value].key))
  }

  /** The link out of `x` on level `i` leads to the next larger linked key, or nowhere if none is larger. */
  ghost predicate LinkOk(l: List, i: nat, x: NodeId)
    requires Shape(l) && On(l, i, x)
  {
    var y := l.nodes[x].next[i];
    && LinkInBounds(l, y)
    && (y.Some? ==> y.value in l.linked[i] && Precedes(l.nodes, x, l.nodes[y.value].key))
    && (forall m | m in l.linked[i] && m < |l.nodes| :: !Between(l, x, m, y))
  }

  ghost predicate Chains(l: List)
    requires Shape(l)
  {
    forall i, x | 0 <= i < MAX_HEIGHT && On(l, i, x) :: LinkOk(l, i, x)
  }

  /** No two linked nodes share a key, and `index` finds each. */
  ghost predicate Indexed(l: List)
    requires Shape(l)
  {
    && (forall k | k in l.index :: l.index[k] in l.linked[0] && l.index[k] < |l.nodes| && l.nodes[l.index[k]].key == k)
    && (forall n | n in l.linked[0] :: n < |l.nodes| && l.nodes[n].key in l.index && l.index[l.nodes[n].key] == n)
  }

  ghost predicate ListInv(l: List) {
    Shape(l) && Chains(l) && Indexed(l)
  }

  // ---- threads ---------------------------------------------------------------------

  /** Neighbours of `key` on level `j`, possibly stale: linked, on either side of the key. */
  ghost predicate Neighbours(l: List, key: Key, j: nat, pred: NodeId, succ: Link) {
    && On(l, j, pred) && pred < |l.nodes| && Precedes(l.nodes, pred, key)
    && (succ.Some? ==> j < |l.linked| && succ.value in l.linked[j] && succ.value < |l.nodes| && !Less(l.nodes[succ.value].key, key))
  }

  /** Neighbours strictly around `key`. */
  ghost predicate Straddle(l: List, key: Key, j: nat, pred: NodeId, succ: Link) {
    Neighbours(l, key, j, pred, succ) && (succ.Some? ==> Less(key, l.nodes[succ.value].key))
  }

  ghost predicate WalkOk(l: List, key: Key, w: Walk) {
    && w.level < MAX_HEIGHT && |w.preds| == |w.succs| == MAX_HEIGHT
    && On(l, w.level, w.x) && w.x < |l.nodes| && Precedes(l.nodes, w.x, key)
    && (forall j | w.level < j < MAX_HEIGHT :: Neighbours(l, key, j, w.preds[j], w.succs[j]))
  }

  ghost predicate Around(l: List, key: Key, from: nat, preds: seq<NodeId>, succs: seq<Link>) {
    && |preds| == |succs| == MAX_HEIGHT
    && (forall j | from <= j < MAX_HEIGHT :: Straddle(l, key, j, preds[j], succs[j]))
  }

  /** The thread's own node: linked on exactly the levels below `level`. */
  ghost predicate Own(l: List, key: Key, node: NodeId, level: nat) {
    && 0 < node < |l.nodes| && l.nodes[node].key == key && level <= |l.nodes[node].next|
    && (forall j | 0 <= j < |l.linked| :: node in l.linked[j] <==> j < level)
  }

  ghost predicate Holds(l: List, key: Key, n: NodeId) {
    n < |l.nodes| && 0 < |l.linked| && n in l.linked[0] && l.nodes[n].key == key
  }

  ghost predicate PcOk(l: List, pc: Pc) {
    match pc
    case InsertFind(key, _, w) => WalkOk(l, key, w)
    case InsertStore(key, _, n) => Holds(l, key, n)
    case InsertCreate(key, _, preds, succs) => Around(l, key, 0, preds, succs)
    case InsertCas(key, value, node, preds, succs) =>
      Own(l, key, node, 0) && l.nodes[node].value == value && Around(l, key, 0, preds, succs)
      && |l.nodes[node].next| <= MAX_HEIGHT
      && (forall j | 0 <= j < |l.nodes[node].next| :: l.nodes[node].next[j] == succs[j])
    case LinkStore(key, node, level, preds, succs) =>
      Own(l, key, node, level) && 0 < level < |l.nodes[node].next| && Around(l, key, level, preds, succs)
    case LinkCas(key, node, level, preds, succs) =>
      Own(l, key, node, level) && 0 < level < |l.nodes[node].next| && Around(l, key, level, preds, succs)
      && level < MAX_HEIGHT && l.nodes[node].next[level] == succs[level]
    case LinkFind(key, node, level, w) =>
      Own(l, key, node, level) && 0 < level < |l.nodes[node].next| && WalkOk(l, key, w)
    case GetFind(key, w) => WalkOk(l, key, w)
    case GetLoad(key, n) => Holds(l, key, n)
    case _ => true
  }

  /** The node a thread has created and not finished linking. */
  function Owner(pc: Pc): Link {
    if pc.InsertCas? || pc.LinkStore? || pc.LinkCas? || pc.LinkFind? then Some(pc.node) else None
  }

  ghost predicate Owners(threads: seq<Pc>) {
    forall t, u | 0 <= t < u < |threads| && Owner(threads[t]).Some? :: Owner(threads[t]) != Owner(threads[u])
  }

  ghost predicate Inv(s: State) {
    && ListInv(s.list)
    && (forall t | 0 <= t < |s.threads| :: PcOk(s.list, s.threads[t]))
    && Owners(s.threads)
  }

  lemma InitInv(s: State)
    requires Init(s)
    ensures Inv(s)
  {
  }

  // ---- what a step may do to the list, seen by the other threads --------------------

  /** Only `mine` may become linked, and links of other unlinked nodes stay put. */
  ghost predicate Evolves(l: List, l': List, mine: NodeId) {
    && |l.nodes| <= |l'.nodes| && |l.linked| == |l'.linked| == MAX_HEIGHT
    && (forall n | 0 <= n < |l.nodes| :: l'.nodes[n].key == l.nodes[n].key && |l'.nodes[n].next| == |l.nodes[n].next|)
    && (forall i, n | 0 <= i < MAX_HEIGHT && n in l.linked[i] :: n in l'.linked[i])
    && (forall i, n | 0 <= i < MAX_HEIGHT && n in l'.linked[i] && n != mine :: n in l.linked[i])
    && (forall n, j | 0 < n < |l.nodes| && n != mine && 0 <= j < |l.nodes[n].next| && j < MAX_HEIGHT && n !in l.linked[j] ::
          l'.nodes[n].next[j] == l.nodes[n].next[j])
    && (forall n | 0 < n < |l.nodes| && n !in l.linked[0] :: l'.nodes[n].value == l.nodes[n].value)
  }

  lemma WalkStable(l: List, l': List, mine: NodeId, key: Key, w: Walk)
    requires Evolves(l, l', mine) && WalkOk(l, key, w)
    ensures WalkOk(l', key, w)
  {
    forall j | w.level < j < MAX_HEIGHT ensures Neighbours(l', key, j, w.preds[j], w.succs[j]) {
      assert Neighbours(l, key, j, w.preds[j], w.succs[j]);
    }
  }

  lemma AroundStable(l: List, l': List, mine: NodeId, key: Key, from: nat, preds: seq<NodeId>, succs: seq<Link>)
    requires Evolves(l, l', mine) && Around(l, key, from, preds, succs)
    ensures Around(l', key, from, preds, succs)
  {
    forall j | from <= j < MAX_HEIGHT ensures Straddle(l', key, j, preds[j], succs[j]) {
      assert Straddle(l, key, j, preds[j], succs[j]);
    }
  }

  /** Interference freedom: another thread's step does not disturb what this one relies on. */
  lemma PcStable(l: List, l': List, mine: NodeId, pc: Pc)
    requires Evolves(l, l', mine) && PcOk(l, pc) && Owner(pc) != Some(mine)
    ensures PcOk(l', pc)
  {
    match pc
    case InsertFind(key, _, w) => WalkStable(l, l', mine, key, w);
    case InsertCreate(key, _, preds, succs) => AroundStable(l, l', mine, key, 0, preds, succs);
    case InsertCas(key, value, node, preds, succs) => AroundStable(l, l', mine, key, 0, preds, succs);
    case LinkStore(key, node, level, preds, succs) => AroundStable(l, l', mine, key, level, preds, succs);
    case LinkCas(key, node, level, preds, succs) => AroundStable(l, l', mine, key, level, preds, succs);
    case LinkFind(key, node, level, w) => WalkStable(l, l', mine, key, w);
    case GetFind(key, w) => WalkStable(l, l', mine, key, w);
    case _ =>
  }

  // ---- find ------------------------------------------------------------------------

  lemma WalkCanLoad(l: List, key: Key, w: Walk)
    requires ListInv(l) && WalkOk(l, key, w)
    ensures CanFinish(l, key, w)
  {
    assert LinkInBounds(l, l.nodes[w.x].next[w.level]);
  }

  /** One load keeps the walk sound. */
  lemma LoadKeepsWalk(l: List, key: Key, w: Walk)
    requires ListInv(l) && WalkOk(l, key, w) && CanFinish(l, key, w)
    ensures Load(l, key, w).Moved? ==> WalkOk(l, key, Load(l, key, w).w)
    ensures Load(l, key, w).Finished? ==>
              var f := Load(l, key, w);
              && |f.preds| == |f.succs| == MAX_HEIGHT
              && (forall j | 0 <= j < MAX_HEIGHT :: Neighbours(l, key, j, f.preds[j], f.succs[j]))
              && f.succs[0] == l.nodes[f.preds[0]].next[0]
  {
    assert LinkOk(l, w.level, w.x);
  }

  /** A key whose level-0 neighbours are adjacent and strictly around it is not in the list. */
  lemma AdjacentMeansAbsent(l: List, key: Key, pred: NodeId, succ: Link)
    requires ListInv(l) && Straddle(l, key, 0, pred, succ) && l.nodes[pred].next[0] == succ
    ensures key !in l.index
  {
    assert LinkOk(l, 0, pred);
    forall m | m in l.linked[0] ensures l.nodes[m].key != key {
      assert !Between(l, pred, m, succ);
    }
  }

  /** find() returning false: every level's neighbours are strictly around the key, which is absent. */
  lemma MissIsAround(l: List, key: Key, preds: seq<NodeId>, succs: seq<Link>)
    requires ListInv(l) && |preds| == |succs| == MAX_HEIGHT
    requires forall j | 0 <= j < MAX_HEIGHT :: Neighbours(l, key, j, preds[j], succs[j])
    requires preds[0] < |l.nodes| && succs[0] == l.nodes[preds[0]].next[0]
    requires succs[0].Some? ==> succs[0].value < |l.nodes| && l.nodes[succs[0].value].key != key
    ensures key !in l.index && Around(l, key, 0, preds, succs)
  {
    assert Neighbours(l, key, 0, preds[0], succs[0]);
    if succs[0].Some? { LessTotal(l.nodes[succs[0].value].key, key); }
    assert Straddle(l, key, 0, preds[0], succs[0]);
    AdjacentMeansAbsent(l, key, preds[0], succs[0]);
    forall j | 0 <= j < MAX_HEIGHT ensures Straddle(l, key, j, preds[j], succs[j]) {
      assert Neighbours(l, key, j, preds[j], succs[j]);
      if succs[j].Some? {
        assert succs[j].value in l.linked[0];
        LessTotal(l.nodes[succs[j].value].key, key);
      }
    }
  }

  /** find() run while linking: above the levels already linked, the neighbours cannot be our own node. */
  lemma RefindIsAround(l: List, key: Key, node: NodeId, level: nat, preds: seq<NodeId>, succs: seq<Link>)
    requires ListInv(l) && Own(l, key, node, level) && level > 0 && |preds| == |succs| == MAX_HEIGHT
    requires forall j | 0 <= j < MAX_HEIGHT :: Neighbours(l, key, j, preds[j], succs[j])
    ensures Around(l, key, level, preds, succs)
  {
    assert node in l.linked[0];
    forall j | level <= j < MAX_HEIGHT ensures Straddle(l, key, j, preds[j], succs[j]) {
      assert Neighbours(l, key, j, preds[j], succs[j]);
      if succs[j].Some? {
        assert succs[j].value in l.linked[0] && node !in l.linked[j];
        LessTotal(l.nodes[succs[j].value].key, key);
      }
    }
  }

  lemma LoadKeeps(l: List, pc: Pc)
    requires ListInv(l) && PcOk(l, pc) && (pc.InsertFind? || pc.LinkFind? || pc.GetFind?) && CanFinish(l, pc.key, pc.w)
    ensures PcOk(l, AfterLoad(l, pc))
    ensures Owner(AfterLoad(l, pc)) == Owner(pc)
  {
    LoadKeepsWalk(l, pc.key, pc.w);
    var r := Load(l, pc.key, pc.w);
    if r.Finished? {
      assert Neighbours(l, pc.key, 0, r.preds[0], r.succs[0]);
      if pc.LinkFind? {
        RefindIsAround(l, pc.key, pc.node, pc.level, r.preds, r.succs);
      } else if Found(l, pc.key, r.succs).None? {
        MissIsAround(l, pc.key, r.preds, r.succs);
      }
    }
  }

  // ---- publishing a node on a level ------------------------------------------------

  /** `node` is ready to be published between `pred` and `succ`. */
  ghost predicate Ready(l: List, key: Key, node: NodeId, level: nat, pred: NodeId, succ: Link) {
    && Own(l, key, node, level) && level < |l.nodes[node].next| && level < MAX_HEIGHT
    && Straddle(l, key, level, pred, succ)
    && l.nodes[node].next[level] == succ
    && CasHits(l, level, pred, succ)
  }

  lemma PublishKeepsShape(l: List, key: Key, node: NodeId, level: nat, pred: NodeId, succ: Link)
    requires ListInv(l) && Ready(l, key, node, level, pred, succ)
    ensures Shape(Publish(l, key, node, level, pred))
  {
    var l' := Publish(l, key, node, level, pred);
    forall n, i | 0 <= n < |l'.nodes| && 0 <= i < |l'.nodes[n].next| ensures LinkInBounds(l', l'.nodes[n].next[i]) {
      assert LinkInBounds(l, l.nodes[n].next[i]);
    }
  }

  lemma PublishKeepsIndex(l: List, key: Key, node: NodeId, level: nat, pred: NodeId, succ: Link)
    requires ListInv(l) && Ready(l, key, node, level, pred, succ)
    requires Shape(Publish(l, key, node, level, pred))
    ensures Indexed(Publish(l, key, node, level, pred))
  {
    if level == 0 { AdjacentMeansAbsent(l, key, pred, succ); }
  }

  /** Two nodes on a level with the same key are the same node. */
  lemma SameKeySameNode(l: List, i: nat, x: NodeId, y: NodeId)
    requires ListInv(l) && i < MAX_HEIGHT && x in l.linked[i] && y in l.linked[i] && l.nodes[x].key == l.nodes[y].key
    ensures x == y
  {
    assert x in l.linked[0] && y in l.linked[0];
  }

  /** A node on the level whose link jumps over `key` is the predecessor itself. */
  lemma {:induction false} OnlyPredJumps(l: List, key: Key, level: nat, pred: NodeId, succ: Link, x: NodeId)
    requires ListInv(l) && level < MAX_HEIGHT && Straddle(l, key, level, pred, succ) && CasHits(l, level, pred, succ)
    requires On(l, level, x) && x != pred
    ensures var y := l.nodes[x].next[level];
            !(Precedes(l.nodes, x, key) && (y.Some? ==> Less(key, l.nodes[y.value].key)))
  {
    var y := l.nodes[x].next[level];
    assert LinkInBounds(l, y) && LinkOk(l, level, x) && LinkOk(l, level, pred);
    assert pred != HEAD ==> !Between(l, x, pred, y);
    assert x != HEAD ==> !Between(l, pred, x, succ);
    if Precedes(l.nodes, x, key) && (y.Some? ==> Less(key, l.nodes[y.value].key)) {
      if pred != HEAD && Precedes(l.nodes, x, l.nodes[pred].key) {
        // pred would lie strictly between x and its successor
        if y.Some? { LessTransitive(l.nodes[pred].key, key, l.nodes[y.value].key); }
      } else {
        // x would lie strictly between pred and its successor
        if pred != HEAD {
          LessTotal(l.nodes[x].key, l.nodes[pred].key);
          if l.nodes[x].key == l.nodes[pred].key { SameKeySameNode(l, level, x, pred); }
        }
        if succ.Some? { LessTransitive(l.nodes[x].key, key, l.nodes[succ.value].key); }
      }
    }
  }

  lemma PublishKeepsLink(l: List, key: Key, node: NodeId, level: nat, pred: NodeId, succ: Link, x: NodeId)
    requires ListInv(l) && Ready(l, key, node, level, pred, succ)
    requires var l' := Publish(l, key, node, level, pred); Shape(l') && On(l', level, x)
    ensures LinkOk(Publish(l, key, node, level, pred), level, x)
  {
    var l' := Publish(l, key, node, level, pred);
    var y := l'.nodes[x].next[level];
    assert LinkOk(l, level, pred);
    forall m | m in l'.linked[level] ensures !Between(l', x, m, y) {
      NothingBetween(l, key, node, level, pred, succ, x, m);
    }
    if x != node && x != pred { assert LinkOk(l, level, x); }
  }

  lemma NothingBetween(l: List, key: Key, node: NodeId, level: nat, pred: NodeId, succ: Link, x: NodeId, m: NodeId)
    requires ListInv(l) && Ready(l, key, node, level, pred, succ)
    requires var l' := Publish(l, key, node, level, pred); Shape(l') && On(l', level, x) && m in l'.linked[level]
    ensures var l' := Publish(l, key, node, level, pred); !Between(l', x, m, l'.nodes[x].next[level])
  {
    var l' := Publish(l, key, node, level, pred);
    var y := l'.nodes[x].next[level];
    assert LinkOk(l, level, pred);
    if Between(l', x, m, y) {
      if x == pred {
        // m is after pred and before the new node, hence before succ
        if m == node { LessIrreflexive(key); }
        else {
          if succ.Some? { LessTransitive(l.nodes[m].key, key, l.nodes[succ.value].key); }
          assert Between(l, pred, m, succ);
        }
      } else if x == node {
        // m is after the new node, hence after pred, and before succ
        if m == node { LessIrreflexive(key); }
        else {
          if pred != HEAD { LessTransitive(l.nodes[pred].key, key, l.nodes[m].key); }
          assert Between(l, pred, m, succ);
        }
      } else if m == node {
        OnlyPredJumps(l, key, level, pred, succ, x);
      } else {
        assert LinkOk(l, level, x);
        assert Between(l, x, m, y);
      }
    }
  }

  lemma PublishKeepsChains(l: List, key: Key, node: NodeId, level: nat, pred: NodeId, succ: Link)
    requires ListInv(l) && Ready(l, key, node, level, pred, succ)
    requires Shape(Publish(l, key, node, level, pred))
    ensures Chains(Publish(l, key, node, level, pred))
  {
    var l' := Publish(l, key, node, level, pred);
    forall i, x | 0 <= i < MAX_HEIGHT && On(l', i, x) ensures LinkOk(l', i, x) {
      if i == level {
        PublishKeepsLink(l, key, node, level, pred, succ, x);
      } else {
        OtherLevel(l, key, node, level, pred, succ, i, x);
      }
    }
  }

  lemma OtherLevel(l: List, key: Key, node: NodeId, level: nat, pred: NodeId, succ: Link, i: nat, x: NodeId)
    requires ListInv(l) && Ready(l, key, node, level, pred, succ)
    requires Shape(Publish(l, key, node, level, pred)) && i < MAX_HEIGHT && i != level && On(l, i, x)
    ensures LinkOk(Publish(l, key, node, level, pred), i, x)
  {
    var l' := Publish(l, key, node, level, pred);
    assert LinkOk(l, i, x);
    var y := l.nodes[x].next[i];
    assert l'.nodes[x].next[i] == y;
    forall m | m in l'.linked[i] ensures !Between(l', x, m, y) {
      assert !Between(l, x, m, y);
    }
  }

  /** A successful CAS keeps every level sorted, linked and free of duplicates. */
  lemma PublishKeepsList(l: List, key: Key, node: NodeId, level: nat, pred: NodeId, succ: Link)
    requires ListInv(l) && Ready(l, key, node, level, pred, succ)
    ensures ListInv(Publish(l, key, node, level, pred))
    ensures Evolves(l, Publish(l, key, node, level, pred), node)
  {
    PublishKeepsShape(l, key, node, level, pred, succ);
    PublishKeepsIndex(l, key, node, level, pred, succ);
    PublishKeepsChains(l, key, node, level, pred, succ);
  }

  // ---- the other changes to the list -----------------------------------------------

  lemma StoreValueKeepsList(l: List, n: NodeId, value: Option<Value>)
    requires ListInv(l) && n < |l.nodes| && n in l.linked[0]
    ensures var l' := l.(nodes := l.nodes[n := l.nodes[n].(value := value)]); ListInv(l') && Evolves(l, l', HEAD)
  {
    var l' := l.(nodes := l.nodes[n := l.nodes[n].(value := value)]);
    SameLinks(l, l');
  }

  /** A list that differs only in values, or in nodes not yet linked, keeps its chains. */
  lemma SameLinks(l: List, l': List)
    requires ListInv(l) && Shape(l') && l'.linked == l.linked && |l.nodes| <= |l'.nodes|
    requires forall n | 0 <= n < |l.nodes| :: l'.nodes[n].key == l.nodes[n].key && |l'.nodes[n].next| == |l.nodes[n].next|
    requires forall i: nat, n: NodeId | i < MAX_HEIGHT && On(l, i, n) :: l'.nodes[n].next[i] == l.nodes[n].next[i]
    ensures Chains(l')
  {
    forall i: nat, x: NodeId | i < MAX_HEIGHT && On(l', i, x) ensures LinkOk(l', i, x) {
      assert On(l, i, x) && LinkOk(l, i, x);
      var y := l.nodes[x].next[i];
      forall m | m in l'.linked[i] ensures !Between(l', x, m, y) {
        assert !Between(l, x, m, y);
      }
    }
  }

  /** The list with a new, unlinked node. */
  function Created(l: List, key: Key, value: Option<Value>, succs: seq<Link>): List {
    l.(nodes := l.nodes + [Node(key, value, succs)])
  }

  lemma CreateKeepsShape(l: List, key: Key, value: Option<Value>, preds: seq<NodeId>, succs: seq<Link>, h: nat)
    requires ListInv(l) && Around(l, key, 0, preds, succs) && 1 <= h <= MAX_HEIGHT
    ensures Shape(Created(l, key, value, succs[..h])) && Evolves(l, Created(l, key, value, succs[..h]), HEAD)
  {
    var l' := Created(l, key, value, succs[..h]);
    forall n, i | 0 <= n < |l'.nodes| && 0 <= i < |l'.nodes[n].next| ensures LinkInBounds(l', l'.nodes[n].next[i]) {
      if n < |l.nodes| { assert LinkInBounds(l, l.nodes[n].next[i]); } else { assert Straddle(l, key, i, preds[i], succs[i]); }
    }
  }

  lemma CreateKeepsList(l: List, key: Key, value: Option<Value>, preds: seq<NodeId>, succs: seq<Link>, h: nat)
    requires ListInv(l) && Around(l, key, 0, preds, succs) && 1 <= h <= MAX_HEIGHT
    ensures var l' := Created(l, key, value, succs[..h]);
            ListInv(l') && Evolves(l, l', HEAD) && PcOk(l', InsertCas(key, value, |l.nodes|, preds, succs))
  {
    var l' := Created(l, key, value, succs[..h]);
    CreateKeepsShape(l, key, value, preds, succs, h);
    SameLinks(l, l');
    AroundStable(l, l', HEAD, key, 0, preds, succs);
  }

  lemma StoreLinkKeepsShape(l: List, key: Key, node: NodeId, level: nat, preds: seq<NodeId>, succs: seq<Link>)
    requires ListInv(l) && PcOk(l, LinkStore(key, node, level, preds, succs))
    ensures var l' := l.(nodes := SetNext(l.nodes, node, level, succs[level])); Shape(l') && Evolves(l, l', node)
  {
    var l' := l.(nodes := SetNext(l.nodes, node, level, succs[level]));
    assert Straddle(l, key, level, preds[level], succs[level]);
    forall n, i | 0 <= n < |l'.nodes| && 0 <= i < |l'.nodes[n].next| ensures LinkInBounds(l', l'.nodes[n].next[i]) {
      assert LinkInBounds(l, l.nodes[n].next[i]);
    }
  }

  lemma StoreLinkKeepsList(l: List, key: Key, node: NodeId, level: nat, preds: seq<NodeId>, succs: seq<Link>)
    requires ListInv(l) && PcOk(l, LinkStore(key, node, level, preds, succs))
    ensures var l' := l.(nodes := SetNext(l.nodes, node, level, succs[level]));
            ListInv(l') && Evolves(l, l', node) && PcOk(l', LinkCas(key, node, level, preds, succs))
  {
    var l' := l.(nodes := SetNext(l.nodes, node, level, succs[level]));
    StoreLinkKeepsShape(l, key, node, level, preds, succs);
    SameLinks(l, l');
    AroundStable(l, l', node, key, level, preds, succs);
  }

  /** After its CAS the thread goes on to the next level with the neighbours it already has. */
  lemma PublishKeepsPc(l: List, key: Key, node: NodeId, level: nat, preds: seq<NodeId>, succs: seq<Link>)
    requires ListInv(l) && Around(l, key, level, preds, succs) && level < MAX_HEIGHT
    requires Ready(l, key, node, level, preds[level], succs[level])
    requires Evolves(l, Publish(l, key, node, level, preds[level]), node)
    ensures PcOk(Publish(l, key, node, level, preds[level]), AfterLink(l, key, node, level, preds, succs))
  {
    AroundStable(l, Publish(l, key, node, level, preds[level]), node, key, level, preds, succs);
  }

  // ---- the whole system ------------------------------------------------------------

  /** The list after a step, and the new program counter, decide the invariant. */
  lemma StepKeeps(s: State, t: Tid, l': List, pc': Pc, mine: NodeId)
    requires Inv(s) && t < |s.threads| && ListInv(l') && Evolves(s.list, l', mine) && PcOk(l', pc')
    requires mine == HEAD || Owner(s.threads[t]) == Some(mine)
    requires Owner(pc') == None || Owner(pc') == Owner(s.threads[t]) || Owner(pc') == Some(|s.list.nodes|)
    ensures Inv(State(l', s.threads[t := pc']))
  {
    var threads' := s.threads[t := pc'];
    forall u | 0 <= u < |threads'| && u != t ensures PcOk(l', threads'[u]) {
      OwnersDiffer(s, t, u);
      OwnedExists(s.list, s.threads[u]);
      PcStable(s.list, l', mine, s.threads[u]);
    }
    forall u, v | 0 <= u < v < |threads'| && Owner(threads'[u]).Some? ensures Owner(threads'[u]) != Owner(threads'[v]) {
      OwnedExists(s.list, s.threads[u]);
      OwnedExists(s.list, s.threads[v]);
    }
  }

  lemma OwnersDiffer(s: State, t: Tid, u: Tid)
    requires Owners(s.threads) && t < |s.threads| && u < |s.threads| && t != u
    ensures Owner(s.threads[t]).Some? ==> Owner(s.threads[u]) != Owner(s.threads[t])
  {
  }

  lemma OwnedExists(l: List, pc: Pc)
    requires PcOk(l, pc)
    ensures Owner(pc).Some? ==> 0 < Owner(pc).value < |l.nodes|
  {
  }

  lemma SameListEvolves(l: List)
    requires ListInv(l)
    ensures Evolves(l, l, HEAD)
  {
  }

  /** Every step of every thread keeps the invariant. */
  lemma StepInv(s: State, t: Tid, a: Action)
    requires Inv(s) && Enabled(s, t, a)
    ensures Inv(Do(s, t, a))
  {
    var l, pc := s.list, s.threads[t];
    SameListEvolves(l);
    match a
    case CallInsert(key, value) =>
      StepKeeps(s, t, l, InsertFind(key, value, StartWalk()), HEAD);
    case CallGet(key) =>
      StepKeeps(s, t, l, GetFind(key, StartWalk()), HEAD);
    case LoadNext =>
      LoadKeeps(l, pc);
      StepKeeps(s, t, l, AfterLoad(l, pc), HEAD);
    case StoreValue => StoreValueKeeps(s, t);
    case Create(h) => CreateKeeps(s, t, h);
    case CasLevel0 => CasLevel0Keeps(s, t);
    case StoreLink => StoreLinkKeeps(s, t);
    case CasLink => CasLinkKeeps(s, t);
    case LoadValue => StepKeeps(s, t, l, GetDone(pc.key, Some(l.nodes[pc.n].value)), HEAD);
    case Return => StepKeeps(s, t, l, Idle, HEAD);
  }

  lemma StoreValueKeeps(s: State, t: Tid)
    requires Inv(s) && Enabled(s, t, StoreValue)
    ensures Inv(Do(s, t, StoreValue))
  {
    var l, pc := s.list, s.threads[t];
    StoreValueKeepsList(l, pc.n, pc.value);
    StepKeeps(s, t, l.(nodes := l.nodes[pc.n := l.nodes[pc.n].(value := pc.value)]), InsertDone(pc.key, false), HEAD);
  }

  lemma CreateKeeps(s: State, t: Tid, h: nat)
    requires Inv(s) && Enabled(s, t, Create(h))
    ensures Inv(Do(s, t, Create(h)))
  {
    var l, pc := s.list, s.threads[t];
    CreateKeepsList(l, pc.key, pc.value, pc.preds, pc.succs, h);
    StepKeeps(s, t, Created(l, pc.key, pc.value, pc.succs[..h]),
              InsertCas(pc.key, pc.value, |l.nodes|, pc.preds, pc.succs), HEAD);
  }

  lemma StoreLinkKeeps(s: State, t: Tid)
    requires Inv(s) && Enabled(s, t, StoreLink)
    ensures Inv(Do(s, t, StoreLink))
  {
    var l, pc := s.list, s.threads[t];
    StoreLinkKeepsList(l, pc.key, pc.node, pc.level, pc.preds, pc.succs);
    StepKeeps(s, t, l.(nodes := SetNext(l.nodes, pc.node, pc.level, pc.succs[pc.level])),
              LinkCas(pc.key, pc.node, pc.level, pc.preds, pc.succs), pc.node);
  }

  lemma CasLevel0Keeps(s: State, t: Tid)
    requires Inv(s) && Enabled(s, t, CasLevel0)
    ensures Inv(Do(s, t, CasLevel0))
  {
    var l, pc := s.list, s.threads[t];
    assert Straddle(l, pc.key, 0, pc.preds[0], pc.succs[0]);
    if CasHits(l, 0, pc.preds[0], pc.succs[0]) {
      PublishKeepsList(l, pc.key, pc.node, 0, pc.preds[0], pc.succs[0]);
      PublishKeepsPc(l, pc.key, pc.node, 0, pc.preds, pc.succs);
      StepKeeps(s, t, Publish(l, pc.key, pc.node, 0, pc.preds[0]),
                AfterLink(l, pc.key, pc.node, 0, pc.preds, pc.succs), pc.node);
    } else {
      SameListEvolves(l);
      StepKeeps(s, t, l, InsertFind(pc.key, pc.value, StartWalk()), HEAD);
    }
  }

  lemma CasLinkKeeps(s: State, t: Tid)
    requires Inv(s) && Enabled(s, t, CasLink)
    ensures Inv(Do(s, t, CasLink))
  {
    var l, pc := s.list, s.threads[t];
    var i := pc.level;
    assert Straddle(l, pc.key, i, pc.preds[i], pc.succs[i]);
    if CasHits(l, i, pc.preds[i], pc.succs[i]) {
      PublishKeepsList(l, pc.key, pc.node, i, pc.preds[i], pc.succs[i]);
      PublishKeepsPc(l, pc.key, pc.node, i, pc.preds, pc.succs);
      StepKeeps(s, t, Publish(l, pc.key, pc.node, i, pc.preds[i]),
                AfterLink(l, pc.key, pc.node, i, pc.preds, pc.succs), pc.node);
    } else {
      SameListEvolves(l);
      StepKeeps(s, t, l, LinkFind(pc.key, pc.node, i, StartWalk()), HEAD);
    }
  }

  lemma {:induction false} BehaviorInv(states: seq<State>, run: seq<Step>, k: nat)
    requires Behavior(states, run) && k <= |run|
    ensures Inv(states[k])
  {
    if k == 0 {
      InitInv(states[0]);
    } else {
      BehaviorInv(states, run, k - 1);
      StepInv(states[k - 1], run[k - 1].t, run[k - 1].a);
    }
  }
}
