/**
  The k-way merge shared by compaction and range scans.  `rest[i]` is what source `i` has not
  yet handed out; sources are listed oldest first, so among equal keys the highest index wins.
  The priority queue holds the head of every source that still has one.
*/
module Merge {
  import opened Wrappers
  import opened Store
  import opened KeyOrder

  type Cursors = seq<seq<Entry>>

  ghost predicate AllSorted(rest: Cursors) {
    forall i | 0 <= i < |rest| :: Sorted(rest[i])
  }

  function Meanings(rest: Cursors): (cs: seq<Contents>)
    ensures |cs| == |rest|
    ensures forall i | 0 <= i < |rest| :: cs[i] == Meaning(rest[i])
  {
    seq(|rest|, i requires 0 <= i < |rest| => Meaning(rest[i]))
  }

  /** What the remaining entries stand for. */
  ghost function View(rest: Cursors): Contents {
    Overlay(Meanings(rest))
  }

  function Remaining(rest: Cursors): nat {
    if rest == [] then 0 else Remaining(rest[..|rest| - 1]) + |rest[|rest| - 1]|
  }

  lemma {:induction false} RemainingUpdate(rest: Cursors, i: nat, t: seq<Entry>)
    requires i < |rest|
    ensures Remaining(rest[i := t]) == Remaining(rest) - |rest[i]| + |t|
  {
    var init := rest[..|rest| - 1];
    if i == |rest| - 1 {
      assert rest[i := t][..|rest| - 1] == init;
    } else {
      RemainingUpdate(init, i, t);
      assert rest[i := t][..|rest| - 1] == init[i := t];
    }
  }

  /** The heads that are in the priority queue. */
  predicate Ready(rest: Cursors, i: int) {
    0 <= i < |rest| && rest[i] != []
  }

  /** `i` is the top of the queue: smallest key, newest source among equals. */
  ghost predicate IsTop(rest: Cursors, i: int) {
    Ready(rest, i) &&
    forall j | Ready(rest, j) ::
      Less(rest[i][0].key, rest[j][0].key) || (rest[i][0].key == rest[j][0].key && j <= i)
  }

  /** top() of the queue, or None when it is empty. */
  method Top(rest: Cursors) returns (top: Option<nat>)
    ensures top.None? ==> forall i :: !Ready(rest, i)
    ensures top.Some? ==> IsTop(rest, top.value)
  {
    top := None;
    for j := 0 to |rest|
      invariant top.None? ==> forall i | 0 <= i < j :: !Ready(rest, i)
      invariant top.Some? ==> top.value < j && Ready(rest, top.value)
      invariant top.Some? ==> forall i | 0 <= i < j && Ready(rest, i) ::
                  Less(rest[top.value][0].key, rest[i][0].key) || (rest[top.value][0].key == rest[i][0].key && i <= top.value)
    {
      if rest[j] != [] {
        if top.None? {
          top := Some(j);
        } else {
          var best, k := rest[top.value][0].key, rest[j][0].key;
          LessTotal(best, k);
          if !Less(best, k) {
            forall i | 0 <= i < j && Ready(rest, i) ensures Less(k, rest[i][0].key) || (k == rest[i][0].key && i <= j) {
              if k != best && Less(best, rest[i][0].key) { LessTransitive(k, best, rest[i][0].key); }
            }
            top := Some(j);
          }
        }
      }
    }
  }

  // ---- removing one key from every source ------------------------------------------

  ghost predicate Without(a: Contents, b: Contents, k: Key) {
    a == b - {k}
  }

  lemma {:induction false} OverlayWithout(cs: seq<Contents>, ds: seq<Contents>, k: Key)
    requires |cs| == |ds| && forall i | 0 <= i < |cs| :: Without(ds[i], cs[i], k)
    ensures Overlay(ds) == Overlay(cs) - {k}
  {
    if cs != [] {
      OverlayWithout(cs[..|cs| - 1], ds[..|ds| - 1], k);
      assert Without(ds[|ds| - 1], cs[|cs| - 1], k);
    }
  }

  lemma {:induction false} OverlayAt(cs: seq<Contents>, w: nat, k: Key)
    requires w < |cs| && k in cs[w]
    requires forall i | w < i < |cs| :: k !in cs[i]
    ensures k in Overlay(cs) && Overlay(cs)[k] == cs[w][k]
  {
    if w < |cs| - 1 {
      OverlayAt(cs[..|cs| - 1], w, k);
    }
  }

  lemma {:induction false} OverlayKeys(cs: seq<Contents>, k: Key)
    ensures k in Overlay(cs) <==> exists i :: 0 <= i < |cs| && k in cs[i]
  {
    if cs != [] {
      var init := cs[..|cs| - 1];
      OverlayKeys(init, k);
      assert forall i | 0 <= i < |init| :: init[i] == cs[i];
    }
  }

  /** Whether source `i` still has `k` is decided at its head once `k` is the smallest key left. */
  lemma {:induction false} HeadDecides(rest: Cursors, i: nat, k: Key)
    requires AllSorted(rest) && i < |rest|
    requires rest[i] != [] ==> rest[i][0].key == k || Less(k, rest[i][0].key)
    ensures k in Meaning(rest[i]) <==> rest[i] != [] && rest[i][0].key == k
  {
    MeaningKeys(rest[i], k);
    if rest[i] != [] && rest[i][0].key != k {
      forall j | 0 <= j < |rest[i]| ensures rest[i][j].key != k {
        if j > 0 { LessTransitive(k, rest[i][0].key, rest[i][j].key); }
        LessAsymmetric(k, rest[i][j].key);
      }
    }
  }

  /** `now` is `before` with key `k` popped from some of the sources that had it at their head. */
  ghost predicate Popped(before: Cursors, now: Cursors, k: Key) {
    |now| == |before| &&
    forall i | 0 <= i < |now| ::
      now[i] == before[i] || (before[i] != [] && before[i][0].key == k && now[i] == before[i][1..])
  }

  /**
    Takes the next key off the merge: its newest version, with every source moved past it.
    Older versions are popped and discarded.
  */
  method NextKey(before: Cursors, w: nat) returns (e: Entry, rest: Cursors)
    requires AllSorted(before) && IsTop(before, w)
    ensures e == before[w][0]
    ensures AllSorted(rest) && |rest| == |before|
    ensures View(before) == View(rest)[e.key := e.value] && e.key !in View(rest)
    ensures forall k | k in View(rest) :: Less(e.key, k)
    ensures Remaining(rest) < Remaining(before)
  {
    e := before[w][0];
    var k := e.key;
    rest := before[w := before[w][1..]];
    RemainingUpdate(before, w, before[w][1..]);
    MeaningHead(before[w]);
    PoppedKeepsOrder(before, rest, k);
    var top := Top(rest);
    while top.Some? && rest[top.value][0].key == k
      invariant AllSorted(rest) && Popped(before, rest, k) && rest[w] == before[w][1..]
      invariant top.None? ==> forall i :: !Ready(rest, i)
      invariant top.Some? ==> IsTop(rest, top.value)
      invariant Remaining(rest) < Remaining(before)
      decreases Remaining(rest)
    {
      var d := top.value;
      PopAgain(before, rest, k, d);
      RemainingUpdate(rest, d, rest[d][1..]);
      MeaningHead(rest[d]);
      rest := rest[d := rest[d][1..]];
      top := Top(rest);
    }
    AllPopped(before, rest, w, top);
  }

  lemma PoppedKeepsOrder(before: Cursors, now: Cursors, k: Key)
    requires AllSorted(before) && Popped(before, now, k)
    ensures AllSorted(now)
  {
  }

  /** A source whose head is still `k` has not been popped yet: its next key is larger. */
  lemma PopAgain(before: Cursors, now: Cursors, k: Key, d: nat)
    requires AllSorted(before) && Popped(before, now, k) && Ready(now, d) && now[d][0].key == k
    ensures Popped(before, now[d := now[d][1..]], k)
  {
    if now[d] != before[d] {
      LessAsymmetric(before[d][0].key, before[d][1].key);
      assert false;
    }
  }

  /** When the top of the queue is past `k`, every source is, and the merge's view lost exactly `k`. */
  lemma AllPopped(before: Cursors, rest: Cursors, w: nat, top: Option<nat>)
    requires AllSorted(before) && AllSorted(rest) && IsTop(before, w)
    requires Popped(before, rest, before[w][0].key)
    requires top.None? ==> forall i :: !Ready(rest, i)
    requires top.Some? ==> IsTop(rest, top.value) && rest[top.value][0].key != before[w][0].key
    ensures var e := before[w][0];
            && View(before) == View(rest)[e.key := e.value] && e.key !in View(rest)
            && (forall k | k in View(rest) :: Less(e.key, k))
  {
    var e := before[w][0];
    forall i | 0 <= i < |rest| ensures rest[i] != [] ==> Less(e.key, rest[i][0].key) {
      if rest[i] != [] { HeadsArePast(before, rest, w, top, i); }
    }
    ViewLoses(before, rest, w);
    WinnerIsNewest(before, w);
    PutBack(View(before), View(rest), e);
    forall k | k in View(rest) ensures Less(e.key, k) {
      PastEverything(rest, e.key, k);
    }
  }

  lemma ViewLoses(before: Cursors, rest: Cursors, w: nat)
    requires AllSorted(before) && AllSorted(rest) && IsTop(before, w) && Popped(before, rest, before[w][0].key)
    requires forall i | 0 <= i < |rest| :: rest[i] != [] ==> Less(before[w][0].key, rest[i][0].key)
    ensures Without(View(rest), View(before), before[w][0].key)
  {
    var k := before[w][0].key;
    forall i | 0 <= i < |rest| ensures Without(Meaning(rest[i]), Meaning(before[i]), k) {
      PoppedSource(before, rest, w, i);
    }
    OverlayWithout(Meanings(before), Meanings(rest), k);
  }

  lemma PutBack(before: Contents, rest: Contents, e: Entry)
    requires Without(rest, before, e.key) && e.key in before && before[e.key] == e.value
    ensures before == rest[e.key := e.value] && e.key !in rest
  {
  }

  lemma HeadsArePast(before: Cursors, rest: Cursors, w: nat, top: Option<nat>, i: nat)
    requires AllSorted(before) && IsTop(before, w) && Popped(before, rest, before[w][0].key)
    requires top.None? ==> forall i :: !Ready(rest, i)
    requires top.Some? ==> IsTop(rest, top.value) && rest[top.value][0].key != before[w][0].key
    requires Ready(rest, i)
    ensures Less(before[w][0].key, rest[i][0].key)
  {
    var k, t := before[w][0].key, top.value;
    HeadNotBefore(before, rest, w, t);
    if rest[t][0].key != rest[i][0].key { LessTransitive(k, rest[t][0].key, rest[i][0].key); }
  }

  lemma HeadNotBefore(before: Cursors, rest: Cursors, w: nat, i: nat)
    requires AllSorted(before) && IsTop(before, w) && Popped(before, rest, before[w][0].key) && Ready(rest, i)
    ensures rest[i][0].key == before[w][0].key || Less(before[w][0].key, rest[i][0].key)
  {
    if rest[i] != before[i] {
      assert Less(before[i][0].key, before[i][1].key);
    } else {
      assert Ready(before, i);
    }
  }

  lemma PoppedSource(before: Cursors, rest: Cursors, w: nat, i: nat)
    requires AllSorted(before) && AllSorted(rest) && IsTop(before, w) && Popped(before, rest, before[w][0].key)
    requires i < |rest| && (rest[i] != [] ==> Less(before[w][0].key, rest[i][0].key))
    ensures Without(Meaning(rest[i]), Meaning(before[i]), before[w][0].key)
  {
    var k := before[w][0].key;
    if rest[i] == before[i] {
      HeadDecides(rest, i, k);
      if rest[i] != [] { LessAsymmetric(k, rest[i][0].key); }
    } else {
      MeaningHead(before[i]);
    }
  }

  lemma WinnerIsNewest(before: Cursors, w: nat)
    requires AllSorted(before) && IsTop(before, w)
    ensures var e := before[w][0]; e.key in View(before) && View(before)[e.key] == e.value
  {
    var e := before[w][0];
    MeaningAt(before[w], 0);
    forall i | w < i < |before| ensures e.key !in Meanings(before)[i] {
      if before[i] != [] {
        assert Ready(before, i);
        LessAsymmetric(e.key, before[i][0].key);
      }
      HeadDecides(before, i, e.key);
    }
    OverlayAt(Meanings(before), w, e.key);
  }

  lemma {:induction false} PastEverything(rest: Cursors, low: Key, k: Key)
    requires AllSorted(rest) && k in View(rest)
    requires forall i | 0 <= i < |rest| :: rest[i] != [] ==> Less(low, rest[i][0].key)
    ensures Less(low, k)
  {
    OverlayKeys(Meanings(rest), k);
    var i :| 0 <= i < |rest| && k in Meanings(rest)[i];
    MeaningKeys(rest[i], k);
    var j :| 0 <= j < |rest[i]| && rest[i][j].key == k;
    if j > 0 { LessTransitive(low, rest[i][0].key, rest[i][j].key); }
  }

  /** An exhausted merge stands for nothing. */
  lemma ExhaustedView(rest: Cursors)
    requires forall i :: !Ready(rest, i)
    ensures View(rest) == map[]
  {
    forall k ensures k !in View(rest) {
      OverlayKeys(Meanings(rest), k);
      forall i | 0 <= i < |rest| ensures k !in Meanings(rest)[i] {
        assert !Ready(rest, i);
      }
    }
  }
}
