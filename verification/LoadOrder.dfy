/**
  The order loadSSTables() rebuilds from file names alone: level descending, then counter
  ascending, so that later tables shadow earlier ones.
*/
module LoadOrder {
  import opened Store

  datatype Name = Name(level: nat, counter: nat)

  predicate Before(a: Name, b: Name) {
    a.level > b.level || (a.level == b.level && a.counter < b.counter)
  }

  ghost predicate Ordered(vec: seq<Name>) {
    forall i, j | 0 <= i < j < |vec| :: Before(vec[i], vec[j])
  }

  /** `vec` is the result of sorting the names found on disk. */
  ghost predicate IsLoadOrder(vec: seq<Name>, names: set<Name>) {
    Ordered(vec) && (forall n :: n in names <==> n in vec)
  }

  /** The directory decides the order: there is only one way to sort its names. */
  lemma {:induction false} LoadOrderUnique(a: seq<Name>, b: seq<Name>, names: set<Name>)
    requires IsLoadOrder(a, names) && IsLoadOrder(b, names)
    ensures a == b
  {
    if a == [] {
      assert forall n :: n !in names;
      assert forall i | 0 <= i < |b| :: b[i] in b;
    } else {
      var n := a[0];
      assert n in names && n in b;
      assert b[0] in names && b[0] in a;
      FirstIsLeast(a, b[0]);
      FirstIsLeast(b, n);
      TailOrder(a, names);
      TailOrder(b, names);
      LoadOrderUnique(a[1..], b[1..], names - {n});
    }
  }

  lemma FirstIsLeast(vec: seq<Name>, n: Name)
    requires Ordered(vec) && n in vec
    ensures vec[0] == n || Before(vec[0], n)
  {
  }

  lemma TailOrder(vec: seq<Name>, names: set<Name>)
    requires IsLoadOrder(vec, names) && vec != []
    ensures IsLoadOrder(vec[1..], names - {vec[0]})
  {
    forall n | n in vec[1..] ensures n in names && n != vec[0] {
      var i :| 1 <= i < |vec| && vec[i] == n;
      assert Before(vec[0], vec[i]);
    }
    forall n | n in names && n != vec[0] ensures n in vec[1..] {
      var i :| 0 <= i < |vec| && vec[i] == n;
      assert vec[1..][i - 1] == n;
    }
  }

  /** Position of a name that no other name precedes. */
  method Least(names: set<Name>) returns (least: Name)
    requires names != {}
    ensures least in names
    ensures forall n | n in names :: n == least || Before(least, n)
  {
    least :| least in names;
    var rest := names - {least};
    while rest != {}
      invariant least in names && rest <= names
      invariant forall n | n in names && n !in rest :: n == least || Before(least, n)
      decreases |rest|
    {
      var n :| n in rest;
      if Before(n, least) { least := n; }
      rest := rest - {n};
    }
  }

  /**
    loadSSTables() once the names are parsed: the sorted table list and the next level-0
    counter, one past the largest level-0 counter found.
  */
  method LoadTables(names: set<Name>) returns (vec: seq<Name>, counter: nat)
    ensures IsLoadOrder(vec, names)
    ensures forall n | n in names && n.level == 0 :: n.counter < counter
    ensures counter == 0 || Name(0, counter - 1) in names
  {
    vec, counter := [], 0;
    var rest := names;
    while rest != {}
      invariant rest <= names
      invariant forall n :: n in vec <==> n in names && n !in rest
      invariant Ordered(vec)
      invariant forall m, n | m in vec && n in rest :: Before(m, n)
      invariant forall n | n in names && n !in rest && n.level == 0 :: n.counter < counter
      invariant counter == 0 || Name(0, counter - 1) in names
      decreases |rest|
    {
      var n := Least(rest);
      vec := vec + [n];
      if n.level == 0 && n.counter + 1 > counter {
        counter := n.counter + 1;
        assert Name(0, counter - 1) == n;
      }
      rest := rest - {n};
    }
  }

  /** How many tables sit at level 0. */
  function L0Count(vec: seq<Name>): nat {
    if vec == [] then 0 else L0Count(vec[..|vec| - 1]) + if vec[|vec| - 1].level == 0 then 1 else 0
  }

  lemma {:induction false} L0CountCounts(vec: seq<Name>)
    ensures L0Count(vec) == |set i | 0 <= i < |vec| && vec[i].level == 0|
  {
    var all := set i | 0 <= i < |vec| && vec[i].level == 0;
    if vec == [] {
      assert all == {};
    } else {
      var n := |vec| - 1;
      var init := vec[..n];
      L0CountCounts(init);
      var some := set i | 0 <= i < |init| && init[i].level == 0;
      assert all == some + if vec[n].level == 0 then {n} else {};
    }
  }

  /** The first level-1 counter past every level-1 table present. */
  function L1Start(vec: seq<Name>): (start: nat)
    ensures forall n | n in vec && n.level == 1 :: n.counter < start
    ensures start == 0 || Name(1, start - 1) in vec
  {
    if vec == [] then 0
    else
      var start := L1Start(vec[..|vec| - 1]);
      var n := vec[|vec| - 1];
      assert forall m | m in vec :: m in vec[..|vec| - 1] || m == n;
      if n.level == 1 && n.counter + 1 > start then n.counter + 1 else start
  }

  /** Where level 0 begins: tables are sorted with level 0 last. */
  function Split(vec: seq<Name>): (m: nat)
    ensures m <= |vec|
    ensures forall i | m <= i < |vec| :: vec[i].level == 0
    ensures m > 0 ==> vec[m - 1].level > 0
  {
    if vec == [] || vec[|vec| - 1].level > 0 then |vec| else Split(vec[..|vec| - 1])
  }

  /** `count` names for compaction outputs, numbered from `start`. */
  function OutputNames(start: nat, count: nat): (names: seq<Name>)
    ensures |names| == count
    ensures forall i | 0 <= i < count :: names[i] == Name(1, start + i)
  {
    seq(count, i requires 0 <= i < count => Name(1, start + i))
  }

  function Tables(files: map<Name, Contents>, vec: seq<Name>): seq<Contents>
    requires forall n | n in vec :: n in files
  {
    seq(|vec|, i requires 0 <= i < |vec| => assert vec[i] in vec; files[vec[i]])
  }
}
