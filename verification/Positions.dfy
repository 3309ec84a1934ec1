/** Which positions of a list some selection keeps, named without the function that
    selects: the wanted ones, each once, from left to right. */
module Positions {
  /** The wanted positions, each once, from left to right. */
  ghost predicate InOrder(at: seq<nat>, wanted: set<nat>) {
    && (forall j, k :: 0 <= j < k < |at| ==> at[j] < at[k])
    && (forall i :: i in at <==> i in wanted)
  }

  lemma LastDropped(at: seq<nat>, wanted: set<nat>)
    requires InOrder(at, wanted) && at != []
    ensures InOrder(at[..|at| - 1], wanted - {at[|at| - 1]})
  {
    var n := |at| - 1;
    forall i ensures i in at[..n] <==> i in wanted - {at[n]} {
      if i in at[..n] {
        var k :| 0 <= k < n && at[k] == i;
        assert i in at;
      }
    }
  }

  lemma LastIsLargest(at: seq<nat>, wanted: set<nat>, i: nat)
    requires InOrder(at, wanted) && i in wanted
    ensures at != [] && at[|at| - 1] in wanted && i <= at[|at| - 1]
  {
    var k :| 0 <= k < |at| && at[k] == i;
  }

  lemma SameLast(a: seq<nat>, b: seq<nat>, wanted: set<nat>)
    requires InOrder(a, wanted) && InOrder(b, wanted) && a != []
    ensures b != [] && a[|a| - 1] == b[|b| - 1]
  {
    assert a[|a| - 1] in a;
    LastIsLargest(b, wanted, a[|a| - 1]);
    LastIsLargest(a, wanted, b[|b| - 1]);
  }

  lemma {:induction false} InOrderOnce(a: seq<nat>, b: seq<nat>, wanted: set<nat>)
    requires InOrder(a, wanted) && InOrder(b, wanted)
    ensures a == b
    decreases |a|
  {
    if a == [] {
      if b != [] {
        SameLast(b, a, wanted);
      }
    } else {
      SameLast(a, b, wanted);
      var n, m := |a| - 1, |b| - 1;
      LastDropped(a, wanted);
      LastDropped(b, wanted);
      InOrderOnce(a[..n], b[..m], wanted - {a[n]});
      calc {
        a;
        a[..n] + [a[n]];
        b[..m] + [b[m]];
        b;
      }
    }
  }

  lemma LastAdded(at: seq<nat>, wanted: set<nat>, n: nat)
    requires InOrder(at, wanted) && forall i :: i in wanted ==> i < n
    ensures InOrder(at + [n], wanted + {n})
  {
    forall k | 0 <= k < |at| ensures at[k] < n {
      assert at[k] in at;
    }
  }
}
