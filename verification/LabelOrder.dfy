/** Strings in code-point order, and the one sorted arrangement of a list. */
module LabelOrder {
  predicate Leq(a: string, b: string) {
    a == [] || (b != [] && (a[0] < b[0] || (a[0] == b[0] && Leq(a[1..], b[1..]))))
  }

  /** The strings agree up to a place where the first one ends or is smaller. */
  ghost predicate ComesFirst(a: string, b: string, k: nat) {
    && k <= |a| && k <= |b| && a[..k] == b[..k]
    && (k == |a| || (k < |b| && a[k] as int < b[k] as int))
  }

  lemma {:induction false} LeqIsLexical(a: string, b: string) returns (k: nat)
    ensures Leq(a, b) ==> ComesFirst(a, b, k)
    ensures (exists i :: ComesFirst(a, b, i)) ==> Leq(a, b)
  {
    k := 0;
    if a != [] && b != [] && a[0] == b[0] {
      k := LeqIsLexical(a[1..], b[1..]);
      k := k + 1;
      if i: nat :| ComesFirst(a, b, i) {
        assert i > 0;
        assert a[1..][..i - 1] == a[..i][1..] && b[1..][..i - 1] == b[..i][1..];
        assert ComesFirst(a[1..], b[1..], i - 1);
      }
      if Leq(a, b) {
        assert a[..k] == [a[0]] + a[1..][..k - 1] && b[..k] == [b[0]] + b[1..][..k - 1];
      }
    } else if i: nat :| ComesFirst(a, b, i) {
      assert i > 0 ==> a[..i][0] == b[..i][0];
    }
  }

  lemma {:induction false} LeqTotal(a: string, b: string)
    ensures Leq(a, b) || Leq(b, a)
    ensures Leq(a, b) && Leq(b, a) ==> a == b
  {
    if a != [] && b != [] {
      LeqTotal(a[1..], b[1..]);
      if a[0] == b[0] && a[1..] == b[1..] {
        assert a == [a[0]] + a[1..] && b == [b[0]] + b[1..];
      }
    }
  }

  lemma {:induction false} LeqTransitive(a: string, b: string, c: string)
    requires Leq(a, b) && Leq(b, c)
    ensures Leq(a, c)
  {
    if a != [] && b != [] && c != [] && a[0] == b[0] == c[0] {
      LeqTransitive(a[1..], b[1..], c[1..]);
    }
  }

  predicate Below(x: string, s: seq<string>) {
    forall y :: y in s ==> Leq(x, y)
  }

  predicate Sorted(s: seq<string>) {
    s == [] || (Below(s[0], s[1..]) && Sorted(s[1..]))
  }

  function Insert(x: string, s: seq<string>): (r: seq<string>)
    ensures multiset(r) == multiset(s) + multiset{x}
    ensures |r| == |s| + 1
  {
    if s == [] then [x]
    else if Leq(x, s[0]) then [x] + s
    else
      assert s == [s[0]] + s[1..];
      [s[0]] + Insert(x, s[1..])
  }

  lemma HeadLeast(s: seq<string>, x: string)
    requires Sorted(s) && x in s
    ensures Leq(s[0], x)
  {
    if x == s[0] {
      LeqTotal(x, x);
    } else {
      assert x in s[1..];
    }
  }

  lemma BelowAll(x: string, s: seq<string>)
    requires s != [] && Sorted(s) && Leq(x, s[0])
    ensures Below(x, s)
  {
    forall y | y in s ensures Leq(x, y) {
      HeadLeast(s, y);
      LeqTransitive(x, s[0], y);
    }
  }

  lemma {:induction false} InsertSorted(x: string, s: seq<string>)
    requires Sorted(s)
    ensures Sorted(Insert(x, s))
  {
    if s != [] {
      LeqTotal(x, s[0]);
      if Leq(x, s[0]) {
        BelowAll(x, s);
        assert ([x] + s)[1..] == s;
      } else {
        var r := Insert(x, s[1..]);
        InsertSorted(x, s[1..]);
        forall y | y in r ensures Leq(s[0], y) {
          assert y in multiset(r);
        }
        assert ([s[0]] + r)[1..] == r;
      }
    }
  }

  function Sort(s: seq<string>): (r: seq<string>)
    ensures multiset(r) == multiset(s) && |r| == |s|
  {
    if s == [] then []
    else
      assert s == [s[0]] + s[1..];
      Insert(s[0], Sort(s[1..]))
  }

  lemma {:induction false} SortSorted(s: seq<string>)
    ensures Sorted(Sort(s))
  {
    if s != [] {
      SortSorted(s[1..]);
      InsertSorted(s[0], Sort(s[1..]));
    }
  }

  lemma HeadsAgree(a: seq<string>, b: seq<string>)
    requires a != [] && b != [] && Sorted(a) && Sorted(b) && a[0] in b && b[0] in a
    ensures a[0] == b[0]
  {
    HeadLeast(a, b[0]);
    HeadLeast(b, a[0]);
    LeqTotal(a[0], b[0]);
  }

  lemma SameHeadSameRest(a: seq<string>, b: seq<string>)
    requires a != [] && b != [] && a[0] == b[0] && multiset(a) == multiset(b)
    ensures multiset(a[1..]) == multiset(b[1..])
  {
    assert a == [a[0]] + a[1..] && b == [b[0]] + b[1..];
    assert multiset(a[1..]) == multiset(a) - multiset{a[0]};
  }

  /** Whatever algorithm sorts, it arrives at the same list. */
  lemma {:induction false} SortedIsUnique(a: seq<string>, b: seq<string>)
    requires Sorted(a) && Sorted(b) && multiset(a) == multiset(b)
    ensures a == b
    decreases |a|
  {
    assert |multiset(a)| == |a| && |multiset(b)| == |b|;
    if a != [] {
      assert a[0] in multiset(b) && b[0] in multiset(a);
      HeadsAgree(a, b);
      SameHeadSameRest(a, b);
      SortedIsUnique(a[1..], b[1..]);
    }
  }

  /** `Sort` is the sorted arrangement, however it is computed. */
  lemma SortIsTheArrangement(s: seq<string>, r: seq<string>)
    ensures r == Sort(s) <==> Sorted(r) && multiset(r) == multiset(s)
  {
    SortSorted(s);
    if Sorted(r) && multiset(r) == multiset(s) {
      SortedIsUnique(r, Sort(s));
    }
  }
}
