/** Parameter names are free text, so a name may itself hold braces. For all names
    whatsoever the order shows exactly on templates with two brace pairs. */
module PathTemplatePairs {
  import opened PathTemplate
  import opened PathTemplateOrder

  /** Every order of every set of parameters expands the template to the same
      endpoint. */
  ghost predicate NoOrderShows(s: string) {
    forall params: map<string, string>, o1: seq<string>, o2: seq<string> ::
      Enumerates(o1, params) && Enumerates(o2, params) ==> Expand(s, o1, params) == Expand(s, o2, params)
  }

  predicate Pair(s: string, i: int, j: int) {
    0 <= i < j < |s| && s[i] == '{' && s[j] == '}'
  }

  ghost predicate NoPair(s: string) {
    forall i, j :: !Pair(s, i, j)
  }

  ghost predicate AtMostOnePair(s: string) {
    forall i, j, k, l :: Pair(s, i, j) && Pair(s, k, l) ==> i == k && j == l
  }

  // ----- Occurrences -----

  predicate At(s: string, pattern: string, k: int) {
    0 <= k <= |s| - |pattern| && s[k..k + |pattern|] == pattern
  }

  lemma Shift(s: string, d: nat, pattern: string, k: int)
    requires d <= |s| && 0 <= k
    ensures At(s[d..], pattern, k) <==> At(s, pattern, d + k)
  {
    if d + k <= |s| - |pattern| {
      assert s[d..][k..k + |pattern|] == s[d + k..d + k + |pattern|];
    }
  }

  ghost predicate Absent(s: string, pattern: string) {
    forall k :: !At(s, pattern, k)
  }

  lemma AbsentAfter(s: string, d: nat, pattern: string)
    requires d <= |s| && forall k :: d <= k ==> !At(s, pattern, k)
    ensures Absent(s[d..], pattern)
  {
    forall k ensures !At(s[d..], pattern, k) {
      if 0 <= k {
        Shift(s, d, pattern, k);
      }
    }
  }

  lemma {:induction false} ReplaceNothing(s: string, pattern: string, v: string)
    requires pattern != "" && Absent(s, pattern)
    ensures ReplaceAll(s, pattern, v) == s
  {
    if |s| >= |pattern| {
      assert !At(s, pattern, 0);
      AbsentAfter(s, 1, pattern);
      ReplaceNothing(s[1..], pattern, v);
    }
  }

  lemma OnceInRest(s: string, pattern: string, i: nat)
    requires 0 < i && At(s, pattern, i) && forall k :: At(s, pattern, k) ==> k == i
    ensures At(s[1..], pattern, i - 1) && forall k :: At(s[1..], pattern, k) ==> k == i - 1
  {
    Shift(s, 1, pattern, i - 1);
    forall k | At(s[1..], pattern, k) ensures k == i - 1 {
      Shift(s, 1, pattern, k);
    }
  }

  /** A pattern that occurs once is replaced there. */
  lemma {:induction false} ReplaceOnce(s: string, pattern: string, v: string, i: nat)
    requires pattern != "" && At(s, pattern, i) && forall k :: At(s, pattern, k) ==> k == i
    ensures ReplaceAll(s, pattern, v) == s[..i] + v + s[i + |pattern|..]
  {
    if i == 0 {
      AbsentAfter(s, |pattern|, pattern);
      ReplaceNothing(s[|pattern|..], pattern, v);
      assert s[..i] + v == v;
    } else {
      assert !At(s, pattern, 0);
      OnceInRest(s, pattern, i);
      ReplaceOnce(s[1..], pattern, v, i - 1);
      assert [s[0]] + (s[1..][..i - 1] + v + s[1..][i - 1 + |pattern|..]) == s[..i] + v + s[i + |pattern|..];
    }
  }

  lemma PlaceholderIsPair(s: string, name: string, k: int)
    requires At(s, Placeholder(name), k)
    ensures Pair(s, k, k + |name| + 1) && s[k + 1..k + 1 + |name|] == name
  {
    var p := Placeholder(name);
    var piece := s[k..k + |p|];
    assert piece[0] == '{' && piece[|name| + 1] == '}';
    forall m | 0 <= m < |name| ensures s[k + 1 + m] == name[m] {
      assert piece[1 + m] == p[1 + m] == name[m];
    }
    assert s[k + 1..k + 1 + |name|] == name;
  }

  lemma PairIsPlaceholder(s: string, i: nat, j: nat)
    requires Pair(s, i, j)
    ensures At(s, Placeholder(s[i + 1..j]), i)
  {
    var name := s[i + 1..j];
    assert |Placeholder(name)| == j + 1 - i;
    assert s[i..j + 1] == [s[i]] + name + [s[j]];
    assert Placeholder(name) == ['{'] + name + ['}'];
  }

  // ----- At most one pair -----

  lemma NoPairStays(s: string, name: string, v: string)
    requires NoPair(s)
    ensures ReplaceAll(s, Placeholder(name), v) == s
  {
    forall k ensures !At(s, Placeholder(name), k) {
      if At(s, Placeholder(name), k) {
        PlaceholderIsPair(s, name, k);
      }
    }
    ReplaceNothing(s, Placeholder(name), v);
  }

  lemma OnlyPair(s: string, i: nat, j: nat, name: string, v: string)
    requires AtMostOnePair(s) && Pair(s, i, j)
    ensures ReplaceAll(s, Placeholder(name), v) == if name == s[i + 1..j] then s[..i] + v + s[j + 1..] else s
  {
    forall k | At(s, Placeholder(name), k) ensures k == i && name == s[i + 1..j] {
      PlaceholderIsPair(s, name, k);
    }
    if name == s[i + 1..j] {
      PairIsPlaceholder(s, i, j);
      ReplaceOnce(s, Placeholder(name), v, i);
    } else {
      ReplaceNothing(s, Placeholder(name), v);
    }
  }

  function OldPlace(s: string, i: nat, j: nat, v: string, k: int): int {
    if k < i then k else k - |v| + (j + 1 - i)
  }

  /** Once the only pair is replaced by brace-free text there is none. */
  lemma PairIsGone(s: string, i: nat, j: nat, v: string)
    requires AtMostOnePair(s) && Pair(s, i, j) && BraceFree(v)
    ensures NoPair(s[..i] + v + s[j + 1..])
  {
    var t := s[..i] + v + s[j + 1..];
    forall k, l ensures !Pair(t, k, l) {
      if Pair(t, k, l) {
        var k', l' := OldPlace(s, i, j, v, k), OldPlace(s, i, j, v, l);
        assert Pair(s, k', l');
      }
    }
  }

  /** With one pair at most, expansion in any order replaces it if its text is a
      parameter's name, and nothing else. */
  function OnePass(s: string, i: nat, j: nat, names: seq<string>, params: map<string, string>): string
    requires Pair(s, i, j) && forall name :: name in names ==> name in params
  {
    if s[i + 1..j] in names then s[..i] + PathEscape(params[s[i + 1..j]]) + s[j + 1..] else s
  }

  lemma {:induction false} OnePairExpands(s: string, i: nat, j: nat, order: seq<string>, params: map<string, string>)
    requires AtMostOnePair(s) && Pair(s, i, j) && forall name :: name in order ==> name in params
    ensures Expand(s, order, params) == OnePass(s, i, j, order, params)
  {
    if order != [] {
      var n := |order| - 1;
      var front, name := order[..n], order[n];
      assert order == front + [name];
      OnePairExpands(s, i, j, front, params);
      if s[i + 1..j] in front {
        EscapeIsBraceFree(params[s[i + 1..j]]);
        PairIsGone(s, i, j, PathEscape(params[s[i + 1..j]]));
        NoPairStays(OnePass(s, i, j, front, params), name, PathEscape(params[name]));
      } else {
        OnlyPair(s, i, j, name, PathEscape(params[name]));
      }
    }
  }

  lemma {:induction false} NoPairExpands(s: string, order: seq<string>, params: map<string, string>)
    requires NoPair(s) && forall name :: name in order ==> name in params
    ensures Expand(s, order, params) == s
  {
    if order != [] {
      var n := |order| - 1;
      NoPairExpands(s, order[..n], params);
      NoPairStays(s, order[n], PathEscape(params[order[n]]));
    }
  }

  lemma OnePairShowsNoOrder(s: string)
    requires AtMostOnePair(s)
    ensures NoOrderShows(s)
  {
    forall params: map<string, string>, o1, o2 | Enumerates(o1, params) && Enumerates(o2, params)
      ensures Expand(s, o1, params) == Expand(s, o2, params)
    {
      if i, j :| Pair(s, i, j) {
        OnePairExpands(s, i, j, o1, params);
        OnePairExpands(s, i, j, o2, params);
      } else {
        NoPairExpands(s, o1, params);
        NoPairExpands(s, o2, params);
      }
    }
  }

  // ----- Two pairs -----

  /** Inside any pair there is one with no brace between. */
  lemma {:induction false} InnermostPair(s: string, i: nat, j: nat) returns (k: nat, l: nat)
    requires Pair(s, i, j)
    ensures i <= k && l <= j && Pair(s, k, l) && BraceFree(s[k + 1..l])
    decreases j - i
  {
    if m :| i < m < j && s[m] == '{' {
      k, l := InnermostPair(s, m, j);
    } else if m :| i < m < j && s[m] == '}' {
      k, l := InnermostPair(s, i, m);
    } else {
      k, l := i, j;
    }
  }

  /** Two pairs give an outer one with a different, innermost one inside. */
  lemma NestedPairs(s: string) returns (i: nat, j: nat, k: nat, l: nat)
    requires !AtMostOnePair(s)
    ensures Pair(s, i, j) && Pair(s, k, l) && i <= k && l <= j && (i, j) != (k, l) && BraceFree(s[k + 1..l])
  {
    var a, b, c, d :| Pair(s, a, b) && Pair(s, c, d) && !(a == c && b == d);
    i, j := if a < c then a else c, if b < d then d else b;
    if (i, j) != (a, b) {
      k, l := InnermostPair(s, a, b);
    } else {
      k, l := InnermostPair(s, c, d);
    }
  }

  lemma PlainPrefixHoldsNone(plain: string, t: string, name: string)
    requires BraceFree(plain) && Absent(t, Placeholder(name))
    ensures Absent(plain + t, Placeholder(name))
  {
    forall k ensures !At(plain + t, Placeholder(name), k) {
      if At(plain + t, Placeholder(name), k) {
        PlaceholderIsPair(plain + t, name, k);
        assert k >= |plain| && (plain + t)[|plain|..] == t;
        Shift(plain + t, |plain|, Placeholder(name), k - |plain|);
      }
    }
  }

  lemma OneMoreHoldsNone(c: char, t: string, name: string)
    requires Absent(t, Placeholder(name))
    requires !At([c] + t, Placeholder(name), 0)
    ensures Absent([c] + t, Placeholder(name))
  {
    forall k ensures !At([c] + t, Placeholder(name), k) {
      if k > 0 && At([c] + t, Placeholder(name), k) {
        assert ([c] + t)[1..] == t;
        Shift([c] + t, 1, Placeholder(name), k - 1);
      }
    }
  }

  lemma NotFormedInFront(s: string, name: string, v: string)
    requires BraceFree(name) && BraceFree(v) && |v| > |name|
    requires s != "" && !(s[0] == '{' && NameAt(s[1..]) && Name(s[1..]) == name)
    ensures !At([s[0]] + Substitute(s[1..], map[name := v]), Placeholder(name), 0)
  {
    var values := map[name := v];
    var t := Substitute(s[1..], values);
    var whole := [s[0]] + t;
    assert whole[1..] == t;
    StartsWithPlaceholder(whole, name);
    if s[0] == '{' {
      if NameAt(s[1..]) {
        NameSurvives(s[1..], values);
      } else {
        NewNameIsLong(s[1..], values, |name|);
      }
    }
  }

  /** Replacing a brace-free name by longer brace-free text leaves none of its
      placeholders: those it might form hold that text. */
  lemma {:induction false} NoneLeft(s: string, name: string, v: string)
    requires BraceFree(name) && BraceFree(v) && |v| > |name|
    ensures Absent(Substitute(s, map[name := v]), Placeholder(name))
    decreases |s|
  {
    var values := map[name := v];
    if s != "" {
      if s[0] == '{' && NameAt(s[1..]) && Name(s[1..]) == name {
        NoneLeft(After(s[1..]), name, v);
        PlainPrefixHoldsNone(v, Substitute(After(s[1..]), values), name);
      } else {
        var t := Substitute(s[1..], values);
        NoneLeft(s[1..], name, v);
        NotFormedInFront(s, name, v);
        OneMoreHoldsNone(s[0], t, name);
      }
    }
  }

  lemma Within(s: string, i: nat, j: nat, k: nat, l: nat)
    requires i <= k <= l <= j <= |s|
    ensures s[i..j][k - i..l - i] == s[k..l]
  {
    var part := s[i..j];
    forall m | 0 <= m < l - k ensures part[k - i..l - i][m] == s[k..l][m] {
      assert part[k - i + m] == s[k + m];
    }
  }

  lemma HoldsWhatItHolds(t: string, outer: string, inner: string, k: nat, m: nat)
    requires At(outer, inner, m) && At(t, outer, k)
    ensures At(t, inner, k + m)
  {
    Within(t, k, k + |outer|, k + m, k + m + |inner|);
  }

  /** Text around a placeholder that does not occur does not occur either. */
  lemma AroundNothing(t: string, outer: string, inner: string, m: nat)
    requires At(outer, inner, m) && Absent(t, inner)
    ensures Absent(t, outer)
  {
    forall k ensures !At(t, outer, k) {
      if At(t, outer, k) {
        HoldsWhatItHolds(t, outer, inner, k, m);
      }
    }
  }

  lemma {:induction false} ReplaceHolds(s: string, pattern: string, v: string, k: nat)
    requires pattern != "" && At(s, pattern, k)
    ensures |ReplaceAll(s, pattern, v)| >= |v|
    decreases |s|
  {
    if s[..|pattern|] != pattern {
      Shift(s, 1, pattern, k - 1);
      ReplaceHolds(s[1..], pattern, v, k - 1);
    }
  }

  lemma {:induction false} ReplaceNeverShrinks(s: string, pattern: string, v: string)
    requires pattern != "" && |v| >= |pattern|
    ensures |ReplaceAll(s, pattern, v)| >= |s|
    decreases |s|
  {
    if |s| >= |pattern| {
      if s[..|pattern|] == pattern {
        ReplaceNeverShrinks(s[|pattern|..], pattern, v);
      } else {
        ReplaceNeverShrinks(s[1..], pattern, v);
      }
    }
  }

  lemma LettersAreBraceFree(n: nat)
    ensures BraceFree(Letters(n))
  {
  }

  lemma ExpandTwo(s: string, a: string, b: string, params: map<string, string>)
    requires a in params && b in params
    ensures Expand(s, [a, b], params)
      == ReplaceAll(ReplaceAll(s, Placeholder(a), PathEscape(params[a])), Placeholder(b), PathEscape(params[b]))
  {
    assert [a, b][..1] == [a] && [a][..0] == [];
    assert Expand(s, [a], params) == ReplaceAll(Expand(s, [], params), Placeholder(a), PathEscape(params[a]));
  }

  lemma OuterHoldsInner(s: string, i: nat, j: nat, k: nat, l: nat)
    requires Pair(s, i, j) && Pair(s, k, l) && i <= k && l <= j
    ensures At(Placeholder(s[i + 1..j]), Placeholder(s[k + 1..l]), k - i)
  {
    assert s[i..j + 1] == Placeholder(s[i + 1..j]) && s[k..l + 1] == Placeholder(s[k + 1..l]);
    Within(s, i, j + 1, k, l + 1);
  }

  lemma OuterIsGone(s: string, i: nat, j: nat, k: nat, l: nat, short: string, long: string)
    requires Pair(s, i, j) && Pair(s, k, l) && i <= k && l <= j && BraceFree(s[k + 1..l])
    requires BraceFree(short) && |short| > |s|
    ensures var left := ReplaceAll(s, Placeholder(s[k + 1..l]), short);
      ReplaceAll(left, Placeholder(s[i + 1..j]), long) == left
  {
    var inner, outer := s[k + 1..l], s[i + 1..j];
    ReplaceIsSubstitute(s, inner, short);
    NoneLeft(s, inner, short);
    OuterHoldsInner(s, i, j, k, l);
    var left := ReplaceAll(s, Placeholder(inner), short);
    AroundNothing(left, Placeholder(outer), Placeholder(inner), k - i);
    ReplaceNothing(left, Placeholder(outer), long);
  }

  lemma BothOrders(a: string, b: string, params: map<string, string>)
    requires a != b && params.Keys == {a, b}
    ensures Enumerates([a, b], params) && Enumerates([b, a], params)
  {
  }

  lemma OrdersDiffer(s: string, params: map<string, string>, o1: seq<string>, o2: seq<string>)
    requires Enumerates(o1, params) && Enumerates(o2, params) && |Expand(s, o1, params)| < |Expand(s, o2, params)|
    ensures !NoOrderShows(s)
  {
  }

  lemma OuterFirstIsLong(s: string, i: nat, j: nat, inner: string, short: string, long: string)
    requires Pair(s, i, j) && |short| >= |Placeholder(inner)|
    ensures |ReplaceAll(ReplaceAll(s, Placeholder(s[i + 1..j]), long), Placeholder(inner), short)| >= |long|
  {
    PairIsPlaceholder(s, i, j);
    ReplaceHolds(s, Placeholder(s[i + 1..j]), long, i);
    ReplaceNeverShrinks(ReplaceAll(s, Placeholder(s[i + 1..j]), long), Placeholder(inner), short);
  }

  lemma ShowsBetween(s: string, inner: string, outer: string, short: string, long: string)
    requires inner != outer && PathEscape(short) == short && PathEscape(long) == long
    requires |ReplaceAll(ReplaceAll(s, Placeholder(inner), short), Placeholder(outer), long)|
      < |ReplaceAll(ReplaceAll(s, Placeholder(outer), long), Placeholder(inner), short)|
    ensures !NoOrderShows(s)
  {
    var params := map[inner := short, outer := long];
    BothOrders(inner, outer, params);
    ExpandTwo(s, inner, outer, params);
    ExpandTwo(s, outer, inner, params);
    OrdersDiffer(s, params, [inner, outer], [outer, inner]);
  }

  /** Expanding the inner name first, by a value too long for the template, leaves
      nothing of the outer placeholder; expanding the outer one first leaves its
      value, made longer still. */
  lemma TwoPairsShow(s: string, i: nat, j: nat, k: nat, l: nat)
    requires Pair(s, i, j) && Pair(s, k, l) && i <= k && l <= j && (i, j) != (k, l) && BraceFree(s[k + 1..l])
    ensures !NoOrderShows(s)
  {
    var inner, outer, short := s[k + 1..l], s[i + 1..j], Letters(|s| + 1);
    LettersAreBraceFree(|s| + 1);
    LettersEscape(|s| + 1);
    var long := Letters(|ReplaceAll(s, Placeholder(inner), short)| + 1);
    LettersEscape(|long|);
    OuterIsGone(s, i, j, k, l, short, long);
    OuterFirstIsLong(s, i, j, inner, short, long);
    assert |inner| < |outer|;
    ShowsBetween(s, inner, outer, short, long);
  }

  /** For parameters of any names at all: no order shows exactly when an opening
      brace is followed by a closing one in at most one way. */
  lemma OrderShowsExactlyOnTwoPairs(s: string)
    ensures NoOrderShows(s) <==> AtMostOnePair(s)
  {
    if AtMostOnePair(s) {
      OnePairShowsNoOrder(s);
    } else {
      var i, j, k, l := NestedPairs(s);
      TwoPairsShow(s, i, j, k, l);
    }
  }

  lemma TwoPlaceholdersDoNotNest()
    ensures NoNesting("{a}{b}")
  {
    var s := "{a}{b}";
    assert s[1..][1..] == "}{b}" && s[2..] == "}{b}" && s[3..] == "{b}" && s[4..] == "b}" && s[5..] == "}"
      && s[6..] == "";
    assert s[1..] == "a}{b}";
    assert NameAt("a}{b}") && NameAt("b}");
    assert NoNesting("b}") && NoNesting("{b}") && NoNesting("}{b}") && NoNesting("a}{b}");
  }

  lemma FirstThenBraced()
    ensures Expand("{a}{b}", ["a", "a}{b"], map["a" := "1", "a}{b" := "2"]) == "1{b}"
  {
    var s := "{a}{b}";
    ExpandTwo(s, "a", "a}{b", map["a" := "1", "a}{b" := "2"]);
    assert PathEscape("1") == "1";
    assert At(s, "{a}", 0) && s[3..] == "{b}";
    forall k | At(s, "{a}", k) ensures k == 0 {
      assert s[k..k + 3][1] == s[k + 1] && s[k + 1] == 'a';
    }
    ReplaceOnce(s, "{a}", "1", 0);
    ReplaceNothing("1{b}", "{a}{b}", PathEscape("2"));
  }

  lemma BracedThenFirst()
    ensures Expand("{a}{b}", ["a}{b", "a"], map["a" := "1", "a}{b" := "2"]) == "2"
  {
    var s := "{a}{b}";
    ExpandTwo(s, "a}{b", "a", map["a" := "1", "a}{b" := "2"]);
    assert PathEscape("2") == "2";
    assert At(s, s, 0) && s[6..] == "";
    ReplaceOnce(s, s, "2", 0);
    ReplaceNothing("2", "{a}", PathEscape("1"));
  }

  /** A template without nesting whose order shows all the same, to parameters one of
      which has braces in its name. */
  lemma BracedNameShows()
    ensures var s, params := "{a}{b}", map["a" := "1", "a}{b" := "2"];
      && NoNesting(s) && OrderNeverMatters(s)
      && Expand(s, ["a", "a}{b"], params) != Expand(s, ["a}{b", "a"], params)
  {
    TwoPlaceholdersDoNotNest();
    OrderShowsExactlyOnNesting("{a}{b}");
    FirstThenBraced();
    BracedThenFirst();
  }
}
