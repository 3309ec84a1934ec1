/** When the order of the parameters shows: exactly the templates with a
    placeholder nested inside a brace pair. */
module PathTemplateOrder {
  import opened PathTemplate

  /** Every order of every set of brace-free parameters expands the template to
      the same endpoint. */
  ghost predicate OrderNeverMatters(s: string) {
    forall params: map<string, string>, o1: seq<string>, o2: seq<string> ::
      BraceFreeNames(params) && Enumerates(o1, params) && Enumerates(o2, params) ==>
        Expand(s, o1, params) == Expand(s, o2, params)
  }

  /** The names a closing run of plain characters and placeholders mentions. */
  function InnerNames(s: string): set<string>
    requires Closes(s)
    decreases |s|
  {
    if s[0] == '}' then {}
    else if s[0] == '{' then {Name(s[1..])} + InnerNames(After(s[1..]))
    else InnerNames(s[1..])
  }

  /** That run with its placeholders replaced. */
  function Body(s: string, values: map<string, string>): string
    requires Closes(s) && InnerNames(s) <= values.Keys
    decreases |s|
  {
    if s[0] == '}' then ""
    else if s[0] == '{' then values[Name(s[1..])] + Body(After(s[1..]), values)
    else [s[0]] + Body(s[1..], values)
  }

  lemma {:induction false} InnerNamesAreNames(s: string)
    requires Closes(s)
    ensures forall name :: name in InnerNames(s) ==> BraceFree(name) && |name| <= |s|
    decreases |s|
  {
    if s[0] == '{' {
      InnerNamesAreNames(After(s[1..]));
    } else if s[0] != '}' {
      InnerNamesAreNames(s[1..]);
    }
  }

  lemma {:induction false} BodyIsBraceFree(s: string, values: map<string, string>)
    requires Closes(s) && InnerNames(s) <= values.Keys && BraceFreeValues(values)
    ensures BraceFree(Body(s, values))
    decreases |s|
  {
    if s[0] == '{' {
      BodyIsBraceFree(After(s[1..]), values);
    } else if s[0] != '}' {
      BodyIsBraceFree(s[1..], values);
    }
  }

  lemma Regroup(head: string, body: string, tail: string)
    ensures head + (body + "}" + tail) == (head + body) + "}" + tail
  {
  }

  /** Substitution turns the run into its body and the closing brace. */
  lemma {:induction false} BodyAppears(s: string, values: map<string, string>) returns (tail: string)
    requires Closes(s) && InnerNames(s) <= values.Keys
    ensures Substitute(s, values) == Body(s, values) + "}" + tail
    decreases |s|
  {
    if s[0] == '}' {
      tail := Substitute(s[1..], values);
      assert Substitute(s, values) == "}" + tail;
    } else if s[0] == '{' {
      tail := BodyAppears(After(s[1..]), values);
      Regroup(values[Name(s[1..])], Body(After(s[1..]), values), tail);
    } else {
      tail := BodyAppears(s[1..], values);
      Regroup([s[0]], Body(s[1..], values), tail);
    }
  }

  /** If the run is not a plain name, it holds a placeholder, so its body is at
      least as long as a value. */
  lemma {:induction false} BodyIsLong(s: string, values: map<string, string>, length: nat)
    requires Closes(s) && !NameAt(s) && InnerNames(s) <= values.Keys
    requires forall name :: name in values ==> |values[name]| >= length
    ensures |Body(s, values)| >= length && InnerNames(s) != {}
    decreases |s|
  {
    if s[0] != '{' {
      BodyIsLong(s[1..], values, length);
    }
  }

  function Letters(n: nat): string {
    seq(n, _ => 'a')
  }

  lemma {:induction false} LettersEscape(n: nat)
    ensures PathEscape(Letters(n)) == Letters(n)
  {
    if n > 0 {
      assert Letters(n)[1..] == Letters(n - 1);
      LettersEscape(n - 1);
    }
  }

  lemma Append(a: string, b: string, c: string)
    ensures a + (b + c) == a + b + c
  {
  }

  lemma {:induction false} FirstBraceSplit(left: string, right: string)
    requires right != "" && right[0] == '{'
    ensures FirstBrace(left + right) == FirstBrace(left)
    ensures NameAt(left + right) <==> NameAt(left)
  {
    if left == "" {
      assert left + right == right;
    } else {
      assert (left + right)[0] == left[0] && (left + right)[1..] == left[1..] + right;
      FirstBraceSplit(left[1..], right);
    }
  }

  lemma NameSplit(left: string, right: string)
    requires right != "" && right[0] == '{' && NameAt(left) == NameAt(left + right)
    requires FirstBrace(left + right) == FirstBrace(left)
    ensures NameAt(left) ==> Name(left + right) == Name(left) && After(left + right) == After(left) + right
  {
  }

  lemma {:induction false} SubstituteSplit(left: string, right: string, values: map<string, string>)
    requires right != "" && right[0] == '{'
    ensures Substitute(left + right, values) == Substitute(left, values) + Substitute(right, values)
    decreases |left|
  {
    if left == "" {
      assert left + right == right;
    } else {
      var whole, rest := left + right, left[1..];
      assert whole[0] == left[0] && whole[1..] == rest + right;
      FirstBraceSplit(rest, right);
      NameSplit(rest, right);
      if left[0] == '{' && NameAt(rest) && Name(rest) in values {
        SubstituteSplit(After(rest), right, values);
        assert Substitute(whole, values) == values[Name(rest)] + Substitute(After(rest) + right, values);
        Append(values[Name(rest)], Substitute(After(rest), values), Substitute(right, values));
      } else {
        SubstituteSplit(rest, right, values);
        assert Substitute(whole, values) == [left[0]] + Substitute(rest + right, values);
        Append([left[0]], Substitute(rest, values), Substitute(right, values));
      }
    }
  }

  lemma {:induction false} ReplaceNeverGrows(s: string, pattern: string, v: string)
    requires pattern != "" && |v| < |pattern|
    ensures |ReplaceAll(s, pattern, v)| <= |s|
    decreases |s|
  {
    if |s| >= |pattern| {
      if s[..|pattern|] == pattern {
        ReplaceNeverGrows(s[|pattern|..], pattern, v);
      } else {
        ReplaceNeverGrows(s[1..], pattern, v);
      }
    }
  }

  /** Replacing a pattern that occurs by something shorter shortens the text. */
  lemma {:induction false} ReplaceShrinks(s: string, k: nat, pattern: string, v: string)
    requires pattern != "" && |v| < |pattern|
    requires k + |pattern| <= |s| && s[k..k + |pattern|] == pattern
    ensures |ReplaceAll(s, pattern, v)| < |s|
    decreases |s|
  {
    if s[..|pattern|] == pattern {
      ReplaceNeverGrows(s[|pattern|..], pattern, v);
    } else {
      assert k > 0;
      assert s[1..][k - 1..k - 1 + |pattern|] == pattern;
      ReplaceShrinks(s[1..], k - 1, pattern, v);
    }
  }

  lemma {:induction false} ExpandFirst(s: string, name: string, order: seq<string>, params: map<string, string>)
    requires name in params && forall other :: other in order ==> other in params
    ensures Expand(s, [name] + order, params)
      == Expand(ReplaceAll(s, Placeholder(name), PathEscape(params[name])), order, params)
  {
    if order == [] {
      assert ([name] + order)[..0] == [] && [name] + order == [name];
    } else {
      var n := |order| - 1;
      assert ([name] + order)[..n + 1] == [name] + order[..n];
      ExpandFirst(s, name, order[..n], params);
    }
  }

  lemma {:induction false} ExpandReadsOnlyItsNames(s: string, order: seq<string>, p: map<string, string>,
                                                   q: map<string, string>)
    requires forall name :: name in order ==> name in p && name in q && p[name] == q[name]
    ensures Expand(s, order, p) == Expand(s, order, q)
  {
    if order != [] {
      ExpandReadsOnlyItsNames(s, order[..|order| - 1], p, q);
    }
  }

  lemma {:induction false} Listing(names: set<string>) returns (order: seq<string>)
    ensures Distinct(order) && forall name :: name in order <==> name in names
  {
    if names == {} {
      order := [];
    } else {
      var name :| name in names;
      var rest := Listing(names - {name});
      order := rest + [name];
    }
  }

  lemma {:induction false} NestingPosition(s: string) returns (i: nat)
    requires !NoNesting(s)
    ensures i < |s| && s[i] == '{' && Closes(s[i + 1..]) && !NameAt(s[i + 1..])
  {
    if s[0] == '{' && Closes(s[1..]) && !NameAt(s[1..]) {
      i := 0;
    } else {
      var k := NestingPosition(s[1..]);
      i := k + 1;
      assert s[1..][k + 1..] == s[i + 1..];
    }
  }

  /** Values for the nested names, too long to occur in the template. */
  function LongValues(s: string, names: set<string>): map<string, string> {
    map name | name in names :: Letters(|s| + 1)
  }

  lemma LongValuesEscape(s: string, names: set<string>)
    ensures var inner := LongValues(s, names);
      Escaped(inner) == inner && BraceFreeValues(inner) && inner.Keys == names
  {
    LettersEscape(|s| + 1);
  }

  lemma LongValuesWork(s: string, x: string)
    requires Closes(x) && |x| <= |s| && !NameAt(x)
    ensures var inner := LongValues(s, InnerNames(x));
      && BraceFreeNames(inner)
      && (forall a, b :: a in inner && b in inner ==> |inner[a]| > |b|)
      && |Body(x, inner)| > |s| && Body(x, inner) !in inner && BraceFree(Body(x, inner))
  {
    var inner := LongValues(s, InnerNames(x));
    LongValuesEscape(s, InnerNames(x));
    InnerNamesAreNames(x);
    BodyIsLong(x, inner, |s| + 1);
    BodyIsBraceFree(x, inner);
  }

  /** Expanding the formed name last works on the substituted template; expanding
      it first finds nothing to replace. */
  lemma TwoOrders(s: string, order: seq<string>, inner: map<string, string>, formed: string)
    requires Enumerates(order, inner) && formed !in inner && |formed| > |s|
    ensures var params := inner[formed := ""];
      && Enumerates(order + [formed], params) && Enumerates([formed] + order, params)
      && Expand(s, order + [formed], params) == ReplaceAll(Expand(s, order, inner), Placeholder(formed), "")
      && Expand(s, [formed] + order, params) == Expand(s, order, inner)
  {
    var params := inner[formed := ""];
    ExpandReadsOnlyItsNames(s, order, params, inner);
    assert (order + [formed])[..|order|] == order;
    ExpandFirst(s, formed, order, params);
    ShortStays(s, formed, "");
  }

  lemma OpeningStays(rest: string, values: map<string, string>)
    requires !NameAt(rest)
    ensures Substitute("{" + rest, values) == "{" + Substitute(rest, values)
  {
    assert ("{" + rest)[0] == '{' && ("{" + rest)[1..] == rest;
  }

  lemma PlaceholderText(name: string, tail: string)
    ensures "{" + (name + "}" + tail) == Placeholder(name) + tail
  {
  }

  lemma OccursAfter(left: string, pattern: string, tail: string)
    ensures var r, k := left + (pattern + tail), |left|;
      k + |pattern| <= |r| && r[k..k + |pattern|] == pattern
  {
  }

  lemma FormedOccurs(s: string, i: nat, inner: map<string, string>, tail: string)
    requires i < |s| && s[i] == '{' && Closes(s[i + 1..]) && !NameAt(s[i + 1..])
    requires InnerNames(s[i + 1..]) <= inner.Keys
    requires Substitute(s[i + 1..], inner) == Body(s[i + 1..], inner) + "}" + tail
    ensures var r, k, pattern := Substitute(s, inner), |Substitute(s[..i], inner)|,
      Placeholder(Body(s[i + 1..], inner));
      k + |pattern| <= |r| && r[k..k + |pattern|] == pattern
  {
    var left, rest, formed := s[..i], s[i + 1..], Body(s[i + 1..], inner);
    assert s == left + ("{" + rest);
    SubstituteSplit(left, "{" + rest, inner);
    OpeningStays(rest, inner);
    PlaceholderText(formed, tail);
    OccursAfter(Substitute(left, inner), Placeholder(formed), tail);
  }

  lemma Shrinks(s: string, i: nat, inner: map<string, string>, formed: string)
    requires i < |s| && s[i] == '{' && Closes(s[i + 1..]) && !NameAt(s[i + 1..])
    requires InnerNames(s[i + 1..]) <= inner.Keys && formed == Body(s[i + 1..], inner)
    ensures |ReplaceAll(Substitute(s, inner), Placeholder(formed), "")| < |Substitute(s, inner)|
  {
    var tail := BodyAppears(s[i + 1..], inner);
    FormedOccurs(s, i, inner, tail);
    ReplaceShrinks(Substitute(s, inner), |Substitute(s[..i], inner)|, Placeholder(formed), "");
  }

  lemma OrderShows(s: string, params: map<string, string>, o1: seq<string>, o2: seq<string>)
    requires BraceFreeNames(params) && Enumerates(o1, params) && Enumerates(o2, params)
    requires Expand(s, o1, params) != Expand(s, o2, params)
    ensures !OrderNeverMatters(s)
  {
  }

  lemma InnerExpansion(s: string, order: seq<string>, inner: map<string, string>)
    requires Enumerates(order, inner) && BraceFreeNames(inner) && Escaped(inner) == inner
    requires forall a, b :: a in inner && b in inner ==> |inner[a]| > |b|
    ensures Expand(s, order, inner) == Substitute(s, inner)
  {
    ExpandIsSubstitute(s, order, inner);
    assert EscapedOf(order, inner) == inner;
  }

  lemma ShowsWith(s: string, i: nat, inner: map<string, string>, order: seq<string>, formed: string)
    requires i < |s| && s[i] == '{' && Closes(s[i + 1..]) && !NameAt(s[i + 1..])
    requires InnerNames(s[i + 1..]) <= inner.Keys && formed == Body(s[i + 1..], inner)
    requires Enumerates(order, inner) && BraceFreeNames(inner) && Escaped(inner) == inner
    requires forall a, b :: a in inner && b in inner ==> |inner[a]| > |b|
    requires formed !in inner && |formed| > |s| && BraceFree(formed)
    ensures !OrderNeverMatters(s)
  {
    TwoOrders(s, order, inner, formed);
    InnerExpansion(s, order, inner);
    Shrinks(s, i, inner, formed);
    OrderShows(s, inner[formed := ""], order + [formed], [formed] + order);
  }

  /** The nested names get values too long to occur in the template, and the name
      their expansion forms around them gets a value too: expanding it last
      removes it, expanding it first leaves it. */
  lemma NestingShowsOrder(s: string)
    requires !NoNesting(s)
    ensures !OrderNeverMatters(s)
  {
    var i := NestingPosition(s);
    var x := s[i + 1..];
    LongValuesWork(s, x);
    LongValuesEscape(s, InnerNames(x));
    var inner := LongValues(s, InnerNames(x));
    var order := Listing(inner.Keys);
    ShowsWith(s, i, inner, order, Body(x, inner));
  }

  /** The order of the parameters never shows exactly when the template has no
      nesting. */
  lemma OrderShowsExactlyOnNesting(s: string)
    ensures OrderNeverMatters(s) <==> NoNesting(s)
  {
    if NoNesting(s) {
      forall params: map<string, string>, o1, o2
        | BraceFreeNames(params) && Enumerates(o1, params) && Enumerates(o2, params)
        ensures Expand(s, o1, params) == Expand(s, o2, params)
      {
        ExpansionIsSimultaneous(s, o1, params);
        ExpansionIsSimultaneous(s, o2, params);
      }
    } else {
      NestingShowsOrder(s);
    }
  }
}
