/** Expansion of `{name}` placeholders in a tool's endpoint: one ReplaceAll per
    parameter, in whatever order the parameter map yields them. */
module PathTemplate {
  // ----- Percent-encoding of a path segment (section 2.1 of RFC 3986) -----

  predicate Unescaped(c: char) {
    || 'a' <= c <= 'z' || 'A' <= c <= 'Z' || '0' <= c <= '9'
    || c in {'-', '_', '.', '~', '$', '&', '+', ':', '=', '@'}
  }

  const HEX: string := "0123456789ABCDEF"

  type Byte = b: nat | b < 256

  function Percent(b: Byte): string {
    ['%', HEX[b / 16], HEX[b % 16]]
  }

  /** The UTF-8 encoding of a character. */
  function Utf8(c: char): seq<Byte> {
    var n := c as int;
    if n < 0x80 then [n]
    else if n < 0x800 then [0xC0 + n / 0x40, 0x80 + n % 0x40]
    else if n < 0x10000 then [0xE0 + n / 0x1000, 0x80 + n / 0x40 % 0x40, 0x80 + n % 0x40]
    else [0xF0 + n / 0x40000, 0x80 + n / 0x1000 % 0x40, 0x80 + n / 0x40 % 0x40, 0x80 + n % 0x40]
  }

  function Percents(bytes: seq<Byte>): string {
    if bytes == [] then "" else Percent(bytes[0]) + Percents(bytes[1..])
  }

  /** url.PathEscape. */
  function PathEscape(v: string): string {
    if v == "" then ""
    else (if Unescaped(v[0]) then [v[0]] else Percents(Utf8(v[0]))) + PathEscape(v[1..])
  }

  predicate BraceFree(s: string) {
    forall i :: 0 <= i < |s| ==> s[i] != '{' && s[i] != '}'
  }

  lemma {:induction false} PercentsAreBraceFree(bytes: seq<Byte>)
    ensures BraceFree(Percents(bytes))
  {
    if bytes != [] {
      assert forall i :: 0 <= i < 16 ==> HEX[i] != '{' && HEX[i] != '}';
      PercentsAreBraceFree(bytes[1..]);
    }
  }

  /** An encoded value never contains a brace: this is what keeps one expansion
      from creating a placeholder on its own. */
  lemma {:induction false} EscapeIsBraceFree(v: string)
    ensures BraceFree(PathEscape(v))
  {
    if v != "" {
      PercentsAreBraceFree(Utf8(v[0]));
      EscapeIsBraceFree(v[1..]);
    }
  }

  // ----- Expansion, one parameter at a time -----

  /** strings.ReplaceAll: leftmost, non-overlapping. */
  function ReplaceAll(s: string, pattern: string, v: string): string
    requires pattern != ""
  {
    if |s| < |pattern| then s
    else if s[..|pattern|] == pattern then v + ReplaceAll(s[|pattern|..], pattern, v)
    else [s[0]] + ReplaceAll(s[1..], pattern, v)
  }

  function Placeholder(name: string): string {
    "{" + name + "}"
  }

  /** The loop over the parameter map, for one order of its keys. */
  function Expand(s: string, order: seq<string>, params: map<string, string>): string
    requires forall name :: name in order ==> name in params
  {
    if order == [] then s
    else
      var n := |order| - 1;
      ReplaceAll(Expand(s, order[..n], params), Placeholder(order[n]), PathEscape(params[order[n]]))
  }

  ghost predicate Distinct(order: seq<string>) {
    forall i, j :: 0 <= i < j < |order| ==> order[i] != order[j]
  }

  /** `order` lists the keys of `params`, each once. */
  ghost predicate Enumerates(order: seq<string>, params: map<string, string>) {
    Distinct(order) && (forall name :: name in order <==> name in params)
  }

  predicate BraceFreeNames(params: map<string, string>) {
    forall name :: name in params ==> BraceFree(name)
  }

  // ----- One simultaneous substitution -----

  function FirstBrace(s: string): (j: nat)
    ensures j <= |s| && BraceFree(s[..j])
    ensures j < |s| ==> s[j] == '{' || s[j] == '}'
  {
    if s == "" || s[0] == '{' || s[0] == '}' then 0 else 1 + FirstBrace(s[1..])
  }

  /** What follows an opening brace is a name and a closing brace. */
  predicate NameAt(s: string) {
    FirstBrace(s) < |s| && s[FirstBrace(s)] == '}'
  }

  function Name(s: string): string {
    s[..FirstBrace(s)]
  }

  function After(s: string): string
    requires NameAt(s)
  {
    s[FirstBrace(s) + 1..]
  }

  /** Every placeholder with a value replaced, in one pass over the template. */
  function Substitute(s: string, values: map<string, string>): string
    decreases |s|
  {
    if s == "" then ""
    else if s[0] == '{' && NameAt(s[1..]) && Name(s[1..]) in values
      then values[Name(s[1..])] + Substitute(After(s[1..]), values)
    else [s[0]] + Substitute(s[1..], values)
  }

  function Escaped(params: map<string, string>): map<string, string> {
    map name | name in params :: PathEscape(params[name])
  }

  // ----- Nesting -----

  /** Skipping plain characters and whole placeholders leads to a closing brace. */
  predicate Closes(s: string)
    decreases |s|
  {
    if s == "" then false
    else if s[0] == '}' then true
    else if s[0] == '{' then NameAt(s[1..]) && Closes(After(s[1..]))
    else Closes(s[1..])
  }

  /** No brace pair has a placeholder inside. A stray brace is harmless. */
  predicate NoNesting(s: string) {
    s == "" || ((s[0] == '{' && Closes(s[1..]) ==> NameAt(s[1..])) && NoNesting(s[1..]))
  }

  // ----- One parameter -----

  lemma FirstBraceOf(name: string, rest: string)
    requires BraceFree(name)
    ensures FirstBrace(name + "}" + rest) == |name|
  {
    if name != "" {
      assert (name + "}" + rest)[1..] == name[1..] + "}" + rest;
      FirstBraceOf(name[1..], rest);
    }
  }

  /** A template starts with the placeholder of a brace-free name exactly when it
      opens with a brace and that name follows. */
  lemma StartsWithPlaceholder(s: string, name: string)
    requires BraceFree(name)
    ensures (|s| >= |name| + 2 && s[..|name| + 2] == Placeholder(name)) <==>
      (s != "" && s[0] == '{' && NameAt(s[1..]) && Name(s[1..]) == name)
    ensures s != "" && s[0] == '{' && NameAt(s[1..]) && Name(s[1..]) == name ==> After(s[1..]) == s[|name| + 2..]
  {
    if |s| >= |name| + 2 && s[..|name| + 2] == Placeholder(name) {
      var rest := s[|name| + 2..];
      assert s == Placeholder(name) + rest;
      assert s[0] == Placeholder(name)[0];
      assert s[1..] == name + "}" + rest;
      FirstBraceOf(name, rest);
    }
    if s != "" && s[0] == '{' && NameAt(s[1..]) && Name(s[1..]) == name {
      var j := FirstBrace(s[1..]);
      assert s[..j + 2] == "{" + s[1..][..j] + "}";
    }
  }

  lemma ShortStays(s: string, name: string, v: string)
    requires |s| < |name| + 2
    ensures ReplaceAll(s, Placeholder(name), v) == s
  {
  }

  /** Replacing one brace-free name everywhere is a one-name substitution. */
  lemma {:induction false} ReplaceIsSubstitute(s: string, name: string, v: string)
    requires BraceFree(name)
    ensures ReplaceAll(s, Placeholder(name), v) == Substitute(s, map[name := v])
    decreases |s|
  {
    StartsWithPlaceholder(s, name);
    assert |Placeholder(name)| == |name| + 2;
    if |s| >= |name| + 2 && s[..|name| + 2] == Placeholder(name) {
      ReplaceIsSubstitute(s[|name| + 2..], name, v);
    } else if s != "" {
      ReplaceIsSubstitute(s[1..], name, v);
      if |s| < |name| + 2 {
        ShortStays(s[1..], name, v);
      }
    }
  }

  // ----- Two substitutions in a row -----

  predicate BraceFreeValues(values: map<string, string>) {
    forall name :: name in values ==> BraceFree(values[name])
  }

  lemma {:induction false} PlainPrefix(plain: string, s: string, values: map<string, string>)
    requires BraceFree(plain)
    ensures Substitute(plain + s, values) == plain + Substitute(s, values)
  {
    if plain == "" {
      assert plain + s == s;
    } else {
      assert (plain + s)[0] == plain[0] && (plain + s)[1..] == plain[1..] + s;
      PlainPrefix(plain[1..], s, values);
      assert [plain[0]] + (plain[1..] + Substitute(s, values)) == plain + Substitute(s, values);
    }
  }

  lemma {:induction false} ClosesPlainPrefix(plain: string, s: string)
    requires BraceFree(plain)
    ensures Closes(plain + s) == Closes(s)
  {
    if plain == "" {
      assert plain + s == s;
    } else {
      assert (plain + s)[0] == plain[0] && (plain + s)[1..] == plain[1..] + s;
      ClosesPlainPrefix(plain[1..], s);
    }
  }

  lemma {:induction false} NestingPlainPrefix(plain: string, s: string)
    requires BraceFree(plain)
    ensures NoNesting(plain + s) == NoNesting(s)
  {
    if plain == "" {
      assert plain + s == s;
    } else {
      assert (plain + s)[0] == plain[0] && (plain + s)[1..] == plain[1..] + s;
      NestingPlainPrefix(plain[1..], s);
    }
  }

  lemma SplitName(s: string)
    requires NameAt(s)
    ensures BraceFree(Name(s)) && s == Name(s) + ("}" + After(s))
  {
  }

  lemma NameBefore(name: string, rest: string)
    requires BraceFree(name)
    ensures var t := name + ("}" + rest);
      NameAt(t) && Name(t) == name && After(t) == rest
  {
    var t := name + ("}" + rest);
    assert t == name + "}" + rest;
    FirstBraceOf(name, rest);
    assert t[..|name|] == name && t[|name| + 1..] == rest;
  }

  lemma ClosingStays(rest: string, values: map<string, string>)
    ensures Substitute("}" + rest, values) == "}" + Substitute(rest, values)
  {
    assert ("}" + rest)[0] == '}' && ("}" + rest)[1..] == rest;
  }

  /** A name and its closing brace survive any substitution of what follows. */
  lemma NameSurvives(s: string, values: map<string, string>)
    requires NameAt(s)
    ensures var t := Substitute(s, values);
      NameAt(t) && Name(t) == Name(s) && After(t) == Substitute(After(s), values)
  {
    SplitName(s);
    PlainPrefix(Name(s), "}" + After(s), values);
    ClosingStays(After(s), values);
    NameBefore(Name(s), Substitute(After(s), values));
  }

  lemma {:induction false} NoNestingTail(s: string, k: nat)
    requires NoNesting(s) && k <= |s|
    ensures NoNesting(s[k..])
  {
    if k > 0 {
      NoNestingTail(s[1..], k - 1);
      assert s[1..][k - 1..] == s[k..];
    }
  }

  lemma NoNestingAfter(s: string)
    requires NoNesting(s) && NameAt(s)
    ensures NoNesting(After(s))
  {
    NoNestingTail(s, FirstBrace(s) + 1);
  }

  lemma NameCloses(s: string)
    requires NameAt(s)
    ensures Closes(s)
  {
    var j := FirstBrace(s);
    assert s == s[..j] + s[j..];
    ClosesPlainPrefix(s[..j], s[j..]);
  }

  /** Without nesting, substitution neither opens nor closes a pair. */
  lemma {:induction false} SubstituteKeepsStructure(s: string, values: map<string, string>)
    requires NoNesting(s) && BraceFreeValues(values)
    ensures Closes(Substitute(s, values)) == Closes(s)
    ensures NoNesting(Substitute(s, values))
    decreases |s|
  {
    if s != "" {
      var t := Substitute(s, values);
      var rest := s[1..];
      if s[0] == '{' && NameAt(rest) {
        NoNestingAfter(rest);
        SubstituteKeepsStructure(After(rest), values);
        if Name(rest) in values {
          ClosesPlainPrefix(values[Name(rest)], Substitute(After(rest), values));
          NestingPlainPrefix(values[Name(rest)], Substitute(After(rest), values));
        } else {
          SubstituteKeepsStructure(rest, values);
          NameSurvives(rest, values);
          assert t == "{" + Substitute(rest, values) && t[1..] == Substitute(rest, values);
        }
      } else {
        SubstituteKeepsStructure(rest, values);
        assert t == [s[0]] + Substitute(rest, values) && t[1..] == Substitute(rest, values);
        if s[0] == '{' && NameAt(t[1..]) {
          NameCloses(t[1..]);
        }
      }
    }
  }

  /** The two ways a first substitution cannot create a placeholder for the
      second: the template has no nesting, or every inserted value is longer than
      every name still to come. */
  ghost predicate Undisturbed(s: string, first: map<string, string>, second: map<string, string>) {
    || NoNesting(s)
    || forall a, b :: a in first && b in second ==> |first[a]| > |b|
  }

  lemma {:induction false} NameAfterPlain(plain: string, s: string)
    requires BraceFree(plain)
    ensures FirstBrace(plain + s) == |plain| + FirstBrace(s)
  {
    if plain == "" {
      assert plain + s == s;
    } else {
      assert (plain + s)[0] == plain[0] && (plain + s)[1..] == plain[1..] + s;
      NameAfterPlain(plain[1..], s);
    }
  }

  /** A name that only appears once values were inserted contains one of them. */
  lemma {:induction false} NewNameIsLong(s: string, values: map<string, string>, length: nat)
    requires BraceFreeValues(values) && !NameAt(s)
    requires forall a :: a in values ==> |values[a]| > length
    ensures NameAt(Substitute(s, values)) ==> |Name(Substitute(s, values))| > length
    decreases |s|
  {
    if s != "" && s[0] == '{' && NameAt(s[1..]) && Name(s[1..]) in values {
      var v := values[Name(s[1..])];
      NameAfterPlain(v, Substitute(After(s[1..]), values));
    } else if s != "" && s[0] != '{' {
      NewNameIsLong(s[1..], values, length);
      var t := Substitute(s, values);
      assert t[1..] == Substitute(s[1..], values);
    }
  }

  lemma UndisturbedTail(s: string, first: map<string, string>, second: map<string, string>)
    requires Undisturbed(s, first, second) && s != ""
    ensures Undisturbed(s[1..], first, second)
    ensures s[0] == '{' && NameAt(s[1..]) ==> Undisturbed(After(s[1..]), first, second)
  {
    if NoNesting(s) {
      NoNestingTail(s, 1);
      if NameAt(s[1..]) {
        NoNestingAfter(s[1..]);
      }
    }
  }

  lemma NewNameIsNoKey(s: string, first: map<string, string>, second: map<string, string>)
    requires BraceFreeValues(first) && Undisturbed(s, first, second)
    requires s != "" && s[0] == '{' && !NameAt(s[1..]) && NameAt(Substitute(s[1..], first))
    ensures Name(Substitute(s[1..], first)) !in second
  {
    var t := Substitute(s[1..], first);
    if NoNesting(s) {
      NameCloses(t);
      SubstituteKeepsStructure(s[1..], first);
    } else if Name(t) in second {
      NewNameIsLong(s[1..], first, |Name(t)|);
    }
  }

  /** Substituting two disjoint sets of names one after the other is one
      substitution of both. */
  lemma {:induction false} SubstitutionsCompose(s: string, first: map<string, string>, second: map<string, string>)
    requires BraceFreeValues(first) && first.Keys !! second.Keys
    requires Undisturbed(s, first, second)
    ensures Substitute(Substitute(s, first), second) == Substitute(s, first + second)
    decreases |s|
  {
    if s != "" {
      var rest := s[1..];
      UndisturbedTail(s, first, second);
      if s[0] == '{' && NameAt(rest) {
        SubstitutionsCompose(After(rest), first, second);
        if Name(rest) in first {
          PlainPrefix(first[Name(rest)], Substitute(After(rest), first), second);
        } else {
          SubstitutionsCompose(rest, first, second);
          NameSurvives(rest, first);
          var t := Substitute(s, first);
          assert t == "{" + Substitute(rest, first) && t[1..] == Substitute(rest, first);
        }
      } else {
        SubstitutionsCompose(rest, first, second);
        var t := Substitute(s, first);
        assert t == [s[0]] + Substitute(rest, first) && t[1..] == Substitute(rest, first);
        if s[0] == '{' && NameAt(t[1..]) {
          NewNameIsNoKey(s, first, second);
        }
      }
    }
  }

  // ----- Any order -----

  function EscapedOf(order: seq<string>, params: map<string, string>): map<string, string>
    requires forall name :: name in order ==> name in params
  {
    map name | name in order :: PathEscape(params[name])
  }

  lemma EscapedNext(order: seq<string>, name: string, params: map<string, string>)
    requires name in params && forall other :: other in order ==> other in params
    ensures EscapedOf(order + [name], params) == EscapedOf(order, params) + map[name := PathEscape(params[name])]
  {
  }

  lemma UndisturbedByNext(s: string, order: seq<string>, name: string, params: map<string, string>)
    requires name in params && forall other :: other in order ==> other in params
    requires Undisturbed(s, Escaped(params), params)
    ensures Undisturbed(s, EscapedOf(order, params), map[name := PathEscape(params[name])])
  {
    var before := EscapedOf(order, params);
    if !NoNesting(s) {
      forall a | a in before ensures |before[a]| > |name| {
        assert a in Escaped(params) && before[a] == Escaped(params)[a];
      }
    }
  }

  lemma EscapedIsBraceFree(order: seq<string>, params: map<string, string>)
    requires forall name :: name in order ==> name in params
    ensures BraceFreeValues(EscapedOf(order, params))
  {
    forall name | name in order ensures BraceFree(PathEscape(params[name])) {
      EscapeIsBraceFree(params[name]);
    }
  }

  lemma {:induction false} NothingToSubstitute(s: string)
    ensures Substitute(s, map[]) == s
  {
    if s != "" {
      NothingToSubstitute(s[1..]);
    }
  }

  /** Expanding parameter by parameter is one simultaneous substitution. */
  lemma {:induction false} ExpandIsSubstitute(s: string, order: seq<string>, params: map<string, string>)
    requires Distinct(order) && (forall name :: name in order ==> name in params)
    requires BraceFreeNames(params) && Undisturbed(s, Escaped(params), params)
    ensures Expand(s, order, params) == Substitute(s, EscapedOf(order, params))
  {
    if order == [] {
      NothingToSubstitute(s);
      assert EscapedOf(order, params) == map[];
    } else {
      var n := |order| - 1;
      var front, name := order[..n], order[n];
      var before, last := EscapedOf(front, params), map[name := PathEscape(params[name])];
      assert order == front + [name];
      ExpandIsSubstitute(s, front, params);
      ReplaceIsSubstitute(Substitute(s, before), name, PathEscape(params[name]));
      EscapedIsBraceFree(front, params);
      EscapedNext(front, name, params);
      UndisturbedByNext(s, front, name, params);
      SubstitutionsCompose(s, before, last);
    }
  }

  /** With no nesting in the template, every order of the parameters gives the
      same endpoint: all placeholders replaced at once by the encoded values. */
  lemma ExpansionIsSimultaneous(s: string, order: seq<string>, params: map<string, string>)
    requires NoNesting(s) && BraceFreeNames(params) && Enumerates(order, params)
    ensures Expand(s, order, params) == Substitute(s, Escaped(params))
  {
    ExpandIsSubstitute(s, order, params);
    assert EscapedOf(order, params) == Escaped(params);
  }

  /** resolveToolURL's loop; the order in which the map yields its keys is not
      known, `order` records the one that happened. */
  method ResolvePath(endpoint: string, params: map<string, string>) returns (resolved: string, ghost order: seq<string>)
    ensures Enumerates(order, params) && resolved == Expand(endpoint, order, params)
    ensures NoNesting(endpoint) && BraceFreeNames(params) ==> resolved == Substitute(endpoint, Escaped(params))
  {
    resolved, order := endpoint, [];
    var todo := params.Keys;
    while todo != {}
      invariant todo <= params.Keys
      invariant Distinct(order) && forall name :: name in order <==> name in params && name !in todo
      invariant resolved == Expand(endpoint, order, params)
      decreases |todo|
    {
      var name :| name in todo;
      todo := todo - {name};
      resolved := ReplaceAll(resolved, Placeholder(name), PathEscape(params[name]));
      ghost var before := order;
      order := order + [name];
      assert order[..|before|] == before;
    }
    if NoNesting(endpoint) && BraceFreeNames(params) {
      ExpansionIsSimultaneous(endpoint, order, params);
    }
  }
}
