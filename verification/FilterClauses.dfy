/** Which clauses a list screen accepts and what each of them prints, by the literal
    columns, operators and SQL of the three screens, and the string operations they
    rest on by what those do to a text. */
module FilterClauses {
  import opened Wrappers
  import opened Strings
  import opened Positions
  import opened TextLaws
  import opened FilterSql
  import opened FilterCompiler

  // ----- Values -----

  /** The first value of a clause, trimmed; without values the empty one. */
  ghost predicate IsFirst(values: seq<string>, value: string) {
    if |values| == 0 then value == "" else IsTrimmed(values[0], value)
  }

  lemma FirstIs(values: seq<string>, value: string)
    ensures IsFirst(values, value) <==> value == FirstValue(values)
  {
    if |values| > 0 {
      TrimmedIsTrim(values[0], value);
    }
  }

  function Commas(parts: seq<string>): string {
    if parts == [] then "" else if |parts| == 1 then parts[0] else parts[0] + "," + Commas(parts[1..])
  }

  /** The texts between the commas of another. */
  predicate IsCut(raw: string, parts: seq<string>) {
    && |parts| > 0 && Commas(parts) == raw
    && forall k :: 0 <= k < |parts| ==> ',' !in parts[k]
  }

  lemma {:induction false} SplitIsCut(raw: string)
    ensures IsCut(raw, Split(raw))
  {
    if raw != "" {
      var rest := Split(raw[1..]);
      SplitIsCut(raw[1..]);
      if raw[0] == ',' {
        assert ([""] + rest)[1..] == rest;
        assert Commas([""] + rest) == "" + "," + Commas(rest);
      } else {
        var parts := [[raw[0]] + rest[0]] + rest[1..];
        assert parts[1..] == rest[1..];
        assert Commas(parts) == [raw[0]] + Commas(rest);
      }
    }
  }

  ghost function NonBlankAt(parts: seq<string>): set<nat> {
    set k: nat | k < |parts| && !IsTrimmed(parts[k], "")
  }

  ghost predicate ValuesAt(parts: seq<string>, values: seq<string>, at: seq<nat>) {
    && InOrder(at, NonBlankAt(parts)) && |values| == |at|
    && forall k :: 0 <= k < |values| ==> at[k] < |parts| && IsTrimmed(parts[at[k]], values[k])
  }

  /** The values of a comma list: its parts that are not blank, trimmed, in order. */
  ghost predicate ListsValues(raw: string, values: seq<string>) {
    exists parts, at :: IsCut(raw, parts) && ValuesAt(parts, values, at)
  }

  lemma ValuesGrow(parts: seq<string>, values: seq<string>, at: seq<nat>, last: string)
    requires parts != [] && last != "" && IsTrimmed(parts[|parts| - 1], last)
    requires ValuesAt(parts[..|parts| - 1], values, at)
    ensures ValuesAt(parts, values + [last], at + [|parts| - 1])
  {
    var n: nat := |parts| - 1;
    TrimmedIsTrim(parts[n], last);
    TrimmedIsTrim(parts[n], "");
    LastAdded(at, NonBlankAt(parts[..n]), n);
    assert NonBlankAt(parts) == NonBlankAt(parts[..n]) + {n};
    forall k | 0 <= k < |at| ensures IsTrimmed(parts[at[k]], values[k]) {
      assert parts[..n][at[k]] == parts[at[k]];
    }
  }

  lemma ValuesStay(parts: seq<string>, values: seq<string>, at: seq<nat>)
    requires parts != [] && IsTrimmed(parts[|parts| - 1], "")
    requires ValuesAt(parts[..|parts| - 1], values, at)
    ensures ValuesAt(parts, values, at)
  {
    assert NonBlankAt(parts) == NonBlankAt(parts[..|parts| - 1]);
    forall k | 0 <= k < |at| ensures IsTrimmed(parts[at[k]], values[k]) {
      assert parts[..|parts| - 1][at[k]] == parts[at[k]];
    }
  }

  lemma {:induction false} NonBlankIs(parts: seq<string>) returns (at: seq<nat>)
    ensures ValuesAt(parts, NonBlank(parts), at)
  {
    if parts == [] {
      at := [];
    } else {
      var n := |parts| - 1;
      at := NonBlankIs(parts[..n]);
      TrimmedIsTrim(parts[n], Trim(parts[n]));
      if Trim(parts[n]) == "" {
        ValuesStay(parts, NonBlank(parts[..n]), at);
      } else {
        ValuesGrow(parts, NonBlank(parts[..n]), at, Trim(parts[n]));
        at := at + [n];
      }
    }
  }

  lemma SplitListsValues(raw: string)
    ensures ListsValues(raw, NonBlank(Split(raw)))
  {
    SplitIsCut(raw);
    var at := NonBlankIs(Split(raw));
  }

  // ----- Acceptance -----

  /** The text columns of the three screens. */
  predicate IsTextColumn(screen: Screen, key: string) {
    match screen
    case Agents => key in {"name", "description", "type", "model"}
    case CustomTools => key in {"name", "description", "method", "endpoint"}
    case McpServers => key in {"name", "description", "url"}
  }

  /** The columns the first screen has no operators of its own for. */
  predicate IsColumn(screen: Screen, key: string) {
    || IsTextColumn(screen, key) || key == "created_at"
    || (key == "tags" && screen != Agents) || (key == "timeout" && screen == McpServers)
  }

  predicate IsPresence(op: string) {
    op == "is_present" || op == "is_not_present"
  }

  predicate IsEquality(op: string) {
    op == "equal_to" || op == "not_equal_to"
  }

  predicate IsContainment(op: string) {
    op == "contains" || op == "does_not_contain"
  }

  /** The clause has a column of the screen and either asks for presence or has a
      value its column compares with. */
  predicate AcceptedWith(screen: Screen, f: Filter, value: string, lit: Literals) {
    && IsColumn(screen, f.key)
    && (|| IsPresence(f.op)
        || (value != "" &&
            if f.key == "created_at" then IsEquality(f.op) && (screen == Agents || lit.isDate(value))
            else if f.key == "timeout" then IsEquality(f.op) && lit.toInt(value) != None
            else IsEquality(f.op) || IsContainment(f.op)))
  }

  ghost predicate Accepted(screen: Screen, f: Filter, lit: Literals) {
    exists value :: IsFirst(f.values, value) && AcceptedWith(screen, f, value, lit)
  }

  /** A clause reaches the query exactly when the screen accepts it. */
  lemma AcceptedExactly(screen: Screen, f: Filter, lit: Literals)
    ensures Accepted(screen, f, lit) <==> Compile(screen, f, lit).Some?
  {
    forall value ensures IsFirst(f.values, value) <==> value == FirstValue(f.values) {
      FirstIs(f.values, value);
    }
    var value := FirstValue(f.values);
    assert IsFirst(f.values, value);
    assert f.key in Columns(screen) <==> IsColumn(screen, f.key);
    assert AcceptedWith(screen, f, value, lit) <==> Compile(screen, f, lit).Some?;
  }

  ghost function AcceptedAt(screen: Screen, filters: seq<Filter>, lit: Literals): set<nat> {
    set i: nat | i < |filters| && Accepted(screen, filters[i], lit)
  }

  ghost predicate KeptAt(screen: Screen, filters: seq<Filter>, lit: Literals, kept: seq<Filter>, at: seq<nat>) {
    && InOrder(at, AcceptedAt(screen, filters, lit)) && |kept| == |at|
    && forall k :: 0 <= k < |kept| ==> at[k] < |filters| && kept[k] == filters[at[k]]
  }

  /** The accepted clauses of a request, in its order. */
  ghost predicate Keeps(screen: Screen, filters: seq<Filter>, lit: Literals, kept: seq<Filter>) {
    exists at :: KeptAt(screen, filters, lit, kept, at)
  }

  lemma {:induction false} SurvivorsAreKept(screen: Screen, filters: seq<Filter>, lit: Literals) returns (at: seq<nat>)
    ensures KeptAt(screen, filters, lit, Survivors(CompilerOf(screen, lit), filters), at)
  {
    if filters == [] {
      at := [];
    } else {
      var n: nat := |filters| - 1;
      at := SurvivorsAreKept(screen, filters[..n], lit);
      AcceptedExactly(screen, filters[n], lit);
      if Accepted(screen, filters[n], lit) {
        LastAdded(at, AcceptedAt(screen, filters[..n], lit), n);
        assert AcceptedAt(screen, filters, lit) == AcceptedAt(screen, filters[..n], lit) + {n};
        at := at + [n];
      } else {
        assert AcceptedAt(screen, filters, lit) == AcceptedAt(screen, filters[..n], lit);
      }
    }
  }

  /** The clauses that reach the query are the accepted ones, in order. */
  lemma KeptAreSurvivors(screen: Screen, filters: seq<Filter>, lit: Literals, kept: seq<Filter>)
    ensures Keeps(screen, filters, lit, kept) <==> kept == Survivors(CompilerOf(screen, lit), filters)
  {
    var at := SurvivorsAreKept(screen, filters, lit);
    if Keeps(screen, filters, lit, kept) {
      var other :| KeptAt(screen, filters, lit, kept, other);
      InOrderOnce(at, other, AcceptedAt(screen, filters, lit));
    }
  }

  // ----- The printed text -----

  function Either(left: string, right: string): string {
    left + " " + ("OR" + " " + right)
  }

  /** The SQL of a clause on the tags of a tool or a server. */
  function TagsText(key: string, op: string): string {
    if op == "is_present" then "cardinality(" + key + ") > 0"
    else if op == "is_not_present" then Either(key + " IS NULL", "cardinality(" + key + ") = 0")
    else if op == "equal_to" then "LOWER(?) = ANY(SELECT LOWER(t) FROM unnest(" + key + ") AS t)"
    else if op == "not_equal_to" then
      "NOT (" + "LOWER(?) = ANY(SELECT LOWER(t) FROM unnest(" + key + ") AS t))"
    else if op == "contains" then "EXISTS (SELECT 1 FROM unnest(" + key + ") AS tag WHERE tag ILIKE ?)"
    else "NOT " + "EXISTS (SELECT 1 FROM unnest(" + key + ") AS tag WHERE tag ILIKE ?)"
  }

  /** The SQL of a clause on any other column: compared with one value or with
      several, where rows without a value pass the negations. */
  function ColumnText(key: string, op: string, several: bool): string {
    if op == "is_present" then key + " IS NOT NULL"
    else if op == "is_not_present" then key + " IS NULL"
    else if op == "equal_to" then
      if several then "LOWER(" + key + ") IN (?)" else "LOWER(" + key + ") = LOWER(?)"
    else if op == "not_equal_to" then
      Either(key + " IS NULL", if several then "LOWER(" + key + ") NOT IN (?)" else "LOWER(" + key + ") <> LOWER(?)")
    else if op == "contains" then key + " ILIKE ?"
    else Either(key + " IS NULL", key + " NOT ILIKE ?")
  }

  function DayText(key: string, op: string): string {
    if op == "equal_to" then "DATE(" + key + ") = ?" else "DATE(" + key + ") <> ?"
  }

  function NumberText(key: string, op: string): string {
    if op == "equal_to" then key + " = ?" else key + " <> ?"
  }

  function ClauseSql(screen: Screen, f: Filter, several: bool): string {
    if f.key == "tags" then TagsText(f.key, f.op)
    else if f.key == "created_at" && !IsPresence(f.op) then DayText(f.key, f.op)
    else if f.key == "timeout" && !IsPresence(f.op) then NumberText(f.key, f.op)
    else ColumnText(f.key, f.op, several)
  }

  /** Only an equality on a text column of the agents screen compares with a list. */
  predicate ComparesWithList(screen: Screen, f: Filter, wanted: seq<string>) {
    screen == Agents && IsTextColumn(Agents, f.key) && IsEquality(f.op) && |wanted| > 1
  }

  ghost predicate HasArguments(screen: Screen, f: Filter, value: string, wanted: seq<string>, lit: Literals,
                               args: seq<Arg>)
  {
    if IsPresence(f.op) then args == []
    else if IsContainment(f.op) then args == [Text("%" + value + "%")]
    else if f.key == "timeout" then lit.toInt(value) != None && args == [Number(lit.toInt(value).value)]
    else if ComparesWithList(screen, f, wanted) then
      && |args| == 1 && args[0].TextSet? && |args[0].values| == |wanted|
      && forall k :: 0 <= k < |wanted| ==> IsLowered(wanted[k], args[0].values[k])
    else args == [Text(value)]
  }

  /** What a clause prints and which arguments it brings. */
  ghost predicate Prints(screen: Screen, f: Filter, lit: Literals, text: string, args: seq<Arg>) {
    exists value, wanted :: IsFirst(f.values, value) && ListsValues(value, wanted)
      && text == ClauseSql(screen, f, ComparesWithList(screen, f, wanted))
      && HasArguments(screen, f, value, wanted, lit, args)
  }

  lemma SpelledOne(t: Token)
    ensures Spelled([t]) == Spell(t)
  {
  }

  lemma SpelledPair(left: Token, right: seq<Token>)
    requires right != [] && (left.Check? || left.Or?) && (right[0].Or? || right[0].Check?)
    ensures Spelled([left] + right) == Spell(left) + " " + Spelled(right)
  {
    SpelledConcat([left], right);
    SpelledOne(left);
  }

  lemma SpelledOr(a: Token, b: Token)
    requires a.Check? && b.Check?
    ensures Spelled([a, Or, b]) == Either(Spell(a), Spell(b))
  {
    SpelledPair(Or, [b]);
    SpelledPair(a, [Or] + [b]);
    SpelledOne(b);
    assert [a] + ([Or] + [b]) == [a, Or, b];
  }

  lemma TagsPresencePrints(f: Filter)
    requires f.key == "tags" && IsPresence(f.op)
    ensures TagsFragment(f).Some? && Spelled(TagsFragment(f).value.tokens) == TagsText("tags", f.op)
  {
    if f.op == "is_present" {
      SpelledOne(Check("tags", SomeTags));
    } else {
      SpelledOr(Check("tags", IsNull), Check("tags", NoTags));
    }
  }

  lemma TagsPrint(f: Filter)
    requires f.key == "tags" && TagsFragment(f).Some?
    ensures Spelled(TagsFragment(f).value.tokens) == TagsText("tags", f.op)
  {
    if IsPresence(f.op) {
      TagsPresencePrints(f);
    } else {
      SpelledOne(TagsFragment(f).value.tokens[0]);
    }
  }

  lemma TimeoutPrints(f: Filter, lit: Literals)
    requires f.key == "timeout" && TimeoutFragment(f, lit).Some?
    ensures Spelled(TimeoutFragment(f, lit).value.tokens) == ClauseSql(McpServers, f, false)
  {
    SpelledOne(TimeoutFragment(f, lit).value.tokens[0]);
  }

  lemma TextPrints(screen: Screen, f: Filter)
    requires TextFragment(screen, f).Some?
    ensures var several := SplitsAsSet(screen, FirstValue(f.values));
      Spelled(TextFragment(screen, f).value.tokens) == ColumnText(f.key, f.op, several)
  {
    var tokens := TextFragment(screen, f).value.tokens;
    if f.op == "not_equal_to" || f.op == "does_not_contain" {
      assert tokens == [tokens[0], Or, tokens[2]];
      SpelledOr(tokens[0], tokens[2]);
    } else {
      SpelledOne(tokens[0]);
      assert tokens == [tokens[0]];
    }
  }

  lemma ListIsLowered(wanted: seq<string>)
    ensures forall k :: 0 <= k < |wanted| ==> IsLowered(wanted[k], LoweredValues(wanted)[k])
  {
    forall k | 0 <= k < |wanted| ensures IsLowered(wanted[k], LoweredValues(wanted)[k]) {
      LowerIs(wanted[k]);
    }
  }

  lemma PresencePrints(f: Filter)
    requires IsPresence(f.op)
    ensures Spelled([Check(f.key, if f.op == "is_present" then NotNull else IsNull)]) == ColumnText(f.key, f.op, false)
  {
    SpelledOne(Check(f.key, if f.op == "is_present" then NotNull else IsNull));
  }

  lemma DayPrints(f: Filter)
    requires f.key == "created_at" && DateFragment(f).Some?
    ensures Spelled(DateFragment(f).value.tokens) == DayText(f.key, f.op)
  {
    SpelledOne(DateFragment(f).value.tokens[0]);
  }

  lemma CompiledText(screen: Screen, f: Filter, lit: Literals)
    requires Compile(screen, f, lit).Some?
    ensures var several := ComparesWithList(screen, f, NonBlank(Split(FirstValue(f.values))));
      Spelled(Compile(screen, f, lit).value.tokens) == ClauseSql(screen, f, several)
  {
    if f.key == "tags" {
      TagsPrint(f);
    } else if f.key == "timeout" {
      TimeoutPrints(f, lit);
    } else if IsPresence(f.op) {
      PresencePrints(f);
    } else if f.key == "created_at" {
      DayPrints(f);
    } else {
      TextPrints(screen, f);
    }
  }

  lemma CompiledArguments(screen: Screen, f: Filter, lit: Literals)
    requires Compile(screen, f, lit).Some?
    ensures var value := FirstValue(f.values);
      HasArguments(screen, f, value, NonBlank(Split(value)), lit, Compile(screen, f, lit).value.args)
  {
    ListIsLowered(NonBlank(Split(FirstValue(f.values))));
  }

  /** Every accepted clause prints its SQL with its arguments. */
  lemma ClausePrints(screen: Screen, f: Filter, lit: Literals)
    requires Accepted(screen, f, lit)
    ensures Compile(screen, f, lit).Some?
    ensures Prints(screen, f, lit, Spelled(Compile(screen, f, lit).value.tokens), Compile(screen, f, lit).value.args)
  {
    AcceptedExactly(screen, f, lit);
    FirstIs(f.values, FirstValue(f.values));
    SplitListsValues(FirstValue(f.values));
    CompiledText(screen, f, lit);
    CompiledArguments(screen, f, lit);
  }

  /** OR in any mix of cases; every other word, the empty one included, is AND. */
  predicate SaysOr(glue: string) {
    glue in {"or", "Or", "oR", "OR"}
  }

  lemma GlueIs(f: Filter)
    ensures Glue(f) == if SaysOr(f.glue) then Or else And
  {
    var lowered := Lower(f.glue);
    if |f.glue| == 2 {
      assert f.glue == [f.glue[0], f.glue[1]];
      assert lowered == [LowerChar(f.glue[0]), LowerChar(f.glue[1])];
      assert lowered == "or" <==> f.glue[0] in "oO" && f.glue[1] in "rR";
    }
  }

  /** One clause appended, in parentheses and after the word that joins it to the
      clauses before. */
  function Joined(before: string, first: bool, glue: string, clause: string): string {
    if first then "(" + clause + ")"
    else before + " " + (if SaysOr(glue) then "OR" else "AND") + " " + ("(" + clause + ")")
  }

  function Condition(kept: seq<Filter>, texts: seq<string>): string
    requires |kept| == |texts|
  {
    if kept == [] then ""
    else
      var n := |kept| - 1;
      Joined(Condition(kept[..n], texts[..n]), n == 0, kept[n].glue, texts[n])
  }

  function AllArguments(lists: seq<seq<Arg>>): seq<Arg> {
    if lists == [] then [] else AllArguments(lists[..|lists| - 1]) + lists[|lists| - 1]
  }

  ghost predicate ClausesPrint(screen: Screen, kept: seq<Filter>, lit: Literals, texts: seq<string>,
                               lists: seq<seq<Arg>>)
  {
    && |texts| == |kept| && |lists| == |kept|
    && forall k :: 0 <= k < |kept| ==> Prints(screen, kept[k], lit, texts[k], lists[k])
  }

  /** The text and arguments of a request: those of its accepted clauses, in order. */
  ghost predicate IsCondition(screen: Screen, kept: seq<Filter>, lit: Literals, text: string, args: seq<Arg>) {
    exists texts, lists :: ClausesPrint(screen, kept, lit, texts, lists)
      && text == Condition(kept, texts) && args == AllArguments(lists)
  }

  lemma NextClause(compile: Compiler, kept: seq<Filter>)
    requires kept != [] && forall f :: f in kept ==> compile(f).Some? && compile(f).value.tokens != []
    ensures var n := |kept| - 1;
      var (before, clause) := (PrintedOf(compile, kept[..n]), compile(kept[n]).value);
      PrintedOf(compile, kept)
        == (Joined(before.0, n == 0, kept[n].glue, Spelled(clause.tokens)), before.1 + clause.args)
  {
    var n := |kept| - 1;
    var before, clause := Print(compile, kept[..n]).tokens, compile(kept[n]).value;
    GlueIs(kept[n]);
    ClauseText(clause.tokens);
    PrintEnds(compile, kept[..n]);
    if n > 0 {
      JoinText(before, Glue(kept[n]), InParens(clause.tokens));
    } else {
      assert before + [] + InParens(clause.tokens) == InParens(clause.tokens);
    }
  }

  lemma ConditionNext(screen: Screen, kept: seq<Filter>, lit: Literals, texts: seq<string>, lists: seq<seq<Arg>>,
                      text: string, list: seq<Arg>)
    requires kept != [] && ClausesPrint(screen, kept[..|kept| - 1], lit, texts, lists)
    requires Prints(screen, kept[|kept| - 1], lit, text, list)
    ensures ClausesPrint(screen, kept, lit, texts + [text], lists + [list])
    ensures var n := |kept| - 1;
      && Condition(kept, texts + [text]) == Joined(Condition(kept[..n], texts), n == 0, kept[n].glue, text)
      && AllArguments(lists + [list]) == AllArguments(lists) + list
  {
    var n := |kept| - 1;
    assert (texts + [text])[..n] == texts && (lists + [list])[..n] == lists;
    forall k | 0 <= k < |kept| ensures Prints(screen, kept[k], lit, (texts + [text])[k], (lists + [list])[k]) {
      assert k < n ==> kept[..n][k] == kept[k];
    }
  }

  /** Every clause of a list prints something, as the screen has it. */
  ghost predicate PrintsEach(compile: Compiler, screen: Screen, kept: seq<Filter>, lit: Literals) {
    forall f :: f in kept ==>
      && compile(f).Some? && compile(f).value.tokens != []
      && Prints(screen, f, lit, Spelled(compile(f).value.tokens), compile(f).value.args)
  }

  lemma {:induction false} ConditionIsPrinted(compile: Compiler, screen: Screen, kept: seq<Filter>, lit: Literals)
    returns (texts: seq<string>, lists: seq<seq<Arg>>)
    requires PrintsEach(compile, screen, kept, lit)
    ensures ClausesPrint(screen, kept, lit, texts, lists)
    ensures PrintedOf(compile, kept) == (Condition(kept, texts), AllArguments(lists))
  {
    if kept == [] {
      texts, lists := [], [];
    } else {
      var n := |kept| - 1;
      texts, lists := ConditionIsPrinted(compile, screen, kept[..n], lit);
      NextClause(compile, kept);
      var text, list := Spelled(compile(kept[n]).value.tokens), compile(kept[n]).value.args;
      ConditionNext(screen, kept, lit, texts, lists, text, list);
      texts, lists := texts + [text], lists + [list];
    }
  }

  lemma AcceptedPrintEach(screen: Screen, kept: seq<Filter>, lit: Literals)
    requires forall f :: f in kept ==> Accepted(screen, f, lit)
    ensures PrintsEach(CompilerOf(screen, lit), screen, kept, lit)
  {
    forall f | f in kept
      ensures CompilerOf(screen, lit)(f).Some? && CompilerOf(screen, lit)(f).value.tokens != []
      ensures Prints(screen, f, lit, Spelled(CompilerOf(screen, lit)(f).value.tokens),
                     CompilerOf(screen, lit)(f).value.args)
    {
      ClausePrints(screen, f, lit);
    }
  }

  /** What a screen prints of a request: the SQL of its accepted clauses, joined as
      the clauses say, and their arguments in the same order. */
  lemma PrintedExactly(screen: Screen, filters: seq<Filter>, lit: Literals, kept: seq<Filter>)
    requires Keeps(screen, filters, lit, kept)
    ensures var (text, args) := Printed(CompilerOf(screen, lit), filters); IsCondition(screen, kept, lit, text, args)
  {
    KeptAreSurvivors(screen, filters, lit, kept);
    forall f | f in kept ensures Accepted(screen, f, lit) {
      AcceptedExactly(screen, f, lit);
    }
    AcceptedPrintEach(screen, kept, lit);
    var texts, lists := ConditionIsPrinted(CompilerOf(screen, lit), screen, kept, lit);
  }
}
