/** The advanced filters of the list screens, compiled to one WHERE condition
    and its positional arguments. */
module FilterCompiler {
  import opened Wrappers
  import opened Strings
  import opened FilterSql

  /** One clause of a request; `glue` joins it to the clause before it. */
  datatype Filter = Filter(key: string, op: string, glue: string, values: seq<string>)

  /** The screens differ in their columns and in how they print some clauses. */
  datatype Screen = Agents | CustomTools | McpServers

  /** What the library and the language decide about a value. */
  datatype Literals = Literals(isDate: string -> bool, toInt: string -> Option<int>)

  function Columns(screen: Screen): set<string> {
    match screen
    case Agents => {"name", "description", "type", "model", "created_at"}
    case CustomTools => {"name", "description", "method", "endpoint", "tags", "created_at"}
    case McpServers => {"name", "description", "url", "timeout", "tags", "created_at"}
  }

  datatype Fragment = Fragment(tokens: seq<Token>, args: seq<Arg>)

  // ----- Values -----

  function FirstValue(values: seq<string>): string {
    if values == [] then "" else Trim(values[0])
  }

  /** strings.Split on a comma. */
  function Split(raw: string): (parts: seq<string>)
    ensures |parts| > 0
  {
    if raw == "" then [""]
    else
      var rest := Split(raw[1..]);
      if raw[0] == ',' then [""] + rest else [[raw[0]] + rest[0]] + rest[1..]
  }

  /** The non-blank parts, trimmed. */
  function NonBlank(parts: seq<string>): (values: seq<string>)
    ensures forall v :: v in values ==> v != ""
  {
    if parts == [] then []
    else
      var last := Trim(parts[|parts| - 1]);
      NonBlank(parts[..|parts| - 1]) + if last == "" then [] else [last]
  }

  method SplitFilterValues(raw: string) returns (values: seq<string>)
    ensures values == NonBlank(Split(raw))
  {
    var parts := Split(raw);
    values := [];
    for i := 0 to |parts|
      invariant values == NonBlank(parts[..i])
    {
      assert parts[..i + 1][..i] == parts[..i];
      var trimmed := Trim(parts[i]);
      if trimmed != "" {
        values := values + [trimmed];
      }
    }
    assert parts[..|parts|] == parts;
  }

  function LoweredValues(values: seq<string>): (lowered: seq<string>)
    ensures |lowered| == |values|
  {
    seq(|values|, i requires 0 <= i < |values| => Lower(values[i]))
  }

  function Wildcard(value: string): Arg {
    Text("%" + value + "%")
  }

  // ----- One clause -----

  function One(column: string, test: Test, args: seq<Arg>): Option<Fragment> {
    Some(Fragment([Check(column, test)], args))
  }

  /** `column IS NULL OR test`: the shape that keeps NULL rows. */
  function OrNull(column: string, test: Test, args: seq<Arg>): Option<Fragment> {
    Some(Fragment([Check(column, IsNull), Or, Check(column, test)], args))
  }

  function TagsFragment(f: Filter): Option<Fragment> {
    var value := FirstValue(f.values);
    if f.op == "is_present" then One("tags", SomeTags, [])
    else if f.op == "is_not_present" then OrNull("tags", NoTags, [])
    else if value == "" then None
    else if f.op == "equal_to" then One("tags", AnyTag, [Text(value)])
    else if f.op == "not_equal_to" then One("tags", NotAnyTag, [Text(value)])
    else if f.op == "contains" then One("tags", TagLike, [Wildcard(value)])
    else if f.op == "does_not_contain" then One("tags", NoTagLike, [Wildcard(value)])
    else None
  }

  function TimeoutFragment(f: Filter, lit: Literals): Option<Fragment> {
    var value := FirstValue(f.values);
    if f.op == "is_present" then One("timeout", NotNull, [])
    else if f.op == "is_not_present" then One("timeout", IsNull, [])
    else if value == "" || lit.toInt(value).None? then None
    else if f.op == "equal_to" then One("timeout", IntEq, [Number(lit.toInt(value).value)])
    else if f.op == "not_equal_to" then One("timeout", IntNe, [Number(lit.toInt(value).value)])
    else None
  }

  /** The set a value names on the agents screen, or nothing to split. */
  function SplitsAsSet(screen: Screen, value: string): bool {
    screen.Agents? && |NonBlank(Split(value))| > 1
  }

  function DateFragment(f: Filter): Option<Fragment> {
    var value := FirstValue(f.values);
    if f.op == "equal_to" then One("created_at", DateEq, [Text(value)])
    else if f.op == "not_equal_to" then One("created_at", DateNe, [Text(value)])
    else None
  }

  function TextFragment(screen: Screen, f: Filter): Option<Fragment> {
    var value := FirstValue(f.values);
    if f.op == "equal_to" then
      if SplitsAsSet(screen, value) then One(f.key, LowerIn, [TextSet(LoweredValues(NonBlank(Split(value))))])
      else One(f.key, LowerEq, [Text(value)])
    else if f.op == "not_equal_to" then
      if SplitsAsSet(screen, value) then OrNull(f.key, LowerNotIn, [TextSet(LoweredValues(NonBlank(Split(value))))])
      else OrNull(f.key, LowerNe, [Text(value)])
    else if f.op == "contains" then One(f.key, ILike, [Wildcard(value)])
    else if f.op == "does_not_contain" then OrNull(f.key, NotILike, [Wildcard(value)])
    else None
  }

  /** The fragment a clause compiles to; None when the clause is rejected. */
  function Compile(screen: Screen, f: Filter, lit: Literals): Option<Fragment> {
    var value := FirstValue(f.values);
    if f.key !in Columns(screen) then None
    else if f.key == "tags" then TagsFragment(f)
    else if f.key == "timeout" then TimeoutFragment(f, lit)
    else if f.op == "is_present" then One(f.key, NotNull, [])
    else if f.op == "is_not_present" then One(f.key, IsNull, [])
    else if value == "" then None
    else if f.key == "created_at" then (if !screen.Agents? && !lit.isDate(value) then None else DateFragment(f))
    else TextFragment(screen, f)
  }

  // ----- A list of clauses -----

  /** How a screen compiles one clause. The three screens share the loop over
      the clauses and differ in this function only. */
  type Compiler = Filter -> Option<Fragment>

  function CompilerOf(screen: Screen, lit: Literals): Compiler {
    (f: Filter) => Compile(screen, f, lit)
  }

  function Glue(f: Filter): Token {
    if Lower(f.glue) == "or" then Or else And
  }

  /** The clauses that reach the query. */
  function Survivors(compile: Compiler, filters: seq<Filter>): (kept: seq<Filter>)
    ensures forall f :: f in kept ==> compile(f).Some?
  {
    if filters == [] then []
    else
      var n := |filters| - 1;
      Survivors(compile, filters[..n]) + if compile(filters[n]).Some? then [filters[n]] else []
  }

  function InParens(inner: seq<Token>): seq<Token> {
    [Open] + inner + [Close]
  }

  /** The printed condition: each clause in parentheses, after its glue word
      unless it comes first. */
  function Print(compile: Compiler, kept: seq<Filter>): Fragment
    requires forall f :: f in kept ==> compile(f).Some?
  {
    if kept == [] then Fragment([], [])
    else
      var n := |kept| - 1;
      var before := Print(compile, kept[..n]);
      var clause := compile(kept[n]).value;
      Fragment(before.tokens + (if n == 0 then [] else [Glue(kept[n])]) + InParens(clause.tokens),
               before.args + clause.args)
  }

  lemma PrintNext(compile: Compiler, kept: seq<Filter>, f: Filter)
    requires (forall g :: g in kept ==> compile(g).Some?) && compile(f).Some?
    ensures var before := Print(compile, kept);
      Print(compile, kept + [f]) ==
        Fragment(before.tokens + (if kept == [] then [] else [Glue(f)]) + InParens(compile(f).value.tokens),
                 before.args + compile(f).value.args)
  {
    assert (kept + [f])[..|kept|] == kept;
  }

  lemma {:induction false} PrintEnds(compile: Compiler, kept: seq<Filter>)
    requires forall f :: f in kept ==> compile(f).Some?
    ensures var tokens := Print(compile, kept).tokens;
      (kept == [] <==> tokens == []) && (tokens != [] ==> tokens[|tokens| - 1] == Close)
  {
  }

  /** The text of a condition, clause by clause. */
  lemma ClauseText(inner: seq<Token>)
    requires inner != []
    ensures Spelled(InParens(inner)) == "(" + Spelled(inner) + ")"
  {
    SpelledConcat([Open] + inner, [Close]);
    SpelledConcat([Open], inner);
  }

  lemma JoinText(left: seq<Token>, glue: Token, right: seq<Token>)
    requires left != [] && right != [] && left[|left| - 1] == Close && right[0] == Open && (glue == And || glue == Or)
    ensures Spelled(left + [glue] + right) == Spelled(left) + " " + Spell(glue) + " " + Spelled(right)
  {
    SpelledConcat(left + [glue], right);
    SpelledConcat(left, [glue]);
  }

  /** The text and the arguments of the surviving clauses. */
  function PrintedOf(compile: Compiler, kept: seq<Filter>): (string, seq<Arg>)
    requires forall f :: f in kept ==> compile(f).Some?
  {
    (Spelled(Print(compile, kept).tokens), Print(compile, kept).args)
  }

  /** The WHERE text and its positional arguments. */
  function Printed(compile: Compiler, filters: seq<Filter>): (string, seq<Arg>) {
    PrintedOf(compile, Survivors(compile, filters))
  }

  /** One surviving clause appended to the text. */
  method Append(compile: Compiler, kept: seq<Filter>, f: Filter, text: string, args: seq<Arg>)
    returns (text': string, args': seq<Arg>)
    requires (forall g :: g in kept ==> compile(g).Some?) && compile(f).Some? && compile(f).value.tokens != []
    requires (text, args) == PrintedOf(compile, kept)
    ensures (text', args') == PrintedOf(compile, kept + [f])
  {
    var fragment := compile(f).value;
    var condition := "(" + Spelled(fragment.tokens) + ")";
    ClauseText(fragment.tokens);
    PrintNext(compile, kept, f);
    PrintEnds(compile, kept);
    if kept != [] {
      JoinText(Print(compile, kept).tokens, Glue(f), InParens(fragment.tokens));
      text' := text + " " + Spell(Glue(f)) + " " + condition;
    } else {
      assert [] + [] + InParens(fragment.tokens) == InParens(fragment.tokens);
      text' := condition;
    }
    args' := args + fragment.args;
  }

  lemma SurvivorsNext(compile: Compiler, filters: seq<Filter>, i: nat)
    requires i < |filters|
    ensures Survivors(compile, filters[..i + 1])
      == if compile(filters[i]).None? then Survivors(compile, filters[..i])
        else Survivors(compile, filters[..i]) + [filters[i]]
  {
    assert filters[..i + 1][..i] == filters[..i];
  }

  lemma PrintedOfNone(compile: Compiler)
    ensures PrintedOf(compile, []) == ("", [])
  {
  }

  /** applyAgentFilters and its two siblings: rejected clauses are skipped, the
      others appended with their arguments. */
  method Apply(compile: Compiler, filters: seq<Filter>) returns (text: string, args: seq<Arg>)
    requires forall f :: compile(f).Some? ==> compile(f).value.tokens != []
    ensures (text, args) == Printed(compile, filters)
  {
    text, args := "", [];
    var kept: seq<Filter> := [];
    PrintedOfNone(compile);
    for i := 0 to |filters|
      invariant kept == Survivors(compile, filters[..i]) && (text, args) == PrintedOf(compile, kept)
    {
      SurvivorsNext(compile, filters, i);
      if compile(filters[i]).None? {
        continue;
      }
      text, args := Append(compile, kept, filters[i], text, args);
      kept := kept + [filters[i]];
    }
    assert filters[..|filters|] == filters;
  }
}
