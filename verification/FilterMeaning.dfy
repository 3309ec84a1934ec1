/** What a compiled condition means: the database's reading and evaluation of
    the printed text and its arguments against a direct reading of the clauses. */
module FilterMeaning {
  import opened Wrappers
  import opened Strings
  import opened FilterSql
  import opened FilterLexer
  import opened FilterCompiler
  import opened FilterClauses

  // ----- Arguments -----

  /** A fragment is one check, or two joined by OR, with as many arguments as it
      has placeholders. */
  predicate Shaped(g: Fragment) {
    && (|| (|g.tokens| == 1 && g.tokens[0].Check?)
        || (|g.tokens| == 3 && g.tokens[0].Check? && g.tokens[1] == Or && g.tokens[2].Check?))
    && Bind(g.tokens, g.args).Some?
  }

  ghost predicate WellShaped(compile: Compiler) {
    forall f :: compile(f).Some? ==> Shaped(compile(f).value)
  }

  lemma OneIsShaped(column: string, test: Test, args: seq<Arg>)
    requires |args| == if Takes(test) then 1 else 0
    ensures Shaped(One(column, test, args).value)
  {
    var t := Check(column, test);
    assert [t][1..] == [];
    if Takes(test) {
      assert args[1..] == [];
    }
  }

  lemma OrNullIsShaped(column: string, test: Test, args: seq<Arg>)
    requires |args| == if Takes(test) then 1 else 0
    ensures Shaped(OrNull(column, test, args).value)
  {
    var tokens := OrNull(column, test, args).value.tokens;
    assert tokens[1..] == [Or, Check(column, test)];
    assert tokens[1..][1..] == [Check(column, test)];
    OneIsShaped(column, test, args);
  }

  lemma TagsAreShaped(f: Filter)
    ensures TagsFragment(f).Some? ==> Shaped(TagsFragment(f).value)
  {
    var value := FirstValue(f.values);
    OneIsShaped("tags", SomeTags, []);
    OrNullIsShaped("tags", NoTags, []);
    OneIsShaped("tags", AnyTag, [Text(value)]);
    OneIsShaped("tags", NotAnyTag, [Text(value)]);
    OneIsShaped("tags", TagLike, [Wildcard(value)]);
    OneIsShaped("tags", NoTagLike, [Wildcard(value)]);
  }

  lemma TimeoutsAreShaped(f: Filter, lit: Literals)
    ensures TimeoutFragment(f, lit).Some? ==> Shaped(TimeoutFragment(f, lit).value)
  {
    var value := FirstValue(f.values);
    OneIsShaped("timeout", NotNull, []);
    OneIsShaped("timeout", IsNull, []);
    if lit.toInt(value).Some? {
      OneIsShaped("timeout", IntEq, [Number(lit.toInt(value).value)]);
      OneIsShaped("timeout", IntNe, [Number(lit.toInt(value).value)]);
    }
  }

  lemma TextsAreShaped(screen: Screen, f: Filter)
    ensures TextFragment(screen, f).Some? ==> Shaped(TextFragment(screen, f).value)
  {
    var value := FirstValue(f.values);
    var split := TextSet(LoweredValues(NonBlank(Split(value))));
    if f.op == "equal_to" {
      OneIsShaped(f.key, LowerIn, [split]);
      OneIsShaped(f.key, LowerEq, [Text(value)]);
    } else if f.op == "not_equal_to" {
      OrNullIsShaped(f.key, LowerNotIn, [split]);
      OrNullIsShaped(f.key, LowerNe, [Text(value)]);
    } else if f.op == "contains" {
      OneIsShaped(f.key, ILike, [Wildcard(value)]);
    } else {
      OrNullIsShaped(f.key, NotILike, [Wildcard(value)]);
    }
  }

  lemma DatesAreShaped(f: Filter)
    ensures DateFragment(f).Some? ==> Shaped(DateFragment(f).value)
  {
    var value := FirstValue(f.values);
    OneIsShaped("created_at", DateEq, [Text(value)]);
    OneIsShaped("created_at", DateNe, [Text(value)]);
  }

  lemma ClauseIsShaped(screen: Screen, f: Filter, lit: Literals)
    ensures Compile(screen, f, lit).Some? ==> Shaped(Compile(screen, f, lit).value)
  {
    TagsAreShaped(f);
    TimeoutsAreShaped(f, lit);
    TextsAreShaped(screen, f);
    DatesAreShaped(f);
    OneIsShaped(f.key, NotNull, []);
    OneIsShaped(f.key, IsNull, []);
  }

  /** Every screen compiles a clause to one check or two joined by OR, with an
      argument for each placeholder. */
  lemma ScreensAreShaped(screen: Screen, lit: Literals)
    ensures WellShaped(CompilerOf(screen, lit))
  {
    forall f | CompilerOf(screen, lit)(f).Some? ensures Shaped(CompilerOf(screen, lit)(f).value) {
      ClauseIsShaped(screen, f, lit);
    }
  }

  function GlueBound(f: Filter): Bound {
    if Glue(f) == Or then BOr else BAnd
  }

  /** A clause with its own arguments in place. */
  function Clause(compile: Compiler, f: Filter): seq<Bound>
    requires compile(f).Some? && Shaped(compile(f).value)
  {
    [BOpen] + Bind(compile(f).value.tokens, compile(f).value.args).value + [BClose]
  }

  predicate Kept(compile: Compiler, kept: seq<Filter>) {
    forall f :: f in kept ==> compile(f).Some? && Shaped(compile(f).value)
  }

  /** Clauses after the first, each behind its glue. */
  function Rest(compile: Compiler, kept: seq<Filter>): seq<Bound>
    requires Kept(compile, kept)
    decreases |kept|, 1
  {
    if kept == [] then [] else [GlueBound(kept[0])] + Whole(compile, kept)
  }

  /** The whole condition when every clause keeps its own arguments. */
  function Whole(compile: Compiler, kept: seq<Filter>): seq<Bound>
    requires Kept(compile, kept)
    decreases |kept|, 0
  {
    if kept == [] then [] else Clause(compile, kept[0]) + Rest(compile, kept[1..])
  }

  lemma Regroup(a: seq<Bound>, b: seq<Bound>, c: seq<Bound>, d: seq<Bound>)
    ensures a + (b + c + d) == a + b + c + d
  {
  }

  lemma KeptNext(compile: Compiler, kept: seq<Filter>, f: Filter)
    requires Kept(compile, kept) && compile(f).Some? && Shaped(compile(f).value)
    ensures Kept(compile, kept + [f])
    ensures kept != [] ==> (kept + [f])[0] == kept[0] && (kept + [f])[1..] == kept[1..] + [f]
  {
  }

  lemma WholeOne(compile: Compiler, f: Filter)
    requires compile(f).Some? && Shaped(compile(f).value)
    ensures Kept(compile, [f]) && Whole(compile, [f]) == Clause(compile, f)
  {
    assert [f][1..] == [];
    assert Clause(compile, f) + [] == Clause(compile, f);
  }

  lemma {:induction false} WholeNext(compile: Compiler, kept: seq<Filter>, f: Filter)
    requires Kept(compile, kept) && compile(f).Some? && Shaped(compile(f).value)
    ensures Kept(compile, kept + [f])
    ensures Whole(compile, kept + [f]) ==
      if kept == [] then Clause(compile, f) else Whole(compile, kept) + [GlueBound(f)] + Clause(compile, f)
  {
    KeptNext(compile, kept, f);
    if kept == [] {
      assert kept + [f] == [f];
      WholeOne(compile, f);
    } else {
      var tail := kept[1..];
      WholeNext(compile, tail, f);
      if tail == [] {
        assert tail + [f] == [f];
        assert Rest(compile, [f]) == [GlueBound(f)] + Clause(compile, f);
        assert Whole(compile, kept) == Clause(compile, kept[0]) + [];
      } else {
        Regroup([GlueBound(tail[0])], Whole(compile, tail), [GlueBound(f)], Clause(compile, f));
        Regroup(Clause(compile, kept[0]), Rest(compile, tail), [GlueBound(f)], Clause(compile, f));
      }
    }
  }

  lemma BindMark(t: Token, b: Bound)
    requires (t == Open && b == BOpen) || (t == Close && b == BClose) || (t == And && b == BAnd)
      || (t == Or && b == BOr)
    ensures Bind([t], []) == Some([b])
  {
    var tokens, none: seq<Arg> := [t], [];
    assert tokens[0] == t && tokens[1..] == [];
    assert Bind([], none) == Some([]);
    assert Bind(tokens, none) == Prepend(b, Bind(tokens[1..], none));
    assert [b] + [] == [b];
  }

  lemma BindClause(compile: Compiler, f: Filter)
    requires compile(f).Some? && Shaped(compile(f).value)
    ensures Bind(InParens(compile(f).value.tokens), compile(f).value.args) == Some(Clause(compile, f))
  {
    var g := compile(f).value;
    BindMark(Open, BOpen);
    BindMark(Close, BClose);
    BindConcat([Open], [], g.tokens, g.args);
    BindConcat([Open] + g.tokens, [] + g.args, [Close], []);
    assert [] + g.args + [] == g.args;
  }

  /** The i-th placeholder of the printed condition gets the i-th argument, which
      is the one its own clause supplied; none is left over. */
  lemma {:induction false} ArgumentsReachTheirClauses(compile: Compiler, kept: seq<Filter>)
    requires Kept(compile, kept)
    ensures Bind(Print(compile, kept).tokens, Print(compile, kept).args) == Some(Whole(compile, kept))
  {
    if kept != [] {
      var n := |kept| - 1;
      var f := kept[n];
      assert kept == kept[..n] + [f];
      ArgumentsReachTheirClauses(compile, kept[..n]);
      var before := Print(compile, kept[..n]);
      var clause := compile(f).value;
      BindClause(compile, f);
      WholeNext(compile, kept[..n], f);
      var glue := if n == 0 then [] else [Glue(f)];
      var glueBound := if n == 0 then [] else [GlueBound(f)];
      if n != 0 {
        BindMark(Glue(f), GlueBound(f));
      }
      assert Bind(glue, []) == Some(glueBound);
      BindConcat(before.tokens, before.args, glue, []);
      assert before.args + [] == before.args;
      if n == 0 {
        assert before.tokens == [] && before.args == [] && [] + [] + Clause(compile, f) == Clause(compile, f);
      }
      BindConcat(before.tokens + glue, before.args, InParens(clause.tokens), clause.args);
    }
  }

  // ----- Reading -----

  lemma BoundShape(g: Fragment)
    requires Shaped(g)
    ensures var bound := Bind(g.tokens, g.args).value;
      || (|bound| == 1 && bound[0].BCheck?)
      || (|bound| == 3 && bound[0].BCheck? && bound[1] == BOr && bound[2].BCheck?)
  {
    var used := if Takes(g.tokens[0].test) then 1 else 0;
    if |g.tokens| == 3 {
      var tail, last := g.tokens[1..], [g.tokens[2]];
      var left := g.args[used..];
      assert tail[0] == Or && tail[1..] == last;
      assert Bind(tail, left) == Prepend(BOr, Bind(last, left));
      assert last[0].Check? && last[1..] == [];
      var usedLast := if Takes(last[0].test) then 1 else 0;
      assert Bind([], left[usedLast..]).Some?;
      assert |Bind(last, left).value| == 1 && Bind(last, left).value[0].BCheck?;
    } else {
      assert g.tokens[1..] == [];
    }
  }

  /** What a clause's fragment reads as. */
  function ClauseExpr(compile: Compiler, f: Filter): Expr
    requires compile(f).Some? && Shaped(compile(f).value)
  {
    var bound := Bind(compile(f).value.tokens, compile(f).value.args).value;
    BoundShape(compile(f).value);
    if |bound| == 1 then Leaf(bound[0].column, bound[0].test, bound[0].arg)
    else Disj(Leaf(bound[0].column, bound[0].test, bound[0].arg), Leaf(bound[2].column, bound[2].test, bound[2].arg))
  }

  function LeafOf(b: Bound): Expr
    requires b.BCheck?
  {
    Leaf(b.column, b.test, b.arg)
  }

  /** A check before a closing parenthesis, at every level of the grammar. */
  lemma ReadsCheck(b: Bound, rest: seq<Bound>)
    requires b.BCheck? && rest != [] && rest[0].BClose?
    ensures ParseOr([b] + rest) == Parse(LeafOf(b), rest)
  {
    var tokens := [b] + rest;
    assert tokens[0] == b && tokens[1..] == rest;
    assert ParsePrimary(tokens) == Parse(LeafOf(b), rest);
    assert ParseAnd(tokens) == Parse(LeafOf(b), rest);
  }

  lemma ParseOrStep(tokens: seq<Bound>, left: Expr, rest: seq<Bound>, right: Expr, end: seq<Bound>)
    requires ParseAnd(tokens) == Parse(left, [BOr] + rest) && ParseOr(rest) == Parse(right, end)
    ensures ParseOr(tokens) == Parse(Disj(left, right), end)
  {
    assert ([BOr] + rest)[1..] == rest;
  }

  lemma ReadsPair(a: Bound, b: Bound, rest: seq<Bound>)
    requires a.BCheck? && b.BCheck? && rest != [] && rest[0].BClose?
    ensures ParseOr([a] + ([BOr] + ([b] + rest))) == Parse(Disj(LeafOf(a), LeafOf(b)), rest)
  {
    var later := [BOr] + ([b] + rest);
    var tokens := [a] + later;
    ReadsCheck(b, rest);
    assert tokens[0] == a && tokens[1..] == later;
    assert ParsePrimary(tokens) == Parse(LeafOf(a), later);
    assert ParseAnd(tokens) == Parse(LeafOf(a), later);
    ParseOrStep(tokens, LeafOf(a), [b] + rest, LeafOf(b), rest);
  }

  lemma ReadsParens(inner: seq<Bound>, e: Expr, rest: seq<Bound>)
    requires ParseOr(inner) == Parse(e, [BClose] + rest)
    ensures ParsePrimary([BOpen] + inner) == Parse(e, rest)
  {
    var tokens := [BOpen] + inner;
    assert tokens[0] == BOpen && tokens[1..] == inner;
    assert ([BClose] + rest)[1..] == rest;
  }

  lemma ParseClause(compile: Compiler, f: Filter, rest: seq<Bound>)
    requires compile(f).Some? && Shaped(compile(f).value)
    ensures ParsePrimary(Clause(compile, f) + rest) == Parse(ClauseExpr(compile, f), rest)
  {
    var bound := Bind(compile(f).value.tokens, compile(f).value.args).value;
    BoundShape(compile(f).value);
    var closing := [BClose] + rest;
    assert Clause(compile, f) + rest == [BOpen] + (bound + closing);
    if |bound| == 1 {
      ReadsCheck(bound[0], closing);
      assert bound + closing == [bound[0]] + closing;
    } else {
      ReadsPair(bound[0], bound[2], closing);
      assert bound + closing == [bound[0]] + ([BOr] + ([bound[2]] + closing));
    }
    ReadsParens(bound + closing, ClauseExpr(compile, f), rest);
  }

  /** How many clauses after the first are glued by AND before the next OR. */
  function AndRun(kept: seq<Filter>): (n: nat)
    ensures n <= |kept|
    ensures n < |kept| ==> Glue(kept[n]) == Or
  {
    if kept == [] || Glue(kept[0]) == Or then 0 else 1 + AndRun(kept[1..])
  }

  function ConjExpr(compile: Compiler, first: Filter, kept: seq<Filter>): Expr
    requires Kept(compile, [first]) && Kept(compile, kept)
    decreases |kept|
  {
    assert first in [first];
    if kept == [] || Glue(kept[0]) == Or then ClauseExpr(compile, first)
    else Conj(ClauseExpr(compile, first), ConjExpr(compile, kept[0], kept[1..]))
  }

  function DisjExpr(compile: Compiler, first: Filter, kept: seq<Filter>): Expr
    requires Kept(compile, [first]) && Kept(compile, kept)
    decreases |kept|
  {
    var n := AndRun(kept);
    var head := ConjExpr(compile, first, kept);
    if n == |kept| then head else Disj(head, DisjExpr(compile, kept[n], kept[n + 1..]))
  }

  lemma ParseAndStep(tokens: seq<Bound>, left: Expr, rest: seq<Bound>, right: Expr, end: seq<Bound>)
    requires ParsePrimary(tokens) == Parse(left, [BAnd] + rest) && ParseAnd(rest) == Parse(right, end)
    ensures ParseAnd(tokens) == Parse(Conj(left, right), end)
  {
    assert ([BAnd] + rest)[1..] == rest;
  }

  lemma RestSplit(compile: Compiler, kept: seq<Filter>)
    requires Kept(compile, kept) && kept != []
    ensures Rest(compile, kept) == [GlueBound(kept[0])] + Whole(compile, kept)
  {
  }

  /** A conjunction ends at the end or before an OR. */
  lemma ParseLast(compile: Compiler, kept: seq<Filter>)
    requires Kept(compile, kept) && kept != [] && (|kept| == 1 || Glue(kept[1]) == Or)
    ensures kept[0] in kept
    ensures ParseAnd(Whole(compile, kept)) == Parse(ClauseExpr(compile, kept[0]), Rest(compile, kept[1..]))
  {
    var tail := kept[1..];
    ParseClause(compile, kept[0], Rest(compile, tail));
    if tail != [] {
      RestSplit(compile, tail);
    }
  }

  lemma ParseNext(compile: Compiler, kept: seq<Filter>, right: Expr, end: seq<Bound>)
    requires Kept(compile, kept) && |kept| > 1 && Glue(kept[1]) != Or
    requires Kept(compile, kept[1..]) && ParseAnd(Whole(compile, kept[1..])) == Parse(right, end)
    ensures ParseAnd(Whole(compile, kept)) == Parse(Conj(ClauseExpr(compile, kept[0]), right), end)
  {
    var tail := kept[1..];
    ParseClause(compile, kept[0], Rest(compile, tail));
    RestSplit(compile, tail);
    ParseAndStep(Whole(compile, kept), ClauseExpr(compile, kept[0]), Whole(compile, tail), right, end);
  }

  lemma {:induction false} ParseConj(compile: Compiler, kept: seq<Filter>)
    requires Kept(compile, kept) && kept != []
    ensures var n := AndRun(kept[1..]);
      ParseAnd(Whole(compile, kept)) == Parse(ConjExpr(compile, kept[0], kept[1..]), Rest(compile, kept[1 + n..]))
    decreases |kept|
  {
    var tail := kept[1..];
    if tail == [] || Glue(tail[0]) == Or {
      ParseLast(compile, kept);
      assert kept[1 + AndRun(tail)..] == tail;
    } else {
      ParseConj(compile, tail);
      var n := AndRun(tail[1..]);
      assert kept[1 + AndRun(tail)..] == tail[1 + n..];
      ParseNext(compile, kept, ConjExpr(compile, tail[0], tail[1..]), Rest(compile, tail[1 + n..]));
    }
  }

  lemma {:induction false} ParseDisj(compile: Compiler, kept: seq<Filter>)
    requires Kept(compile, kept) && kept != []
    ensures ParseOr(Whole(compile, kept)) == Parse(DisjExpr(compile, kept[0], kept[1..]), [])
    decreases |kept|
  {
    ParseConj(compile, kept);
    var n := AndRun(kept[1..]);
    var later := kept[1 + n..];
    if later == [] {
      assert Rest(compile, later) == [];
    } else {
      assert kept[1..][n] == later[0] && kept[1..][n + 1..] == later[1..];
      RestSplit(compile, later);
      ParseDisj(compile, later);
      ParseOrStep(Whole(compile, kept), ConjExpr(compile, kept[0], kept[1..]), Whole(compile, later),
                  DisjExpr(compile, later[0], later[1..]), []);
    }
  }

  // ----- Meaning of one clause -----

  /** The values an equality on the agents screen stands for. */
  function Wanted(screen: Screen, value: string): seq<string> {
    if SplitsAsSet(screen, value) then NonBlank(Split(value)) else [value]
  }

  predicate Among(s: string, wanted: seq<string>) {
    exists i :: 0 <= i < |wanted| && Lower(wanted[i]) == Lower(s)
  }

  predicate HoldsOnTags(op: string, cell: Cell, value: string, db: Database) {
    if op == "is_present" then cell.Tags? && cell.tags != []
    else if op == "is_not_present" then cell.Null? || (cell.Tags? && cell.tags == [])
    else if op == "equal_to" then TagMatches(Elements(cell), value)
    else if op == "not_equal_to" then !TagMatches(Elements(cell), value) && !HasNullTag(Elements(cell))
    else if op == "contains" then TagIsLike(Elements(cell), "%" + value + "%", db)
    else !TagIsLike(Elements(cell), "%" + value + "%", db)
  }

  /** What a clause asks of a row, read directly. Negations keep NULL rows on
      text columns, not on dates and numbers, and a NULL tag defeats one. */
  predicate Holds(screen: Screen, f: Filter, lit: Literals, row: Row, db: Database) {
    var cell := CellOf(row, f.key);
    var value := FirstValue(f.values);
    if f.key == "tags" then HoldsOnTags(f.op, cell, value, db)
    else if f.op == "is_present" then !cell.Null?
    else if f.op == "is_not_present" then cell.Null?
    else if f.key == "timeout" then
      if f.op == "equal_to" then cell.Whole? && lit.toInt(value) == Some(cell.n)
      else cell.Whole? && lit.toInt(value) != Some(cell.n)
    else if f.key == "created_at" then
      if f.op == "equal_to" then cell.Day? && db.onDay(cell.date, value)
      else cell.Day? && !db.onDay(cell.date, value)
    else if f.op == "equal_to" then cell.Chars? && Among(cell.s, Wanted(screen, value))
    else if f.op == "not_equal_to" then cell.Null? || (cell.Chars? && !Among(cell.s, Wanted(screen, value)))
    else if f.op == "contains" then cell.Chars? && db.ilike("%" + value + "%", cell.s)
    else cell.Null? || (cell.Chars? && !db.ilike("%" + value + "%", cell.s))
  }

  /** The clause compares with a value the database can convert. */
  predicate Castable(f: Filter, lit: Literals, db: Database) {
    var value := FirstValue(f.values);
    f.op == "equal_to" || f.op == "not_equal_to" ==>
      && (f.key == "created_at" ==> db.isDate(value))
      && (f.key == "timeout" && lit.toInt(value).Some? ==> db.fits(lit.toInt(value).value))
  }

  function OptArg(args: seq<Arg>): Option<Arg> {
    if args == [] then None else Some(args[0])
  }

  lemma BindCheck(column: string, test: Test, args: seq<Arg>)
    requires |args| == if Takes(test) then 1 else 0
    ensures Bind([Check(column, test)], args) == Some([BCheck(column, test, OptArg(args))])
  {
    var tokens := [Check(column, test)];
    assert tokens[1..] == [];
    assert args[|args|..] == [];
    assert [BCheck(column, test, OptArg(args))] + [] == [BCheck(column, test, OptArg(args))];
  }

  lemma ReadsOne(compile: Compiler, f: Filter, column: string, test: Test, args: seq<Arg>)
    requires |args| == if Takes(test) then 1 else 0
    requires compile(f) == One(column, test, args)
    ensures Shaped(compile(f).value)
    ensures ClauseExpr(compile, f) == Leaf(column, test, OptArg(args))
  {
    OneIsShaped(column, test, args);
    BindCheck(column, test, args);
  }

  lemma ReadsOrNull(compile: Compiler, f: Filter, column: string, test: Test, args: seq<Arg>)
    requires |args| == if Takes(test) then 1 else 0
    requires compile(f) == OrNull(column, test, args)
    ensures Shaped(compile(f).value)
    ensures ClauseExpr(compile, f) == Disj(Leaf(column, IsNull, None), Leaf(column, test, OptArg(args)))
  {
    OrNullIsShaped(column, test, args);
    BindCheck(column, IsNull, []);
    BindMark(Or, BOr);
    BindCheck(column, test, args);
    BindConcat([Check(column, IsNull)], [], [Or], []);
    BindConcat([Check(column, IsNull)] + [Or], [], [Check(column, test)], args);
    assert [] + args == args;
    assert [Check(column, IsNull)] + [Or] + [Check(column, test)] == [Check(column, IsNull), Or, Check(column, test)];
  }

  /** What a one-check clause evaluates to. */
  lemma OneMeans(compile: Compiler, f: Filter, column: string, test: Test, args: seq<Arg>, row: Row, db: Database)
    requires |args| == if Takes(test) then 1 else 0
    requires compile(f) == One(column, test, args)
    ensures Shaped(compile(f).value)
    ensures Eval(ClauseExpr(compile, f), row, db) == EvalCheck(CellOf(row, column), test, OptArg(args), db)
    ensures Evaluable(ClauseExpr(compile, f), db) <==> Accepts(test, OptArg(args), db)
  {
    ReadsOne(compile, f, column, test, args);
  }

  /** What a clause that keeps NULL rows evaluates to. */
  lemma OrNullMeans(compile: Compiler, f: Filter, column: string, test: Test, args: seq<Arg>, row: Row, db: Database)
    requires |args| == if Takes(test) then 1 else 0
    requires compile(f) == OrNull(column, test, args)
    ensures Shaped(compile(f).value)
    ensures Eval(ClauseExpr(compile, f), row, db)
      == Or3(Decided(CellOf(row, column).Null?), EvalCheck(CellOf(row, column), test, OptArg(args), db))
    ensures Evaluable(ClauseExpr(compile, f), db) <==> Accepts(test, OptArg(args), db)
  {
    ReadsOrNull(compile, f, column, test, args);
  }

  lemma LoweredSet(s: string, wanted: seq<string>)
    ensures InSet(Lower(s), LoweredValues(wanted)) <==> Among(s, wanted)
  {
    if i :| 0 <= i < |wanted| && Lower(wanted[i]) == Lower(s) {
      assert LoweredValues(wanted)[i] == Lower(s);
    }
  }

  lemma TagsPresenceMeans(compile: Compiler, f: Filter, row: Row, db: Database)
    requires f.key == "tags" && compile(f) == TagsFragment(f) && compile(f).Some?
    requires f.op == "is_present" || f.op == "is_not_present"
    ensures Shaped(compile(f).value)
    ensures Eval(ClauseExpr(compile, f), row, db).True?
      <==> HoldsOnTags(f.op, CellOf(row, "tags"), FirstValue(f.values), db)
    ensures Evaluable(ClauseExpr(compile, f), db)
  {
    if f.op == "is_present" {
      OneMeans(compile, f, "tags", SomeTags, [], row, db);
    } else {
      OrNullMeans(compile, f, "tags", NoTags, [], row, db);
    }
  }

  lemma TagsEqualityMeans(compile: Compiler, f: Filter, row: Row, db: Database)
    requires f.key == "tags" && compile(f) == TagsFragment(f) && compile(f).Some?
    requires f.op == "equal_to" || f.op == "not_equal_to"
    ensures Shaped(compile(f).value)
    ensures Eval(ClauseExpr(compile, f), row, db).True?
      <==> HoldsOnTags(f.op, CellOf(row, "tags"), FirstValue(f.values), db)
    ensures Evaluable(ClauseExpr(compile, f), db)
  {
    var value := FirstValue(f.values);
    if f.op == "equal_to" {
      OneMeans(compile, f, "tags", AnyTag, [Text(value)], row, db);
    } else {
      OneMeans(compile, f, "tags", NotAnyTag, [Text(value)], row, db);
    }
  }

  lemma TagsContainmentMeans(compile: Compiler, f: Filter, row: Row, db: Database)
    requires f.key == "tags" && compile(f) == TagsFragment(f) && compile(f).Some?
    requires f.op == "contains" || f.op == "does_not_contain"
    ensures Shaped(compile(f).value)
    ensures Eval(ClauseExpr(compile, f), row, db).True?
      <==> HoldsOnTags(f.op, CellOf(row, "tags"), FirstValue(f.values), db)
    ensures Evaluable(ClauseExpr(compile, f), db)
  {
    var value := FirstValue(f.values);
    if f.op == "contains" {
      OneMeans(compile, f, "tags", TagLike, [Wildcard(value)], row, db);
    } else {
      OneMeans(compile, f, "tags", NoTagLike, [Wildcard(value)], row, db);
    }
  }

  lemma TagsClauseMeans(compile: Compiler, f: Filter, row: Row, db: Database)
    requires f.key == "tags" && compile(f) == TagsFragment(f) && compile(f).Some?
    ensures Shaped(compile(f).value)
    ensures Eval(ClauseExpr(compile, f), row, db).True?
      <==> HoldsOnTags(f.op, CellOf(row, "tags"), FirstValue(f.values), db)
    ensures Evaluable(ClauseExpr(compile, f), db)
  {
    if f.op == "is_present" || f.op == "is_not_present" {
      TagsPresenceMeans(compile, f, row, db);
    } else if f.op == "equal_to" || f.op == "not_equal_to" {
      TagsEqualityMeans(compile, f, row, db);
    } else {
      TagsContainmentMeans(compile, f, row, db);
    }
  }

  lemma SetEqualityMeans(compile: Compiler, f: Filter, negated: bool, values: seq<string>, row: Row, db: Database)
    requires compile(f) == if negated then OrNull(f.key, LowerNotIn, [TextSet(LoweredValues(values))])
      else One(f.key, LowerIn, [TextSet(LoweredValues(values))])
    ensures Shaped(compile(f).value)
    ensures var cell := CellOf(row, f.key);
      Eval(ClauseExpr(compile, f), row, db).True? <==>
        if negated then cell.Null? || (cell.Chars? && !Among(cell.s, values)) else cell.Chars? && Among(cell.s, values)
    ensures Evaluable(ClauseExpr(compile, f), db)
  {
    var cell := CellOf(row, f.key);
    if negated {
      OrNullMeans(compile, f, f.key, LowerNotIn, [TextSet(LoweredValues(values))], row, db);
    } else {
      OneMeans(compile, f, f.key, LowerIn, [TextSet(LoweredValues(values))], row, db);
    }
    if cell.Chars? {
      LoweredSet(cell.s, values);
    }
  }

  lemma OneEqualityMeans(compile: Compiler, f: Filter, negated: bool, value: string, row: Row, db: Database)
    requires compile(f) == if negated then OrNull(f.key, LowerNe, [Text(value)]) else One(f.key, LowerEq, [Text(value)])
    ensures Shaped(compile(f).value)
    ensures var cell := CellOf(row, f.key);
      Eval(ClauseExpr(compile, f), row, db).True? <==>
        if negated then cell.Null? || (cell.Chars? && !Among(cell.s, [value]))
          else cell.Chars? && Among(cell.s, [value])
    ensures Evaluable(ClauseExpr(compile, f), db)
  {
    var cell := CellOf(row, f.key);
    if negated {
      OrNullMeans(compile, f, f.key, LowerNe, [Text(value)], row, db);
    } else {
      OneMeans(compile, f, f.key, LowerEq, [Text(value)], row, db);
    }
    if cell.Chars? {
      assert Among(cell.s, [value]) <==> Lower([value][0]) == Lower(cell.s);
    }
  }

  lemma EqualityMeans(compile: Compiler, screen: Screen, f: Filter, row: Row, db: Database)
    requires compile(f) == TextFragment(screen, f) && (f.op == "equal_to" || f.op == "not_equal_to")
    ensures compile(f).Some? && Shaped(compile(f).value)
    ensures var cell, wanted := CellOf(row, f.key), Wanted(screen, FirstValue(f.values));
      Eval(ClauseExpr(compile, f), row, db).True? <==>
        if f.op == "equal_to" then cell.Chars? && Among(cell.s, wanted)
        else cell.Null? || (cell.Chars? && !Among(cell.s, wanted))
    ensures Evaluable(ClauseExpr(compile, f), db)
  {
    var value := FirstValue(f.values);
    if SplitsAsSet(screen, value) {
      SetEqualityMeans(compile, f, f.op != "equal_to", NonBlank(Split(value)), row, db);
    } else {
      OneEqualityMeans(compile, f, f.op != "equal_to", value, row, db);
    }
  }

  lemma ContainmentMeans(compile: Compiler, screen: Screen, f: Filter, row: Row, db: Database)
    requires compile(f) == TextFragment(screen, f) && (f.op == "contains" || f.op == "does_not_contain")
    ensures compile(f).Some? && Shaped(compile(f).value)
    ensures var cell, pattern := CellOf(row, f.key), "%" + FirstValue(f.values) + "%";
      Eval(ClauseExpr(compile, f), row, db).True? <==>
        if f.op == "contains" then cell.Chars? && db.ilike(pattern, cell.s)
        else cell.Null? || (cell.Chars? && !db.ilike(pattern, cell.s))
    ensures Evaluable(ClauseExpr(compile, f), db)
  {
    if f.op == "contains" {
      OneMeans(compile, f, f.key, ILike, [Wildcard(FirstValue(f.values))], row, db);
    } else {
      OrNullMeans(compile, f, f.key, NotILike, [Wildcard(FirstValue(f.values))], row, db);
    }
  }

  lemma TextClauseMeans(compile: Compiler, screen: Screen, f: Filter, lit: Literals, row: Row, db: Database)
    requires compile(f) == TextFragment(screen, f) && compile(f).Some?
    requires f.key !in {"tags", "timeout", "created_at"} && f.op != "is_present" && f.op != "is_not_present"
    ensures Shaped(compile(f).value)
    ensures Eval(ClauseExpr(compile, f), row, db).True? <==> Holds(screen, f, lit, row, db)
    ensures Evaluable(ClauseExpr(compile, f), db)
  {
    if f.op == "equal_to" || f.op == "not_equal_to" {
      EqualityMeans(compile, screen, f, row, db);
    } else {
      ContainmentMeans(compile, screen, f, row, db);
    }
  }

  lemma TimeoutClauseMeans(compile: Compiler, screen: Screen, f: Filter, lit: Literals, row: Row, db: Database)
    requires f.key == "timeout" && f.op != "is_present" && f.op != "is_not_present"
    requires compile(f) == TimeoutFragment(f, lit) && compile(f).Some?
    ensures Shaped(compile(f).value)
    ensures Eval(ClauseExpr(compile, f), row, db).True? <==> Holds(screen, f, lit, row, db)
    ensures Evaluable(ClauseExpr(compile, f), db) <==> Castable(f, lit, db)
  {
    var n := lit.toInt(FirstValue(f.values)).value;
    if f.op == "equal_to" {
      OneMeans(compile, f, "timeout", IntEq, [Number(n)], row, db);
    } else {
      OneMeans(compile, f, "timeout", IntNe, [Number(n)], row, db);
    }
  }

  lemma DateClauseMeans(compile: Compiler, screen: Screen, f: Filter, lit: Literals, row: Row, db: Database)
    requires f.key == "created_at" && f.op != "is_present" && f.op != "is_not_present"
    requires compile(f) == DateFragment(f) && compile(f).Some?
    ensures Shaped(compile(f).value)
    ensures Eval(ClauseExpr(compile, f), row, db).True? <==> Holds(screen, f, lit, row, db)
    ensures Evaluable(ClauseExpr(compile, f), db) <==> Castable(f, lit, db)
  {
    var value := FirstValue(f.values);
    if f.op == "equal_to" {
      OneMeans(compile, f, "created_at", DateEq, [Text(value)], row, db);
    } else {
      OneMeans(compile, f, "created_at", DateNe, [Text(value)], row, db);
    }
  }

  lemma PresenceClauseMeans(compile: Compiler, screen: Screen, f: Filter, lit: Literals, row: Row, db: Database)
    requires f.key != "tags" && (f.op == "is_present" || f.op == "is_not_present")
    requires compile(f) == One(f.key, if f.op == "is_present" then NotNull else IsNull, [])
    ensures Shaped(compile(f).value)
    ensures Eval(ClauseExpr(compile, f), row, db).True? <==> Holds(screen, f, lit, row, db)
    ensures Evaluable(ClauseExpr(compile, f), db)
  {
    OneMeans(compile, f, f.key, if f.op == "is_present" then NotNull else IsNull, [], row, db);
  }

  lemma ClauseReads(screen: Screen, f: Filter, lit: Literals, row: Row, db: Database)
    requires Compile(screen, f, lit).Some?
    ensures Shaped(CompilerOf(screen, lit)(f).value)
    ensures Eval(ClauseExpr(CompilerOf(screen, lit), f), row, db).True? <==> Holds(screen, f, lit, row, db)
    ensures Evaluable(ClauseExpr(CompilerOf(screen, lit), f), db) <==> Castable(f, lit, db)
  {
    var compile := CompilerOf(screen, lit);
    if f.key == "tags" {
      TagsClauseMeans(compile, f, row, db);
    } else if f.op == "is_present" || f.op == "is_not_present" {
      PresenceClauseMeans(compile, screen, f, lit, row, db);
    } else if f.key == "timeout" {
      TimeoutClauseMeans(compile, screen, f, lit, row, db);
    } else if f.key == "created_at" {
      DateClauseMeans(compile, screen, f, lit, row, db);
    } else {
      TextClauseMeans(compile, screen, f, lit, row, db);
    }
  }

  /** A clause's printed fragment fails exactly when it compares with a value that
      cannot be converted, and otherwise is TRUE on a row exactly when the clause
      holds: UNKNOWN never counts. */
  lemma ClauseMeans(screen: Screen, f: Filter, lit: Literals, row: Row, db: Database)
    requires Compile(screen, f, lit).Some?
    ensures Shaped(CompilerOf(screen, lit)(f).value)
    ensures Evaluated(ClauseExpr(CompilerOf(screen, lit), f), row, db)
      == if Castable(f, lit, db) then Decides(Holds(screen, f, lit, row, db)) else Error
  {
    ClauseReads(screen, f, lit, row, db);
  }

  // ----- Meaning of a list -----

  /** The clauses cut at every OR. */
  function GroupsOf(kept: seq<Filter>): (groups: seq<seq<Filter>>)
    requires kept != []
    ensures groups != []
  {
    if |kept| == 1 then [kept]
    else
      var later := GroupsOf(kept[1..]);
      if Glue(kept[1]) == Or then [[kept[0]]] + later else [[kept[0]] + later[0]] + later[1..]
  }

  predicate AllHold(group: seq<Filter>, holds: Filter -> bool) {
    forall i :: 0 <= i < |group| ==> holds(group[i])
  }

  predicate SomeGroupHolds(groups: seq<seq<Filter>>, holds: Filter -> bool) {
    exists i :: 0 <= i < |groups| && AllHold(groups[i], holds)
  }

  /** Every clause's fragment is TRUE on the row exactly when the clause holds. */
  predicate Means(compile: Compiler, kept: seq<Filter>, holds: Filter -> bool, row: Row, db: Database) {
    && Kept(compile, kept)
    && forall f :: f in kept ==> (Eval(ClauseExpr(compile, f), row, db).True? <==> holds(f))
  }

  /** The first group is the leading run of ANDs, the other groups those of what
      follows it. */
  lemma {:induction false} FirstGroup(kept: seq<Filter>)
    requires kept != []
    ensures var n := AndRun(kept[1..]);
      && GroupsOf(kept)[0] == kept[..1 + n]
      && GroupsOf(kept)[1..] == if 1 + n == |kept| then [] else GroupsOf(kept[1 + n..])
  {
    if |kept| > 1 {
      var tail := kept[1..];
      FirstGroup(tail);
      var n := AndRun(tail[1..]);
      if Glue(tail[0]) == And {
        assert kept[..2 + n] == [kept[0]] + tail[..1 + n];
        assert kept[2 + n..] == tail[1 + n..];
      } else {
        assert AndRun(tail) == 0 && kept[..1] == [kept[0]];
        assert GroupsOf(kept)[1..] == GroupsOf(tail);
      }
    } else {
      assert kept[..1] == kept;
    }
  }

  lemma AllHoldCons(f: Filter, group: seq<Filter>, holds: Filter -> bool)
    ensures AllHold([f] + group, holds) <==> holds(f) && AllHold(group, holds)
  {
    if AllHold([f] + group, holds) {
      assert holds(([f] + group)[0]);
      forall i | 0 <= i < |group| ensures holds(group[i]) {
        assert ([f] + group)[i + 1] == group[i];
      }
    }
  }

  lemma SomeGroupCons(group: seq<Filter>, groups: seq<seq<Filter>>, holds: Filter -> bool)
    ensures SomeGroupHolds([group] + groups, holds) <==> AllHold(group, holds) || SomeGroupHolds(groups, holds)
  {
    var all := [group] + groups;
    if AllHold(group, holds) {
      assert AllHold(all[0], holds);
    }
    if i :| 0 <= i < |groups| && AllHold(groups[i], holds) {
      assert AllHold(all[i + 1], holds);
    }
  }

  lemma {:induction false} ConjMeans(compile: Compiler, kept: seq<Filter>, holds: Filter -> bool, row: Row,
                                     db: Database)
    requires kept != [] && Means(compile, kept, holds, row, db)
    ensures Eval(ConjExpr(compile, kept[0], kept[1..]), row, db).True?
      <==> AllHold(kept[..1 + AndRun(kept[1..])], holds)
    decreases |kept|
  {
    var tail := kept[1..];
    var n := AndRun(tail);
    if n > 0 {
      ConjMeans(compile, tail, holds, row, db);
      assert kept[..1 + n] == [kept[0]] + tail[..n];
      AllHoldCons(kept[0], tail[..n], holds);
    } else {
      assert kept[..1] == [kept[0]] + [];
      AllHoldCons(kept[0], [], holds);
    }
  }

  lemma KeptPart(compile: Compiler, kept: seq<Filter>, i: nat)
    requires i <= |kept| && Kept(compile, kept)
    ensures Kept(compile, kept[i..])
    ensures i < |kept| ==> Kept(compile, [kept[i]])
  {
  }

  lemma DisjUnfolds(compile: Compiler, kept: seq<Filter>)
    requires kept != [] && Kept(compile, kept)
    ensures Kept(compile, [kept[0]]) && Kept(compile, kept[1..])
    ensures var n := AndRun(kept[1..]);
      DisjExpr(compile, kept[0], kept[1..]) ==
        if 1 + n == |kept| then ConjExpr(compile, kept[0], kept[1..])
        else
          var later := kept[1 + n..];
          Disj(ConjExpr(compile, kept[0], kept[1..]), DisjExpr(compile, later[0], later[1..]))
  {
    KeptPart(compile, kept, 0);
    KeptPart(compile, kept, 1);
    var n := AndRun(kept[1..]);
    if 1 + n < |kept| {
      var later := kept[1 + n..];
      KeptPart(compile, kept, 1 + n);
      KeptPart(compile, later, 1);
      assert kept[1..][n] == later[0] && kept[1..][n + 1..] == later[1..];
    }
  }

  lemma DisjIsTrue(left: Expr, right: Expr, row: Row, db: Database)
    ensures Eval(Disj(left, right), row, db).True? <==> Eval(left, row, db).True? || Eval(right, row, db).True?
  {
  }

  /** The first group, then the others. */
  lemma GroupsSplit(kept: seq<Filter>, holds: Filter -> bool)
    requires kept != []
    ensures var n := AndRun(kept[1..]);
      SomeGroupHolds(GroupsOf(kept), holds) <==>
        AllHold(kept[..1 + n], holds) || (1 + n < |kept| && SomeGroupHolds(GroupsOf(kept[1 + n..]), holds))
  {
    FirstGroup(kept);
    var groups := GroupsOf(kept);
    assert groups == [groups[0]] + groups[1..];
    SomeGroupCons(groups[0], groups[1..], holds);
  }

  lemma {:induction false} DisjMeans(compile: Compiler, kept: seq<Filter>, holds: Filter -> bool, row: Row,
                                     db: Database)
    requires kept != [] && Means(compile, kept, holds, row, db)
    ensures Eval(DisjExpr(compile, kept[0], kept[1..]), row, db).True? <==> SomeGroupHolds(GroupsOf(kept), holds)
    decreases |kept|
  {
    ConjMeans(compile, kept, holds, row, db);
    GroupsSplit(kept, holds);
    DisjUnfolds(compile, kept);
    var n := AndRun(kept[1..]);
    if 1 + n < |kept| {
      var later := kept[1 + n..];
      KeptPart(compile, kept, 1 + n);
      KeptPart(compile, later, 0);
      KeptPart(compile, later, 1);
      DisjMeans(compile, later, holds, row, db);
      DisjIsTrue(ConjExpr(compile, kept[0], kept[1..]), DisjExpr(compile, later[0], later[1..]), row, db);
    }
  }

  predicate AllEvaluable(compile: Compiler, kept: seq<Filter>, db: Database)
    requires Kept(compile, kept)
  {
    forall i :: 0 <= i < |kept| ==> Evaluable(ClauseExpr(compile, kept[i]), db)
  }

  lemma AllEvaluableSplits(compile: Compiler, kept: seq<Filter>, n: nat, db: Database)
    requires n <= |kept| && Kept(compile, kept)
    ensures Kept(compile, kept[..n]) && Kept(compile, kept[n..])
    ensures AllEvaluable(compile, kept, db)
      <==> AllEvaluable(compile, kept[..n], db) && AllEvaluable(compile, kept[n..], db)
  {
    if AllEvaluable(compile, kept[..n], db) && AllEvaluable(compile, kept[n..], db) {
      forall i | 0 <= i < |kept| ensures Evaluable(ClauseExpr(compile, kept[i]), db) {
        if i < n {
          assert kept[..n][i] == kept[i];
        } else {
          assert kept[n..][i - n] == kept[i];
        }
      }
    }
  }

  lemma AllEvaluableCons(compile: Compiler, f: Filter, group: seq<Filter>, db: Database)
    requires Kept(compile, [f]) && Kept(compile, group)
    ensures f in [f] && Kept(compile, [f] + group)
    ensures AllEvaluable(compile, [f] + group, db)
      <==> Evaluable(ClauseExpr(compile, f), db) && AllEvaluable(compile, group, db)
  {
    assert f in [f];
    AllEvaluableSplits(compile, [f] + group, 1, db);
    assert ([f] + group)[..1] == [f] && ([f] + group)[1..] == group;
  }

  lemma ConjUnfolds(compile: Compiler, kept: seq<Filter>)
    requires kept != [] && Kept(compile, kept)
    ensures Kept(compile, [kept[0]]) && Kept(compile, kept[1..])
    ensures var tail := kept[1..];
      ConjExpr(compile, kept[0], tail) ==
        if AndRun(tail) == 0 then ClauseExpr(compile, kept[0])
        else Conj(ClauseExpr(compile, kept[0]), ConjExpr(compile, tail[0], tail[1..]))
  {
    KeptPart(compile, kept, 0);
    KeptPart(compile, kept, 1);
  }

  lemma {:induction false} ConjEvaluable(compile: Compiler, kept: seq<Filter>, db: Database)
    requires kept != [] && Kept(compile, kept)
    ensures var group := kept[..1 + AndRun(kept[1..])];
      && Kept(compile, group) && Kept(compile, [kept[0]]) && Kept(compile, kept[1..])
      && (Evaluable(ConjExpr(compile, kept[0], kept[1..]), db) <==> AllEvaluable(compile, group, db))
    decreases |kept|
  {
    var tail := kept[1..];
    var n := AndRun(tail);
    ConjUnfolds(compile, kept);
    assert kept[..1 + n] == [kept[0]] + tail[..n];
    if n > 0 {
      ConjEvaluable(compile, tail, db);
      assert tail[..1 + AndRun(tail[1..])] == tail[..n];
      AllEvaluableCons(compile, kept[0], tail[..n], db);
    } else {
      assert tail[..n] == [];
      AllEvaluableCons(compile, kept[0], [], db);
    }
  }

  /** One value that cannot be converted fails the whole condition. */
  lemma {:induction false} DisjEvaluable(compile: Compiler, kept: seq<Filter>, db: Database)
    requires kept != [] && Kept(compile, kept)
    ensures Kept(compile, [kept[0]]) && Kept(compile, kept[1..])
    ensures Evaluable(DisjExpr(compile, kept[0], kept[1..]), db) <==> AllEvaluable(compile, kept, db)
    decreases |kept|
  {
    ConjEvaluable(compile, kept, db);
    DisjUnfolds(compile, kept);
    var n := AndRun(kept[1..]);
    AllEvaluableSplits(compile, kept, 1 + n, db);
    if 1 + n < |kept| {
      DisjEvaluable(compile, kept[1 + n..], db);
    } else {
      assert kept[..1 + n] == kept;
    }
  }

  // ----- From the text -----

  lemma ColumnsAreIdentifiers(screen: Screen, column: string)
    requires column in Columns(screen)
    ensures Identifier(column)
  {
  }

  lemma FixedColumnsAreIdentifiers()
    ensures Identifier("tags") && Identifier("timeout") && Identifier("created_at")
  {
  }

  predicate ReadableAll(tokens: seq<Token>) {
    forall i :: 0 <= i < |tokens| ==> Readable(tokens[i])
  }

  lemma TagsAreReadable(f: Filter)
    ensures TagsFragment(f).Some? ==> ReadableAll(TagsFragment(f).value.tokens)
  {
    FixedColumnsAreIdentifiers();
  }

  lemma TimeoutsAreReadable(f: Filter, lit: Literals)
    ensures TimeoutFragment(f, lit).Some? ==> ReadableAll(TimeoutFragment(f, lit).value.tokens)
  {
    FixedColumnsAreIdentifiers();
  }

  lemma DatesAreReadable(f: Filter)
    ensures DateFragment(f).Some? ==> ReadableAll(DateFragment(f).value.tokens)
  {
    FixedColumnsAreIdentifiers();
  }

  lemma TextsAreReadable(screen: Screen, f: Filter)
    requires Identifier(f.key)
    ensures TextFragment(screen, f).Some? ==> ReadableAll(TextFragment(screen, f).value.tokens)
  {
  }

  /** Every screen names its columns by identifiers. */
  lemma ClauseIsReadable(screen: Screen, f: Filter, lit: Literals)
    requires Compile(screen, f, lit).Some?
    ensures ReadableAll(Compile(screen, f, lit).value.tokens)
  {
    ColumnsAreIdentifiers(screen, f.key);
    if f.key == "tags" {
      TagsAreReadable(f);
    } else if f.key == "timeout" {
      TimeoutsAreReadable(f, lit);
    } else if f.key == "created_at" && f.op != "is_present" && f.op != "is_not_present" {
      DatesAreReadable(f);
    } else if f.op != "is_present" && f.op != "is_not_present" {
      TextsAreReadable(screen, f);
    }
  }

  lemma {:induction false} PrintIsReadable(compile: Compiler, kept: seq<Filter>)
    requires forall f :: f in kept ==> compile(f).Some? && ReadableAll(compile(f).value.tokens)
    ensures ReadableAll(Print(compile, kept).tokens)
  {
    if kept != [] {
      var n := |kept| - 1;
      PrintIsReadable(compile, kept[..n]);
      assert ReadableAll(compile(kept[n]).value.tokens);
    }
  }

  /** The database's reading of a text with positional arguments: its tokens, the
      arguments handed out in order, AND binding tighter than OR. */
  function ReadText(text: string, args: seq<Arg>): Parsed {
    match Lex(text)
    case None => NoParse
    case Some(tokens) =>
      match Bind(tokens, args)
      case None => NoParse
      case Some(bound) => ParseOr(bound)
  }

  /** What a statement with the text and the arguments does about a row; a text that
      is no condition is an error too. */
  function Queried(text: string, args: seq<Arg>, row: Row, db: Database): Outcome {
    var read := ReadText(text, args);
    if read.Parse? && read.rest == [] then Evaluated(read.expr, row, db) else Error
  }

  /** The text holds one placeholder per argument, and the arguments before a
      token's own are as many as the placeholders printed before it. */
  lemma PlaceholdersMatchArguments(compile: Compiler, kept: seq<Filter>)
    requires Kept(compile, kept) && forall f :: f in kept ==> ReadableAll(compile(f).value.tokens)
    ensures var (tokens, args) := (Print(compile, kept).tokens, Print(compile, kept).args);
      && Lex(Spelled(tokens)) == Some(tokens)
      && Marks(Spelled(tokens)) == |args| && |Whole(compile, kept)| == |tokens|
      && forall i :: 0 <= i < |tokens| && TakesArgument(tokens[i]) ==>
           Marks(Spelled(tokens[..i])) < |args|
           && Whole(compile, kept)[i] == BoundTo(tokens[i], Some(args[Marks(Spelled(tokens[..i]))]))
  {
    var (tokens, args) := (Print(compile, kept).tokens, Print(compile, kept).args);
    PrintIsReadable(compile, kept);
    LexInvertsSpelling(tokens);
    SpellingMarks(tokens);
    ArgumentsReachTheirClauses(compile, kept);
    BindCounts(tokens, args);
    forall i | 0 <= i < |tokens| && TakesArgument(tokens[i])
      ensures Marks(Spelled(tokens[..i])) < |args|
        && Whole(compile, kept)[i] == BoundTo(tokens[i], Some(args[Marks(Spelled(tokens[..i]))]))
    {
      SpellingMarks(tokens[..i]);
      ArgumentPosition(tokens, args, i);
    }
  }

  lemma TextMeans(compile: Compiler, kept: seq<Filter>, holds: Filter -> bool, row: Row, db: Database)
    requires kept != [] && Means(compile, kept, holds, row, db)
    requires forall f :: f in kept ==> ReadableAll(compile(f).value.tokens)
    ensures var read := ReadText(Spelled(Print(compile, kept).tokens), Print(compile, kept).args);
      && read.Parse? && read.rest == [] && (Eval(read.expr, row, db).True? <==> SomeGroupHolds(GroupsOf(kept), holds))
      && (Evaluable(read.expr, db) <==> AllEvaluable(compile, kept, db))
  {
    PrintIsReadable(compile, kept);
    LexInvertsSpelling(Print(compile, kept).tokens);
    ArgumentsReachTheirClauses(compile, kept);
    ParseDisj(compile, kept);
    DisjMeans(compile, kept, holds, row, db);
    DisjEvaluable(compile, kept, db);
  }

  lemma SurvivorsMean(screen: Screen, filters: seq<Filter>, lit: Literals, row: Row, db: Database)
    ensures Means(CompilerOf(screen, lit), Survivors(CompilerOf(screen, lit), filters),
                  f => Holds(screen, f, lit, row, db), row, db)
  {
    var kept := Survivors(CompilerOf(screen, lit), filters);
    forall f | f in kept
      ensures Shaped(CompilerOf(screen, lit)(f).value)
      ensures Eval(ClauseExpr(CompilerOf(screen, lit), f), row, db).True? <==> Holds(screen, f, lit, row, db)
    {
      ClauseReads(screen, f, lit, row, db);
    }
  }

  lemma SurvivorsAreReadable(screen: Screen, filters: seq<Filter>, lit: Literals)
    ensures forall f :: f in Survivors(CompilerOf(screen, lit), filters) ==>
      ReadableAll(CompilerOf(screen, lit)(f).value.tokens)
  {
    forall f | f in Survivors(CompilerOf(screen, lit), filters)
      ensures ReadableAll(CompilerOf(screen, lit)(f).value.tokens)
    {
      ClauseIsReadable(screen, f, lit);
    }
  }

  /** No clause compares with a value that cannot be converted. */
  predicate AllCastable(kept: seq<Filter>, lit: Literals, db: Database) {
    forall f :: f in kept ==> Castable(f, lit, db)
  }

  lemma SurvivorsEvaluable(screen: Screen, filters: seq<Filter>, lit: Literals, row: Row, db: Database)
    requires Kept(CompilerOf(screen, lit), Survivors(CompilerOf(screen, lit), filters))
    ensures AllEvaluable(CompilerOf(screen, lit), Survivors(CompilerOf(screen, lit), filters), db)
      <==> AllCastable(Survivors(CompilerOf(screen, lit), filters), lit, db)
  {
    var compile := CompilerOf(screen, lit);
    var kept := Survivors(compile, filters);
    forall f | f in kept ensures Evaluable(ClauseExpr(compile, f), db) <==> Castable(f, lit, db) {
      ClauseReads(screen, f, lit, row, db);
    }
    if AllEvaluable(compile, kept, db) {
      forall f | f in kept ensures Castable(f, lit, db) {
        var i :| 0 <= i < |kept| && kept[i] == f;
      }
    }
  }

  /** The rows a list of clauses asks for: every clause of some OR-separated group holds. */
  predicate Asked(screen: Screen, kept: seq<Filter>, lit: Literals, row: Row, db: Database)
    requires kept != []
  {
    SomeGroupHolds(GroupsOf(kept), f => Holds(screen, f, lit, row, db))
  }

  /** What a list request with these clauses should do about a row. */
  function Expected(screen: Screen, kept: seq<Filter>, lit: Literals, row: Row, db: Database): Outcome
    requires kept != []
  {
    if AllCastable(kept, lit, db) then Decides(Asked(screen, kept, lit, row, db)) else Error
  }

  /** The printed text, read from its characters with its arguments handed out by
      position and AND binding tighter than OR: it fails exactly when some surviving
      clause compares with a value that cannot be converted, and otherwise, in three
      truth values, is TRUE exactly on the rows asked for. */
  lemma ConditionMeans(screen: Screen, filters: seq<Filter>, lit: Literals, row: Row, db: Database)
    requires Survivors(CompilerOf(screen, lit), filters) != []
    ensures var (text, args) := Printed(CompilerOf(screen, lit), filters);
      && ReadText(text, args).Parse? && ReadText(text, args).rest == []
      && Marks(text) == |args|
      && Queried(text, args, row, db)
           == Expected(screen, Survivors(CompilerOf(screen, lit), filters), lit, row, db)
  {
    SurvivorsMean(screen, filters, lit, row, db);
    SurvivorsAreReadable(screen, filters, lit);
    var kept := Survivors(CompilerOf(screen, lit), filters);
    PlaceholdersMatchArguments(CompilerOf(screen, lit), kept);
    TextMeans(CompilerOf(screen, lit), kept, f => Holds(screen, f, lit, row, db), row, db);
    SurvivorsEvaluable(screen, filters, lit, row, db);
  }

  /** The tool and server screens check dates themselves, so they fail only where the
      database and the language disagree about what a date or a number is. */
  lemma CheckedScreensConvert(screen: Screen, filters: seq<Filter>, lit: Literals, kept: seq<Filter>, db: Database)
    requires !screen.Agents? && Keeps(screen, filters, lit, kept)
    requires forall value :: lit.isDate(value) ==> db.isDate(value)
    requires forall value :: lit.toInt(value).Some? ==> db.fits(lit.toInt(value).value)
    ensures AllCastable(kept, lit, db)
  {
    KeptAreSurvivors(screen, filters, lit, kept);
  }

  lemma OneClauseSurvives(compile: Compiler, f: Filter)
    ensures Survivors(compile, [f]) == if compile(f).Some? then [f] else []
  {
    assert [f][..0] == [];
    assert Survivors(compile, [f][..0]) == [];
  }

  lemma DateIsChecked(f: Filter, lit: Literals)
    requires f.key == "created_at" && f.op == "equal_to" && f.values == ["abc"] && !lit.isDate("abc")
    ensures FirstValue(f.values) == "abc"
    ensures Compile(Agents, f, lit).Some? && Compile(CustomTools, f, lit).None?
  {
  }

  /** The agents screen prints a creation date that is none, which fails the list; the
      tool screen drops the clause. */
  lemma AgentsScreenFails(lit: Literals, row: Row, db: Database)
    requires !lit.isDate("abc") && !db.isDate("abc")
    ensures var filters := [Filter("created_at", "equal_to", "and", ["abc"])];
      && Queried(Printed(CompilerOf(Agents, lit), filters).0, Printed(CompilerOf(Agents, lit), filters).1, row, db)
        == Error
      && Survivors(CompilerOf(CustomTools, lit), filters) == []
  {
    var f := Filter("created_at", "equal_to", "and", ["abc"]);
    DateIsChecked(f, lit);
    OneClauseSurvives(CompilerOf(Agents, lit), f);
    OneClauseSurvives(CompilerOf(CustomTools, lit), f);
    ConditionMeans(Agents, [f], lit, row, db);
    assert !AllCastable([f], lit, db) by {
      assert f in [f] && !Castable(f, lit, db);
    }
  }

  lemma TextIsBlank(screen: Screen, filters: seq<Filter>, lit: Literals)
    ensures Printed(CompilerOf(screen, lit), filters).0 == "" <==> Survivors(CompilerOf(screen, lit), filters) == []
  {
    var kept := Survivors(CompilerOf(screen, lit), filters);
    SurvivorsAreReadable(screen, filters, lit);
    PrintIsReadable(CompilerOf(screen, lit), kept);
    LexInvertsSpelling(Print(CompilerOf(screen, lit), kept).tokens);
    PrintEnds(CompilerOf(screen, lit), kept);
  }

  /** What a list request does: its accepted clauses print their SQL and arguments in
      order. Without any no condition is added, with them it fails or selects exactly
      the rows asked for. */
  method Where(screen: Screen, filters: seq<Filter>, lit: Literals) returns (text: string, args: seq<Arg>)
    ensures exists kept ::
      && Keeps(screen, filters, lit, kept)
      && IsCondition(screen, kept, lit, text, args)
      && (text == "" <==> kept == [])
      && (kept != [] ==> forall row, db :: Queried(text, args, row, db) == Expected(screen, kept, lit, row, db))
  {
    ScreensAreShaped(screen, lit);
    text, args := Apply(CompilerOf(screen, lit), filters);
    ghost var kept := Survivors(CompilerOf(screen, lit), filters);
    TextIsBlank(screen, filters, lit);
    KeptAreSurvivors(screen, filters, lit, kept);
    PrintedExactly(screen, filters, lit, kept);
    if kept != [] {
      forall row, db ensures Queried(text, args, row, db) == Expected(screen, kept, lit, row, db) {
        ConditionMeans(screen, filters, lit, row, db);
      }
    }
  }

  /** Rejected clauses might as well not have been sent. */
  lemma {:induction false} RejectedClausesVanish(compile: Compiler, filters: seq<Filter>)
    ensures Survivors(compile, Survivors(compile, filters)) == Survivors(compile, filters)
    ensures Printed(compile, Survivors(compile, filters)) == Printed(compile, filters)
  {
    if filters != [] {
      var n := |filters| - 1;
      var kept := Survivors(compile, filters[..n]);
      RejectedClausesVanish(compile, filters[..n]);
      if compile(filters[n]).Some? {
        assert (kept + [filters[n]])[..|kept|] == kept;
      } else {
        assert kept + [] == kept;
      }
    }
  }
}
