/** The SQL conditions the list screens print: their tokens, their text, how the
    database reads them (AND binds tighter than OR) and evaluates them (SQL's
    three truth values). */
module FilterSql {
  import opened Wrappers
  import opened Strings

  // ----- Tokens and text -----

  /** The elementary tests. Those that `Takes` an argument print one `?`. */
  datatype Test =
    | IsNull | NotNull
    | LowerEq | LowerNe | LowerIn | LowerNotIn | ILike | NotILike
    | DateEq | DateNe | IntEq | IntNe
    | SomeTags | NoTags | AnyTag | NotAnyTag | TagLike | NoTagLike

  predicate Takes(test: Test) {
    !(test.IsNull? || test.NotNull? || test.SomeTags? || test.NoTags?)
  }

  datatype Arg = Text(s: string) | TextSet(values: seq<string>) | Number(n: int)

  datatype Token = Open | Close | And | Or | Check(column: string, test: Test)

  function Spell(t: Token): string {
    match t
    case Open => "("
    case Close => ")"
    case And => "AND"
    case Or => "OR"
    case Check(column, test) =>
      match test
      case IsNull => column + " IS NULL"
      case NotNull => column + " IS NOT NULL"
      case LowerEq => "LOWER(" + column + ") = LOWER(?)"
      case LowerNe => "LOWER(" + column + ") <> LOWER(?)"
      case LowerIn => "LOWER(" + column + ") IN (?)"
      case LowerNotIn => "LOWER(" + column + ") NOT IN (?)"
      case ILike => column + " ILIKE ?"
      case NotILike => column + " NOT ILIKE ?"
      case DateEq => "DATE(" + column + ") = ?"
      case DateNe => "DATE(" + column + ") <> ?"
      case IntEq => column + " = ?"
      case IntNe => column + " <> ?"
      case SomeTags => "cardinality(" + column + ") > 0"
      case NoTags => "cardinality(" + column + ") = 0"
      case AnyTag => "LOWER(?) = ANY(SELECT LOWER(t) FROM unnest(" + column + ") AS t)"
      case NotAnyTag => "NOT (" + "LOWER(?) = ANY(SELECT LOWER(t) FROM unnest(" + column + ") AS t))"
      case TagLike => "EXISTS (SELECT 1 FROM unnest(" + column + ") AS tag WHERE tag ILIKE ?)"
      case NoTagLike => "NOT " + "EXISTS (SELECT 1 FROM unnest(" + column + ") AS tag WHERE tag ILIKE ?)"
  }

  /** Between two tokens: a space, except inside a parenthesis. */
  function Gap(left: Token, right: Token): string {
    if left.Open? || right.Close? then "" else " "
  }

  /** Tokens written one after the other, each as `spell` writes it. */
  function Written(spell: Token -> string, tokens: seq<Token>): string {
    if tokens == [] then ""
    else if |tokens| == 1 then spell(tokens[0])
    else spell(tokens[0]) + Gap(tokens[0], tokens[1]) + Written(spell, tokens[1..])
  }

  function Spelled(tokens: seq<Token>): string {
    Written(Spell, tokens)
  }

  lemma ConcatRegroups(a: string, b: string, c: string, d: string)
    ensures a + (b + c + d) == (a + b) + c + d
  {
  }

  lemma WrittenCons(spell: Token -> string, head: Token, tail: seq<Token>)
    requires tail != []
    ensures Written(spell, [head] + tail) == spell(head) + Gap(head, tail[0]) + Written(spell, tail)
  {
    assert ([head] + tail)[1..] == tail;
  }

  lemma {:induction false} WrittenConcat(spell: Token -> string, left: seq<Token>, right: seq<Token>)
    requires left != [] && right != []
    ensures Written(spell, left + right)
      == Written(spell, left) + Gap(left[|left| - 1], right[0]) + Written(spell, right)
  {
    var head, tail := left[0], left[1..];
    if tail == [] {
      assert left == [head];
      WrittenCons(spell, head, right);
    } else {
      assert left == [head] + tail && left + right == [head] + (tail + right);
      WrittenConcat(spell, tail, right);
      WrittenCons(spell, head, tail + right);
      WrittenCons(spell, head, tail);
      ConcatRegroups(spell(head) + Gap(head, tail[0]), Written(spell, tail), Gap(left[|left| - 1], right[0]),
        Written(spell, right));
    }
  }

  lemma SpelledConcat(left: seq<Token>, right: seq<Token>)
    requires left != [] && right != []
    ensures Spelled(left + right) == Spelled(left) + Gap(left[|left| - 1], right[0]) + Spelled(right)
  {
    WrittenConcat(Spell, left, right);
  }

  // ----- Positional arguments -----

  datatype Bound = BOpen | BClose | BAnd | BOr | BCheck(column: string, test: Test, arg: Option<Arg>)

  predicate TakesArgument(t: Token) {
    t.Check? && Takes(t.test)
  }

  function BoundTo(t: Token, arg: Option<Arg>): Bound {
    match t
    case Open => BOpen
    case Close => BClose
    case And => BAnd
    case Or => BOr
    case Check(column, test) => BCheck(column, test, arg)
  }

  function Prepend(b: Bound, rest: Option<seq<Bound>>): Option<seq<Bound>> {
    if rest.Some? then Some([b] + rest.value) else None
  }

  /** Handing the arguments out: the i-th placeholder takes the i-th argument.
      None when their numbers differ. */
  function Bind(tokens: seq<Token>, args: seq<Arg>): Option<seq<Bound>> {
    if tokens == [] then (if args == [] then Some([]) else None)
    else if !TakesArgument(tokens[0]) then Prepend(BoundTo(tokens[0], None), Bind(tokens[1..], args))
    else if args == [] then None
    else Prepend(BoundTo(tokens[0], Some(args[0])), Bind(tokens[1..], args[1..]))
  }

  lemma PrependConcat(b: Bound, left: seq<Bound>, right: seq<Bound>)
    ensures Prepend(b, Some(left + right)) == Some([b] + left + right)
  {
    assert [b] + (left + right) == [b] + left + right;
  }

  lemma {:induction false} BindConcat(left: seq<Token>, leftArgs: seq<Arg>, right: seq<Token>, rightArgs: seq<Arg>)
    requires Bind(left, leftArgs).Some? && Bind(right, rightArgs).Some?
    ensures Bind(left + right, leftArgs + rightArgs)
      == Some(Bind(left, leftArgs).value + Bind(right, rightArgs).value)
  {
    if left == [] {
      assert left + right == right && leftArgs + rightArgs == rightArgs;
      assert Bind(left, leftArgs).value + Bind(right, rightArgs).value == Bind(right, rightArgs).value;
    } else {
      assert (left + right)[0] == left[0] && (left + right)[1..] == left[1..] + right;
      if TakesArgument(left[0]) {
        assert (leftArgs + rightArgs)[0] == leftArgs[0] && (leftArgs + rightArgs)[1..] == leftArgs[1..] + rightArgs;
        BindConcat(left[1..], leftArgs[1..], right, rightArgs);
        PrependConcat(BoundTo(left[0], Some(leftArgs[0])), Bind(left[1..], leftArgs[1..]).value,
          Bind(right, rightArgs).value);
      } else {
        BindConcat(left[1..], leftArgs, right, rightArgs);
        PrependConcat(BoundTo(left[0], None), Bind(left[1..], leftArgs).value, Bind(right, rightArgs).value);
      }
    }
  }

  // ----- Reading -----

  datatype Expr = Leaf(column: string, test: Test, arg: Option<Arg>) | Conj(left: Expr, right: Expr)
    | Disj(left: Expr, right: Expr)

  datatype Parsed = NoParse | Parse(expr: Expr, rest: seq<Bound>)

  /** expression := conjunction { OR conjunction } */
  function ParseOr(tokens: seq<Bound>): (p: Parsed)
    ensures p.Parse? ==> |p.rest| < |tokens|
    decreases |tokens|, 2
  {
    match ParseAnd(tokens)
    case NoParse => NoParse
    case Parse(left, rest) =>
      if rest == [] || !rest[0].BOr? then Parse(left, rest)
      else
        match ParseOr(rest[1..])
        case NoParse => NoParse
        case Parse(right, rest') => Parse(Disj(left, right), rest')
  }

  /** conjunction := primary { AND primary } */
  function ParseAnd(tokens: seq<Bound>): (p: Parsed)
    ensures p.Parse? ==> |p.rest| < |tokens|
    decreases |tokens|, 1
  {
    match ParsePrimary(tokens)
    case NoParse => NoParse
    case Parse(left, rest) =>
      if rest == [] || !rest[0].BAnd? then Parse(left, rest)
      else
        match ParseAnd(rest[1..])
        case NoParse => NoParse
        case Parse(right, rest') => Parse(Conj(left, right), rest')
  }

  /** primary := check | ( expression ) */
  function ParsePrimary(tokens: seq<Bound>): (p: Parsed)
    ensures p.Parse? ==> |p.rest| < |tokens|
    decreases |tokens|, 0
  {
    if tokens == [] then NoParse
    else
      match tokens[0]
      case BCheck(column, test, arg) => Parse(Leaf(column, test, arg), tokens[1..])
      case BOpen =>
        (match ParseOr(tokens[1..])
         case NoParse => NoParse
         case Parse(inner, rest) => if rest == [] || !rest[0].BClose? then NoParse else Parse(inner, rest[1..]))
      case _ => NoParse
  }

  // ----- Evaluation -----

  datatype Truth = True | False | Unknown

  function And3(a: Truth, b: Truth): Truth {
    if a.False? || b.False? then False else if a.True? && b.True? then True else Unknown
  }

  function Or3(a: Truth, b: Truth): Truth {
    if a.True? || b.True? then True else if a.False? && b.False? then False else Unknown
  }

  function Not3(a: Truth): Truth {
    if a.True? then False else if a.False? then True else Unknown
  }

  function Decided(b: bool): Truth {
    if b then True else False
  }

  /** A column's value in a row; array elements may be NULL too. */
  datatype Cell = Null | Chars(s: string) | Whole(n: int) | Day(date: string) | Tags(tags: seq<Option<string>>)

  type Row = map<string, Cell>

  /** What is left to the database and its driver: ILIKE of a pattern against a text,
      which texts cast to a date and whether a timestamp's day is that date, and which
      numbers an integer column can be compared with. */
  datatype Database = Database(
    ilike: (string, string) -> bool, isDate: string -> bool, onDay: (string, string) -> bool, fits: int -> bool)

  function CellOf(row: Row, column: string): Cell {
    if column in row then row[column] else Null
  }

  predicate TagMatches(tags: seq<Option<string>>, value: string) {
    exists i :: 0 <= i < |tags| && tags[i].Some? && Lower(tags[i].value) == Lower(value)
  }

  predicate HasNullTag(tags: seq<Option<string>>) {
    exists i :: 0 <= i < |tags| && tags[i].None?
  }

  predicate TagIsLike(tags: seq<Option<string>>, pattern: string, db: Database) {
    exists i :: 0 <= i < |tags| && tags[i].Some? && db.ilike(pattern, tags[i].value)
  }

  /** value = ANY(array): a NULL element makes a miss unknown. */
  function AnyOf(tags: seq<Option<string>>, value: string): Truth {
    if TagMatches(tags, value) then True else if HasNullTag(tags) then Unknown else False
  }

  /** unnest of NULL is no rows. */
  function Elements(cell: Cell): seq<Option<string>> {
    if cell.Tags? then cell.tags else []
  }

  function InSet(s: string, values: seq<string>): bool {
    exists i :: 0 <= i < |values| && values[i] == s
  }

  /** A comparison with NULL, or of the wrong type, is unknown. */
  function EvalCheck(cell: Cell, test: Test, arg: Option<Arg>, db: Database): Truth {
    match test
    case IsNull => Decided(cell.Null?)
    case NotNull => Decided(!cell.Null?)
    case LowerEq => if cell.Chars? && arg.Some? && arg.value.Text? then Decided(Lower(cell.s) == Lower(arg.value.s))
      else Unknown
    case LowerNe => if cell.Chars? && arg.Some? && arg.value.Text? then Decided(Lower(cell.s) != Lower(arg.value.s))
      else Unknown
    case LowerIn => if cell.Chars? && arg.Some? && arg.value.TextSet?
      then Decided(InSet(Lower(cell.s), arg.value.values)) else Unknown
    case LowerNotIn => if cell.Chars? && arg.Some? && arg.value.TextSet?
      then Decided(!InSet(Lower(cell.s), arg.value.values)) else Unknown
    case ILike => if cell.Chars? && arg.Some? && arg.value.Text? then Decided(db.ilike(arg.value.s, cell.s))
      else Unknown
    case NotILike => if cell.Chars? && arg.Some? && arg.value.Text? then Decided(!db.ilike(arg.value.s, cell.s))
      else Unknown
    case DateEq => if cell.Day? && arg.Some? && arg.value.Text? then Decided(db.onDay(cell.date, arg.value.s))
      else Unknown
    case DateNe => if cell.Day? && arg.Some? && arg.value.Text? then Decided(!db.onDay(cell.date, arg.value.s))
      else Unknown
    case IntEq => if cell.Whole? && arg.Some? && arg.value.Number? then Decided(cell.n == arg.value.n) else Unknown
    case IntNe => if cell.Whole? && arg.Some? && arg.value.Number? then Decided(cell.n != arg.value.n) else Unknown
    case SomeTags => if cell.Tags? then Decided(|cell.tags| > 0) else Unknown
    case NoTags => if cell.Tags? then Decided(|cell.tags| == 0) else Unknown
    case AnyTag => if arg.Some? && arg.value.Text? then AnyOf(Elements(cell), arg.value.s) else Unknown
    case NotAnyTag => if arg.Some? && arg.value.Text? then Not3(AnyOf(Elements(cell), arg.value.s)) else Unknown
    case TagLike => if arg.Some? && arg.value.Text? then Decided(TagIsLike(Elements(cell), arg.value.s, db))
      else Unknown
    case NoTagLike => if arg.Some? && arg.value.Text? then Decided(!TagIsLike(Elements(cell), arg.value.s, db))
      else Unknown
  }

  /** An argument the database cannot convert to what it is compared with fails the
      whole statement, whatever the rows hold. */
  predicate Accepts(test: Test, arg: Option<Arg>, db: Database) {
    match test
    case DateEq => arg.Some? && arg.value.Text? ==> db.isDate(arg.value.s)
    case DateNe => arg.Some? && arg.value.Text? ==> db.isDate(arg.value.s)
    case IntEq => arg.Some? && arg.value.Number? ==> db.fits(arg.value.n)
    case IntNe => arg.Some? && arg.value.Number? ==> db.fits(arg.value.n)
    case _ => true
  }

  predicate Evaluable(e: Expr, db: Database) {
    match e
    case Leaf(_, test, arg) => Accepts(test, arg, db)
    case Conj(left, right) => Evaluable(left, db) && Evaluable(right, db)
    case Disj(left, right) => Evaluable(left, db) && Evaluable(right, db)
  }

  function Eval(e: Expr, row: Row, db: Database): Truth {
    match e
    case Leaf(column, test, arg) => EvalCheck(CellOf(row, column), test, arg, db)
    case Conj(left, right) => And3(Eval(left, row, db), Eval(right, row, db))
    case Disj(left, right) => Or3(Eval(left, row, db), Eval(right, row, db))
  }

  /** What a statement with the condition does about a row. */
  datatype Outcome = Error | Decides(selected: bool)

  function Evaluated(e: Expr, row: Row, db: Database): Outcome {
    if Evaluable(e, db) then Decides(Eval(e, row, db).True?) else Error
  }
}
