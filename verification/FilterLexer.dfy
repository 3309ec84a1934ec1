/** Reading a printed condition back from its characters. The phrases here are the
    reader's own: they say what the database takes each piece of SQL to be. */
module FilterLexer {
  import opened Wrappers
  import opened FilterSql

  // ----- Reading -----

  predicate Starts(text: string, phrase: string) {
    |phrase| <= |text| && text[..|phrase|] == phrase
  }

  /** Column names: lower-case letters and underscores. */
  predicate WordChar(c: char) {
    'a' <= c <= 'z' || c == '_'
  }

  predicate Identifier(column: string) {
    column != "" && forall i :: 0 <= i < |column| ==> WordChar(column[i])
  }

  /** The longest run of word characters in front. */
  function Word(text: string): (word: string)
    ensures |word| <= |text|
  {
    if text == "" || !WordChar(text[0]) then "" else [text[0]] + Word(text[1..])
  }

  /** What stands around the column a check looks at. */
  datatype Frame = Bare | Lowered | Dated | Counted | AnyElement | NoElement | LikeElement | NoLikeElement

  const ANY_ELEMENT: string := "LOWER(?) = ANY(SELECT LOWER(t) FROM unnest("
  const NO_ELEMENT: string := "NOT (" + ANY_ELEMENT
  const LIKE_ELEMENT: string := "EXISTS (SELECT 1 FROM unnest("
  const NO_LIKE_ELEMENT: string := "NOT " + LIKE_ELEMENT

  function Opening(f: Frame): string {
    match f
    case Bare => ""
    case Lowered => "LOWER("
    case Dated => "DATE("
    case Counted => "cardinality("
    case AnyElement => ANY_ELEMENT
    case NoElement => NO_ELEMENT
    case LikeElement => LIKE_ELEMENT
    case NoLikeElement => NO_LIKE_ELEMENT
  }

  function ReadFrame(text: string): (f: Frame)
    ensures Starts(text, Opening(f))
  {
    if Starts(text, ANY_ELEMENT) then AnyElement
    else if Starts(text, "LOWER(") then Lowered
    else if Starts(text, "DATE(") then Dated
    else if Starts(text, "cardinality(") then Counted
    else if Starts(text, NO_ELEMENT) then NoElement
    else if Starts(text, NO_LIKE_ELEMENT) then NoLikeElement
    else if Starts(text, LIKE_ELEMENT) then LikeElement
    else Bare
  }

  /** The test a phrase behind the column makes, with the length of the phrase. */
  function ReadTest(f: Frame, text: string): Option<(Test, nat)> {
    match f
    case Bare =>
      if Starts(text, " IS NULL") then Some((IsNull, 8))
      else if Starts(text, " IS NOT NULL") then Some((NotNull, 12))
      else if Starts(text, " ILIKE ?") then Some((ILike, 8))
      else if Starts(text, " NOT ILIKE ?") then Some((NotILike, 12))
      else if Starts(text, " = ?") then Some((IntEq, 4))
      else if Starts(text, " <> ?") then Some((IntNe, 5))
      else None
    case Lowered =>
      if Starts(text, ") = LOWER(?)") then Some((LowerEq, 12))
      else if Starts(text, ") <> LOWER(?)") then Some((LowerNe, 13))
      else if Starts(text, ") IN (?)") then Some((LowerIn, 8))
      else if Starts(text, ") NOT IN (?)") then Some((LowerNotIn, 12))
      else None
    case Dated =>
      if Starts(text, ") = ?") then Some((DateEq, 5))
      else if Starts(text, ") <> ?") then Some((DateNe, 6))
      else None
    case Counted =>
      if Starts(text, ") > 0") then Some((SomeTags, 5))
      else if Starts(text, ") = 0") then Some((NoTags, 5))
      else None
    case AnyElement => if Starts(text, ") AS t)") then Some((AnyTag, 7)) else None
    case NoElement => if Starts(text, ") AS t))") then Some((NotAnyTag, 8)) else None
    case LikeElement => if Starts(text, ") AS tag WHERE tag ILIKE ?)") then Some((TagLike, 27)) else None
    case NoLikeElement => if Starts(text, ") AS tag WHERE tag ILIKE ?)") then Some((NoTagLike, 27)) else None
  }

  function ReadCheck(text: string): (read: Option<(Token, string)>)
    ensures read.Some? ==> |read.value.1| < |text|
  {
    var f := ReadFrame(text);
    var inner := text[|Opening(f)|..];
    var column := Word(inner);
    var behind := inner[|column|..];
    match ReadTest(f, behind)
    case None => None
    case Some((test, length)) =>
      if column == "" || length > |behind| then None else Some((Check(column, test), behind[length..]))
  }

  function ReadToken(text: string): (read: Option<(Token, string)>)
    ensures read.Some? ==> |read.value.1| < |text|
  {
    if Starts(text, "(") then Some((Open, text[1..]))
    else if Starts(text, ")") then Some((Close, text[1..]))
    else if Starts(text, "AND") then Some((And, text[3..]))
    else if Starts(text, "OR") then Some((Or, text[2..]))
    else ReadCheck(text)
  }

  /** The tokens of a text; None when some of it is no known phrase. */
  function Lex(text: string): Option<seq<Token>>
    decreases |text|
  {
    if text == "" then Some([])
    else if text[0] == ' ' then Lex(text[1..])
    else
      match ReadToken(text)
      case None => None
      case Some((t, rest)) =>
        match Lex(rest)
        case None => None
        case Some(tokens) => Some([t] + tokens)
  }

  // ----- Printing, then reading -----

  lemma StartsWithItself(phrase: string, rest: string)
    ensures Starts(phrase + rest, phrase) && (phrase + rest)[|phrase|..] == rest
  {
  }

  lemma Differs(text: string, phrase: string, i: nat)
    requires i < |phrase| && (i < |text| ==> text[i] != phrase[i])
    ensures !Starts(text, phrase)
  {
    assert |phrase| <= |text| ==> text[..|phrase|][i] == text[i];
  }

  lemma CharOf(phrase: string, rest: string, i: nat)
    requires i < |phrase|
    ensures (phrase + rest)[i] == phrase[i]
  {
  }

  lemma {:induction false} WordOfColumn(column: string, rest: string)
    requires forall i :: 0 <= i < |column| ==> WordChar(column[i])
    requires rest == "" || !WordChar(rest[0])
    ensures Word(column + rest) == column
  {
    if column == "" {
      assert column + rest == rest;
    } else {
      assert (column + rest)[1..] == column[1..] + rest;
      WordOfColumn(column[1..], rest);
    }
  }

  /** The frame a test is printed in, and what is printed behind the column. */
  function FrameOf(test: Test): Frame {
    match test
    case LowerEq => Lowered
    case LowerNe => Lowered
    case LowerIn => Lowered
    case LowerNotIn => Lowered
    case DateEq => Dated
    case DateNe => Dated
    case SomeTags => Counted
    case NoTags => Counted
    case AnyTag => AnyElement
    case NotAnyTag => NoElement
    case TagLike => LikeElement
    case NoTagLike => NoLikeElement
    case _ => Bare
  }

  function Behind(test: Test): string {
    match test
    case IsNull => " IS NULL"
    case NotNull => " IS NOT NULL"
    case LowerEq => ") = LOWER(?)"
    case LowerNe => ") <> LOWER(?)"
    case LowerIn => ") IN (?)"
    case LowerNotIn => ") NOT IN (?)"
    case ILike => " ILIKE ?"
    case NotILike => " NOT ILIKE ?"
    case DateEq => ") = ?"
    case DateNe => ") <> ?"
    case IntEq => " = ?"
    case IntNe => " <> ?"
    case SomeTags => ") > 0"
    case NoTags => ") = 0"
    case AnyTag => ") AS t)"
    case NotAnyTag => ") AS t))"
    case TagLike => ") AS tag WHERE tag ILIKE ?)"
    case NoTagLike => ") AS tag WHERE tag ILIKE ?)"
  }

  lemma SpellCheck(column: string, test: Test)
    ensures Spell(Check(column, test)) == Opening(FrameOf(test)) + column + Behind(test)
  {
    match FrameOf(test) {
      case Bare => assert "" + column == column;
      case _ =>
    }
  }

  lemma ReadsTest(test: Test, rest: string)
    ensures ReadTest(FrameOf(test), Behind(test) + rest) == Some((test, |Behind(test)|))
  {
    StartsWithItself(Behind(test), rest);
    var text := Behind(test) + rest;
    match test {
      case NotNull => Differs(text, " IS NULL", 5);
      case ILike =>
        Differs(text, " IS NULL", 2);
        Differs(text, " IS NOT NULL", 2);
      case NotILike =>
        Differs(text, " IS NULL", 1);
        Differs(text, " IS NOT NULL", 1);
        Differs(text, " ILIKE ?", 1);
      case IntEq =>
        Differs(text, " IS NULL", 1);
        Differs(text, " IS NOT NULL", 1);
        Differs(text, " ILIKE ?", 1);
        Differs(text, " NOT ILIKE ?", 1);
      case IntNe =>
        Differs(text, " IS NULL", 1);
        Differs(text, " IS NOT NULL", 1);
        Differs(text, " ILIKE ?", 1);
        Differs(text, " NOT ILIKE ?", 1);
        Differs(text, " = ?", 1);
      case LowerNe => Differs(text, ") = LOWER(?)", 2);
      case LowerIn =>
        Differs(text, ") = LOWER(?)", 2);
        Differs(text, ") <> LOWER(?)", 2);
      case LowerNotIn =>
        Differs(text, ") = LOWER(?)", 2);
        Differs(text, ") <> LOWER(?)", 2);
        Differs(text, ") IN (?)", 2);
      case DateNe => Differs(text, ") = ?", 2);
      case NoTags => Differs(text, ") > 0", 2);
      case _ =>
    }
  }

  lemma Uppercase(text: string)
    requires text != "" && (text[0] == 'N' || text[0] == 'E')
    ensures !Starts(text, ANY_ELEMENT) && !Starts(text, "LOWER(") && !Starts(text, "DATE(")
      && !Starts(text, "cardinality(")
  {
    Differs(text, ANY_ELEMENT, 0);
    Differs(text, "LOWER(", 0);
    Differs(text, "DATE(", 0);
    Differs(text, "cardinality(", 0);
  }

  lemma SpacelessCounted(i: nat)
    requires i < 12
    ensures "cardinality("[i] != ' '
  {
  }

  lemma BareFrame(column: string, rest: string)
    requires Identifier(column) && rest != "" && rest[0] == ' '
    ensures ReadFrame(column + rest) == Bare
  {
    var text := column + rest;
    assert text[0] == column[0] && WordChar(text[0]);
    Differs(text, ANY_ELEMENT, 0);
    Differs(text, "LOWER(", 0);
    Differs(text, "DATE(", 0);
    Differs(text, NO_ELEMENT, 0);
    Differs(text, NO_LIKE_ELEMENT, 0);
    Differs(text, LIKE_ELEMENT, 0);
    if |column| <= 11 {
      SpacelessCounted(|column|);
      Differs(text, "cardinality(", |column|);
    } else {
      assert text[11] == column[11] && WordChar(text[11]);
      Differs(text, "cardinality(", 11);
    }
  }

  /** A column is no opening phrase, and an opening phrase is only itself. */
  lemma ReadsFrame(test: Test, column: string, rest: string)
    requires Identifier(column) && rest != "" && (rest[0] == ' ' || rest[0] == ')')
    requires FrameOf(test).Bare? ==> rest[0] == ' '
    ensures ReadFrame(Opening(FrameOf(test)) + (column + rest)) == FrameOf(test)
  {
    var f := FrameOf(test);
    var text := Opening(f) + (column + rest);
    StartsWithItself(Opening(f), column + rest);
    match f {
      case Bare =>
        assert text == column + rest;
        BareFrame(column, rest);
      case Lowered =>
        assert text[6] == column[0] && WordChar(column[0]);
        Differs(text, ANY_ELEMENT, 6);
      case Dated =>
        CharOf("DATE(", column + rest, 0);
        Differs(text, ANY_ELEMENT, 0);
        Differs(text, "LOWER(", 0);
      case Counted =>
        CharOf("cardinality(", column + rest, 0);
        Differs(text, ANY_ELEMENT, 0);
        Differs(text, "LOWER(", 0);
        Differs(text, "DATE(", 0);
      case AnyElement =>
      case NoElement =>
        CharOf(Opening(f), column + rest, 0);
        Uppercase(text);
      case LikeElement =>
        CharOf(Opening(f), column + rest, 0);
        Uppercase(text);
        Differs(text, NO_ELEMENT, 0);
        Differs(text, NO_LIKE_ELEMENT, 0);
      case NoLikeElement =>
        CharOf(NO_LIKE_ELEMENT, column + rest, 0);
        CharOf(NO_LIKE_ELEMENT, column + rest, 4);
        Uppercase(text);
        Differs(text, NO_ELEMENT, 4);
    }
  }

  lemma BehindStarts(test: Test)
    ensures Behind(test) != "" && Behind(test)[0] == if FrameOf(test).Bare? then ' ' else ')'
  {
  }

  lemma ReadsCheck(column: string, test: Test, rest: string)
    requires Identifier(column)
    ensures ReadCheck(Opening(FrameOf(test)) + (column + (Behind(test) + rest))) == Some((Check(column, test), rest))
  {
    var f, behind := FrameOf(test), Behind(test) + rest;
    BehindStarts(test);
    CharOf(Behind(test), rest, 0);
    ReadsFrame(test, column, behind);
    StartsWithItself(Opening(f), column + behind);
    WordOfColumn(column, behind);
    StartsWithItself(column, behind);
    ReadsTest(test, rest);
    StartsWithItself(Behind(test), rest);
  }

  lemma Regroup(a: string, b: string, c: string, d: string)
    ensures a + b + c + d == a + (b + (c + d))
  {
  }

  lemma CheckText(column: string, test: Test, rest: string)
    ensures Spell(Check(column, test)) + rest == Opening(FrameOf(test)) + (column + (Behind(test) + rest))
  {
    SpellCheck(column, test);
    Regroup(Opening(FrameOf(test)), column, Behind(test), rest);
  }

  predicate Readable(t: Token) {
    t.Check? ==> Identifier(t.column)
  }

  lemma OpeningStarts(f: Frame)
    requires !f.Bare?
    ensures Opening(f) != "" && Opening(f)[0] !in {' ', '(', ')', 'A', 'O'}
  {
  }

  lemma CheckStarts(column: string, test: Test)
    requires Identifier(column)
    ensures var s := Spell(Check(column, test));
      s != "" && s[0] !in {' ', '(', ')', 'A', 'O'}
  {
    SpellCheck(column, test);
    var f := FrameOf(test);
    if f.Bare? {
      assert Opening(f) + column + Behind(test) == column + Behind(test);
      assert WordChar(column[0]);
    } else {
      OpeningStarts(f);
    }
  }

  lemma ReadsToken(t: Token, rest: string)
    requires Readable(t)
    ensures ReadToken(Spell(t) + rest) == Some((t, rest))
    ensures Spell(t) != "" && Spell(t)[0] != ' '
  {
    var text := Spell(t) + rest;
    StartsWithItself(Spell(t), rest);
    match t {
      case Open =>
      case Close => Differs(text, "(", 0);
      case And =>
        Differs(text, "(", 0);
        Differs(text, ")", 0);
      case Or =>
        Differs(text, "(", 0);
        Differs(text, ")", 0);
        Differs(text, "AND", 0);
      case Check(column, test) =>
        CheckStarts(column, test);
        assert text[0] == Spell(t)[0];
        Differs(text, "(", 0);
        Differs(text, ")", 0);
        Differs(text, "AND", 0);
        Differs(text, "OR", 0);
        CheckText(column, test, rest);
        ReadsCheck(column, test, rest);
    }
  }

  lemma GapIsSkipped(gap: string, text: string)
    requires gap == "" || gap == " "
    ensures Lex(gap + text) == Lex(text)
  {
    if gap == "" {
      assert gap + text == text;
    } else {
      assert (gap + text)[1..] == text;
    }
  }

  /** What is printed is read back, token by token. */
  lemma {:induction false} LexInvertsSpelling(tokens: seq<Token>)
    requires forall i :: 0 <= i < |tokens| ==> Readable(tokens[i])
    ensures Lex(Spelled(tokens)) == Some(tokens)
  {
    if tokens != [] {
      var t, later := tokens[0], tokens[1..];
      LexInvertsSpelling(later);
      var gap := if later == [] then "" else Gap(t, later[0]);
      var rest := gap + Spelled(later);
      assert Spelled(tokens) == Spell(t) + rest;
      ReadsToken(t, rest);
      GapIsSkipped(gap, Spelled(later));
      assert Lex(Spell(t) + rest) == Some([t] + later);
      assert [t] + later == tokens;
    }
  }

  // ----- Placeholders -----

  /** How many placeholders the first `n` characters hold. */
  function MarksTo(text: string, n: nat): nat
    requires n <= |text|
  {
    if n == 0 then 0 else MarksTo(text, n - 1) + if text[n - 1] == '?' then 1 else 0
  }

  /** How many placeholders a text holds. */
  function Marks(text: string): nat {
    MarksTo(text, |text|)
  }

  /** How many arguments the tokens take. */
  function Taking(tokens: seq<Token>): nat {
    if tokens == [] then 0 else (if TakesArgument(tokens[0]) then 1 else 0) + Taking(tokens[1..])
  }

  lemma {:induction false} MarksToPrefix(a: string, b: string, n: nat)
    requires n <= |a| <= |b| && forall i :: 0 <= i < n ==> a[i] == b[i]
    ensures MarksTo(a, n) == MarksTo(b, n)
  {
    if n > 0 {
      MarksToPrefix(a, b, n - 1);
    }
  }

  lemma {:induction false} MarksToConcat(a: string, b: string, n: nat)
    requires n <= |b|
    ensures MarksTo(a + b, |a| + n) == Marks(a) + MarksTo(b, n)
  {
    if n == 0 {
      MarksToPrefix(a, a + b, |a|);
    } else {
      MarksToConcat(a, b, n - 1);
      assert (a + b)[|a| + n - 1] == b[n - 1];
    }
  }

  lemma MarksConcat(a: string, b: string)
    ensures Marks(a + b) == Marks(a) + Marks(b)
  {
    MarksToConcat(a, b, |b|);
  }

  lemma {:induction false} NoMarkTo(s: string, n: nat)
    requires n <= |s| && forall i :: 0 <= i < n ==> s[i] != '?'
    ensures MarksTo(s, n) == 0
  {
    if n > 0 {
      NoMarkTo(s, n - 1);
    }
  }

  lemma NoMark(s: string)
    requires forall i :: 0 <= i < |s| ==> s[i] != '?'
    ensures Marks(s) == 0
  {
    NoMarkTo(s, |s|);
  }

  lemma {:induction false} OneMarkTo(s: string, i: nat, n: nat)
    requires i < n <= |s| && s[i] == '?' && forall j :: 0 <= j < n && j != i ==> s[j] != '?'
    ensures MarksTo(s, n) == 1
  {
    if n == i + 1 {
      NoMarkTo(s, i);
    } else {
      OneMarkTo(s, i, n - 1);
    }
  }

  lemma OneMark(s: string, i: nat)
    requires i < |s| && s[i] == '?' && forall j :: 0 <= j < |s| && j != i ==> s[j] != '?'
    ensures Marks(s) == 1
  {
    OneMarkTo(s, i, |s|);
  }

  lemma ColumnHasNoMark(column: string)
    requires Identifier(column)
    ensures Marks(column) == 0
  {
    forall i | 0 <= i < |column| ensures column[i] != '?' {
      assert WordChar(column[i]);
    }
    NoMark(column);
  }

  lemma BareMarks()
    ensures Marks(Behind(IsNull)) == 0
    ensures Marks(Behind(NotNull)) == 0
    ensures Marks(Behind(ILike)) == 1
    ensures Marks(Behind(NotILike)) == 1
    ensures Marks(Behind(IntEq)) == 1
    ensures Marks(Behind(IntNe)) == 1
  {
    NoMark(Behind(IsNull));
    NoMark(Behind(NotNull));
    OneMark(Behind(ILike), 7);
    OneMark(Behind(NotILike), 11);
    OneMark(Behind(IntEq), 3);
    OneMark(Behind(IntNe), 4);
  }

  lemma LoweredMarks()
    ensures Marks(Behind(LowerEq)) == 1
    ensures Marks(Behind(LowerNe)) == 1
    ensures Marks(Behind(LowerIn)) == 1
    ensures Marks(Behind(LowerNotIn)) == 1
  {
    OneMark(Behind(LowerEq), 10);
    OneMark(Behind(LowerNe), 11);
    OneMark(Behind(LowerIn), 6);
    OneMark(Behind(LowerNotIn), 10);
  }

  lemma DatedMarks()
    ensures Marks(Behind(DateEq)) == 1
    ensures Marks(Behind(DateNe)) == 1
  {
    OneMark(Behind(DateEq), 4);
    OneMark(Behind(DateNe), 5);
  }

  lemma CountedMarks()
    ensures Marks(Behind(SomeTags)) == 0
    ensures Marks(Behind(NoTags)) == 0
  {
    NoMark(Behind(SomeTags));
    NoMark(Behind(NoTags));
  }

  lemma ElementMarks()
    ensures Marks(Behind(AnyTag)) == 0
    ensures Marks(Behind(NotAnyTag)) == 0
  {
    NoMark(Behind(AnyTag));
    NoMark(Behind(NotAnyTag));
  }

  lemma LikeMarks()
    ensures Marks(Behind(TagLike)) == 1
    ensures Marks(Behind(NoTagLike)) == 1
  {
    OneMark(Behind(TagLike), 25);
    OneMark(Behind(NoTagLike), 25);
  }

  lemma BehindMarks(test: Test)
    ensures Marks(Behind(test)) == if Takes(test) && !test.AnyTag? && !test.NotAnyTag? then 1 else 0
  {
    BareMarks();
    LoweredMarks();
    DatedMarks();
    CountedMarks();
    ElementMarks();
    LikeMarks();
  }

  lemma ShortOpeningMarks()
    ensures Marks(Opening(Bare)) == Marks(Opening(Lowered)) == Marks(Opening(Dated)) == Marks(Opening(Counted)) == 0
  {
    NoMark(Opening(Bare));
    NoMark(Opening(Lowered));
    NoMark(Opening(Dated));
    NoMark(Opening(Counted));
  }

  lemma AnyElementMarks()
    ensures Marks(ANY_ELEMENT) == 1
  {
    OneMark(ANY_ELEMENT, 6);
  }

  lemma NoElementMarks()
    ensures Marks(NO_ELEMENT) == 1
  {
    NoMark("NOT (");
    MarksConcat("NOT (", ANY_ELEMENT);
    AnyElementMarks();
  }

  lemma LikeOpeningMarks()
    ensures Marks(LIKE_ELEMENT) == Marks(NO_LIKE_ELEMENT) == 0
  {
    NoMark(LIKE_ELEMENT);
    NoMark("NOT ");
    MarksConcat("NOT ", LIKE_ELEMENT);
  }

  lemma OpeningMarks(f: Frame)
    ensures Marks(Opening(f)) == if f.AnyElement? || f.NoElement? then 1 else 0
  {
    ShortOpeningMarks();
    AnyElementMarks();
    NoElementMarks();
    LikeOpeningMarks();
  }

  lemma TokenMarks(t: Token)
    requires Readable(t)
    ensures Marks(Spell(t)) == if TakesArgument(t) then 1 else 0
  {
    if t.Check? {
      SpellCheck(t.column, t.test);
      MarksConcat(Opening(FrameOf(t.test)) + t.column, Behind(t.test));
      MarksConcat(Opening(FrameOf(t.test)), t.column);
      ColumnHasNoMark(t.column);
      OpeningMarks(FrameOf(t.test));
      BehindMarks(t.test);
    } else {
      NoMark(Spell(t));
    }
  }

  /** A text holds exactly the placeholders its tokens take. */
  lemma {:induction false} SpellingMarks(tokens: seq<Token>)
    requires forall i :: 0 <= i < |tokens| ==> Readable(tokens[i])
    ensures Marks(Spelled(tokens)) == Taking(tokens)
  {
    if tokens != [] {
      var t, later := tokens[0], tokens[1..];
      var gap := if later == [] then "" else Gap(t, later[0]);
      SpellingMarks(later);
      TokenMarks(t);
      assert Spelled(tokens) == Spell(t) + gap + Spelled(later);
      MarksConcat(Spell(t) + gap, Spelled(later));
      MarksConcat(Spell(t), gap);
      NoMark(gap);
    } else {
      NoMark("");
    }
  }

  /** Handing arguments out succeeds exactly when there is one per placeholder. */
  lemma {:induction false} BindCounts(tokens: seq<Token>, args: seq<Arg>)
    ensures Bind(tokens, args).Some? <==> Taking(tokens) == |args|
    ensures Bind(tokens, args).Some? ==> |Bind(tokens, args).value| == |tokens|
  {
    if tokens != [] {
      if !TakesArgument(tokens[0]) {
        BindCounts(tokens[1..], args);
      } else if args != [] {
        BindCounts(tokens[1..], args[1..]);
      }
    }
  }

  /** The placeholder of token `i` is preceded by as many others as the position of
      the argument it receives. */
  lemma {:induction false} ArgumentPosition(tokens: seq<Token>, args: seq<Arg>, i: nat)
    requires Bind(tokens, args).Some? && i < |tokens|
    ensures Taking(tokens[..i]) <= |args| && |Bind(tokens, args).value| == |tokens|
    ensures TakesArgument(tokens[i]) ==> Taking(tokens[..i]) < |args|
    ensures Bind(tokens, args).value[i]
      == BoundTo(tokens[i], if TakesArgument(tokens[i]) then Some(args[Taking(tokens[..i])]) else None)
  {
    BindCounts(tokens, args);
    if i > 0 {
      var later := tokens[1..];
      assert tokens[..i][1..] == later[..i - 1];
      if TakesArgument(tokens[0]) {
        ArgumentPosition(later, args[1..], i - 1);
      } else {
        ArgumentPosition(later, args, i - 1);
      }
    }
  }
}
