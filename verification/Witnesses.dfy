/** Concrete inputs on which a natural reading of the design fails; the exact conditions are proved
    beside each operation. */
module Witnesses {
  import opened Values
  import opened Texts
  import opened Filter
  import opened FilterCodec
  import opened SqlLexer
  import opened LexLaws
  import opened SqlCondition
  import opened FilterSql
  import opened FilterParse
  import opened FilterFaithful
  import opened Predicate
  import opened Query
  import opened ListItems
  import opened ListTexts
  import P = Paging
  import M = InMemory
  import E = Engine
  import C = Crud
  import D = DeleteLaws
  import U = UpdateLaws

  /** A junction built without members has a nil slice, and its own JSON makes the decoder panic. */
  lemma EmptyJunctionPanics(w: NumWire)
    ensures DecodeFilter(w, Encode(Junction("AND", NilSlice))).Panic?
  {
    JsonRoundTrip(w, Junction("AND", NilSlice));
  }

  /** A negation of nothing comes back as nothing. */
  lemma NotNilIsLost(w: NumWire)
    ensures DecodeFilter(w, Encode(Not(Nil))) == Ok(Nil)
  {
    assert Wire(w, Encode(Not(Nil))).fields == map["not" := Null];
  }

  /** The wrapper's NOT is read without its operand. */
  lemma WrapperNotLosesOperand(name: string, op: string, val: Value)
    ensures DecodeObj(EncodeWrapper(Lift(Not(Simple(name, op, val))))) != Ok(Stringify(Not(Simple(name, op, val))))
  {
    WrapperDecode(Not(Simple(name, op, val)));
  }

  lemma PlainColumns()
    ensures IsColumn("a") && IsColumn("b") && IsColumn("id") && IsColumn("name") && IsColumn("dept")
  {
    hide Lower;
    IsOwnLower("a");
    IsOwnLower("b");
    IsOwnLower("id");
    IsOwnLower("name");
    IsOwnLower("dept");
    NoKeywords();
  }

  lemma NoKeywords()
    ensures !IsKeyword("a") && !IsKeyword("b") && !IsKeyword("id") && !IsKeyword("name") && !IsKeyword("dept")
  {
  }

  lemma {:induction false} IsOwnLower(s: string)
    requires forall i :: 0 <= i < |s| ==> 'a' <= s[i] <= 'z'
    ensures Lower(s) == s
  {
    if s == "" {
    } else {
      IsOwnLower(s[1..]);
    }
  }

  /** A name with an apostrophe is not compared with itself. */
  lemma ApostropheBreaksLiteral()
    ensures ParseCondition(Print(Simple("name", "=", Str("O'Brien")))) != Some(Compare("name", "=", Str("O'Brien")))
  {
    hide IsColumn;
    PlainColumns();
    assert "O'Brien"[1] == '\'';
    StringFaithfulIffNoQuote("name", "=", "O'Brien");
  }

  /** A string with quotes in it can become another condition; COUNT and SELECT still agree on it. */
  lemma QuotedStringIsAnotherCondition()
    ensures ParseCondition(Print(Simple("a", "=", Str("x' OR b = 'y"))))
         == Some(Or([Compare("a", "=", Str("x")), Compare("b", "=", Str("y"))]))
  {
    hide Lex, TokensOf, ParseOr, Print, IsColumn;
    PlainColumns();
    var left, right := Simple("a", "=", Str("x")), Simple("b", "=", Str("y"));
    SpliceText("a", "x", "b", "y");
    assert "x" + "' OR " + "b" + " = '" + "y" == "x' OR b = 'y";
    LexAlternatives(left, right);
    ParseAlternatives(left, right);
  }

  lemma SpliceText(a: string, x: string, b: string, y: string)
    ensures Print(Simple(a, "=", Str(x + "' OR " + b + " = '" + y)))
         == Print(Simple(a, "=", Str(x))) + (" " + ("OR" + (" " + Print(Simple(b, "=", Str(y))))))
  {
    assert "' OR " == "'" + (" " + ("OR" + " ")) && " = '" == " " + "=" + " " + "'";
  }

  lemma LexAlternatives(left: Expr, right: Expr)
    requires Lexable(left) && Lexable(right) && NoNil(left) && NoNil(right)
    ensures Lex(Print(left) + (" " + ("OR" + (" " + Print(right)))))
         == Some(TokensOf(left) + ([Word("OR")] + TokensOf(right)))
  {
    hide Lex, TokensOf, Print, Lexable, NoNil;
    EmptyText();
    LexPrint(right, "");
    assert Print(right) + "" == Print(right) && TokensOf(right) + [] == TokensOf(right);
    LexWordThen("OR", Print(right), TokensOf(right), "");
    LexSpace("OR" + (" " + Print(right)));
    LexPrint(left, " " + ("OR" + (" " + Print(right))));
    assert [Word("OR")] + TokensOf(right) + [] == [Word("OR")] + TokensOf(right);
  }

  lemma ParseAlternatives(left: Expr, right: Expr)
    requires Lexable(left) && Lexable(right) && Parsable(left) && Parsable(right)
    ensures ParseOr(TokensOf(left) + ([Word("OR")] + TokensOf(right))) == Some((Or([CondOf(left), CondOf(right)]), []))
  {
    hide TokensOf, ParseFactor, ParseAnd, ParseOr, ParseOrTail, Lexable, Parsable, CondOf;
    var ts, more := TokensOf(right), [Word("OR")] + TokensOf(right);
    ParseTokens(left, more);
    AndStep(TokensOf(left) + more, CondOf(left), more);
    OrStep(TokensOf(left) + more, CondOf(left), more);
    assert ts + [] == ts;
    ParseTokens(right, []);
    AndStep(ts, CondOf(right), []);
    OrMore([CondOf(left)], ts);
    assert [CondOf(left)] + [CondOf(right)] == [CondOf(left), CondOf(right)];
    TailEnds([CondOf(left), CondOf(right)], []);
  }

  lemma EmptyText()
    ensures Lex("") == Some([])
  {
  }

  /** A literal is no column: the text is outside the modelled conditions. */
  lemma LiteralIsNoColumn()
    ensures ParseCondition(Print(Simple("1", "=", Str("1")))) == None
  {
    hide ParseCondition;
    PrintedTextParses(Simple("1", "=", Str("1")));
  }

  lemma LexNullTest(name: string, tail: string)
    requires IsColumn(name)
    ensures Lex(name + (" " + ("IS NULL" + (" " + tail)))) == Before(NullTokens(name), Lex(tail))
  {
    hide Lex, IsColumn;
    ColumnIsWord(name);
    LexSpace(tail);
    LexOp("IS NULL", " " + tail);
    LexWordThen(name, "IS NULL" + (" " + tail), [Word("IS"), Word("NULL")], " " + tail);
    assert [Word(name)] + [Word("IS"), Word("NULL")] == [Word(name), Word("IS"), Word("NULL")];
  }

  /** A comment up to a line break. */
  lemma LexCommentLine(c: string, rest: string)
    requires LineComment(c) && '\n' !in c && |c| > 2
    ensures Lex(c + ("\n" + rest)) == Lex(rest)
  {
    var all := c + ("\n" + rest);
    ToLineBreak(c, rest);
    assert LineComment(all) && all[|c| + 1..] == rest;
    BeforeTwice([], [], Lex(rest));
  }

  lemma {:induction false} ToLineBreak(c: string, rest: string)
    requires '\n' !in c
    ensures ToNewline(c + ("\n" + rest)) == |c| + 1
  {
    var all := c + ("\n" + rest);
    if c == "" {
      assert all == "\n" + rest;
    } else {
      assert all[1..] == c[1..] + ("\n" + rest);
      ToLineBreak(c[1..], rest);
    }
  }

  lemma ParseNullTest(name: string, more: Tokens)
    requires IsColumn(name)
    ensures ParseFactor(NullTokens(name) + more) == Some((NullTest(name, false), more))
  {
    hide IsColumn, IsWord;
    ColumnIsWord(name);
    ParseTokens(Un(name, "IS NULL"), more);
    assert [Word(name)] + [Word("IS"), Word("NULL")] == [Word(name), Word("IS"), Word("NULL")];
  }

  /** An operator can begin a comment: the text is a condition and hides whatever follows it. */
  lemma OperatorBeginsComment(op: string)
    requires op == "IS NULL --"
    ensures WhereOf(Un("a", op)) == Some(Some(NullTest("a", false))) && !Closed(Un("a", op))
  {
    hide Lex, IsColumn, ParseFactor, ParseAnd, ParseOr, EndsInComment, ParseWhere;
    PlainColumns();
    var ts := NullTokens("a");
    UnendedIsNothing("--");
    StillUnended("--", " (");
    UnendedIsNothing("--" + " (");
    LexNullTest("a", "--");
    LexNullTest("a", "--" + " (");
    CommentText(op);
    assert ts + [] == ts;
    ParseNullTest("a", []);
    AndStep(ts, NullTest("a", false), []);
    OrStep(ts, NullTest("a", false), []);
    assert |ts + [LParen]| == |ts| + 1;
    if !EndsInComment(Print(Un("a", op))) {
      EmptyText();
      LexSpace("(");
      LexLParen("");
      assert "(" + "" == "(" && " " + "(" == " (";
      LexExtends(Print(Un("a", op)), " (");
    }
  }

  lemma CommentText(op: string)
    requires op == "IS NULL --"
    ensures Print(Un("a", op)) == "a" + (" " + ("IS NULL" + (" " + "--")))
    ensures Print(Un("a", op)) + " (" == "a" + (" " + ("IS NULL" + (" " + ("--" + " ("))))
  {
    assert "IS NULL --" == "IS NULL" + " " + "--";
  }

  /** A line break in an order name can end that comment, and what follows it continues the condition
      of SELECT, which then is not the one that COUNT has. */
  lemma LineBreakInOrderName(name: string)
    requires name == "x\nAND b IS NULL -- "
    ensures var q := Query([Order(name, false)], None, Un("a", "IS NULL --"));
            ParseRead(CountText("t", q.filter)) == Some(Count("t", Some(NullTest("a", false))))
            && ParseRead(RowsText("t", q))
            == Some(Rows("t", Some(And([NullTest("a", false), NullTest("b", false)])), [], None))
  {
    hide Lex, ParseWhere, NullTokens, EndsInComment, Closed, WhereOf, ROWS_HEAD, CountText, RowsText;
    var q := Query([Order(name, false)], None, Un("a", "IS NULL --"));
    OperatorBeginsComment("IS NULL --");
    CountMeans("t", q.filter);
    var cond := NullTokens("a") + ([Word("AND")] + NullTokens("b"));
    LexBroken(name);
    LexRows("t", q);
    ParseBroken();
    RowsTokens("t", [Word("WHERE")] + cond);
  }

  function NullTokens(name: string): Tokens {
    [Word(name), Word("IS"), Word("NULL")]
  }

  lemma ParseBroken()
    ensures ParseWhere([Word("WHERE")] + (NullTokens("a") + ([Word("AND")] + NullTokens("b")))) ==
            Some((Some(And([NullTest("a", false), NullTest("b", false)])), []))
  {
    hide IsColumn, ParseFactor, ParseAnd, ParseOr, ParseAndTail;
    var a, b := NullTest("a", false), NullTest("b", false);
    var more := [Word("AND")] + NullTokens("b");
    var cond := NullTokens("a") + more;
    PlainColumns();
    assert NullTokens("b") + [] == NullTokens("b") && [a] + [b] == [a, b];
    ParseNullTest("a", more);
    ParseNullTest("b", []);
    AndStep(cond, a, more);
    AndMore([a], NullTokens("b"));
    TailEnds([a, b], []);
    OrStep(cond, And([a, b]), []);
    assert ([Word("WHERE")] + cond)[1..] == cond;
  }

  lemma LexBroken(name: string)
    requires name == "x\nAND b IS NULL -- "
    ensures Lex(WhereText(Un("a", "IS NULL --")) + OrderByText([Order(name, false)]) + LimitText(None))
         == Some([Word("WHERE")] + (NullTokens("a") + ([Word("AND")] + NullTokens("b"))))
  {
    hide Lex, IsColumn, WhereText, OrderByText, LimitText;
    PlainColumns();
    var tail := "-- ` DESC";
    var rest := "AND" + (" " + ("b" + (" " + ("IS NULL" + (" " + tail)))));
    var first := "a" + (" " + ("IS NULL" + (" " + ("-- ORDER BY `x" + ("\n" + rest)))));
    var b := [Word("AND")] + NullTokens("b");
    UnendedIsNothing(tail);
    LexNullTest("b", tail);
    LexWordThen("AND", "b" + (" " + ("IS NULL" + (" " + tail))), NullTokens("b"), tail);
    LexCommentLine("-- ORDER BY `x", rest);
    LexNullTest("a", "-- ORDER BY `x" + ("\n" + rest));
    LexWhereWord(first);
    BrokenText(name);
    assert b + [] == b;
  }

  lemma BrokenText(name: string)
    requires name == "x\nAND b IS NULL -- "
    ensures WhereText(Un("a", "IS NULL --")) + OrderByText([Order(name, false)]) + LimitText(None)
         == " WHERE " + ("a" + (" " + ("IS NULL" + (" " + ("-- ORDER BY `x" + ("\n" + ("AND" + (" "
            + ("b" + (" " + ("IS NULL" + (" " + "-- ` DESC"))))))))))))
  {
    CommentText("IS NULL --");
    OrderListsUnfold([Order(name, false)]);
    NamePieces();
    Splice("a", "IS NULL", "--", "x", "AND b IS NULL -- ");
    assert "-- ORDER BY `x" == "--" + (" ORDER BY `" + "x");
    assert "-- ` DESC" == "-- " + "` DESC";
  }

  lemma NamePieces()
    ensures "x\nAND b IS NULL -- " == "x" + ("\n" + "AND b IS NULL -- ")
    ensures "AND b IS NULL -- " + "` DESC" == "AND" + (" " + ("b" + (" " + ("IS NULL" + (" " + "-- ` DESC")))))
  {
  }

  lemma Splice(col: string, op: string, c: string, x: string, rest: string)
    ensures (" WHERE " + (col + (" " + (op + (" " + c)))))
            + (" ORDER BY " + ("`" + (x + ("\n" + rest)) + "` " + "DESC")) + ""
         == " WHERE " + (col + (" " + (op + (" " + ((c + (" ORDER BY `" + x)) + ("\n" + (rest + "` DESC")))))))
  {
    assert "` " + "DESC" == "` DESC" && " ORDER BY " + "`" == " ORDER BY `";
  }

  /** An empty membership list prints a text that is no condition. */
  lemma EmptyInIsNoCondition()
    ensures ParseCondition(Print(In("id", Slice([])))) == None
  {
    hide ParseCondition;
    PrintedTextParses(In("id", Slice([])));
  }

  /** A row without a department passes `dept <> 'HR'` in memory but not in SQL. */
  lemma NullColumnDiffers(cmp: Collation)
    ensures Holds(Simple("dept", "<>", Str("HR")), map[]) == Ok(true)
    ensures !Selects(cmp, ParseCondition(Print(Simple("dept", "<>", Str("HR")))), map[])
  {
    hide IsColumn, ParseCondition;
    PlainColumns();
    PrintedTextParses(Simple("dept", "<>", Str("HR")));
  }

  /** An order on a column called a=b is read as a descending order on a. */
  lemma EqualsInOrderName()
    ensures OrderOf(OrderText(Order("a=b", true))) == Order("a", false)
  {
    var text := OrderText(Order("a=b", true));
    assert text == "a" + ['='] + "b=asc" && "b=asc" == "b" + ['='] + "asc";
    SplitAtSeparator("a", "b=asc", '=');
    SplitAtSeparator("b", "asc", '=');
    assert Lower("b") == "b";
  }

  /** The last, shorter page of a list without spare capacity panics. */
  lemma ShortLastPagePanics()
    ensures P.ApplyPaging([1, 2, 3], 3, 2, 2).Panic?
  {
  }

  /** Loading 21 rows from the in-memory store by default batches gives 20. */
  lemma InMemoryLoadStopsEarly(vals: seq<Row>)
    requires |vals| == 21
    ensures exists page :: P.Loop(M.ListerOf(Nil, vals), 20, 0, 1) == Some((Ok(page), 1)) && |page| == 20
  {
    M.NoFilterKeepsAll(vals);
    M.InMemoryLoad(Nil, vals, 20, 1);
    var page := P.PageOf(M.Present(vals), 0, 20);
    assert P.Loop(M.ListerOf(Nil, vals), 20, 0, 1) == Some((Ok(page), 1)) && |page| == 20;
  }

  /** On a later page the reported total can be the number of matches although the page lacks one of
      them and ends in a nil reference. */
  lemma TotalRightPageWrong(first: Row, second: Row, other: Row)
    requires "a" in first && "a" in second && first["a"] == second["a"] == Str("x")
    requires "a" in other && other["a"] == Str("y")
    ensures M.ListOf(Simple("a", "=", Str("x")), [first, other, second, other], Some(Page(1, 2)))
         == Ok(([Some(second), None], 2))
  {
    hide M.Selected;
    var fe := Simple("a", "=", Str("x"));
    var vals := [first, other, second, other];
    assert [first] + [other, second, other] == vals && [other] + [second, other] == [other, second, other];
    assert [second] + [other] == [second, other] && [other] + [] == [other];
    assert [second] + [] == [second] && [first] + [second] == [first, second];
    assert M.Selected(fe, []) == Ok([]) by { NothingSelected(fe); }
    SelectStep(fe, other, [], []);
    SelectStep(fe, second, [other], []);
    SelectStep(fe, other, [second, other], [second]);
    SelectStep(fe, first, [other, second, other], [second]);
    assert M.Selected(fe, vals) == Ok([first, second]);
    assert (M.Present([first, second]) + M.Absent(2))[1..3] == [Some(second), None];
  }

  lemma NothingSelected(fe: Expr)
    ensures M.Selected(fe, []) == Ok([])
  {
  }

  lemma SelectStep(fe: Expr, row: Row, rest: seq<Row>, kept: seq<Row>)
    requires Holds(fe, row).Ok? && M.Selected(fe, rest) == Ok(kept)
    ensures M.Selected(fe, [row] + rest) == Ok(if Holds(fe, row).value then [row] + kept else kept)
  {
    assert ([row] + rest)[1..] == rest && [] + kept == kept;
  }

  /** Two null ids in bulk delete nothing; one by one they delete an item called <nil>. */
  lemma NullIdsDiffer(env: C.Env, entity: string)
    requires C.Targets(env, entity) && E.NeverRejects(env.eng)
    ensures var rows := [map[env.eng.key := Str("<nil>")]];
            C.MultiDeleteRows(env, rows, entity, [Null, Null]) != D.FoldDelete(env, rows, entity, [Null, Null])
  {
    var row: Row := map[env.eng.key := Str("<nil>")];
    assert E.Same(row, env.eng.key, D.AsTexts([Null, Null])[0]);
    assert E.SameAsAny([row][0], env.eng.key, D.AsTexts([Null, Null]));
    assert !E.SameAsAny([row][0], env.eng.key, [Null, Null]);
    D.MultiDeleteExact(env, [row], entity, [Null, Null]);
  }

  /** The first offset that a float32 does not hold. */
  lemma OffsetRounded()
    ensures ToFloat32(16777217) == 16777216
  {
    assert Spacing(16777217) == 2;
  }

  /** A bulk update of an object with a numeric id panics. */
  lemma NumericIdPanics(env: C.Env, rows: E.Rows, entity: string)
    ensures C.FoldUpdate(env, rows, entity, [map[C.IdColumn(env.cfg, entity) := Num("7")]]).Panic?
  {
    var objs := [map[C.IdColumn(env.cfg, entity) := Num("7")]];
    assert objs[..0] == [];
    assert U.Reaches(env, rows, entity, objs, 0) && !U.HasStringId(env, entity, objs[0]);
    U.BulkUpdatePanicExact(env, rows, entity, objs);
  }
}
