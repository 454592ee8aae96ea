/** The SQL text of a filter parses back: lexing and parsing what Print writes recovers the
    expression, for filters of any depth. */
module FilterSql {
  import opened Values
  import opened Texts
  import opened Filter
  import opened SqlLexer
  import opened LexLaws
  import opened SqlCondition

  // ---- Which filters print to SQL tokens, and which of those to a search condition ----

  predicate IsLiteral(v: Value) { v.Str? || v.Num? || v.Bool? }

  predicate PlainValue(v: Value) {
    match v
    case Str(s) => '\'' !in s
    case Num(_) => true
    case Bool(_) => true
    case _ => false
  }

  predicate IsSimpleOp(op: string) {
    IsComparison(op) || op == "LIKE" || op == "NOT LIKE"
  }

  predicate IsNullOp(op: string) { op == "IS NULL" || op == "IS NOT NULL" }

  predicate IsJunctionOp(op: string) { op == "AND" || op == "OR" }

  /** Every name is one word, every operator a known one, and every value a number, a boolean or
      a string without quotes. */
  predicate Lexable(e: Expr) {
    match e
    case Nil => false
    case Simple(name, op, val) => IsWord(name) && IsSimpleOp(op) && PlainValue(val)
    case Junction(op, sub) => IsJunctionOp(op) && (sub.NilSlice? || LexableIn(sub.elems))
    case Not(x) => Lexable(x)
    case In(name, vals) => IsWord(name) && forall v :: v in vals.Elems() ==> PlainValue(v)
    case Un(name, op) => IsWord(name) && IsNullOp(op)
    case Between(name, l, r) => IsWord(name) && PlainValue(l) && PlainValue(r)
  }

  predicate LexableIn(es: seq<Expr>) {
    es == [] || (Lexable(es[0]) && LexableIn(es[1..]))
  }

  /** Every name is a regular identifier, and no junction and no membership list is empty. */
  predicate Parsable(e: Expr) {
    match e
    case Nil => false
    case Junction(_, sub) => sub.Elems() != [] && ParsableIn(sub.elems)
    case Not(x) => Parsable(x)
    case In(name, vals) => IsColumn(name) && vals.Elems() != []
    case _ => IsColumn(e.name)
  }

  predicate ParsableIn(es: seq<Expr>) {
    es == [] || (Parsable(es[0]) && ParsableIn(es[1..]))
  }

  // ---- Print to tokens ----

  function ValueToken(v: Value): Token {
    if v.Str? then Text(v.s) else Word(Sprint(v))
  }

  function OpTokens(op: string): Tokens {
    if IsComparison(op) then [Sym(op)]
    else if op == "LIKE" then [Word("LIKE")]
    else if op == "NOT LIKE" then [Word("NOT"), Word("LIKE")]
    else if op == "IS NULL" then [Word("IS"), Word("NULL")]
    else [Word("IS"), Word("NOT"), Word("NULL")]
  }

  function ListTokens(vs: seq<Value>): Tokens {
    if vs == [] then []
    else if |vs| == 1 then [ValueToken(vs[0])]
    else [ValueToken(vs[0]), Comma] + ListTokens(vs[1..])
  }

  function TokensOf(e: Expr): Tokens {
    match e
    case Nil => []
    case Simple(name, op, val) => [Word(name)] + OpTokens(op) + [ValueToken(val)]
    case Junction(op, sub) => [LParen] + (if sub.NilSlice? then [] else SubTokens(op, sub.elems)) + [RParen]
    case Not(x) => [Word("NOT"), LParen] + TokensOf(x) + [RParen]
    case In(name, vals) => [Word(name), Word("IN"), LParen] + ListTokens(vals.Elems()) + [RParen]
    case Un(name, op) => [Word(name)] + OpTokens(op)
    case Between(name, l, r) => [Word(name), Word("BETWEEN"), ValueToken(l), Word("AND"), ValueToken(r)]
  }

  function SubTokens(op: string, es: seq<Expr>): Tokens
    decreases es
  {
    if es == [] then []
    else if |es| == 1 then [LParen] + TokensOf(es[0]) + [RParen]
    else [LParen] + TokensOf(es[0]) + [RParen] + [Word(op)] + SubTokens(op, es[1..])
  }

  lemma {:induction false} LexableHasNoNil(e: Expr)
    requires Lexable(e)
    ensures NoNil(e)
  {
    match e
    case Junction(_, sub) => if sub.Slice? { LexableInHasNoNil(sub.elems); }
    case Not(x) => LexableHasNoNil(x);
    case _ =>
  }

  lemma {:induction false} LexableInHasNoNil(es: seq<Expr>)
    requires LexableIn(es)
    ensures NoNilIn(es)
  {
    if es == [] {
    } else {
      LexableHasNoNil(es[0]);
      LexableInHasNoNil(es[1..]);
    }
  }

  lemma LexValue(v: Value, rest: string)
    requires PlainValue(v) && Boundary(rest)
    ensures Lex(WrapStr(v, "'") + rest) == Before([ValueToken(v)], Lex(rest))
  {
    match v
    case Str(s) => LexText(s, rest);
    case Num(t) =>
      NumeralIsWord(t);
      LexWord(t, rest);
    case Bool(b) => LexWord(Sprint(v), rest);
  }

  lemma Assoc(a: string, b: string, c: string)
    ensures (a + b) + c == a + (b + c)
  {
  }

  lemma LexOp(op: string, rest: string)
    requires IsSimpleOp(op) || IsNullOp(op)
    requires Boundary(rest)
    ensures Lex(op + rest) == Before(OpTokens(op), Lex(rest))
  {
    hide Lex;
    if IsComparison(op) {
      LexSym(op, rest);
    } else if op == "LIKE" {
      LexWord(op, rest);
    } else {
      LexLongOp(op, rest);
    }
  }

  lemma LexLongOp(op: string, rest: string)
    requires op == "NOT LIKE" || op == "IS NULL" || op == "IS NOT NULL"
    requires Boundary(rest)
    ensures Lex(op + rest) == Before(OpTokens(op), Lex(rest))
  {
    hide Lex;
    if op == "NOT LIKE" {
      LexTwoWords("NOT", "LIKE", rest);
      assert "NOT" + " " + "LIKE" == "NOT LIKE";
    } else if op == "IS NULL" {
      LexTwoWords("IS", "NULL", rest);
      assert "IS" + " " + "NULL" == "IS NULL";
    } else {
      LexIsNotNull(rest);
    }
  }

  lemma LexTwoWords(a: string, b: string, rest: string)
    requires IsWord(a) && IsWord(b) && Boundary(rest)
    ensures Lex(a + " " + b + rest) == Before([Word(a), Word(b)], Lex(rest))
  {
    hide Lex;
    LexWord(b, rest);
    LexWordThen(a, b + rest, [Word(b)], rest);
    assert a + " " + b + rest == a + (" " + (b + rest));
    assert [Word(a)] + [Word(b)] == [Word(a), Word(b)];
  }

  lemma LexIsNotNull(rest: string)
    requires Boundary(rest)
    ensures Lex("IS NOT NULL" + rest) == Before([Word("IS"), Word("NOT"), Word("NULL")], Lex(rest))
  {
    hide Lex;
    var tail := "NOT" + " " + "NULL" + rest;
    LexTwoWords("NOT", "NULL", rest);
    LexWordThen("IS", tail, [Word("NOT"), Word("NULL")], rest);
    assert "IS NOT NULL" == "IS" + " " + "NOT" + " " + "NULL";
    assert "IS" + " " + "NOT" + " " + "NULL" + rest == "IS" + (" " + tail);
    assert [Word("IS")] + [Word("NOT"), Word("NULL")] == [Word("IS"), Word("NOT"), Word("NULL")];
  }

  /** A word, a space and whatever lexes next. */
  lemma LexWordThen(a: string, tail: string, ts: Tokens, rest: string)
    requires IsWord(a) && Lex(tail) == Before(ts, Lex(rest))
    ensures Lex(a + (" " + tail)) == Before([Word(a)] + ts, Lex(rest))
  {
    hide Lex;
    LexWord(a, " " + tail);
    LexSpace(tail);
    BeforeTwice([Word(a)], ts, Lex(rest));
  }

  lemma {:induction false} LexList(vs: seq<Value>, rest: string)
    requires forall v :: v in vs ==> PlainValue(v)
    requires Boundary(rest)
    ensures Lex(Join(QuoteEach(vs), ",") + rest) == Before(ListTokens(vs), Lex(rest))
  {
    hide Lex;
    var text := Join(QuoteEach(vs), ",");
    if vs == [] {
      assert text + rest == rest;
      BeforeTwice([], [], Lex(rest));
    } else if |vs| == 1 {
      LexValue(vs[0], rest);
    } else {
      assert QuoteEach(vs)[1..] == QuoteEach(vs[1..]);
      var tail := Join(QuoteEach(vs[1..]), ",") + rest;
      assert text + rest == WrapStr(vs[0], "'") + ("," + tail);
      LexValue(vs[0], "," + tail);
      LexComma(tail);
      LexList(vs[1..], rest);
      BeforeTwice([Comma], ListTokens(vs[1..]), Lex(rest));
      BeforeTwice([ValueToken(vs[0])], [Comma] + ListTokens(vs[1..]), Lex(rest));
      assert [ValueToken(vs[0])] + ([Comma] + ListTokens(vs[1..])) == ListTokens(vs);
    }
  }

  lemma LexSimple(name: string, op: string, val: Value, rest: string)
    requires IsWord(name) && IsSimpleOp(op) && PlainValue(val) && Boundary(rest)
    ensures Lex(Print(Simple(name, op, val)) + rest) == Before(TokensOf(Simple(name, op, val)), Lex(rest))
  {
    hide Lex;
    var v := WrapStr(val, "'");
    var right := op + (" " + (v + rest));
    assert name + " " + op + " " + v + rest == name + (" " + right) by {
      Assoc(name + " " + op + " ", v, rest);
      Assoc(name + " " + op, " ", v + rest);
      Assoc(name + " ", op, " " + (v + rest));
      Assoc(name, " ", right);
    }
    LexValue(val, rest);
    LexSpace(v + rest);

    LexOp(op, " " + (v + rest));
    BeforeTwice(OpTokens(op), [ValueToken(val)], Lex(rest));
    LexWordThen(name, right, OpTokens(op) + [ValueToken(val)], rest);
    assert [Word(name)] + (OpTokens(op) + [ValueToken(val)]) == [Word(name)] + OpTokens(op) + [ValueToken(val)];
  }

  lemma LexIn(name: string, vals: Slice<Value>, rest: string)
    requires Lexable(In(name, vals)) && Boundary(rest)
    ensures Lex(Print(In(name, vals)) + rest) == Before(TokensOf(In(name, vals)), Lex(rest))
  {
    hide Lex;
    var list := Join(QuoteEach(vals.Elems()), ",");
    var ts := ListTokens(vals.Elems());
    assert name + " IN (" + list + ")" + rest == name + (" " + ("IN" + (" " + ("(" + (list + (")" + rest)))))) by {
      assert " IN (" == " " + "IN" + " " + "(";
    }
    LexList(vals.Elems(), ")" + rest);
    LexParens(list, ts, rest);
    var g := [LParen] + ts + [RParen];
    LexWordThen("IN", "(" + (list + (")" + rest)), g, rest);
    LexWordThen(name, "IN" + (" " + ("(" + (list + (")" + rest)))), [Word("IN")] + g, rest);
    assert [Word(name)] + ([Word("IN")] + g) == [Word(name), Word("IN"), LParen] + ts + [RParen];
  }

  lemma RangeText(name: string, lt: string, rt: string, rest: string)
    ensures name + " BETWEEN " + lt + " AND " + rt + rest
         == name + (" " + ("BETWEEN" + (" " + (lt + (" " + ("AND" + (" " + (rt + rest))))))))
  {
    assert " BETWEEN " == " " + "BETWEEN" + " ";
    assert " AND " == " " + "AND" + " ";
  }

  lemma RangeWords(mid: string)
    ensures IsWord("BETWEEN") && IsWord("AND") && Boundary(" " + mid)
  {
  }

  lemma LexBetween(name: string, l: Value, r: Value, rest: string)
    requires Lexable(Between(name, l, r)) && Boundary(rest)
    ensures Lex(Print(Between(name, l, r)) + rest) == Before(TokensOf(Between(name, l, r)), Lex(rest))
  {
    hide Lex, WrapStr, ValueToken, PlainValue, Boundary;
    var lt, rt := WrapStr(l, "'"), WrapStr(r, "'");
    var mid := "AND" + (" " + (rt + rest));
    var left := lt + (" " + mid);
    RangeText(name, lt, rt, rest);
    RangeWords(mid);
    LexValue(r, rest);
    LexWordThen("AND", rt + rest, [ValueToken(r)], rest);
    LexSpace(mid);
    LexValue(l, " " + mid);
    BeforeTwice([ValueToken(l)], [Word("AND")] + [ValueToken(r)], Lex(rest));
    var ts := [ValueToken(l)] + ([Word("AND")] + [ValueToken(r)]);
    LexWordThen("BETWEEN", left, ts, rest);
    LexWordThen(name, "BETWEEN" + (" " + left), [Word("BETWEEN")] + ts, rest);
    assert [Word(name)] + ([Word("BETWEEN")] + ts)
        == [Word(name), Word("BETWEEN"), ValueToken(l), Word("AND"), ValueToken(r)];
  }

  /** A parenthesised text, given what its inside lexes to. */
  lemma LexParens(inner: string, ts: Tokens, rest: string)
    requires Lex(inner + (")" + rest)) == Before(ts, Lex(")" + rest))
    ensures Lex("(" + (inner + (")" + rest))) == Before([LParen] + ts + [RParen], Lex(rest))
  {
    hide Lex;
    LexRParen(rest);
    BeforeTwice(ts, [RParen], Lex(rest));
    LexLParen(inner + (")" + rest));
    BeforeTwice([LParen], ts + [RParen], Lex(rest));
    assert [LParen] + (ts + [RParen]) == [LParen] + ts + [RParen];
  }

  lemma LexUn(name: string, op: string, rest: string)
    requires Lexable(Un(name, op)) && Boundary(rest)
    ensures Lex(Print(Un(name, op)) + rest) == Before(TokensOf(Un(name, op)), Lex(rest))
  {
    hide Lex, OpTokens, Boundary;
    LexOp(op, rest);
    LexWordThen(name, op + rest, OpTokens(op), rest);
    assert name + " " + op + rest == name + (" " + (op + rest));
  }

  /** What is printed lexes to the expression's tokens, whatever follows at a token boundary. */
  lemma {:induction false} LexPrint(e: Expr, rest: string)
    requires Lexable(e) && NoNil(e) && Boundary(rest)
    ensures Lex(Print(e) + rest) == Before(TokensOf(e), Lex(rest))
    decreases e, 1
  {
    hide Lex, Print, TokensOf, Boundary, Before;
    match e
    case Simple(name, op, val) => LexSimple(name, op, val, rest);
    case Junction(op, sub) => LexJunction(e, rest);
    case Not(x) => LexNot(x, rest);
    case In(name, vals) => LexIn(name, vals, rest);
    case Un(name, op) => LexUn(name, op, rest);
    case Between(name, l, r) => LexBetween(name, l, r, rest);
  }

  lemma {:induction false} LexJunction(e: Expr, rest: string)
    requires e.Junction? && Lexable(e) && NoNil(e) && Boundary(rest)
    ensures Lex(Print(e) + rest) == Before(TokensOf(e), Lex(rest))
    decreases e, 0
  {
    hide Lex;
    if e.sub.Slice? {
      var inner := Join(PrintEach(e.sub.elems), " " + e.jop + " ");
      LexSubs(e.jop, e.sub.elems, ")" + rest);
      LexParens(inner, SubTokens(e.jop, e.sub.elems), rest);
      assert ("(" + inner + ")") + rest == "(" + (inner + (")" + rest));
    } else {
      assert "" + (")" + rest) == ")" + rest;
      BeforeTwice([], [], Lex(")" + rest));
      LexParens("", [], rest);
      assert ("(" + "" + ")") + rest == "(" + ("" + (")" + rest));
    }
  }

  lemma {:induction false} LexNot(x: Expr, rest: string)
    requires Lexable(x) && NoNil(x) && Boundary(rest)
    ensures Lex(Print(Not(x)) + rest) == Before(TokensOf(Not(x)), Lex(rest))
    decreases x, 2
  {
    hide Lex, Print, TokensOf, Lexable, NoNil, Before;
    var t := Print(x);
    LexPrint(x, ")" + rest);
    LexParens(t, TokensOf(x), rest);
    NotPieces(x, rest);
    LexWordThen("NOT", "(" + (t + (")" + rest)), [LParen] + TokensOf(x) + [RParen], rest);
  }

  lemma NotPieces(x: Expr, rest: string)
    requires NoNil(x)
    ensures Print(Not(x)) + rest == "NOT" + (" " + ("(" + (Print(x) + (")" + rest))))
    ensures TokensOf(Not(x)) == [Word("NOT")] + ([LParen] + TokensOf(x) + [RParen])
    ensures IsWord("NOT")
  {
    hide NoNil, TokensOf, IsWord;
    NotText(Print(x), rest);
    NotToken(x);
  }

  lemma NotToken(x: Expr)
    ensures TokensOf(Not(x)) == [Word("NOT")] + ([LParen] + TokensOf(x) + [RParen]) && IsWord("NOT")
  {
  }

  lemma NotText(t: string, rest: string)
    ensures ("NOT (" + t + ")") + rest == "NOT" + (" " + ("(" + (t + (")" + rest))))
  {
    assert "NOT (" == "NOT" + " " + "(";
  }

  lemma {:induction false} LexSubs(op: string, es: seq<Expr>, rest: string)
    requires IsJunctionOp(op) && LexableIn(es) && NoNilIn(es) && Boundary(rest)
    ensures Lex(Join(PrintEach(es), " " + op + " ") + rest) == Before(SubTokens(op, es), Lex(rest))
    decreases es, 1
  {
    hide Lex;
    if es == [] {
      assert Join(PrintEach(es), " " + op + " ") + rest == rest;
      BeforeTwice([], [], Lex(rest));
    } else if |es| == 1 {
      var t := Print(es[0]);
      LexPrint(es[0], ")" + rest);
      LexParens(t, TokensOf(es[0]), rest);
      assert "(" + t + ")" + rest == "(" + (t + (")" + rest));
    } else {
      LexSubs(op, es[1..], rest);
      LexMoreSubs(op, es, rest);
    }
  }

  lemma {:induction false} LexMoreSubs(op: string, es: seq<Expr>, rest: string)
    requires IsJunctionOp(op) && LexableIn(es) && NoNilIn(es) && Boundary(rest)
    requires |es| > 1
    requires Lex(Join(PrintEach(es[1..]), " " + op + " ") + rest) == Before(SubTokens(op, es[1..]), Lex(rest))
    ensures Lex(Join(PrintEach(es), " " + op + " ") + rest) == Before(SubTokens(op, es), Lex(rest))
    decreases es, 0
  {
    hide Lex, Print, TokensOf, Lexable, NoNil, Before, SubTokens;
    var sep := " " + op + " ";
    var t, tail := Print(es[0]), Join(PrintEach(es[1..]), sep);
    var more := " " + (op + (" " + (tail + rest)));
    SubsUnfold(op, es);
    LexWordThen(op, tail + rest, SubTokens(op, es[1..]), rest);
    LexSpace(op + (" " + (tail + rest)));
    LexPrint(es[0], ")" + more);
    LexParens(t, TokensOf(es[0]), more);
    assert "(" + t + ")" + sep + tail + rest == "(" + (t + (")" + more)) by {
      Reassociate(t, op, tail, rest);
    }
    var g := [LParen] + TokensOf(es[0]) + [RParen];
    BeforeTwice(g, [Word(op)] + SubTokens(op, es[1..]), Lex(rest));
  }

  lemma SubsUnfold(op: string, es: seq<Expr>)
    requires |es| > 1 && NoNilIn(es)
    ensures Join(PrintEach(es), " " + op + " ")
         == "(" + Print(es[0]) + ")" + (" " + op + " ") + Join(PrintEach(es[1..]), " " + op + " ")
    ensures SubTokens(op, es) == [LParen] + TokensOf(es[0]) + [RParen] + ([Word(op)] + SubTokens(op, es[1..]))
  {
    hide Print, TokensOf, NoNil;
    assert PrintEach(es)[1..] == PrintEach(es[1..]);
  }

  lemma Reassociate(t: string, op: string, tail: string, rest: string)
    ensures "(" + t + ")" + (" " + op + " ") + tail + rest
         == "(" + (t + (")" + (" " + (op + (" " + (tail + rest))))))
  {
  }
}
