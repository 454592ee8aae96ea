/** Parsing the printed text: it is a search condition exactly when the filter is Parsable, and
    then the expression can be read off the parse tree again. */
module FilterParse {
  import opened Values
  import opened Filter
  import opened SqlLexer
  import opened LexLaws
  import opened SqlCondition
  import opened FilterSql

  /** The parse tree of a printed filter. */
  function CondOf(e: Expr): Cond
    requires Parsable(e)
  {
    match e
    case Simple(name, op, val) => Compare(name, op, val)
    case Junction(op, sub) =>
      var cs := Groups(sub.elems);
      Group(Inside(op, cs))
    case Not(x) => Neg(Group(CondOf(x)))
    case In(name, vals) => Member(name, vals.elems)
    case Un(name, op) => NullTest(name, op == "IS NOT NULL")
    case Between(name, l, r) => Range(name, l, r)
  }

  function Groups(es: seq<Expr>): (cs: seq<Cond>)
    requires ParsableIn(es)
    ensures |cs| == |es|
  {
    if es == [] then [] else [Group(CondOf(es[0]))] + Groups(es[1..])
  }

  // ---- One step of the parser at a time ----

  lemma AndStep(ts: Tokens, c: Cond, rest: Tokens)
    requires ParseFactor(ts) == Some((c, rest))
    ensures ParseAnd(ts) == ParseAndTail([c], rest)
    ensures !StartsWith(rest, "AND") ==> ParseAnd(ts) == Some((c, rest))
  {
  }

  lemma OrStep(ts: Tokens, c: Cond, rest: Tokens)
    requires ParseAnd(ts) == Some((c, rest))
    ensures ParseOr(ts) == ParseOrTail([c], rest)
    ensures !StartsWith(rest, "OR") ==> ParseOr(ts) == Some((c, rest))
  {
  }

  lemma NoFactor(ts: Tokens)
    requires ParseFactor(ts) == None
    ensures ParseAnd(ts) == None && ParseOr(ts) == None
  {
  }

  lemma AndMore(acc: seq<Cond>, ts: Tokens)
    requires acc != []
    ensures var r := ParseFactor(ts);
            ParseAndTail(acc, [Word("AND")] + ts) ==
            if r.None? then None else ParseAndTail(acc + [r.value.0], r.value.1)
  {
    assert ([Word("AND")] + ts)[1..] == ts;
  }

  lemma OrMore(acc: seq<Cond>, ts: Tokens)
    requires acc != []
    ensures var r := ParseAnd(ts);
            ParseOrTail(acc, [Word("OR")] + ts) ==
            if r.None? then None else ParseOrTail(acc + [r.value.0], r.value.1)
  {
    assert ([Word("OR")] + ts)[1..] == ts;
  }

  lemma TailEnds(acc: seq<Cond>, ts: Tokens)
    requires |acc| > 1
    ensures !StartsWith(ts, "AND") ==> ParseAndTail(acc, ts) == Some((And(acc), ts))
    ensures !StartsWith(ts, "OR") ==> ParseOrTail(acc, ts) == Some((Or(acc), ts))
  {
  }

  /** A group, given how its inside parses. */
  lemma GroupStep(ts: Tokens, r: Option<Cond>, rest: Tokens)
    requires ParseOr(ts) == if r.None? then None else Some((r.value, [RParen] + rest))
    ensures ParseFactor([LParen] + ts) == ParsePrimary([LParen] + ts)
    ensures ParsePrimary([LParen] + ts) == if r.None? then None else Some((Group(r.value), rest))
  {
    assert ([LParen] + ts)[1..] == ts;
    assert ([RParen] + rest)[1..] == rest;
  }

  lemma NotStep(ts: Tokens)
    ensures var r := ParsePrimary(ts);
            ParseFactor([Word("NOT")] + ts) == if r.None? then None else Some((Neg(r.value.0), r.value.1))
  {
    assert ([Word("NOT")] + ts)[1..] == ts;
  }

  // ---- Leaves ----

  lemma ParseValueToken(v: Value, rest: Tokens)
    requires PlainValue(v)
    ensures ParseValue([ValueToken(v)] + rest) == Some((v, rest))
  {
    assert ([ValueToken(v)] + rest)[1..] == rest;
    if v.Num? {
      NumeralIsWord(v.tok);
    }
  }

  lemma ValuesStep(v: Value, ts: Tokens)
    requires PlainValue(v) && ts != []
    ensures ts[0] == RParen ==> ParseValues([ValueToken(v)] + ts) == Some(([v], ts[1..]))
    ensures ParseValues(ts).Some? ==>
            ParseValues([ValueToken(v)] + ([Comma] + ts)) ==
            Some(([v] + ParseValues(ts).value.0, ParseValues(ts).value.1))
  {
    hide ParseValue, ValueToken;
    ParseValueToken(v, ts);
    ParseValueToken(v, [Comma] + ts);
    assert ([Comma] + ts)[1..] == ts;
  }

  lemma ListTokensSplit(vs: seq<Value>, end: Tokens)
    requires vs != []
    ensures ListTokens(vs) + end ==
            if |vs| == 1 then [ValueToken(vs[0])] + end
            else [ValueToken(vs[0])] + ([Comma] + (ListTokens(vs[1..]) + end))
  {
    if |vs| > 1 {
      TwoInFront(ValueToken(vs[0]), Comma, ListTokens(vs[1..]), end);
    }
  }

  lemma TwoInFront(a: Token, b: Token, more: Tokens, end: Tokens)
    ensures ([a, b] + more) + end == [a] + ([b] + (more + end))
  {
  }

  lemma {:induction false} ParseListTokens(vs: seq<Value>, rest: Tokens)
    requires vs != [] && forall v :: v in vs ==> PlainValue(v)
    ensures ParseValues(ListTokens(vs) + ([RParen] + rest)) == Some((vs, rest))
  {
    hide ParseValues, ListTokens, ValueToken, PlainValue;
    var end := [RParen] + rest;
    assert end[1..] == rest;
    ListTokensSplit(vs, end);
    if |vs| == 1 {
      ValuesStep(vs[0], end);
      assert vs == [vs[0]];
    } else {
      ParseListTokens(vs[1..], rest);
      ValuesStep(vs[0], ListTokens(vs[1..]) + end);
      assert vs == [vs[0]] + vs[1..];
    }
  }

  predicate IsLeaf(e: Expr) { e.Simple? || e.In? || e.Un? || e.Between? }

  lemma ParseSimple(name: string, op: string, val: Value, rest: Tokens)
    requires Lexable(Simple(name, op, val)) && IsColumn(name)
    ensures ParsePredicate(TokensOf(Simple(name, op, val)) + rest) == Some((Compare(name, op, val), rest))
  {
    hide ParseValue;
    ParseValueToken(val, rest);
    var ts := TokensOf(Simple(name, op, val)) + rest;
    if op == "NOT LIKE" {
      assert ts[2..] == [Word("LIKE")] + ([ValueToken(val)] + rest);
      assert ts[2..][1..] == [ValueToken(val)] + rest;
    } else {
      assert ts[2..] == [ValueToken(val)] + rest;
    }
  }

  lemma ParseIn(name: string, vals: Slice<Value>, rest: Tokens)
    requires Lexable(In(name, vals)) && IsColumn(name)
    ensures ParsePredicate(TokensOf(In(name, vals)) + rest) ==
            if vals.Elems() == [] then None else Some((Member(name, vals.elems), rest))
  {
    hide ParseValues;
    var vs := vals.Elems();
    var ts := TokensOf(In(name, vals)) + rest;
    assert ts[2..][1..] == ListTokens(vs) + ([RParen] + rest);
    if vs == [] {
      assert ts[2..][1..][0] == RParen;
      EmptyList(ts[2..][1..]);
    } else {
      ParseListTokens(vs, rest);
    }
  }

  lemma EmptyList(ts: Tokens)
    requires ts != [] && ts[0] == RParen
    ensures ParseValues(ts) == None
  {
  }

  lemma ParseUn(name: string, op: string, rest: Tokens)
    requires Lexable(Un(name, op)) && IsColumn(name)
    ensures ParsePredicate(TokensOf(Un(name, op)) + rest) == Some((NullTest(name, op == "IS NOT NULL"), rest))
  {
    var ts := TokensOf(Un(name, op)) + rest;
    if op == "IS NULL" {
      assert ts[2..] == [Word("NULL")] + rest;
    } else {
      assert ts[2..] == [Word("NOT"), Word("NULL")] + rest;
    }
  }

  lemma ParseBetween(name: string, l: Value, r: Value, rest: Tokens)
    requires Lexable(Between(name, l, r)) && IsColumn(name)
    ensures ParsePredicate(TokensOf(Between(name, l, r)) + rest) == Some((Range(name, l, r), rest))
  {
    hide ParseValue;
    var ts := TokensOf(Between(name, l, r)) + rest;
    var right := [ValueToken(r)] + rest;
    assert ts[2..] == [ValueToken(l)] + ([Word("AND")] + right);
    ParseValueToken(l, [Word("AND")] + right);
    assert ([Word("AND")] + right)[1..] == right;
    ParseValueToken(r, rest);
  }

  /** A column called NOT: the rest of the text is no boolean primary. */
  lemma NotAsName(e: Expr, rest: Tokens)
    requires Lexable(e) && IsLeaf(e) && e.name == "NOT"
    ensures ParseFactor(TokensOf(e) + rest) == None
  {
    hide IsColumn;
    KeywordsAreNoColumns();
    var ts := TokensOf(e) + rest;
    assert ParseFactor(ts).None? <==> ParsePredicate(ts[1..]).None?;
    match e
    case Simple(name, op, val) => assert ts[1] == OpTokens(op)[0];
    case In(_, vals) => assert ts[1] == Word("IN");
    case Un(_, op) => assert ts[1] == Word("IS");
    case Between(_, l, r) => assert ts[1] == Word("BETWEEN");
  }

  lemma ParseLeaf(e: Expr, rest: Tokens)
    requires Lexable(e) && IsLeaf(e)
    ensures ParseFactor(TokensOf(e) + rest) == if Parsable(e) then Some((CondOf(e), rest)) else None
  {
    var ts := TokensOf(e) + rest;
    assert ts[0] == Word(e.name);
    if e.name == "NOT" {
      KeywordsAreNoColumns();
      NotAsName(e, rest);
    } else if IsColumn(e.name) {
      match e
      case Simple(name, op, val) => ParseSimple(name, op, val, rest);
      case In(name, vals) => ParseIn(name, vals, rest);
      case Un(name, op) => ParseUn(name, op, rest);
      case Between(name, l, r) => ParseBetween(name, l, r, rest);
      assert ParseFactor(ts) == ParsePredicate(ts);
    }
  }

  // ---- Whole expressions ----

  /** The tokens of an expression are one boolean factor, whatever follows. */
  lemma {:induction false} ParseTokens(e: Expr, rest: Tokens)
    requires Lexable(e)
    ensures ParseFactor(TokensOf(e) + rest) == if Parsable(e) then Some((CondOf(e), rest)) else None
    decreases e, 0
  {
    hide ParseFactor, ParsePrimary, ParseOr;
    match e
    case Junction(op, sub) =>
      if sub.Elems() == [] {
        EmptyGroup(rest);
        assert TokensOf(e) == [LParen] + [] + [RParen];
        assert [LParen] + [] + [RParen] + rest == [LParen] + ([RParen] + rest);
      } else {
        ParseJunction(op, sub.elems, rest);
        Unwrap(SubTokens(op, sub.elems), rest);
      }
    case Not(x) => ParseNot(x, rest);
    case _ => ParseLeaf(e, rest);
  }

  lemma Unwrap(ts: Tokens, rest: Tokens)
    ensures ([LParen] + ts + [RParen]) + rest == [LParen] + (ts + ([RParen] + rest))
  {
  }

  lemma {:induction false} ParseNot(x: Expr, rest: Tokens)
    requires Lexable(x)
    ensures ParseFactor(TokensOf(Not(x)) + rest) == if Parsable(x) then Some((Neg(Group(CondOf(x))), rest)) else None
    decreases x, 2
  {
    hide ParseFactor, ParsePrimary, ParseOr, TokensOf, Lexable, Parsable, CondOf;
    ParseSubFactor(x, rest);
    NotStep([LParen] + (TokensOf(x) + ([RParen] + rest)));
    NotTokens(x, rest);
  }

  lemma NotTokens(x: Expr, rest: Tokens)
    ensures TokensOf(Not(x)) + rest == [Word("NOT")] + ([LParen] + (TokensOf(x) + ([RParen] + rest)))
  {
    Unwrap(TokensOf(x), rest);
    assert TokensOf(Not(x)) == [Word("NOT")] + ([LParen] + TokensOf(x) + [RParen]);
  }

  lemma EmptyGroup(rest: Tokens)
    ensures ParseFactor([LParen] + ([RParen] + rest)) == None
  {
    var ts := [RParen] + rest;
    NoFactor(ts);
    GroupStep(ts, None, rest);
  }

  /** A parenthesised expression is one boolean primary. */
  lemma {:induction false} ParseSubFactor(e: Expr, rest: Tokens)
    requires Lexable(e)
    ensures var g := [LParen] + (TokensOf(e) + ([RParen] + rest));
            ParseFactor(g) == ParsePrimary(g)
            == if Parsable(e) then Some((Group(CondOf(e)), rest)) else None
    decreases e, 1
  {
    hide ParseFactor, ParsePrimary, ParseOr, ParseAnd;
    var end := [RParen] + rest;
    var inner := TokensOf(e) + end;
    ParseTokens(e, end);
    if Parsable(e) {
      AndStep(inner, CondOf(e), end);
      OrStep(inner, CondOf(e), end);
      GroupStep(inner, Some(CondOf(e)), rest);
    } else {
      NoFactor(inner);
      GroupStep(inner, None, rest);
    }
  }

  /** What follows the first member of a junction. */
  function After(op: string, es: seq<Expr>, end: Tokens): Tokens
    requires es != []
  {
    if |es| == 1 then end else [Word(op)] + (SubTokens(op, es[1..]) + end)
  }

  lemma SubTokensSplit(op: string, es: seq<Expr>, end: Tokens)
    requires es != []
    ensures SubTokens(op, es) + end == [LParen] + (TokensOf(es[0]) + ([RParen] + After(op, es, end)))
  {
    hide TokensOf;
    var t := TokensOf(es[0]);
    if |es| == 1 {
      assert [LParen] + t + [RParen] + end == [LParen] + (t + ([RParen] + end));
    } else {
      var more := SubTokens(op, es[1..]);
      assert [LParen] + t + [RParen] + [Word(op)] + more + end
          == [LParen] + (t + ([RParen] + ([Word(op)] + (more + end))));
    }
  }

  lemma GroupsSplit(acc: seq<Cond>, es: seq<Expr>)
    requires es != []
    ensures ParsableIn(es) <==> Parsable(es[0]) && ParsableIn(es[1..])
    ensures ParsableIn(es) ==> Groups(es) == [Group(CondOf(es[0]))] + Groups(es[1..])
    ensures ParsableIn(es) ==> acc + Groups(es) == acc + [Group(CondOf(es[0]))] + Groups(es[1..])
    ensures ParsableIn(es) && |es| == 1 ==> Groups(es) == [Group(CondOf(es[0]))]
  {
    hide CondOf, Parsable;
    if ParsableIn(es) {
      Regroup(acc, Group(CondOf(es[0])), Groups(es[1..]));
    }
  }

  lemma Regroup(a: seq<Cond>, c: Cond, b: seq<Cond>)
    ensures a + ([c] + b) == a + [c] + b
    ensures b == [] ==> [c] + b == [c]
  {
  }

  /** The first member of a junction, and what is left to parse. */
  lemma {:induction false} ParseFirst(op: string, es: seq<Expr>, end: Tokens)
    requires LexableIn(es) && es != []
    ensures ParseFactor(SubTokens(op, es) + end) ==
            if Parsable(es[0]) then Some((Group(CondOf(es[0])), After(op, es, end))) else None
    decreases es, 2
  {
    hide ParseFactor, ParsePrimary, TokensOf, SubTokens, After, Parsable, CondOf;
    SubTokensSplit(op, es, end);
    ParseSubFactor(es[0], After(op, es, end));
  }

  /** The remaining members of an AND, after at least one. */
  lemma {:induction false} ParseAndMembers(acc: seq<Cond>, es: seq<Expr>, rest: Tokens)
    requires acc != [] && LexableIn(es) && es != []
    ensures ParseAndTail(acc, [Word("AND")] + (SubTokens("AND", es) + ([RParen] + rest))) ==
            if ParsableIn(es) then Some((And(acc + Groups(es)), [RParen] + rest)) else None
    decreases es, 3
  {
    hide ParseFactor, ParseAndTail, SubTokens, Parsable, ParsableIn, CondOf, Groups, Lexable;
    var end := [RParen] + rest;
    AndMore(acc, SubTokens("AND", es) + end);
    ParseFirst("AND", es, end);
    GroupsSplit(acc, es);
    NothingParsable();
    if Parsable(es[0]) {
      var g := Group(CondOf(es[0]));
      if |es| == 1 {
        assert es[1..] == [];
        TailEnds(acc + [g], end);
      } else {
        ParseAndMembers(acc + [g], es[1..], rest);
      }
    }
  }

  lemma NothingParsable()
    ensures ParsableIn([]) && Groups([]) == []
  {
  }

  lemma {:induction false} ParseOrMembers(acc: seq<Cond>, es: seq<Expr>, rest: Tokens)
    requires acc != [] && LexableIn(es) && es != []
    ensures ParseOrTail(acc, [Word("OR")] + (SubTokens("OR", es) + ([RParen] + rest))) ==
            if ParsableIn(es) then Some((Or(acc + Groups(es)), [RParen] + rest)) else None
    decreases es, 3
  {
    hide ParseFactor, ParseAnd, ParseOrTail, SubTokens, Parsable, ParsableIn, CondOf, Groups, Lexable;
    var end := [RParen] + rest;
    var ts := SubTokens("OR", es) + end;
    OrMore(acc, ts);
    ParseFirst("OR", es, end);
    GroupsSplit(acc, es);
    NothingParsable();
    if !Parsable(es[0]) {
      NoFactor(ts);
    } else {
      var g := Group(CondOf(es[0]));
      AndStep(ts, g, After("OR", es, end));
      if |es| == 1 {
        assert es[1..] == [];
        TailEnds(acc + [g], end);
      } else {
        ParseOrMembers(acc + [g], es[1..], rest);
      }
    }
  }

  lemma {:induction false} ParseJunction(op: string, es: seq<Expr>, rest: Tokens)
    requires IsJunctionOp(op) && LexableIn(es) && es != []
    ensures ParseFactor([LParen] + (SubTokens(op, es) + ([RParen] + rest))) ==
            if ParsableIn(es) then Some((Group(Inside(op, Groups(es))), rest)) else None
    decreases es, 5
  {
    hide ParseFactor, ParsePrimary, ParseOr, SubTokens, Parsable, ParsableIn, Groups, Lexable;
    var ts := SubTokens(op, es) + ([RParen] + rest);
    ParseInside(op, es, rest);
    GroupStep(ts, if ParsableIn(es) then Some(Inside(op, Groups(es))) else None, rest);
  }

  /** What stands between the outer parentheses of a junction. */
  function Inside(op: string, cs: seq<Cond>): Cond
    requires cs != []
  {
    if |cs| == 1 then cs[0] else if op == "AND" then And(cs) else Or(cs)
  }

  lemma {:induction false} ParseInside(op: string, es: seq<Expr>, rest: Tokens)
    requires IsJunctionOp(op) && LexableIn(es) && es != []
    ensures ParseOr(SubTokens(op, es) + ([RParen] + rest)) ==
            if ParsableIn(es) then Some((Inside(op, Groups(es)), [RParen] + rest)) else None
    decreases es, 4
  {
    hide ParseFactor, ParseAnd, ParseOr, ParseAndTail, ParseOrTail;
    hide SubTokens, Parsable, ParsableIn, CondOf, Groups, Lexable;
    var end := [RParen] + rest;
    var ts := SubTokens(op, es) + end;
    ParseFirst(op, es, end);
    GroupsSplit([], es);
    NothingParsable();
    if !Parsable(es[0]) {
      NoFactor(ts);
    } else {
      var g := Group(CondOf(es[0]));
      AndStep(ts, g, After(op, es, end));
      if |es| == 1 {
        assert es[1..] == [];
        OrStep(ts, g, end);
      } else if op == "AND" {
        ParseAndMembers([g], es[1..], rest);
        if ParsableIn(es) { OrStep(ts, And(Groups(es)), end); } else { NoTerm(ts); }
      } else {
        OrStep(ts, g, After(op, es, end));
        ParseOrMembers([g], es[1..], rest);
      }
    }
  }

  lemma NoTerm(ts: Tokens)
    ensures ParseAnd(ts) == None ==> ParseOr(ts) == None
  {
  }

  /** The printed text of a filter is one whole SQL-92 search condition exactly when no junction
      or membership list is empty and no name is reserved; its parse tree is then CondOf. */
  lemma PrintedTextParses(e: Expr)
    requires Lexable(e)
    ensures NoNil(e)
    ensures ParseCondition(Print(e)) == if Parsable(e) then Some(CondOf(e)) else None
  {
    LexableHasNoNil(e);
    LexPrint(e, "");
    assert Print(e) + "" == Print(e);
    assert TokensOf(e) + [] == TokensOf(e);
    ParseTokens(e, []);
    if Parsable(e) {
      AndStep(TokensOf(e), CondOf(e), []);
      OrStep(TokensOf(e), CondOf(e), []);
    } else {
      NoFactor(TokensOf(e));
    }
  }

  // ---- Reading the expression off the parse tree ----

  /** One-element junctions print no operator; they are read back as AND. */
  function Canon(e: Expr): Expr {
    match e
    case Junction(op, sub) =>
      if sub.NilSlice? then e
      else Junction(if |sub.elems| == 1 then "AND" else op, Slice(CanonEach(sub.elems)))
    case Not(x) => Not(Canon(x))
    case _ => e
  }

  function CanonEach(es: seq<Expr>): (r: seq<Expr>)
    ensures |r| == |es|
  {
    if es == [] then [] else [Canon(es[0])] + CanonEach(es[1..])
  }

  /** The expression whose text has a given parse tree, if there is one. */
  function Recover(c: Cond): Expr {
    match c
    case Compare(name, op, val) => Simple(name, op, val)
    case Range(name, l, r) => Between(name, l, r)
    case Member(name, vals) => In(name, Slice(vals))
    case NullTest(name, negated) => Un(name, if negated then "IS NOT NULL" else "IS NULL")
    case Neg(Group(x)) => Not(Recover(x))
    case Group(Group(x)) => Junction("AND", Slice([Recover(x)]))
    case Group(And(cs)) => Junction("AND", Slice(RecoverEach(cs)))
    case Group(Or(cs)) => Junction("OR", Slice(RecoverEach(cs)))
    case _ => Nil
  }

  function RecoverEach(cs: seq<Cond>): seq<Expr> {
    if cs == [] then [] else [RecoverGroup(cs[0])] + RecoverEach(cs[1..])
  }

  function RecoverGroup(c: Cond): Expr {
    match c
    case Group(x) => Recover(x)
    case _ => Nil
  }

  lemma {:induction false} RecoverCond(e: Expr)
    requires Lexable(e) && Parsable(e)
    ensures Recover(CondOf(e)) == Canon(e)
  {
    match e
    case Junction(op, sub) =>
      RecoverGroups(sub.elems);
      if |sub.elems| == 1 {
        assert Groups(sub.elems)[0] == Group(CondOf(sub.elems[0]));
        RecoverCond(sub.elems[0]);
        assert CanonEach(sub.elems) == [Canon(sub.elems[0])];
      }
    case Not(x) => RecoverCond(x);
    case _ =>
  }

  lemma {:induction false} RecoverGroups(es: seq<Expr>)
    requires LexableIn(es) && ParsableIn(es)
    ensures RecoverEach(Groups(es)) == CanonEach(es)
  {
    if es == [] {
    } else {
      RecoverCond(es[0]);
      RecoverGroups(es[1..]);
      assert Groups(es)[1..] == Groups(es[1..]);
    }
  }

  /** The two steps together: print, lex, parse, and read the tree back. */
  lemma PrintRecovers(e: Expr)
    requires Lexable(e) && Parsable(e)
    ensures NoNil(e)
    ensures ParseCondition(Print(e)).Some?
    ensures Recover(ParseCondition(Print(e)).value) == Canon(e)
  {
    PrintedTextParses(e);
    RecoverCond(e);
  }

  /** The operator that a one-element junction loses does not change its meaning. */
  lemma {:induction false} CanonKeepsMeaning(cmp: Collation, e: Expr, row: Row)
    requires Parsable(e)
    ensures Parsable(Canon(e))
    ensures Eval(cmp, CondOf(Canon(e)), row) == Eval(cmp, CondOf(e), row)
  {
    match e
    case Junction(op, sub) =>
      CanonKeepsEach(cmp, sub.elems, row);
      if |sub.elems| == 1 {
        CanonKeepsMeaning(cmp, sub.elems[0], row);
        assert Canon(e).sub.elems == [Canon(sub.elems[0])];
        assert Groups(sub.elems) == [Group(CondOf(sub.elems[0]))];
        assert Groups(Canon(e).sub.elems) == [Group(CondOf(Canon(sub.elems[0])))];
      }
    case Not(x) => CanonKeepsMeaning(cmp, x, row);
    case _ =>
  }

  lemma {:induction false} CanonKeepsEach(cmp: Collation, es: seq<Expr>, row: Row)
    requires ParsableIn(es)
    ensures ParsableIn(CanonEach(es))
    ensures EvalAll(cmp, Groups(CanonEach(es)), row) == EvalAll(cmp, Groups(es), row)
    ensures EvalAny(cmp, Groups(CanonEach(es)), row) == EvalAny(cmp, Groups(es), row)
  {
    if es == [] {
    } else {
      CanonKeepsMeaning(cmp, es[0], row);
      CanonKeepsEach(cmp, es[1..], row);
      assert CanonEach(es)[1..] == CanonEach(es[1..]);
      assert Groups(es)[1..] == Groups(es[1..]);
      assert Groups(CanonEach(es))[1..] == Groups(CanonEach(es[1..]));
    }
  }
}
