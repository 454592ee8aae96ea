/** Filters and the trees that the parser gives: the tree of a filter determines its tokens, and a
    filter that is read off such a tree has it as its own. */
module FilterTrees {
  import opened Filter
  import opened SqlLexer
  import opened SqlCondition
  import opened FilterSql
  import opened FilterParse
  import opened CondTokens
  import opened QuoteCount

  // ---- The tree determines the tokens ----

  lemma {:induction false} CondTokensOf(e: Expr)
    requires Parsable(e) && PlainOps(e)
    ensures Unparse(CondOf(e)) == TokensOf(e)
  {
    match e
    case Junction(op, sub) =>
      SubCondTokens(op, sub.elems);
      if |sub.elems| == 1 { assert Groups(sub.elems)[0] == Group(CondOf(sub.elems[0])); }
    case Not(x) =>
      CondTokensOf(x);
      assert [Word("NOT")] + ([LParen] + TokensOf(x) + [RParen]) == [Word("NOT"), LParen] + TokensOf(x) + [RParen];
    case _ =>
  }

  lemma {:induction false} SubCondTokens(op: string, es: seq<Expr>)
    requires ParsableIn(es) && PlainOpsIn(es)
    ensures UnparseEach(op, Groups(es)) == SubTokens(op, es)
    decreases es
  {
    hide Parsable, PlainOps, TokensOf, CondOf;
    if es == [] {
    } else {
      CondTokensOf(es[0]);
      SubCondTokens(op, es[1..]);
      assert Groups(es)[1..] == Groups(es[1..]);
      assert Unparse(Groups(es)[0]) == [LParen] + TokensOf(es[0]) + [RParen];
    }
  }

  /** A filter whose tree can come out of the parser is of known shape. */
  lemma {:induction false} ReadIsShaped(e: Expr)
    requires Parsable(e) && PlainOps(e) && Sound(CondOf(e))
    ensures Shaped(e)
  {
    hide IsColumn, IsWord;
    match e
    case Junction(op, sub) =>
      var es := sub.elems;
      assert |es| == 1 ==> Groups(es) == [CondOf(e).arg];
      SubsAreShaped(es);
    case Not(x) => ReadIsShaped(x);
    case Simple(name, _, _) => ColumnIsWord(name);
    case In(name, _) => ColumnIsWord(name);
    case Un(name, _) => ColumnIsWord(name);
    case Between(name, _, _) => ColumnIsWord(name);
  }

  lemma {:induction false} SubsAreShaped(es: seq<Expr>)
    requires ParsableIn(es) && PlainOpsIn(es) && SoundEach(Groups(es))
    ensures ShapedIn(es)
    decreases es
  {
    hide Parsable, PlainOps, Shaped, CondOf;
    if es == [] {
    } else {
      assert Groups(es)[1..] == Groups(es[1..]);
      SubsAreShaped(es[1..]);
      ReadIsShaped(es[0]);
    }
  }

  lemma {:induction false} ParsableHasNoNil(e: Expr)
    requires Parsable(e)
    ensures NoNil(e)
  {
    match e
    case Junction(_, sub) => ParsableInHasNoNil(sub.elems);
    case Not(x) => ParsableHasNoNil(x);
    case _ =>
  }

  lemma {:induction false} ParsableInHasNoNil(es: seq<Expr>)
    requires ParsableIn(es)
    ensures NoNilIn(es)
  {
    if es == [] {
    } else {
      ParsableHasNoNil(es[0]);
      ParsableInHasNoNil(es[1..]);
    }
  }

  // ---- The filter of a tree ----

  /** A filter that is read off a tree of the parser is one whose tree that is. */
  lemma {:induction false} RecoveredHasTree(c: Cond, e: Expr)
    requires Sound(c) && NoNil(e) && Recover(c) == e
    ensures Parsable(e) && PlainOps(e) && CondOf(e) == c
    decreases e
  {
    hide IsColumn, IsSimpleOp, IsLiteral;
    match c
    case Neg(g) => RecoveredHasTree(g.arg, e.expr);
    case Group(x) =>
      match x {
        case Group(y) =>
          var only := e.sub.elems;
          assert only == [Recover(y)] && only[1..] == [];
          RecoveredHasTree(y, only[0]);
          assert ParsableIn(only) && PlainOpsIn(only) && Groups(only) == [Group(y)];
        case And(cs) => MembersHaveTrees(cs, e.sub.elems);
        case Or(cs) => MembersHaveTrees(cs, e.sub.elems);
      }
    case _ =>
  }

  lemma {:induction false} MembersHaveTrees(cs: seq<Cond>, es: seq<Expr>)
    requires SoundEach(cs) && NoNilIn(es) && RecoverEach(cs) == es
    ensures |cs| == |es| && ParsableIn(es) && PlainOpsIn(es) && Groups(es) == cs
    decreases es
  {
    hide Sound, Recover, NoNil, Parsable, PlainOps, CondOf;
    if cs == [] {
    } else {
      assert es[0] == RecoverGroup(cs[0]) && es[1..] == RecoverEach(cs[1..]);
      NilIsNotNoNil();
      RecoverGroupIs(cs[0]);
      SoundGroup(cs[0]);
      RecoveredHasTree(cs[0].arg, es[0]);
      MembersHaveTrees(cs[1..], es[1..]);
      assert cs == [cs[0]] + cs[1..];
    }
  }

  lemma NilIsNotNoNil()
    ensures !NoNil(Nil)
  {
  }

  lemma RecoverGroupIs(c: Cond)
    ensures RecoverGroup(c) == if c.Group? then Recover(c.arg) else Nil
  {
  }

  lemma SoundGroup(c: Cond)
    ensures c.Group? ==> Sound(c) == Sound(c.arg)
  {
  }

  lemma ParsedIsSound(text: string)
    ensures var r := ParseCondition(text); r.Some? ==> Sound(r.value)
  {
    hide Lex, ParseOr, Sound, Unparse;
    if Lex(text).Some? {
      OrTakes(Lex(text).value);
    }
  }
}
