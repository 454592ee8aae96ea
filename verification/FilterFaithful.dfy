/** Which filters are written faithfully, that is, have a text whose parse tree is their own: the
    parser takes exactly the tokens of its tree, and the number of quotes in the text tells how many
    stood inside string values. */
module FilterFaithful {
  import opened Values
  import opened Filter
  import opened SqlLexer
  import opened SqlCondition
  import opened FilterSql
  import opened FilterParse
  import opened CondTokens
  import opened FilterTrees
  import opened QuoteCount

  // ---- Filters of declared operators ----

  /** A filter whose text is a search condition with the filter's own parse tree is Lexable. */
  lemma FaithfulIsLexable(e: Expr)
    requires Parsable(e) && PlainOps(e) && NoNil(e)
    requires ParseCondition(Print(e)) == Some(CondOf(e))
    ensures Lexable(e)
  {
    hide Lex, ParseOr, Print, CondOf, Shaped, Sound, Cost, Quotes, QuotesIn, Lexable, TokensOf, Unparse;
    var ts := Lex(Print(e)).value;
    OrTakes(ts);
    CondTokensOf(e);
    assert TokensOf(e) + [] == TokensOf(e);
    LexQuotes(Print(e));
    ReadIsShaped(e);
    PrintCost(e);
    LexableIsShaped(e);
  }

  /** A filter of declared operators, column names and non-empty lists has its own tree as text
      exactly when every comparison operator is a known one and every value a number, a boolean or a
      string without quotes. */
  lemma OwnTreeExact(e: Expr)
    requires Parsable(e) && PlainOps(e)
    ensures NoNil(e)
    ensures ParseCondition(Print(e)) == Some(CondOf(e)) <==> Lexable(e)
  {
    hide ParseCondition, Print, CondOf, Lexable, Parsable, PlainOps;
    ParsableHasNoNil(e);
    if Lexable(e) {
      PrintedTextParses(e);
    } else if ParseCondition(Print(e)) == Some(CondOf(e)) {
      FaithfulIsLexable(e);
    }
  }

  // ---- Every printable filter ----

  lemma {:induction false} CanonPrints(e: Expr)
    requires NoNil(e)
    ensures NoNil(Canon(e)) && Print(Canon(e)) == Print(e)
  {
    match e
    case Junction(op, sub) =>
      if sub.Slice? {
        CanonPrintsEach(sub.elems);
      }
    case Not(x) => CanonPrints(x);
    case _ =>
  }

  lemma {:induction false} CanonPrintsEach(es: seq<Expr>)
    requires NoNilIn(es)
    ensures NoNilIn(CanonEach(es)) && PrintEach(CanonEach(es)) == PrintEach(es)
  {
    hide NoNil, Canon, Print;
    if es == [] {
    } else {
      CanonPrints(es[0]);
      CanonPrintsEach(es[1..]);
      assert CanonEach(es)[1..] == CanonEach(es[1..]);
    }
  }

  lemma {:induction false} CanonParsable(e: Expr)
    ensures Parsable(Canon(e)) <==> Parsable(e)
  {
    hide IsColumn;
    match e
    case Junction(op, sub) => if sub.Slice? { CanonParsableIn(sub.elems); }
    case Not(x) => CanonParsable(x);
    case _ =>
  }

  lemma {:induction false} CanonParsableIn(es: seq<Expr>)
    ensures ParsableIn(CanonEach(es)) <==> ParsableIn(es)
  {
    hide Parsable, Canon;
    if es == [] {
    } else {
      CanonParsable(es[0]);
      CanonParsableIn(es[1..]);
      assert CanonEach(es)[1..] == CanonEach(es[1..]);
    }
  }

  lemma {:induction false} CanonTwice(e: Expr)
    ensures Canon(Canon(e)) == Canon(e)
  {
    match e
    case Junction(op, sub) => if sub.Slice? { CanonTwiceEach(sub.elems); }
    case Not(x) => CanonTwice(x);
    case _ =>
  }

  lemma {:induction false} CanonTwiceEach(es: seq<Expr>)
    ensures CanonEach(CanonEach(es)) == CanonEach(es)
  {
    hide Canon;
    if es == [] {
    } else {
      CanonTwice(es[0]);
      CanonTwiceEach(es[1..]);
      assert CanonEach(es)[1..] == CanonEach(es[1..]);
    }
  }

  /** Every printable filter: what its text is read as is the filter again, up to the operator of
      one-element junctions, exactly when every name is a column name, every operator a known one,
      every value a number, a boolean or a string without quotes, and nothing is empty. Anything else
      is read as another filter, as a condition that no filter has, or not at all. */
  lemma FaithfulExact(e: Expr)
    requires NoNil(e)
    ensures var r := ParseCondition(Print(e));
            r.Some? && Recover(r.value) == Canon(e) <==> Lexable(Canon(e)) && Parsable(e)
  {
    hide ParseCondition, Print, CondOf, Lexable, Parsable, PlainOps, Recover, Canon, Sound, NoNil;
    var x := Canon(e);
    CanonPrints(e);
    CanonParsable(e);
    CanonTwice(e);
    var r := ParseCondition(Print(e));
    if r.Some? && Recover(r.value) == x {
      ParsedIsSound(Print(e));
      RecoveredHasTree(r.value, x);
      FaithfulIsLexable(x);
    } else if Lexable(x) && Parsable(x) {
      PrintRecovers(x);
    }
  }

  lemma {:induction false} ShapedHasPlainOps(e: Expr)
    requires Shaped(e)
    ensures PlainOps(e)
  {
    match e
    case Junction(_, sub) => if sub.Slice? { ShapedInHavePlainOps(sub.elems); }
    case Not(x) => ShapedHasPlainOps(x);
    case _ =>
  }

  lemma {:induction false} ShapedInHavePlainOps(es: seq<Expr>)
    requires ShapedIn(es)
    ensures PlainOpsIn(es)
  {
    if es == [] {
    } else {
      ShapedHasPlainOps(es[0]);
      ShapedInHavePlainOps(es[1..]);
    }
  }

  /** Strings at any depth, in comparisons, lists and ranges, are written faithfully exactly when
      none of them holds a quote: wrapStr adds quotes around a string but doubles none inside. */
  lemma StringsFaithfulExact(e: Expr)
    requires Shaped(e) && Parsable(e)
    ensures NoNil(e)
    ensures ParseCondition(Print(e)) == Some(CondOf(e)) <==> QuotesIn(e) == 0
  {
    hide ParseCondition, Print, CondOf, Parsable, PlainOps, Shaped, QuotesIn;
    ShapedHasPlainOps(e);
    OwnTreeExact(e);
    LexableIsShaped(e);
  }

  /** One comparison with a string. */
  lemma StringFaithfulIffNoQuote(name: string, op: string, v: string)
    requires IsWord(name) && IsSimpleOp(op) && IsColumn(name)
    ensures ParseCondition(Print(Simple(name, op, Str(v)))) == Some(Compare(name, op, Str(v))) <==> '\'' !in v
  {
    hide ParseCondition, Print;
    StringsFaithfulExact(Simple(name, op, Str(v)));
    NoQuote(v);
  }
}
