/** Counting quotes: how many a filter's text has, and how many it would take to write its tokens. */
module QuoteCount {
  import opened Values
  import opened Texts
  import opened Filter
  import opened SqlLexer
  import opened LexLaws
  import opened FilterSql
  import opened CondTokens

  // ---- Quotes in a text and in its tokens ----

  function Quotes(s: string): nat {
    if s == "" then 0 else (if s[0] == '\'' then 1 else 0) + Quotes(s[1..])
  }

  lemma {:induction false} QuotesPlus(a: string, b: string)
    ensures Quotes(a + b) == Quotes(a) + Quotes(b)
  {
    if a == "" {
      assert a + b == b;
    } else {
      assert (a + b)[1..] == a[1..] + b;
      QuotesPlus(a[1..], b);
    }
  }

  lemma {:induction false} NoQuote(s: string)
    ensures Quotes(s) == 0 <==> '\'' !in s
  {
    if s == "" {
    } else {
      NoQuote(s[1..]);
      assert s == [s[0]] + s[1..];
    }
  }

  /** The quotes that it takes to write the tokens: two around a literal and two for each inside. */
  function Cost(ts: Tokens): nat {
    if ts == [] then 0
    else
      (match ts[0]
       case Text(s) => 2 + 2 * Quotes(s)
       case Ident(id) => Quotes(id)
       case _ => 0) + Cost(ts[1..])
  }

  lemma {:induction false} CostPlus(a: Tokens, b: Tokens)
    ensures Cost(a + b) == Cost(a) + Cost(b)
  {
    if a == [] {
      assert a + b == b;
    } else {
      assert (a + b)[1..] == a[1..] + b;
      CostPlus(a[1..], b);
    }
  }

  lemma {:induction false} ReadTextQuotes(s: string)
    requires ReadText(s).Some?
    ensures var (v, n) := ReadText(s).value; Quotes(s[..n]) == 1 + 2 * Quotes(v)
  {
    var (v, n) := ReadText(s).value;
    if s[0] != '\'' {
      ReadTextQuotes(s[1..]);
      assert s[..n][1..] == s[1..][..n - 1] && v[1..] == ReadText(s[1..]).value.0;
    } else if |s| > 1 && s[1] == '\'' {
      ReadTextQuotes(s[2..]);
      assert s[..n][1..][1..] == s[2..][..n - 2] && v[1..] == ReadText(s[2..]).value.0;
    } else {
      assert s[..1][1..] == "";
    }
  }

  lemma {:induction false} ReadIdentQuotes(s: string)
    requires ReadIdent(s).Some?
    ensures var (v, n) := ReadIdent(s).value; Quotes(s[..n]) == Quotes(v)
  {
    var (v, n) := ReadIdent(s).value;
    if s[0] != '`' {
      ReadIdentQuotes(s[1..]);
      assert s[..n][1..] == s[1..][..n - 1] && v[1..] == ReadIdent(s[1..]).value.0;
    } else {
      assert s[..1][1..] == "";
    }
  }

  lemma CostOne(t: Token)
    ensures Cost([t]) == match t case Text(s) => 2 + 2 * Quotes(s) case Ident(id) => Quotes(id) case _ => 0
  {
  }

  lemma FirstQuotes(s: string)
    requires s != "" && First(s).Some?
    ensures var (t, n) := First(s).value; Quotes(s[..n]) >= Cost(t)
  {
    hide ToNewline, ToBracket, WordLength, Run;
    var (t, n) := First(s).value;
    var c := s[0];
    if t != [] {
      CostOne(t[0]);
      assert s[..n] == [c] + s[1..][..n - 1];
      QuotesPlus([c], s[1..][..n - 1]);
      assert c == '\'' ==> Quotes([c]) == 1;
      if c == '\'' {
        ReadTextQuotes(s[1..]);
      } else if c == '`' {
        ReadIdentQuotes(s[1..]);
      }
    }
  }

  /** A text holds at least as many quotes as its tokens cost; comments may hold more. */
  lemma {:induction false} LexQuotes(s: string)
    requires Lex(s).Some?
    ensures Quotes(s) >= Cost(Lex(s).value)
    decreases |s|
  {
    hide First;
    if s == "" {
    } else {
      var (t, n) := First(s).value;
      FirstQuotes(s);
      LexQuotes(s[n..]);
      assert s == s[..n] + s[n..];
      QuotesPlus(s[..n], s[n..]);
      CostPlus(t, Lex(s[n..]).value);
    }
  }

  // ---- Filters of known shape, with any strings ----

  /** Junctions are AND or OR, and unary operators are the two null tests. */
  predicate PlainOps(e: Expr) {
    match e
    case Junction(op, sub) => IsJunctionOp(op) && (sub.NilSlice? || PlainOpsIn(sub.elems))
    case Not(x) => PlainOps(x)
    case Un(_, op) => IsNullOp(op)
    case _ => true
  }

  predicate PlainOpsIn(es: seq<Expr>) {
    es == [] || (PlainOps(es[0]) && PlainOpsIn(es[1..]))
  }

  /** Lexable, except that strings may hold quotes. */
  predicate Shaped(e: Expr) {
    match e
    case Nil => false
    case Simple(name, op, val) => IsWord(name) && IsSimpleOp(op) && IsLiteral(val)
    case Junction(op, sub) => IsJunctionOp(op) && (sub.NilSlice? || ShapedIn(sub.elems))
    case Not(x) => Shaped(x)
    case In(name, vals) => IsWord(name) && forall v :: v in vals.Elems() ==> IsLiteral(v)
    case Un(name, op) => IsWord(name) && IsNullOp(op)
    case Between(name, l, r) => IsWord(name) && IsLiteral(l) && IsLiteral(r)
  }

  predicate ShapedIn(es: seq<Expr>) {
    es == [] || (Shaped(es[0]) && ShapedIn(es[1..]))
  }

  function ValueQuotes(v: Value): nat {
    if v.Str? then Quotes(v.s) else 0
  }

  function ListQuotes(vs: seq<Value>): nat {
    if vs == [] then 0 else ValueQuotes(vs[0]) + ListQuotes(vs[1..])
  }

  /** How many quotes the string values of a filter hold. */
  function QuotesIn(e: Expr): nat {
    match e
    case Simple(_, _, val) => ValueQuotes(val)
    case Junction(_, sub) => if sub.NilSlice? then 0 else QuotesInEach(sub.elems)
    case Not(x) => QuotesIn(x)
    case In(_, vals) => ListQuotes(vals.Elems())
    case Between(_, l, r) => ValueQuotes(l) + ValueQuotes(r)
    case _ => 0
  }

  function QuotesInEach(es: seq<Expr>): nat {
    if es == [] then 0 else QuotesIn(es[0]) + QuotesInEach(es[1..])
  }

  lemma LiteralQuotes(v: Value)
    ensures PlainValue(v) <==> IsLiteral(v) && ValueQuotes(v) == 0
  {
    if v.Str? { NoQuote(v.s); }
  }

  lemma {:induction false} LiteralsQuotes(vs: seq<Value>)
    ensures (forall v :: v in vs ==> PlainValue(v)) <==> (forall v :: v in vs ==> IsLiteral(v)) && ListQuotes(vs) == 0
  {
    if vs == [] {
    } else {
      LiteralQuotes(vs[0]);
      LiteralsQuotes(vs[1..]);
      assert vs == [vs[0]] + vs[1..];
    }
  }

  lemma {:induction false} LexableIsShaped(e: Expr)
    ensures Lexable(e) <==> Shaped(e) && QuotesIn(e) == 0
  {
    match e
    case Simple(_, _, val) => LiteralQuotes(val);
    case Junction(_, sub) => if sub.Slice? { LexableInIsShaped(sub.elems); }
    case Not(x) => LexableIsShaped(x);
    case In(_, vals) => LiteralsQuotes(vals.Elems());
    case Between(_, l, r) =>
      LiteralQuotes(l);
      LiteralQuotes(r);
    case _ =>
  }

  lemma {:induction false} LexableInIsShaped(es: seq<Expr>)
    ensures LexableIn(es) <==> ShapedIn(es) && QuotesInEach(es) == 0
  {
    if es == [] {
    } else {
      LexableIsShaped(es[0]);
      LexableInIsShaped(es[1..]);
    }
  }

  // ---- The quotes that a filter's text lacks ----

  lemma ThreeQuotes(a: string, b: string, c: string)
    ensures Quotes(a + b + c) == Quotes(a) + Quotes(b) + Quotes(c)
  {
    QuotesPlus(a + b, c);
    QuotesPlus(a, b);
  }

  lemma ThreeCosts(a: Tokens, b: Tokens, c: Tokens)
    ensures Cost(a + b + c) == Cost(a) + Cost(b) + Cost(c)
  {
    CostPlus(a + b, c);
    CostPlus(a, b);
  }

  lemma WordQuotes(s: string)
    requires IsWord(s) || IsSym(s)
    ensures Quotes(s) == 0
  {
    NoQuote(s);
  }

  lemma OpQuotes(op: string)
    requires IsSimpleOp(op) || IsNullOp(op)
    ensures Quotes(op) == 0 && Cost(OpTokens(op)) == 0
  {
    hide Quotes, Cost;
    NoQuote(op);
    NoLiteralCosts(OpTokens(op));
  }

  lemma {:induction false} NoLiteralCosts(ts: Tokens)
    requires forall i :: 0 <= i < |ts| ==> !ts[i].Text? && !ts[i].Ident?
    ensures Cost(ts) == 0
  {
    if ts == [] {
    } else {
      NoLiteralCosts(ts[1..]);
    }
  }

  lemma LiteralCost(v: Value)
    requires IsLiteral(v)
    ensures Cost([ValueToken(v)]) == Quotes(WrapStr(v, "'")) + ValueQuotes(v)
  {
    CostOne(ValueToken(v));
    match v
    case Str(s) =>
      ThreeQuotes("'", s, "'");
    case Num(t) =>
      NumeralIsWord(t);
      NoQuote(t);
    case Bool(_) => NoQuote(Sprint(v));
  }

  lemma {:induction false} ListCost(vs: seq<Value>)
    requires forall v :: v in vs ==> IsLiteral(v)
    ensures Cost(ListTokens(vs)) == Quotes(Join(QuoteEach(vs), ",")) + ListQuotes(vs)
  {
    hide Quotes, Cost, ValueToken, WrapStr, ValueQuotes;
    FixedQuotes();
    if vs == [] {
      NoLiteralCosts([]);
    } else {
      LiteralCost(vs[0]);
      if |vs| > 1 {
        assert QuoteEach(vs)[1..] == QuoteEach(vs[1..]);
        ThreeQuotes(WrapStr(vs[0], "'"), ",", Join(QuoteEach(vs[1..]), ","));
        NoQuote(",");
        NoLiteralCosts([Comma]);
        ListCost(vs[1..]);
        assert ListTokens(vs) == [ValueToken(vs[0])] + [Comma] + ListTokens(vs[1..]);
        ThreeCosts([ValueToken(vs[0])], [Comma], ListTokens(vs[1..]));
      }
    }
  }

  lemma FixedQuotes()
    ensures Quotes(" ") == Quotes(" IN (") == Quotes(")") == Quotes("(") == Quotes("NOT (") == 0
    ensures Quotes(" BETWEEN ") == Quotes(" AND ") == 0 && Quotes("") == 0
  {
    hide Quotes;
    NoQuote("");
    NoQuote(" ");
    NoQuote("(");
    NoQuote(")");
    NoQuote(" IN (");
    NoQuote("NOT (");
    NoQuote(" BETWEEN ");
    NoQuote(" AND ");
  }

  lemma SimpleCost(e: Expr)
    requires e.Simple? && Shaped(e)
    ensures Cost(TokensOf(e)) == Quotes(Print(e)) + QuotesIn(e)
  {
    hide Quotes, Cost, ValueToken, WrapStr;
    FixedQuotes();
    WordQuotes(e.name);
    OpQuotes(e.op);
    LiteralCost(e.val);
    ThreeQuotes(e.name + " " + e.op, " ", WrapStr(e.val, "'"));
    ThreeQuotes(e.name, " ", e.op);
    ThreeCosts([Word(e.name)], OpTokens(e.op), [ValueToken(e.val)]);
    CostOne(Word(e.name));
  }

  lemma BetweenCost(e: Expr)
    requires e.Between? && Shaped(e)
    ensures Cost(TokensOf(e)) == Quotes(Print(e)) + QuotesIn(e)
  {
    hide Quotes, Cost, ValueToken, WrapStr;
    var l, r := WrapStr(e.left, "'"), WrapStr(e.right, "'");
    FixedQuotes();
    WordQuotes(e.name);
    LiteralCost(e.left);
    LiteralCost(e.right);
    ThreeQuotes(e.name + " BETWEEN " + l, " AND ", r);
    ThreeQuotes(e.name, " BETWEEN ", l);
    var a, b := [Word(e.name)] + [Word("BETWEEN")] + [ValueToken(e.left)], [Word("AND")];
    assert TokensOf(e) == a + b + [ValueToken(e.right)];
    ThreeCosts(a, b, [ValueToken(e.right)]);
    ThreeCosts([Word(e.name)], [Word("BETWEEN")], [ValueToken(e.left)]);
    CostOne(Word(e.name));
    CostOne(Word("BETWEEN"));
    CostOne(Word("AND"));
  }

  lemma InCost(e: Expr)
    requires e.In? && Shaped(e)
    ensures Cost(TokensOf(e)) == Quotes(Print(e)) + QuotesIn(e)
  {
    hide Quotes, Cost, ListTokens, QuoteEach;
    var list, ts := Join(QuoteEach(e.vals.Elems()), ","), ListTokens(e.vals.Elems());
    FixedQuotes();
    WordQuotes(e.name);
    ListCost(e.vals.Elems());
    ThreeQuotes(e.name + " IN (", list, ")");
    QuotesPlus(e.name, " IN (");
    ThreeCosts([Word(e.name), Word("IN"), LParen], ts, [RParen]);
    PunctuationCost(e.name);
  }

  lemma PunctuationCost(name: string)
    ensures Cost([Word(name), Word("IN"), LParen]) == Cost([LParen]) == Cost([RParen]) == Cost([Word(name)]) == 0
    ensures Cost([Word(name), LParen]) == 0
  {
    CostPlus([Word(name)], [Word("IN"), LParen]);
    CostPlus([Word("IN")], [LParen]);
    CostPlus([Word(name)], [LParen]);
  }

  lemma {:induction false} PrintCost(e: Expr)
    requires Shaped(e) && NoNil(e)
    ensures Cost(TokensOf(e)) == Quotes(Print(e)) + QuotesIn(e)
    decreases e, 1
  {
    hide Quotes, Cost;
    match e
    case Simple(_, _, _) => SimpleCost(e);
    case Between(_, _, _) => BetweenCost(e);
    case In(_, _) => InCost(e);
    case Un(name, op) => UnCost(name, op);
    case Not(x) => NotCost(x);
    case Junction(_, _) => JunctionCost(e);
  }

  lemma UnCost(name: string, op: string)
    requires IsWord(name) && IsNullOp(op)
    ensures Cost(TokensOf(Un(name, op))) == Quotes(Print(Un(name, op)))
  {
    hide Quotes, Cost;
    FixedQuotes();
    WordQuotes(name);
    OpQuotes(op);
    ThreeQuotes(name, " ", op);
    CostPlus([Word(name)], OpTokens(op));
    CostOne(Word(name));
  }

  lemma {:induction false} NotCost(x: Expr)
    requires Shaped(x) && NoNil(x)
    ensures Cost(TokensOf(Not(x))) == Quotes(Print(Not(x))) + QuotesIn(x)
    decreases x, 2
  {
    hide Quotes, Cost, Shaped;
    PrintCost(x);
    FixedQuotes();
    ThreeQuotes("NOT (", Print(x), ")");
    PunctuationCost("NOT");
    ThreeCosts([Word("NOT"), LParen], TokensOf(x), [RParen]);
  }

  lemma {:induction false} JunctionCost(e: Expr)
    requires e.Junction? && Shaped(e) && NoNil(e)
    ensures Cost(TokensOf(e)) == Quotes(Print(e)) + QuotesIn(e)
    decreases e, 0
  {
    hide Quotes, Cost, SubTokens, PrintEach;
    var es := e.sub.Elems();
    var text, ts := Join(PrintEach(es), " " + e.jop + " "), SubTokens(e.jop, es);
    if e.sub.Slice? { SubsCost(e.jop, es); } else { NothingCosts(e.jop); }
    FixedQuotes();
    PunctuationCost("");
    assert e.sub.NilSlice? ==> TokensOf(e) == [LParen] + [] + [RParen];
    ThreeQuotes("(", text, ")");
    ThreeCosts([LParen], ts, [RParen]);
  }

  lemma NothingCosts(op: string)
    ensures SubTokens(op, []) == [] && Cost([]) == 0 && Quotes(Join(PrintEach([]), " " + op + " ")) == 0
  {
  }

  lemma {:induction false} SubsCost(op: string, es: seq<Expr>)
    requires IsJunctionOp(op) && ShapedIn(es) && NoNilIn(es)
    ensures Cost(SubTokens(op, es)) == Quotes(Join(PrintEach(es), " " + op + " ")) + QuotesInEach(es)
    decreases es, 1
  {
    hide Quotes, Cost, Shaped, NoNil, Print, TokensOf, QuotesIn;
    if es == [] {
      NothingCosts(op);
    } else {
      var sep := " " + op + " ";
      PrintCost(es[0]);
      FixedQuotes();
      PunctuationCost(op);
      ThreeQuotes("(", Print(es[0]), ")");
      ThreeCosts([LParen], TokensOf(es[0]), [RParen]);
      if |es| > 1 {
        SubsCost(op, es[1..]);
        WordQuotes(op);
        ThreeQuotes(" ", op, " ");
        assert PrintEach(es)[1..] == PrintEach(es[1..]);
        ThreeQuotes("(" + Print(es[0]) + ")", sep, Join(PrintEach(es[1..]), sep));
        ThreeCosts([LParen] + TokensOf(es[0]) + [RParen], [Word(op)], SubTokens(op, es[1..]));
      }
    }
  }
}
