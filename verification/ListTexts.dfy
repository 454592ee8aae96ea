/** What the COUNT and the SELECT text of a listing mean, for every filter: both are lexed and parsed,
    and whatever the filter prints, they carry the same condition. */
module ListTexts {
  import opened Values
  import opened Texts
  import opened Filter
  import opened SqlLexer
  import opened LexLaws
  import opened SqlCondition
  import opened FilterSql
  import opened FilterParse
  import opened CondTokens
  import opened Query
  import opened Statements
  import opened ListItems

  // ---- The clauses, as tokens ----

  function WhereTokens(e: Expr): Tokens {
    if e.Nil? then [] else [Word("WHERE")] + TokensOf(e)
  }

  function DirWord(asc: bool): string {
    if asc then "ASC" else "DESC"
  }

  function OrderListTokens(os: seq<Order>): Tokens {
    if os == [] then []
    else [Ident(os[0].name), Word(DirWord(os[0].asc))] + (if |os| == 1 then [] else [Comma] + OrderListTokens(os[1..]))
  }

  function OrderByTokens(os: seq<Order>): Tokens {
    if os == [] then [] else [Word("ORDER"), Word("BY")] + OrderListTokens(os)
  }

  function LimitTokens(p: Option<Page>): Tokens {
    if p.None? then [] else [Word("LIMIT"), Word(NatText(p.value.offset)), Comma, Word(IntText(p.value.size))]
  }

  predicate PlainOrders(os: seq<Order>) {
    forall i :: 0 <= i < |os| ==> '`' !in os[i].name
  }

  lemma NumeralsAreWords(p: Page)
    ensures IsWord(NatText(p.offset)) && IsWord(IntText(p.size))
  {
  }

  lemma ReadLimit(p: Option<Page>)
    ensures Boundary(LimitText(p)) && Reads(LimitText(p), LimitTokens(p))
  {
    ReadEnd();
    if p.Some? {
      var o, n := NatText(p.value.offset), IntText(p.value.size);
      NumeralsAreWords(p.value);
      ReadLimitOf(o, n);
      assert " LIMIT " + (o + ", " + n) == " " + ("LIMIT" + (" " + (o + ("," + (" " + (n + "")))))) by {
        assert " LIMIT " == " " + "LIMIT" + " " && ", " == "," + " ";
      }
    }
  }

  lemma ReadLimitOf(o: string, n: string)
    requires IsWord(o) && IsWord(n)
    ensures Reads(" " + ("LIMIT" + (" " + (o + ("," + (" " + (n + "")))))), [Word("LIMIT"), Word(o), Comma, Word(n)])
  {
    hide Reads, IsWord;
    ReadEnd();
    ReadSpacedWord(n, "", []);
    ReadPunctuation(" " + (n + ""), [Word(n)] + []);
    ReadSpacedWord(o, "," + (" " + (n + "")), [Comma] + ([Word(n)] + []));
    LimitWord();
    ReadSpacedWord("LIMIT", " " + (o + ("," + (" " + (n + "")))), [Word(o)] + ([Comma] + ([Word(n)] + [])));
    assert [Word("LIMIT")] + ([Word(o)] + ([Comma] + ([Word(n)] + []))) == [Word("LIMIT"), Word(o), Comma, Word(n)];
  }

  lemma LimitWord()
    ensures IsWord("LIMIT") && IsWord("WHERE") && IsWord("ORDER") && IsWord("BY") && IsWord("ASC") && IsWord("DESC")
  {
  }

  lemma ReadOrder(o: Order, tail: string, ts: Tokens)
    requires '`' !in o.name && Boundary(tail) && Reads(tail, ts)
    ensures Reads(OrderSql(o) + tail, [Ident(o.name), Word(DirWord(o.asc))] + ts)
  {
    hide Reads, IsWord;
    LimitWord();
    var d := DirWord(o.asc);
    ReadSpacedWord(d, tail, ts);
    ReadIdentifier(o.name, " " + (d + tail), [Word(d)] + ts);
    assert "`" + o.name + "` " + d + tail == "`" + o.name + "`" + (" " + (d + tail)) by {
      assert "` " == "`" + " ";
    }
    assert [Ident(o.name)] + ([Word(d)] + ts) == [Ident(o.name), Word(d)] + ts;
  }

  lemma OrderListsUnfold(os: seq<Order>)
    requires os != []
    ensures OrdersSql(os) == if |os| == 1 then OrderSql(os[0]) else OrderSql(os[0]) + ", " + OrdersSql(os[1..])
    ensures OrderListTokens(os) == [Ident(os[0].name), Word(DirWord(os[0].asc))]
                                   + if |os| == 1 then [] else [Comma] + OrderListTokens(os[1..])
  {
    hide OrderSql;
    assert OrderSqlEach(os)[1..] == OrderSqlEach(os[1..]);
  }

  lemma {:induction false} ReadOrderList(os: seq<Order>, tail: string, ts: Tokens)
    requires os != [] && PlainOrders(os) && Boundary(tail) && Reads(tail, ts)
    ensures Reads(OrdersSql(os) + tail, OrderListTokens(os) + ts)
  {
    hide Reads, OrderSql, OrdersSql, OrderListTokens;
    OrderListsUnfold(os);
    var head := [Ident(os[0].name), Word(DirWord(os[0].asc))];
    if |os| == 1 {
      ReadOrder(os[0], tail, ts);
      assert head + [] == head;
    } else {
      var rest, rts := OrdersSql(os[1..]), OrderListTokens(os[1..]);
      ReadOrderList(os[1..], tail, ts);
      ReadPunctuation(rest + tail, rts + ts);
      ReadPunctuation(" " + (rest + tail), rts + ts);
      ReadOrder(os[0], "," + (" " + (rest + tail)), [Comma] + (rts + ts));
      CommaBetween(OrderSql(os[0]), rest, tail);
      assert head + ([Comma] + rts) + ts == head + ([Comma] + (rts + ts));
    }
  }

  lemma CommaBetween(a: string, rest: string, tail: string)
    ensures a + ", " + rest + tail == a + ("," + (" " + (rest + tail)))
  {
    assert ", " == "," + " ";
  }

  lemma ReadOrderBy(os: seq<Order>, tail: string, ts: Tokens)
    requires PlainOrders(os) && Boundary(tail) && Reads(tail, ts)
    ensures Boundary(OrderByText(os) + tail) && Reads(OrderByText(os) + tail, OrderByTokens(os) + ts)
  {
    hide Reads, IsWord, OrdersSql, OrderListTokens;
    if os == [] {
      assert "" + tail == tail && [] + ts == ts;
    } else {
      var list, lts := OrdersSql(os) + tail, OrderListTokens(os) + ts;
      LimitWord();
      ReadOrderList(os, tail, ts);
      ReadPunctuation(list, lts);
      ReadSpacedWord("BY", " " + list, lts);
      ReadSpacedWord("ORDER", " " + ("BY" + (" " + list)), [Word("BY")] + lts);
      assert " ORDER BY " + OrdersSql(os) + tail == " " + ("ORDER" + (" " + ("BY" + (" " + list)))) by {
        assert " ORDER BY " == " " + "ORDER" + " " + "BY" + " ";
      }
      assert [Word("ORDER")] + ([Word("BY")] + lts) == [Word("ORDER"), Word("BY")] + OrderListTokens(os) + ts;
    }
  }

  lemma ReadCountHead(entity: string, tail: string, ts: Tokens)
    requires '`' !in entity && Boundary(tail) && Reads(tail, ts)
    ensures Reads("SELECT COUNT(1) FROM `" + entity + "`" + tail, COUNT_HEAD + ([Ident(entity)] + ts))
  {
    hide Reads, IsWord, COUNT_HEAD;
    var a, ats := " " + ("`" + entity + "`" + tail), [Ident(entity)] + ts;
    ReadIdentifier(entity, tail, ts);
    ReadCountWords(a, ats);
    assert "SELECT COUNT(1) FROM `" + entity + "`" + tail == "SELECT COUNT(1) FROM" + a by {
      assert "SELECT COUNT(1) FROM `" == "SELECT COUNT(1) FROM" + " " + "`";
    }
  }

  lemma ReadCountWords(a: string, ats: Tokens)
    requires Boundary(a) && Reads(a, ats)
    ensures Reads("SELECT COUNT(1) FROM" + a, COUNT_HEAD + ats)
  {
    CountWords();
    hide Reads, IsWord;
    ReadSpacedWord("FROM", a, ats);
    var b, bs := " " + ("FROM" + a), [Word("FROM")] + ats;
    ReadPunctuation(b, bs);
    ReadWord("1", ")" + b, [RParen] + bs);
    var c, cs := "1" + (")" + b), [Word("1")] + ([RParen] + bs);
    ReadPunctuation(c, cs);
    ReadSpacedWord("COUNT", "(" + c, [LParen] + cs);
    ReadWord("SELECT", " " + ("COUNT" + ("(" + c)), [Word("COUNT")] + ([LParen] + cs));
    assert "SELECT COUNT(1) FROM" + a == "SELECT" + (" " + ("COUNT" + ("(" + c))) by {
      assert "SELECT COUNT(1) FROM" == "SELECT" + " " + "COUNT" + "(" + "1" + ")" + " " + "FROM";
    }
    assert [Word("SELECT")] + ([Word("COUNT")] + ([LParen] + cs)) == COUNT_HEAD + ats;
  }

  lemma CountWords()
    ensures IsWord("FROM") && IsWord("1") && IsWord("COUNT") && IsWord("SELECT")
  {
  }

  lemma ReadRowsHead(entity: string, tail: string, ts: Tokens)
    requires '`' !in entity && Boundary(tail) && Reads(tail, ts)
    ensures Reads("SELECT * FROM `" + entity + "`" + tail, ROWS_HEAD + ([Ident(entity)] + ts))
  {
    hide Reads;
    var a, ats := " " + ("`" + entity + "`" + tail), [Ident(entity)] + ts;
    ReadIdentifier(entity, tail, ts);
    ReadSpacedWord("FROM", a, ats);
    ReadSpacedWord("*", " " + ("FROM" + a), [Word("FROM")] + ats);
    ReadWord("SELECT", " " + ("*" + (" " + ("FROM" + a))), [Word("*")] + ([Word("FROM")] + ats));
    assert "SELECT * FROM `" + entity + "`" + tail == "SELECT" + (" " + ("*" + (" " + ("FROM" + a)))) by {
      assert "SELECT * FROM `" == "SELECT" + " " + "*" + " " + "FROM" + " " + "`";
    }
    assert [Word("SELECT")] + ([Word("*")] + ([Word("FROM")] + ats)) == ROWS_HEAD + ats;
  }

  // ---- Parsing the clauses ----

  lemma OrdersStep(o: Order, ts: Tokens)
    ensures ts == [] || ts[0] != Comma ==> ParseOrders([Ident(o.name), Word(DirWord(o.asc))] + ts) == Some(([o], ts))
    ensures ParseOrders(ts).Some? ==>
            ParseOrders([Ident(o.name), Word(DirWord(o.asc))] + ([Comma] + ts)) ==
            Some(([o] + ParseOrders(ts).value.0, ParseOrders(ts).value.1))
  {
    assert ([Ident(o.name), Word(DirWord(o.asc))] + ts)[2..] == ts;
    assert ([Ident(o.name), Word(DirWord(o.asc))] + ([Comma] + ts))[3..] == ts;
  }

  lemma {:induction false} ParseOrderListTokens(os: seq<Order>, rest: Tokens)
    requires os != [] && (rest == [] || rest[0] != Comma)
    ensures ParseOrders(OrderListTokens(os) + rest) == Some((os, rest))
  {
    hide ParseOrders, OrderListTokens, OrdersSql, DirWord;
    OrderListsUnfold(os);
    var head := [Ident(os[0].name), Word(DirWord(os[0].asc))];
    if |os| == 1 {
      OrdersStep(os[0], rest);
      assert head + [] == head && [os[0]] == os;
    } else {
      var more := OrderListTokens(os[1..]) + rest;
      ParseOrderListTokens(os[1..], rest);
      OrdersStep(os[0], more);
      assert head + ([Comma] + OrderListTokens(os[1..])) + rest == head + ([Comma] + more);
      assert [os[0]] + os[1..] == os;
    }
  }

  lemma ParseWhereTokens(e: Expr, rest: Tokens)
    requires e.Nil? || Lexable(e)
    requires ClauseStart(rest)
    ensures ParseWhere(WhereTokens(e) + rest) ==
            if e.Nil? then Some((None, rest)) else if Parsable(e) then Some((Some(CondOf(e)), rest)) else None
  {
    hide ParseOr, ParseAnd, ParseFactor, Lexable, Parsable, TokensOf, CondOf;
    if e.Nil? {
      assert [] + rest == rest;
    } else {
      var ts := TokensOf(e) + rest;
      assert (WhereTokens(e) + rest)[1..] == ts;
      ParseTokens(e, rest);
      if Parsable(e) {
        AndStep(ts, CondOf(e), rest);
        OrStep(ts, CondOf(e), rest);
      } else {
        NoFactor(ts);
      }
    }
  }

  lemma ParseOrderByTokens(os: seq<Order>, rest: Tokens)
    requires rest == [] || rest[0] == Word("LIMIT")
    ensures ParseOrderBy(OrderByTokens(os) + rest) == Some((os, rest))
  {
    hide ParseOrders, OrderListTokens;
    if os == [] {
      assert [] + rest == rest;
    } else {
      var ts := OrderByTokens(os) + rest;
      assert ts[1..][0] == Word("BY");
      assert ts[2..] == OrderListTokens(os) + rest;
      ParseOrderListTokens(os, rest);
    }
  }

  lemma ParseLimitTokens(p: Option<Page>)
    ensures ParseLimit(LimitTokens(p)) ==
            if p.None? then Some(None)
            else if p.value.size < 0 then None
            else Some(Some((p.value.offset as nat, p.value.size as nat)))
  {
    if p.Some? {
      var n: int := p.value.size;
      NumeralRoundTrip(p.value.offset);
      if n < 0 {
        SignedNumeralRejected(NatText(-n));
      } else {
        NumeralRoundTrip(n);
      }
    }
  }

  // ---- What the two texts mean, for any filter ----

  /** The WHERE condition that a filter's text stands for: none for the nil filter, and no reading at
      all for a filter with nil parts or a text that is no search condition. */
  function WhereOf(e: Expr): Option<Option<Cond>> {
    if e.Nil? then Some(None)
    else if !NoNil(e) then None
    else
      match ParseCondition(Print(e))
      case None => None
      case Some(c) => Some(Some(c))
  }

  /** The filter's text, if it has one, does not end inside a line comment. */
  predicate Closed(e: Expr) {
    e.Nil? || !NoNil(e) || !EndsInComment(Print(e))
  }

  /** No order name has a line break. */
  predicate OneLine(os: seq<Order>) {
    forall i :: 0 <= i < |os| ==> '\n' !in os[i].name
  }

  lemma LexWhereWord(t: string)
    ensures Lex(" WHERE " + t) == Before([Word("WHERE")], Lex(t))
    ensures EndsInComment(" WHERE " + t) == EndsInComment(t)
  {
    hide Lex, EndsInComment;
    LimitWord();
    LexSpace(t);
    LexWord("WHERE", " " + t);
    LexSpace("WHERE" + (" " + t));
    EndsAfterSpace(t);
    EndsAfterWord("WHERE", " " + t);
    EndsAfterSpace("WHERE" + (" " + t));
    assert " WHERE " + t == " " + ("WHERE" + (" " + t)) by {
      assert " WHERE " == " " + "WHERE" + " ";
    }
  }

  lemma LexWhere(e: Expr)
    requires NoNil(e)
    ensures Lex(WhereText(e)) == Before([Word("WHERE")], Lex(Print(e)))
    ensures EndsInComment(WhereText(e)) == !Closed(e)
  {
    hide Lex, EndsInComment, Print;
    LexWhereWord(Print(e));
  }

  /** A filter with a reading is read from its clause, and leaves the clauses behind it alone. */
  lemma WhereReads(e: Expr, more: Tokens)
    requires WhereOf(e).Some? && ClauseStart(more)
    ensures e.Nil? || NoNil(e)
    ensures Lex(WhereText(e)).Some? && EndsInComment(WhereText(e)) == !Closed(e)
    ensures ParseWhere(Lex(WhereText(e)).value + more) == Some((WhereOf(e).value, more))
  {
    hide Lex, ParseOr, Print, NoNil, WhereText, EndsInComment;
    if e.Nil? {
      ReadEnd();
      EmptyWhere();
      assert [] + more == more;
    } else {
      LexWhere(e);
      var ts := Lex(Print(e)).value;
      OrLeaves(ts, more);
      assert [Word("WHERE")] + ts + more == [Word("WHERE")] + (ts + more);
      assert ([Word("WHERE")] + (ts + more))[1..] == ts + more;
      assert [] + more == more;
    }
  }

  lemma EmptyWhere()
    ensures WhereText(Nil) == "" && !EndsInComment("")
  {
  }

  lemma LexCount(entity: string, e: Expr)
    requires '`' !in entity && (e.Nil? || NoNil(e))
    ensures Lex(CountText(entity, e)) == Before(COUNT_HEAD + [Ident(entity)], Lex(WhereText(e)))
  {
    hide Lex, EndsInComment, Print, NoNil, COUNT_HEAD;
    var head, ts := "SELECT COUNT(1) FROM `" + entity + "`", COUNT_HEAD + [Ident(entity)];
    NothingBehind(head, COUNT_HEAD, Ident(entity));
    ReadEnd();
    ReadPunctuation("", []);
    ReadPunctuation("(" + "", [LParen] + []);
    ReadCountHead(entity, "", []);
    ReadCountHead(entity, " (", [LParen]);
    ClosedBefore(head, ts);
    LexExtends(head, WhereText(e));
  }

  lemma NothingBehind(head: string, h: Tokens, t: Token)
    ensures head + "" == head && h + ([t] + []) == h + [t]
    ensures " " + ("(" + "") == " (" && [LParen] + [] == [LParen]
    ensures h + ([t] + [LParen]) != h + [t]
  {
    assert |h + ([t] + [LParen])| == |h + [t]| + 1;
  }

  lemma LexRows(entity: string, q: Query)
    requires '`' !in entity && (q.filter.Nil? || NoNil(q.filter))
    ensures Lex(RowsText(entity, q)) ==
            Before(ROWS_HEAD + [Ident(entity)], Lex(WhereText(q.filter) + OrderByText(q.orders) + LimitText(q.paging)))
  {
    hide Lex, EndsInComment, Print, NoNil, OrdersSql, PageSql, ROWS_HEAD;
    var head, ts := "SELECT * FROM `" + entity + "`", ROWS_HEAD + [Ident(entity)];
    NothingBehind(head, ROWS_HEAD, Ident(entity));
    ReadEnd();
    ReadPunctuation("", []);
    ReadPunctuation("(" + "", [LParen] + []);
    ReadRowsHead(entity, "", []);
    ReadRowsHead(entity, " (", [LParen]);
    ClosedBefore(head, ts);
    LexExtends(head, WhereText(q.filter) + OrderByText(q.orders) + LimitText(q.paging));
  }

  /** The COUNT text means, for every filter: count what the filter's condition selects, and it is
      refused exactly when the filter's text is no search condition. */
  lemma CountMeans(entity: string, e: Expr)
    requires '`' !in entity && (e.Nil? || NoNil(e))
    ensures ParseRead(CountText(entity, e)) ==
            if WhereOf(e).None? then None else Some(Count(entity, WhereOf(e).value))
  {
    hide Lex, ParseOr, Print, NoNil, WhereText, CountText;
    LexCount(entity, e);
    if e.Nil? {
      WhereReads(e, []);
    } else {
      LexWhere(e);
    }
    if Lex(WhereText(e)).Some? {
      var w := Lex(WhereText(e)).value;
      var ts := COUNT_HEAD + [Ident(entity)] + w;
      assert ts[..6] == COUNT_HEAD && ts[6] == Ident(entity) && ts[7..] == w && w + [] == w;
      if !e.Nil? { assert w[1..] == Lex(Print(e)).value; }
    }
  }

  /** The SELECT text, when the filter has a reading and does not end inside a comment: what the same
      condition selects, in that order, that page; only a negative size is refused. */
  lemma RowsMean(entity: string, q: Query)
    requires '`' !in entity && WhereOf(q.filter).Some? && Closed(q.filter) && PlainOrders(q.orders)
    ensures q.filter.Nil? || NoNil(q.filter)
    ensures ParseRead(RowsText(entity, q)) ==
            if q.paging.Some? && q.paging.value.size < 0 then None
            else Some(Rows(entity, WhereOf(q.filter).value, q.orders,
                           if q.paging.None? then None
                           else Some((q.paging.value.offset as nat, q.paging.value.size as nat))))
  {
    hide Lex, EndsInComment, Closed, ParseWhere, WhereOf, WhereText, ParseOrderBy, OrderByTokens, OrderByText;
    hide ParseLimit, LimitText, LimitTokens, RowsText;
    var ot, lt := OrderByTokens(q.orders), LimitTokens(q.paging);
    ClausesLex(q);
    LimitStarts(q.paging);
    ClausesStart(q.orders, lt);
    WhereReads(q.filter, ot + lt);
    LaterClauses(q);
    LexRows(entity, q);
    var w := Lex(WhereText(q.filter)).value;
    RowsTokens(entity, w + (ot + lt));
    ParseOrderByTokens(q.orders, lt);
    ParseLimitTokens(q.paging);
  }

  /** When the filter's text ends inside a line comment, order and page are part of the comment: the
      SELECT text means everything that the condition selects. */
  lemma RowsMeanOpen(entity: string, q: Query)
    requires '`' !in entity && WhereOf(q.filter).Some? && !Closed(q.filter) && OneLine(q.orders)
    ensures q.filter.Nil? || NoNil(q.filter)
    ensures ParseRead(RowsText(entity, q)) == Some(Rows(entity, WhereOf(q.filter).value, [], None))
  {
    hide Lex, EndsInComment, Closed, ParseWhere, WhereOf, WhereText, RowsText, OneLine;
    WhereReads(q.filter, []);
    LexRows(entity, q);
    LaterSwallowed(q);
    var w := Lex(WhereText(q.filter)).value;
    assert w + [] == w;
    RowsTokens(entity, w);
  }

  lemma LimitStarts(p: Option<Page>)
    ensures LimitTokens(p) == [] || LimitTokens(p)[0] == Word("LIMIT")
  {
  }

  lemma ClausesLex(q: Query)
    requires PlainOrders(q.orders)
    ensures Lex(OrderByText(q.orders) + LimitText(q.paging)) == Some(OrderByTokens(q.orders) + LimitTokens(q.paging))
  {
    hide Lex, OrderByTokens, OrderByText, LimitText, LimitTokens;
    ReadLimit(q.paging);
    ReadOrderBy(q.orders, LimitText(q.paging), LimitTokens(q.paging));
  }

  /** The WHERE clause is read by itself, and the later clauses by themselves. */
  lemma LaterClauses(q: Query)
    requires q.filter.Nil? || NoNil(q.filter)
    requires Lex(WhereText(q.filter)).Some? && !EndsInComment(WhereText(q.filter))
    ensures Lex(WhereText(q.filter) + OrderByText(q.orders) + LimitText(q.paging)) ==
            Before(Lex(WhereText(q.filter)).value, Lex(OrderByText(q.orders) + LimitText(q.paging)))
  {
    hide Lex, EndsInComment, WhereText, OrdersSql, PageSql;
    var w, o, l := WhereText(q.filter), OrderByText(q.orders), LimitText(q.paging);
    assert w + o + l == w + (o + l);
    assert Boundary(o + l);
    LexExtends(w, o + l);
  }

  lemma LaterSwallowed(q: Query)
    requires q.filter.Nil? || NoNil(q.filter)
    requires Lex(WhereText(q.filter)).Some? && EndsInComment(WhereText(q.filter)) && OneLine(q.orders)
    ensures Lex(WhereText(q.filter) + OrderByText(q.orders) + LimitText(q.paging)) == Lex(WhereText(q.filter))
  {
    hide Lex, EndsInComment, WhereText, OrdersSql, PageSql;
    var w, o, l := WhereText(q.filter), OrderByText(q.orders), LimitText(q.paging);
    LaterOnOneLine(q);
    assert w + o + l == w + (o + l);
    assert Blank(o + l);
    LexSwallows(w, o + l);
  }

  lemma LaterOnOneLine(q: Query)
    requires OneLine(q.orders)
    ensures '\n' !in OrderByText(q.orders) + LimitText(q.paging)
  {
    OrdersOnOneLine(q.orders);
  }

  lemma {:induction false} OrdersOnOneLine(os: seq<Order>)
    requires OneLine(os)
    ensures '\n' !in OrdersSql(os)
  {
    hide OrdersSql, OrderListTokens;
    if os == [] {
      NoOrders();
    } else {
      OrderListsUnfold(os);
      OrdersOnOneLine(os[1..]);
    }
  }

  lemma NoOrders()
    ensures OrdersSql([]) == ""
  {
  }

  lemma RowsTokens(entity: string, clauses: Tokens)
    ensures var ts := ROWS_HEAD + [Ident(entity)] + clauses;
            ts[..3] == ROWS_HEAD && ts[3] == Ident(entity) && ts[4..] == clauses
            && (|ts| >= 7 ==> ts[..6] != COUNT_HEAD)
  {
    var ts := ROWS_HEAD + [Ident(entity)] + clauses;
    assert |ts| >= 7 ==> ts[..6][1] == Word("*") && COUNT_HEAD[1] == Word("COUNT");
  }

  lemma ClausesStart(os: seq<Order>, rest: Tokens)
    requires rest == [] || rest[0] == Word("LIMIT")
    ensures ClauseStart(OrderByTokens(os) + rest)
  {
    if os == [] {
      assert OrderByTokens(os) + rest == rest;
    }
  }

  /** Whatever the orders are called, the clauses after WHERE do not continue its condition. */
  lemma LaterClausesStart(q: Query)
    ensures var more := Lex(OrderByText(q.orders) + LimitText(q.paging)); more.Some? ==> ClauseStart(more.value)
  {
    hide Lex, OrdersSql, PageSql;
    var o, l := OrderByText(q.orders), LimitText(q.paging);
    LimitWord();
    if q.orders != [] {
      FirstWord("ORDER", " BY " + OrdersSql(q.orders) + l);
      assert o + l == " " + ("ORDER" + (" BY " + OrdersSql(q.orders) + l)) by {
        assert " ORDER BY " == " " + "ORDER" + " BY ";
      }
    } else if q.paging.Some? {
      FirstWord("LIMIT", " " + PageSql(q.paging.value));
      assert o + l == " " + ("LIMIT" + (" " + PageSql(q.paging.value))) by {
        assert " LIMIT " == " " + "LIMIT" + " ";
      }
    } else {
      assert o + l == "";
      ReadEnd();
    }
  }

  lemma FirstWord(a: string, tail: string)
    requires IsWord(a) && Boundary(tail)
    ensures var r := Lex(" " + (a + tail)); r.Some? ==> r.value != [] && r.value[0] == Word(a)
  {
    hide Lex, IsWord, Boundary;
    LexSpace(a + tail);
    LexWord(a, tail);
  }

  /** COUNT and SELECT name the same table and carry the same condition whenever the database
      understands both, for every filter text, all order names and every page; only a line break in an
      order name can end a comment that the filter begins. */
  lemma SameWhere(entity: string, q: Query)
    requires '`' !in entity && (q.filter.Nil? || NoNil(q.filter))
    requires Closed(q.filter) || OneLine(q.orders)
    ensures var counted, fetched := ParseRead(CountText(entity, q.filter)), ParseRead(RowsText(entity, q));
            counted.Some? && fetched.Some? ==>
            && WhereOf(q.filter).Some?
            && counted.value == Count(entity, WhereOf(q.filter).value)
            && fetched.value.Rows? && fetched.value.table == entity && fetched.value.where == WhereOf(q.filter).value
  {
    hide ParseRead, CountText, RowsText, WhereOf, Closed, OneLine, NoNil;
    CountMeans(entity, q.filter);
    if WhereOf(q.filter).Some? { SelectWhere(entity, q); }
  }

  lemma SelectWhere(entity: string, q: Query)
    requires '`' !in entity && WhereOf(q.filter).Some? && (Closed(q.filter) || OneLine(q.orders))
    ensures q.filter.Nil? || NoNil(q.filter)
    ensures var r := ParseRead(RowsText(entity, q));
            r.Some? ==> r.value.Rows? && r.value.table == entity && r.value.where == WhereOf(q.filter).value
  {
    hide Lex, EndsInComment, Closed, OneLine, ParseWhere, WhereOf, WhereText, ParseOrderBy, OrderByText;
    hide ParseLimit, LimitText, RowsText;
    if !Closed(q.filter) {
      RowsMeanOpen(entity, q);
    } else {
      WhereReads(q.filter, []);
      LexRows(entity, q);
      var w, later := WhereText(q.filter), Lex(OrderByText(q.orders) + LimitText(q.paging));
      LaterClauses(q);
      LaterClausesStart(q);
      if later.Some? {
        WhereReads(q.filter, later.value);
        RowsTokens(entity, Lex(w).value + later.value);
      }
    }
  }

  // ---- Well-formed filters ----

  /** The condition of a filter of well-formed parts is its tree. */
  lemma WhereOfPrinted(e: Expr)
    requires Lexable(e)
    ensures WhereOf(e) == if Parsable(e) then Some(Some(CondOf(e))) else None
  {
    hide ParseCondition, Print, CondOf, Parsable, Lexable;
    PrintedTextParses(e);
    assert e.Nil? ==> !Lexable(e) by { NilIsNotLexable(); }
  }

  lemma NilIsNotLexable()
    ensures !Lexable(Nil)
  {
  }

  /** For filters of well-formed parts the SELECT text is refused too when it has no condition. */
  lemma PrintedRowsMean(entity: string, q: Query)
    requires '`' !in entity && Lexable(q.filter) && PlainOrders(q.orders)
    ensures q.filter.Nil? || NoNil(q.filter)
    ensures ParseRead(RowsText(entity, q)) ==
            if !Parsable(q.filter) || (q.paging.Some? && q.paging.value.size < 0) then None
            else Some(Rows(entity, Some(CondOf(q.filter)), q.orders,
                           if q.paging.None? then None
                           else Some((q.paging.value.offset as nat, q.paging.value.size as nat))))
  {
    hide Lex, EndsInComment, Closed, ParseWhere, WhereOf, WhereText, OrderByTokens, OrderByText;
    hide LimitText, LimitTokens, RowsText;
    hide Parsable, Lexable, CondOf;
    WhereOfPrinted(q.filter);
    LexableIsClosed(q.filter);
    if Parsable(q.filter) {
      RowsMean(entity, q);
    } else {
      LexableHasNoNil(q.filter);
      var more := OrderByTokens(q.orders) + LimitTokens(q.paging);
      ClausesLex(q);
      LimitStarts(q.paging);
      ClausesStart(q.orders, LimitTokens(q.paging));
      LexPrintedWhere(q.filter);
      LaterClauses(q);
      LexRows(entity, q);
      RowsTokens(entity, WhereTokens(q.filter) + more);
      ParseWhereTokens(q.filter, more);
    }
  }

  lemma LexPrintedWhere(e: Expr)
    requires Lexable(e) && NoNil(e)
    ensures Lex(WhereText(e)) == Some(WhereTokens(e)) && !EndsInComment(WhereText(e))
  {
    hide Lex, EndsInComment, Closed, Print, TokensOf;
    ReadEnd();
    LexWhere(e);
    LexableIsClosed(e);
    LexPrint(e, "");
    assert Print(e) + "" == Print(e) && TokensOf(e) + [] == TokensOf(e);
  }

  /** Filters of well-formed parts print no comments. */
  lemma LexableIsClosed(e: Expr)
    requires Lexable(e)
    ensures Closed(e)
  {
    hide Lex, EndsInComment, Print, TokensOf, Lexable;
    LexableHasNoNil(e);
    var t, ts := Print(e), TokensOf(e);
    ReadEnd();
    ReadPunctuation("", []);
    ReadPunctuation("(" + "", [LParen] + []);
    assert " " + ("(" + "") == " (" && [LParen] + [] == [LParen];
    LexPrint(e, "");
    LexPrint(e, " (");
    assert t + "" == t && ts + [] == ts && |ts + [LParen]| == |ts| + 1;
    ClosedBefore(t, ts);
  }
}
