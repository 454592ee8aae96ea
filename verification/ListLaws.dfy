/** Listing as a whole: count and page agree for every filter, pages add up unless the filter's text
    ends inside a comment, and full retrieval from a client gives the rows that the filter keeps in
    memory. */
module ListLaws {
  import opened Values
  import opened Texts
  import opened Filter
  import opened FilterCodec
  import opened SqlCondition
  import opened FilterSql
  import opened FilterParse
  import opened Predicate
  import opened Query
  import opened ListItems
  import opened ListTexts
  import P = Paging
  import M = InMemory

  // ---- Count and page agree ----

  /** What one request brings of the rows found: its page in its order, or everything if the filter's
      text ends inside a comment, of which order and page are then a part. */
  function Brought(rd: Reader, found: seq<Row>, q: Query, p: Page): Result<seq<Row>> {
    if found == [] then Ok([])
    else if !Closed(q.filter) then Ok(rd.arrange([], found))
    else if p.size < 0 then Err("failed to fetch rows")
    else Ok(P.PageOf(rd.arrange(q.orders, found), p.offset, p.size))
  }

  /** ListItems for every filter: an error unless the filter's text is a condition; else the total is
      the number of rows the condition selects, whatever the page, and the data is what the request
      brings of them. A negative size is refused only when there are rows. */
  lemma ListedMeans(rd: Reader, rows: seq<Row>, q: Query)
    requires Permutes(rd) && '`' !in rd.table && PlainOrders(q.orders) && q.paging.Some?
    requires Closed(q.filter) || OneLine(q.orders)
    ensures var p, where := q.paging.value, WhereOf(q.filter);
            Listed(rd, true, rows, rd.table, Some(q)) ==
            if where.None? then Err("failed to determine resultset size")
            else
              var found := Matching(rd.cmp, where.value, rows);
              match Brought(rd, found, q, p)
              case Ok(data) => Ok(PagedResult(data, |found|, ToFloat32(p.offset)))
              case Err(msg) => Err(msg)
              case Panic(msg) => Panic(msg)
  {
    hide ParseRead, Matching, CountText, RowsText, WhereText, ParseCondition, Closed, ToFloat32;
    if q.filter.Nil? || NoNil(q.filter) {
      CountMeans(rd.table, q.filter);
      if WhereOf(q.filter).Some? {
        if Closed(q.filter) {
          RowsMean(rd.table, q);
        } else {
          RowsMeanOpen(rd.table, q);
        }
      }
    }
  }

  /** Without read permission the answer is an error that is the same for any two tables, databases and
      queries: nothing of the table shows. */
  lemma ListedBlind(
      rd: Reader, rows: seq<Row>, rd': Reader, rows': seq<Row>, entity: string, qe: Option<Query>, qe': Option<Query>)
    ensures Listed(rd, false, rows, entity, qe).Err?
    ensures Listed(rd, false, rows, entity, qe) == Listed(rd', false, rows', entity, qe')
  {
  }

  /** A request for a page with a readable filter is answered exactly with read permission. */
  lemma ListPermissionExact(rd: Reader, canRead: bool, rows: seq<Row>, q: Query)
    requires Permutes(rd) && '`' !in rd.table && Readable(q.orders, q.filter)
    requires q.paging.Some? && q.paging.value.size >= 0
    ensures Listed(rd, canRead, rows, rd.table, Some(q)).Ok? <==> canRead
  {
    hide Listed, Matching, WhereOf, Closed, ToFloat32, Permutes;
    if canRead {
      ListedMeans(rd, rows, q);
    } else {
      ListedBlind(rd, rows, rd, rows, rd.table, Some(q), Some(q));
    }
  }

  /** No query is the first twenty rows, unfiltered and in no named order. */
  lemma ListedByDefault(rd: Reader, rows: seq<Row>)
    requires Permutes(rd) && '`' !in rd.table
    ensures Listed(rd, true, rows, rd.table, None) ==
            Ok(PagedResult(if rows == [] then [] else P.PageOf(rd.arrange([], rows), 0, 20), |rows|, 0))
  {
    hide Matching, CountResult, RowsResult, ParseCondition;
    var q := Query([], Some(Page(0, 20)), Nil);
    assert Listed(rd, true, rows, rd.table, None) == Listed(rd, true, rows, rd.table, Some(q));
    ListedAll(rd, rows, q);
    OffsetExact(0);
  }

  /** Without a filter every row is found. */
  lemma ListedAll(rd: Reader, rows: seq<Row>, q: Query)
    requires Permutes(rd) && '`' !in rd.table && PlainOrders(q.orders) && q.paging.Some? && q.filter.Nil?
    ensures var p := q.paging.value;
            Listed(rd, true, rows, rd.table, Some(q)) ==
            if rows != [] && p.size < 0 then Err("failed to fetch rows")
            else Ok(PagedResult(if rows == [] then [] else P.PageOf(rd.arrange(q.orders, rows), p.offset, p.size),
                                |rows|, ToFloat32(p.offset)))
  {
    hide Listed, Matching, Permutes, ToFloat32;
    NoConditionKeepsAll(rd.cmp, rows);
    ListedMeans(rd, rows, q);
  }

  lemma {:induction false} NoConditionKeepsAll(cmp: Collation, rows: seq<Row>)
    ensures Matching(cmp, None, rows) == rows
  {
    if rows == [] {
    } else {
      NoConditionKeepsAll(cmp, rows[1..]);
      assert [rows[0]] + rows[1..] == rows;
    }
  }

  /** A condition keeps the rows on which it is true, each as often as the table has it. */
  lemma {:induction false} MatchingExact(cmp: Collation, c: Cond, rows: seq<Row>, row: Row)
    ensures multiset(Matching(cmp, Some(c), rows))[row] ==
            if Eval(cmp, c, row).True? then multiset(rows)[row] else 0
  {
    hide Eval;
    if rows == [] {
    } else {
      MatchingExact(cmp, c, rows[1..], row);
      assert rows == [rows[0]] + rows[1..];
    }
  }

  /** An entity that is not the table. */
  lemma ListedElsewhere(rd: Reader, rows: seq<Row>, entity: string, qe: Option<Query>)
    requires '`' !in entity && entity != rd.table
    ensures Listed(rd, true, rows, entity, qe).Err?
  {
    hide ParseRead, Matching, CountText, RowsText, ParseCondition, WhereText;
    var q := GetOr(qe, Query([], Some(DEFAULT_PAGE), Nil));
    if q.filter.Nil? || NoNil(q.filter) {
      CountMeans(entity, q.filter);
    }
  }

  /** Even with order names that break the text, as long as none breaks the line of a comment: an
      answer has the number of selected rows as its total, and only selected rows as its data. */
  lemma ListedSound(rd: Reader, rows: seq<Row>, q: Query)
    requires Permutes(rd) && '`' !in rd.table && (Closed(q.filter) || OneLine(q.orders))
    ensures match Listed(rd, true, rows, rd.table, Some(q))
            case Ok(page) =>
              && WhereOf(q.filter).Some?
              && page.totalCount == |Matching(rd.cmp, WhereOf(q.filter).value, rows)|
              && multiset(page.data) <= multiset(Matching(rd.cmp, WhereOf(q.filter).value, rows))
            case _ => true
  {
    hide ParseRead, Matching, CountText, RowsText, WhereText, ParseCondition, Closed, ToFloat32;
    if q.filter.Nil? || NoNil(q.filter) {
      CountMeans(rd.table, q.filter);
      if WhereOf(q.filter).Some? {
        SelectWhere(rd.table, q);
        if RowsResult(rd, rows, RowsText(rd.table, q)).Ok? {
          FetchedFromTable(rd, rows, RowsText(rd.table, q));
        }
      }
    }
  }

  /** The same for a filter of well-formed parts, by its tree. */
  lemma PrintedListedMeans(rd: Reader, rows: seq<Row>, q: Query)
    requires Permutes(rd) && '`' !in rd.table && PlainOrders(q.orders) && q.paging.Some?
    requires Lexable(q.filter)
    ensures var p := q.paging.value;
            Listed(rd, true, rows, rd.table, Some(q)) ==
            if !Parsable(q.filter) then Err("failed to determine resultset size")
            else
              var found := Matching(rd.cmp, Some(CondOf(q.filter)), rows);
              if found != [] && p.size < 0 then Err("failed to fetch rows")
              else Ok(PagedResult(if found == [] then [] else P.PageOf(rd.arrange(q.orders, found), p.offset, p.size),
                                  |found|, ToFloat32(p.offset)))
  {
    hide Listed, Matching, WhereOf, CondOf, Parsable, Lexable, Permutes, Closed, ToFloat32;
    WhereOfPrinted(q.filter);
    LexableIsClosed(q.filter);
    ListedMeans(rd, rows, q);
  }

  lemma ArrangedLength(rd: Reader, os: seq<Order>, rows: seq<Row>)
    requires Permutes(rd)
    ensures |rd.arrange(os, rows)| == |rows|
  {
    assert |multiset(rd.arrange(os, rows))| == |rd.arrange(os, rows)| && |multiset(rows)| == |rows|;
  }

  /** The rows that ListItems gives for one page. */
  function PageData(rd: Reader, rows: seq<Row>, os: seq<Order>, e: Expr, offset: U64, size: I64): seq<Row> {
    match Listed(rd, true, rows, rd.table, Some(Query(os, Some(Page(offset, size)), e)))
    case Ok(page) => page.data
    case _ => []
  }

  /** The rows of pages 0 to k-1 of a fixed size. */
  function PagesData(rd: Reader, rows: seq<Row>, os: seq<Order>, e: Expr, size: I64, k: nat): seq<Row>
    requires size >= 0 && k * size < TWO_64
  {
    if k == 0 then []
    else
      StartOfLastPage(k - 1, size);
      PagesData(rd, rows, os, e, size, k - 1) + PageData(rd, rows, os, e, (k - 1) * size, size)
  }

  lemma StartOfLastPage(k: nat, size: nat)
    ensures 0 <= k * size <= (k + 1) * size
    ensures (k + 1) * size == k * size + size
  {
    assert (k + 1) * size == k * size + size;
  }

  /** What the database makes of the filter and the orders: a condition, and no comment that a line
      break in an order name would end. */
  predicate Readable(os: seq<Order>, e: Expr) {
    WhereOf(e).Some? && PlainOrders(os) && (Closed(e) || OneLine(os))
  }

  lemma PageDataMeans(rd: Reader, rows: seq<Row>, os: seq<Order>, e: Expr, offset: U64, size: I64)
    requires Permutes(rd) && '`' !in rd.table && Readable(os, e) && size >= 0
    ensures var found := Matching(rd.cmp, WhereOf(e).value, rows);
            PageData(rd, rows, os, e, offset, size) ==
            if Closed(e) then P.PageOf(rd.arrange(os, found), offset, size) else rd.arrange([], found)
  {
    hide Listed, Matching, Permutes, WhereOf, PlainOrders, Closed, OneLine, ToFloat32;
    var found := Matching(rd.cmp, WhereOf(e).value, rows);
    ArrangedLength(rd, os, found);
    ArrangedLength(rd, [], found);
    ListedMeans(rd, rows, Query(os, Some(Page(offset, size)), e));
  }

  /** Pages of a fixed size, put together, are the selected rows in order; so the lengths of all
      pages add up to the total that each of them reports. */
  lemma {:induction false} PagesAddUp(rd: Reader, rows: seq<Row>, os: seq<Order>, e: Expr, size: I64, k: nat)
    requires Permutes(rd) && '`' !in rd.table && Readable(os, e) && Closed(e)
    requires size >= 0 && k * size < TWO_64
    ensures var found := Matching(rd.cmp, WhereOf(e).value, rows);
            PagesData(rd, rows, os, e, size, k) == P.PageOf(rd.arrange(os, found), 0, k * size)
            && (k * size >= |found| ==> |PagesData(rd, rows, os, e, size, k)| == |found|)
  {
    hide PageData, Matching, Permutes, Readable, Closed, WhereOf, PlainOrders;
    ReadableHasWhere(os, e);
    var found := Matching(rd.cmp, WhereOf(e).value, rows);
    ArrangedLength(rd, os, found);
    if k == 0 {
    } else {
      StartOfLastPage(k - 1, size);
      PagesAddUp(rd, rows, os, e, size, k - 1);
      OneMorePage(rd, rows, os, e, (k - 1) * size, size, k * size);
    }
  }

  lemma ReadableHasWhere(os: seq<Order>, e: Expr)
    ensures Readable(os, e) ==> WhereOf(e).Some?
  {
  }

  /** A filter whose text ends inside a comment brings every selected row with every page. */
  lemma {:induction false} PagesRepeat(rd: Reader, rows: seq<Row>, os: seq<Order>, e: Expr, size: I64, k: nat)
    requires Permutes(rd) && '`' !in rd.table && Readable(os, e) && !Closed(e)
    requires size >= 0 && k * size < TWO_64
    ensures |PagesData(rd, rows, os, e, size, k)| == k * |Matching(rd.cmp, WhereOf(e).value, rows)|
  {
    hide PageData, Matching, Permutes, Readable, Closed, WhereOf, PlainOrders;
    ReadableHasWhere(os, e);
    var found := Matching(rd.cmp, WhereOf(e).value, rows);
    ArrangedLength(rd, [], found);
    if k == 0 {
    } else {
      StartOfLastPage(k - 1, size);
      StartOfLastPage(k - 1, |found|);
      PagesRepeat(rd, rows, os, e, size, k - 1);
      PageDataMeans(rd, rows, os, e, (k - 1) * size, size);
    }
  }

  /** The lengths of enough pages add up to the reported total exactly when the filter's text does not
      end inside a comment, or nothing is found, or one page is asked for. */
  lemma PagesAddUpExact(rd: Reader, rows: seq<Row>, os: seq<Order>, e: Expr, size: I64, k: nat)
    requires Permutes(rd) && '`' !in rd.table && Readable(os, e)
    requires size >= 0 && |Matching(rd.cmp, WhereOf(e).value, rows)| <= k * size < TWO_64
    ensures var found := Matching(rd.cmp, WhereOf(e).value, rows);
            |PagesData(rd, rows, os, e, size, k)| == |found| <==> Closed(e) || found == [] || k == 1
  {
    hide PagesData, Matching, Permutes, Readable, Closed, WhereOf;
    ReadableHasWhere(os, e);
    if Closed(e) {
      PagesAddUp(rd, rows, os, e, size, k);
    } else {
      PagesRepeat(rd, rows, os, e, size, k);
      OnceOrNothing(k, |Matching(rd.cmp, WhereOf(e).value, rows)|, size);
    }
  }

  lemma OnceOrNothing(k: nat, n: nat, size: nat)
    requires n <= k * size
    ensures k * n == n <==> n == 0 || k == 1
  {
    if k == 0 {
    } else {
      assert k * n == (k - 1) * n + n;
    }
  }

  lemma OneMorePage(rd: Reader, rows: seq<Row>, os: seq<Order>, e: Expr, start: U64, size: I64, end: nat)
    requires Permutes(rd) && '`' !in rd.table && Readable(os, e) && Closed(e) && size >= 0
    requires end == start + size
    ensures var all := rd.arrange(os, Matching(rd.cmp, WhereOf(e).value, rows));
            P.PageOf(all, 0, start) + PageData(rd, rows, os, e, start, size) == P.PageOf(all, 0, end)
  {
    hide PageData, Matching, Permutes, Readable, Closed, WhereOf;
    ReadableHasWhere(os, e);
    PageDataMeans(rd, rows, os, e, start, size);
    NextPage(rd.arrange(os, Matching(rd.cmp, WhereOf(e).value, rows)), start, size);
  }

  lemma NextPage(all: seq<Row>, start: nat, size: nat)
    ensures P.PageOf(all, 0, start) + P.PageOf(all, start, size) == P.PageOf(all, 0, start + size)
  {
  }

  // ---- From the client to the database and back ----

  /** The remote List: the query goes through request parameters, ListItems answers. */
  function RemoteList(rd: Reader, rows: seq<Row>, w: NumWire, os: seq<Order>, e: Expr): P.Lister<Row> {
    (offset: nat, size: int) =>
      if offset >= TWO_63 || !(-TWO_63 <= size < TWO_63) then Panic("not an int")
      else
        match QueryOf(w, ParamsOf(Query(os, Some(Page(ToUint(offset), size)), e)))
        case Err(msg) => Err(msg)
        case Panic(msg) => Panic(msg)
        case Ok(q) =>
          match Listed(rd, true, rows, rd.table, Some(q))
          case Err(msg) => Err(msg)
          case Panic(msg) => Panic(msg)
          case Ok(page) => Ok((page.data, page.totalCount))
  }

  /** The filter that the server sees is one it understands. */
  predicate Travels(w: NumWire, os: seq<Order>, e: Expr) {
    NamesPlain(os) && (e.Nil? || Solid(e)) && Readable(os, Norm(w, e))
  }

  /** LoadAllInBatch against ListItems returns every row that the received filter selects, once, in
      the server's order, in max(1, ceil(n/b)) calls. */
  lemma RemoteLoad(rd: Reader, rows: seq<Row>, w: NumWire, os: seq<Order>, e: Expr, batch: nat, calls: nat, fuel: nat)
    requires Permutes(rd) && '`' !in rd.table && Travels(w, os, e) && Closed(Norm(w, e))
    requires 1 <= batch < TWO_63 && |Matching(rd.cmp, WhereOf(Norm(w, e)).value, rows)| < TWO_63
    requires var n := |Matching(rd.cmp, WhereOf(Norm(w, e)).value, rows)|;
             calls >= 1 && n <= calls * batch && ((calls - 1) * batch < n || (calls == 1 && n == 0))
    ensures var all := rd.arrange(os, Matching(rd.cmp, WhereOf(Norm(w, e)).value, rows));
            P.Loop(RemoteList(rd, rows, w, os, e), batch, 0, fuel) ==
            if fuel < calls then None else Some((Ok(all), calls))
  {
    hide RemoteList, Matching, Travels, Closed, WhereOf, Permutes;
    TravelsHasWhere(w, os, e);
    var found := Matching(rd.cmp, WhereOf(Norm(w, e)).value, rows);
    var all := rd.arrange(os, found);
    ArrangedLength(rd, os, found);
    var list := RemoteList(rd, rows, w, os, e);
    forall o: nat | o <= |all| ensures list(o, batch) == Ok((P.PageOf(all, o, batch), |all|)) {
      RemotePage(rd, rows, w, os, e, o, batch);
    }
    P.LoadsEverything(list, all, batch, calls, fuel);
  }

  lemma TravelsHasWhere(w: NumWire, os: seq<Order>, e: Expr)
    ensures Travels(w, os, e) ==> WhereOf(Norm(w, e)).Some?
  {
  }

  /** When the received text ends inside a comment, the first call brings every row that it selects,
      whatever the batch, and is the last. */
  lemma RemoteLoadOpen(rd: Reader, rows: seq<Row>, w: NumWire, os: seq<Order>, e: Expr, batch: nat, fuel: nat)
    requires Permutes(rd) && '`' !in rd.table && Travels(w, os, e) && !Closed(Norm(w, e))
    requires batch < TWO_63 && fuel >= 1
    ensures var all := rd.arrange([], Matching(rd.cmp, WhereOf(Norm(w, e)).value, rows));
            P.Loop(RemoteList(rd, rows, w, os, e), batch, 0, fuel) == Some((Ok(all), 1))
  {
    hide RemoteList, Matching, Travels, Closed, WhereOf, Permutes;
    TravelsHasWhere(w, os, e);
    ArrangedLength(rd, [], Matching(rd.cmp, WhereOf(Norm(w, e)).value, rows));
    RemotePage(rd, rows, w, os, e, 0, batch);
  }

  lemma RemotePage(rd: Reader, rows: seq<Row>, w: NumWire, os: seq<Order>, e: Expr, o: nat, batch: nat)
    requires Permutes(rd) && '`' !in rd.table && Travels(w, os, e)
    requires o < TWO_63 && batch < TWO_63
    ensures var found := Matching(rd.cmp, WhereOf(Norm(w, e)).value, rows);
            RemoteList(rd, rows, w, os, e)(o, batch) ==
            if Closed(Norm(w, e)) then Ok((P.PageOf(rd.arrange(os, found), o, batch), |found|))
            else Ok((rd.arrange([], found), |found|))
  {
    hide Listed, Matching, QueryOf, ParamsOf, Permutes, WhereOf, Closed, OneLine, ToFloat32;
    var found := Matching(rd.cmp, WhereOf(Norm(w, e)).value, rows);
    ArrangedLength(rd, os, found);
    ArrangedLength(rd, [], found);
    var q := Query(os, Some(Page(ToUint(o), batch)), e);
    QueryRoundTrip(w, q);
    ListedMeans(rd, rows, Received(w, q));
  }

  /** Filters over strings reach the server unchanged. */
  lemma {:induction false} StringsTravelUnchanged(w: NumWire, e: Expr)
    requires StringLeaves(e)
    ensures Norm(w, e) == e
  {
    match e
    case Junction(_, sub) =>
      if sub.Slice? {
        StringsEach(w, sub.elems);
      }
    case Not(x) => StringsTravelUnchanged(w, x);
    case In(_, vals) =>
      if vals.Slice? {
        assert WireAll(w, vals.elems) == vals.elems by {
          forall i | 0 <= i < |vals.elems| ensures Wire(w, vals.elems[i]) == vals.elems[i] {
            assert vals.elems[i] in vals.Elems();
          }
        }
      }
    case Simple(_, _, val) => assert Sprint(val) == val.s;
  }

  lemma {:induction false} StringsEach(w: NumWire, es: seq<Expr>)
    requires StringLeavesIn(es)
    ensures StringifyEach(WireEach(w, es)) == es
  {
    if es == [] {
    } else {
      StringsTravelUnchanged(w, es[0]);
      StringsEach(w, es[1..]);
      assert StringifyEach(WireEach(w, es))[1..] == StringifyEach(WireEach(w, es[1..]));
    }
  }

  /** The database keeps the rows that the in-memory predicate keeps. */
  lemma {:induction false} MatchingIsSelected(cmp: Collation, e: Expr, rows: seq<Row>)
    requires Parsable(e) && (StringLeaves(e) || DecidesEquality(cmp))
    requires forall i :: 0 <= i < |rows| ==> Agrees(e, rows[i], true)
    ensures M.Selected(e, rows) == Ok(Matching(cmp, Some(CondOf(e)), rows))
  {
    if rows == [] {
    } else {
      ConditionAgrees(cmp, e, rows[0], true);
      MatchingIsSelected(cmp, e, rows[1..]);
    }
  }

  lemma LexableIsNotNil(e: Expr)
    ensures Lexable(e) ==> !e.Nil?
  {
  }

  /** End to end: loading everything through the wire and the SQL text gives exactly the rows that
      filtering the same table in memory gives. */
  lemma RemoteLoadIsMemoryFilter(rd: Reader, rows: seq<Row>, w: NumWire, os: seq<Order>, e: Expr, batch: nat, fuel: nat)
    requires Permutes(rd) && '`' !in rd.table && PlainOrders(os) && NamesPlain(os)
    requires StringLeaves(e) && Lexable(e) && Parsable(e) && Solid(e)
    requires forall i :: 0 <= i < |rows| ==> Agrees(e, rows[i], true)
    requires 1 <= batch < TWO_63 && |Matching(rd.cmp, Some(CondOf(e)), rows)| < TWO_63
    ensures var r := P.Loop(RemoteList(rd, rows, w, os, e), batch, 0, fuel);
            var kept := M.Selected(e, rows);
            kept.Ok? && (r.Some? <==> fuel >= P.CallsFor(|kept.value|, batch))
            && (r.Some? ==> r.value.0.Ok? && multiset(r.value.0.value) == multiset(kept.value))
  {
    hide RemoteList, Matching, Closed, WhereOf, Lexable, Parsable, CondOf, Solid, StringLeaves;
    LexableIsClosed(e);
    LexableIsNotNil(e);
    StringsTravelUnchanged(w, e);
    MatchingIsSelected(rd.cmp, e, rows);
    WhereOfPrinted(e);
    var n := |Matching(rd.cmp, Some(CondOf(e)), rows)|;
    P.CallsForIsCeiling(n, batch);
    RemoteLoad(rd, rows, w, os, e, batch, P.CallsFor(n, batch), fuel);
  }
}
