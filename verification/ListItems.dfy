/** Listing (pkg/crud/impl.go, ListItems): a COUNT and a SELECT statement written separately, and a
    database that parses them, answers the one and gives out the rows of the other. */
module ListItems {
  import opened Values
  import opened Texts
  import opened Filter
  import opened SqlLexer
  import opened SqlCondition
  import opened Query
  import P = Paging

  // ---- Reading statements ----

  datatype Read =
    | Count(table: string, where: Option<Cond>)
    | Rows(table: string, where: Option<Cond>, orders: seq<Order>, limit: Option<(nat, nat)>)

  function ParseWhere(ts: Tokens): Option<(Option<Cond>, Tokens)> {
    if !StartsWith(ts, "WHERE") then Some((None, ts))
    else
      match ParseOr(ts[1..])
      case None => None
      case Some((c, rest)) => Some((Some(c), rest))
  }

  /** identifier direction { , identifier direction } */
  function ParseOrders(ts: Tokens): Option<(seq<Order>, Tokens)>
    decreases |ts|
  {
    if |ts| < 2 || !ts[0].Ident? || (ts[1] != Word("ASC") && ts[1] != Word("DESC")) then None
    else
      var o := Order(ts[0].id, ts[1] == Word("ASC"));
      if |ts| > 2 && ts[2] == Comma then
        match ParseOrders(ts[3..])
        case None => None
        case Some((os, rest)) => Some(([o] + os, rest))
      else Some(([o], ts[2..]))
  }

  function ParseOrderBy(ts: Tokens): Option<(seq<Order>, Tokens)> {
    if StartsWith(ts, "ORDER") && StartsWith(ts[1..], "BY") then ParseOrders(ts[2..]) else Some(([], ts))
  }

  /** LIMIT offset, count; both unsigned */
  function ParseLimit(ts: Tokens): Option<Option<(nat, nat)>> {
    if ts == [] then Some(None)
    else if |ts| == 4 && ts[0] == Word("LIMIT") && ts[1].Word? && ts[2] == Comma && ts[3].Word? then
      match (ParseNat(ts[1].w), ParseNat(ts[3].w))
      case (Some(o), Some(n)) => Some(Some((o, n)))
      case _ => None
    else None
  }

  function ParseClauses(table: string, ts: Tokens): Option<Read> {
    match ParseWhere(ts)
    case None => None
    case Some((where, rest)) =>
      match ParseOrderBy(rest)
      case None => None
      case Some((orders, rest')) =>
        match ParseLimit(rest')
        case None => None
        case Some(limit) => Some(Rows(table, where, orders, limit))
  }

  const COUNT_HEAD: Tokens := [Word("SELECT"), Word("COUNT"), LParen, Word("1"), RParen, Word("FROM")]
  const ROWS_HEAD: Tokens := [Word("SELECT"), Word("*"), Word("FROM")]

  function ParseRead(text: string): Option<Read> {
    match Lex(text)
    case None => None
    case Some(ts) =>
      if |ts| >= 7 && ts[..6] == COUNT_HEAD && ts[6].Ident? then
        match ParseWhere(ts[7..])
        case Some((where, rest)) => if rest == [] then Some(Count(ts[6].id, where)) else None
        case None => None
      else if |ts| >= 4 && ts[..3] == ROWS_HEAD && ts[3].Ident? then ParseClauses(ts[3].id, ts[4..])
      else None
  }

  // ---- The database as a reader ----

  /** `arrange` is the order in which rows come back under an ORDER BY list. */
  datatype Reader = Reader(table: string, cmp: Collation, arrange: (seq<Order>, seq<Row>) -> seq<Row>)

  ghost predicate Permutes(rd: Reader) {
    forall os, rows :: multiset(rd.arrange(os, rows)) == multiset(rows)
  }

  function Matching(cmp: Collation, where: Option<Cond>, rows: seq<Row>): seq<Row> {
    if rows == [] then []
    else (if Selects(cmp, where, rows[0]) then [rows[0]] else []) + Matching(cmp, where, rows[1..])
  }

  function CountResult(rd: Reader, rows: seq<Row>, text: string): Result<nat> {
    match ParseRead(text)
    case Some(Count(table, where)) =>
      if table != rd.table then Err("no such table") else Ok(|Matching(rd.cmp, where, rows)|)
    case _ => Err("syntax error")
  }

  function RowsResult(rd: Reader, rows: seq<Row>, text: string): Result<seq<Row>> {
    match ParseRead(text)
    case Some(Rows(table, where, orders, limit)) =>
      if table != rd.table then Err("no such table")
      else
        var all := rd.arrange(orders, Matching(rd.cmp, where, rows));
        Ok(if limit.None? then all else P.PageOf(all, limit.value.0, limit.value.1))
    case _ => Err("syntax error")
  }

  // ---- ListItems ----

  /** `offset` is what a float32 holds. */
  datatype PagedResult = PagedResult(data: seq<Row>, totalCount: int, offset: nat)

  /** The distance of float32 values near `u`: 24 binary digits are kept. */
  function Spacing(u: nat): (s: nat)
    ensures s > 0
  {
    if u < 0x100_0000 then 1 else 2 * Spacing(u / 2)
  }

  /** How often `s` is taken to come near `u`: the nearest number of times, and of two equally near
      ones the even one. */
  function Nearest(u: nat, s: nat): nat
    requires s > 0
  {
    var q, r := u / s, u % s;
    if 2 * r < s || (2 * r == s && q % 2 == 0) then q else q + 1
  }

  /** float32(u). */
  function ToFloat32(u: U64): nat {
    Nearest(u, Spacing(u)) * Spacing(u)
  }

  lemma Divided(u: nat, s: nat)
    requires s > 0
    ensures u / s * s + u % s == u && (u / s + 1) * s == u / s * s + s
  {
  }

  lemma NearestExact(u: nat, s: nat)
    requires s > 0
    ensures var m := Nearest(u, s);
            && (m * s == u <==> u % s == 0)
            && 2 * u <= 2 * (m * s) + s && 2 * (m * s) <= 2 * u + s
            && (2 * (u % s) == s ==> m % 2 == 0)
  {
    Divided(u, s);
    var q, r := u / s, u % s;
    var below, above := q * s, (q + 1) * s;
    assert u == below + r && above == below + s && r < s;
    assert Nearest(u, s) * s == if Nearest(u, s) == q then below else above;
  }

  /** The reported offset is at most half a spacing off, the even neighbour if just half, and exact
      exactly when 24 binary digits hold it. */
  lemma OffsetExact(u: U64)
    ensures ToFloat32(u) == u <==> u % Spacing(u) == 0
    ensures u <= 0x100_0000 ==> ToFloat32(u) == u
    ensures 2 * u <= 2 * ToFloat32(u) + Spacing(u) && 2 * ToFloat32(u) <= 2 * u + Spacing(u)
    ensures 2 * (u % Spacing(u)) == Spacing(u) ==> Nearest(u, Spacing(u)) % 2 == 0
  {
    hide Nearest, Spacing;
    NearestExact(u, Spacing(u));
    SmallSpacing(u);
  }

  lemma SmallSpacing(u: nat)
    ensures u <= 0x100_0000 ==> u % Spacing(u) == 0
  {
    if u == 0x100_0000 {
      assert Spacing(u / 2) == 1;
    }
  }

  function CountText(entity: string, e: Expr): string
    requires e.Nil? || NoNil(e)
  {
    "SELECT COUNT(1) FROM `" + entity + "`" + WhereText(e)
  }

  function RowsText(entity: string, q: Query): string
    requires q.filter.Nil? || NoNil(q.filter)
  {
    "SELECT * FROM `" + entity + "`" + (WhereText(q.filter) + OrderByText(q.orders) + LimitText(q.paging))
  }

  /** What ListItems returns, as the database answers its two texts. */
  function Listed(rd: Reader, canRead: bool, rows: seq<Row>, entity: string, qe: Option<Query>): Result<PagedResult> {
    var q := GetOr(qe, Query([], Some(DEFAULT_PAGE), Nil));
    if !canRead then Err("read op is not allowed by configuration")
    else if !q.filter.Nil? && !NoNil(q.filter) then Err("failed to determine resultset size")
    else
      match CountResult(rd, rows, CountText(entity, q.filter))
      case Err(_) => Err("failed to determine resultset size")
      case Panic(msg) => Panic(msg)
      case Ok(cnt) =>
        var data := if cnt > 0 then RowsResult(rd, rows, RowsText(entity, q)) else Ok([]);
        match data
        case Err(_) => Err("failed to fetch rows")
        case Panic(msg) => Panic(msg)
        case Ok(page) =>
          if q.paging.None? then Panic("nil paging") else Ok(PagedResult(page, cnt, ToFloat32(q.paging.value.offset)))
  }

  /** A result set being read: `left` are the rows not yet reached. */
  class Cursor {
    var left: seq<Row>
    var current: Option<Row>

    constructor (rows: seq<Row>)
      ensures left == rows && current == None
    {
      left, current := rows, None;
    }

    /** Moves to the next row, if there is one. */
    method Next() returns (more: bool)
      modifies this
      ensures more <==> old(left) != []
      ensures more ==> current == Some(old(left)[0]) && left == old(left)[1..]
      ensures !more ==> left == [] && current == None
    {
      more := left != [];
      if more {
        current, left := Some(left[0]), left[1..];
      } else {
        current := None;
      }
    }
  }

  /** The database executes a SELECT. */
  method Open(rd: Reader, rows: seq<Row>, text: string) returns (r: Result<Cursor>)
    ensures r.Ok? <==> RowsResult(rd, rows, text).Ok?
    ensures r.Ok? ==> fresh(r.value) && r.value.left == RowsResult(rd, rows, text).value
    ensures r.Err? ==> RowsResult(rd, rows, text) == Err(r.msg)
    ensures !r.Panic?
  {
    match RowsResult(rd, rows, text)
    case Err(msg) => r := Err(msg);
    case Ok(found) =>
      var cursor := new Cursor(found);
      r := Ok(cursor);
  }

  /** fetchRows: the cursor is moved until it is exhausted, and each row it stops at is kept. What
      comes back is the whole result set in its order; every row in it is a row of the table. */
  method FetchRows(rd: Reader, rows: seq<Row>, text: string) returns (r: Result<seq<Row>>)
    ensures r == RowsResult(rd, rows, text)
    ensures Permutes(rd) && r.Ok? ==> multiset(r.value) <= multiset(rows)
  {
    hide RowsResult, Permutes;
    var answer := Open(rd, rows, text);
    if !answer.Ok? {
      return Err(answer.msg);
    }
    var cursor := answer.value;
    ghost var all := cursor.left;
    var res: seq<Row> := [];
    var more := cursor.Next();
    while more
      invariant more ==> cursor.current.Some?
      invariant all == if more then res + [cursor.current.value] + cursor.left else res
      invariant fresh(cursor)
      decreases |cursor.left|, more
    {
      res := res + [cursor.current.value];
      more := cursor.Next();
    }
    if Permutes(rd) {
      FetchedFromTable(rd, rows, text);
    }
    return Ok(res);
  }

  lemma {:induction false} MatchingFrom(cmp: Collation, where: Option<Cond>, rows: seq<Row>)
    ensures multiset(Matching(cmp, where, rows)) <= multiset(rows)
  {
    if rows == [] {
    } else {
      MatchingFrom(cmp, where, rows[1..]);
      assert rows == [rows[0]] + rows[1..];
    }
  }

  lemma PageFrom(all: seq<Row>, offset: nat, size: nat)
    ensures multiset(P.PageOf(all, offset, size)) <= multiset(all)
  {
    var page := P.PageOf(all, offset, size);
    if offset <= |all| {
      var end := if offset + size <= |all| then offset + size else |all|;
      assert all == all[..offset] + page + all[end..];
    }
  }

  /** A page holds only rows of the table that the statement's own condition selects, and none of
      them more often than the table does. */
  lemma FetchedFromTable(rd: Reader, rows: seq<Row>, text: string)
    requires Permutes(rd) && RowsResult(rd, rows, text).Ok?
    ensures multiset(RowsResult(rd, rows, text).value)
         <= multiset(Matching(rd.cmp, ParseRead(text).value.where, rows))
         <= multiset(rows)
  {
    hide ParseRead, Matching;
    var read := ParseRead(text).value;
    var found := Matching(rd.cmp, read.where, rows);
    MatchingFrom(rd.cmp, read.where, rows);
    if read.limit.Some? {
      PageFrom(rd.arrange(read.orders, found), read.limit.value.0, read.limit.value.1);
    }
  }

  /** ListItems. A filter with nil parts has no text: the COUNT statement carries an error message
      instead and the database refuses it. */
  method List(rd: Reader, canRead: bool, rows: seq<Row>, entity: string, qe: Option<Query>)
    returns (r: Result<PagedResult>)
    ensures r == Listed(rd, canRead, rows, entity, qe)
    ensures !canRead ==> r.Err?
    ensures r.Ok? ==> canRead
    ensures Permutes(rd) && r.Ok? ==> multiset(r.value.data) <= multiset(rows)
    ensures qe.None? ==> r == Listed(rd, canRead, rows, entity, Some(Query([], Some(Page(0, 20)), Nil)))
    ensures qe.Some? && qe.value.paging.None? ==> !r.Ok?
  {
    hide CountResult, RowsResult, Print, NoNil, Permutes;
    if !canRead {
      return Err("read op is not allowed by configuration");
    }
    var q := Query([], Some(DEFAULT_PAGE), Nil);
    if qe.Some? {
      q := qe.value;
    }
    if !q.filter.Nil? && !NoNil(q.filter) {
      return Err("failed to determine resultset size");
    }
    var whereExpr := "";
    if !q.filter.Nil? {
      whereExpr := " WHERE " + Print(q.filter);
    }
    var qry := "SELECT COUNT(1) FROM `" + entity + "`" + whereExpr;
    assert qry == CountText(entity, q.filter);
    var row := CountResult(rd, rows, qry);
    if row.Err? { return Err("failed to determine resultset size"); }
    if row.Panic? { return Panic(row.msg); }
    var cnt := row.value;
    var res: seq<Row> := [];
    if cnt > 0 {
      var clauses := QueryString(q);
      qry := "SELECT * FROM `" + entity + "`" + clauses;
      var fetched := FetchRows(rd, rows, qry);
      if fetched.Err? { return Err("failed to fetch rows"); }
      if fetched.Panic? { return Panic(fetched.msg); }
      res := fetched.value;
    }
    if q.paging.None? {
      return Panic("nil paging");
    }
    return Ok(PagedResult(res, cnt, ToFloat32(q.paging.value.offset)));
  }
}
