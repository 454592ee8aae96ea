/** Queries (pkg/query/query.go) and their trip through request parameters (pkg/query/codec.go). */
module Query {
  import opened Values
  import opened Texts
  import opened Filter
  import opened FilterCodec

  datatype Order = Order(name: string, asc: bool)

  datatype Page = Page(offset: U64, size: I64)

  datatype Query = Query(orders: seq<Order>, paging: Option<Page>, filter: Expr)

  const DEFAULT_PAGE_OFFSET: I64 := 0
  const DEFAULT_PAGE_SIZE: I64 := 20
  const DEFAULT_PAGE := Page(0, 20)

  // ---- The order text codec ----

  /** MarshalText. */
  function OrderText(o: Order): string {
    o.name + "=" + (if o.asc then "asc" else "desc")
  }

  /** What UnmarshalText makes of a text, starting from a zero order. */
  function OrderOf(text: string): Order {
    var parts := Split(text, '=');
    Order(parts[0], |parts| > 1 && Lower(parts[1]) == "asc")
  }

  /** The receiver of UnmarshalText. */
  class OrderRef {
    var name: string
    var asc: bool

    constructor ()
      ensures name == "" && !asc
    {
      name, asc := "", false;
    }

    /** The name is overwritten; the direction is only ever switched to ascending. */
    method UnmarshalText(text: string)
      modifies this
      ensures name == OrderOf(text).name
      ensures asc == (old(asc) || OrderOf(text).asc)
    {
      var parts := Split(text, '=');
      name := parts[0];
      if |parts| > 1 && Lower(parts[1]) == "asc" {
        asc := true;
      }
    }
  }

  /** An order survives its text exactly when its name has no '='. */
  lemma OrderRoundTrip(o: Order)
    ensures OrderOf(OrderText(o)) == o <==> '=' !in o.name
  {
    var dir := if o.asc then "asc" else "desc";
    if '=' !in o.name {
      SplitAtSeparator(o.name, dir, '=');
      SplitWithout(dir, '=');
      assert OrderText(o) == o.name + ['='] + dir;
      LowerDirections();
    } else {
      SplitPiecesClean(OrderText(o), '=');
      assert Split(OrderText(o), '=')[0] in Split(OrderText(o), '=');
    }
  }

  lemma LowerDirections()
    ensures Lower("asc") == "asc" && Lower("desc") == "desc"
  {
    assert Lower("sc") == "sc" && Lower("esc") == "esc";
  }

  /** The name of an order is its text up to the first '=', or all of it. */
  lemma OrderName(text: string)
    ensures var name := OrderOf(text).name;
            '=' !in name && (text == name || exists rest :: text == name + ['='] + rest)
  {
    var parts := Split(text, '=');
    SplitPiecesClean(text, '=');
    JoinSplit(text, '=');
    assert parts[0] in parts;
    if |parts| > 1 {
      assert text == parts[0] + ['='] + Join(parts[1..], ['=']);
    }
  }

  /** Only the part between the first and the second '=' decides the direction. */
  lemma OrderDirection(name: string, dir: string, rest: string)
    requires '=' !in name && '=' !in dir
    ensures OrderOf(name + ['='] + (dir + ['='] + rest)) == Order(name, Lower(dir) == "asc")
  {
    SplitAtSeparator(name, dir + ['='] + rest, '=');
    SplitAtSeparator(dir, rest, '=');
  }

  /** A text without '=' names a descending order (the API description says ascending); with a
      direction, only "asc" in any case is ascending. */
  lemma OrderDirections(name: string, dir: string)
    requires '=' !in name && '=' !in dir
    ensures OrderOf(name) == Order(name, false)
    ensures OrderOf(name + "=" + dir) == Order(name, Lower(dir) == "asc")
  {
    SplitWithout(name, '=');
    SplitWithout(dir, '=');
    SplitAtSeparator(name, dir, '=');
  }

  // ---- SQL text of a query ----

  function OrderSql(o: Order): string {
    "`" + o.name + "` " + (if o.asc then "ASC" else "DESC")
  }

  function OrderSqlEach(os: seq<Order>): (r: seq<string>)
    ensures |r| == |os|
  {
    if os == [] then [] else [OrderSql(os[0])] + OrderSqlEach(os[1..])
  }

  function OrdersSql(os: seq<Order>): string {
    Join(OrderSqlEach(os), ", ")
  }

  function PageSql(p: Page): string {
    NatText(p.offset) + ", " + IntText(p.size)
  }

  function WhereText(e: Expr): string
    requires e.Nil? || NoNil(e)
  {
    if e.Nil? then "" else " WHERE " + Print(e)
  }

  function OrderByText(os: seq<Order>): string {
    if os == [] then "" else " ORDER BY " + OrdersSql(os)
  }

  function LimitText(p: Option<Page>): string {
    if p.None? then "" else " LIMIT " + PageSql(p.value)
  }

  /** qryData.String: the clauses are written to one builder. */
  method QueryString(q: Query) returns (sb: string)
    requires q.filter.Nil? || NoNil(q.filter)
    ensures sb == WhereText(q.filter) + OrderByText(q.orders) + LimitText(q.paging)
  {
    hide Print, OrdersSql, PageSql, NoNil;
    sb := "";
    if !q.filter.Nil? {
      sb := sb + " WHERE ";
      sb := sb + Print(q.filter);
    }
    assert sb == WhereText(q.filter);
    ghost var head := sb;
    if |q.orders| > 0 {
      sb := sb + " ORDER BY ";
      sb := sb + OrdersSql(q.orders);
    }
    assert sb == head + OrderByText(q.orders);
    head := sb;
    if q.paging.Some? {
      sb := sb + " LIMIT ";
      sb := sb + PageSql(q.paging.value);
    }
    assert sb == head + LimitText(q.paging);
  }

  // ---- Request parameters ----

  /** ListItemsParams; the filter parameter is JSON, kept as a tree. */
  datatype Params = Params(
    pageOffset: Option<I64>,
    pageSize: Option<I64>,
    order: Option<seq<string>>,
    filter: Option<Value>)

  const NO_PARAMS := Params(None, None, None, None)

  function OrderTexts(os: seq<Order>): (r: seq<string>)
    ensures |r| == |os| && forall i :: 0 <= i < |os| ==> r[i] == OrderText(os[i])
  {
    if os == [] then [] else [OrderText(os[0])] + OrderTexts(os[1..])
  }

  function OrdersOf(texts: seq<string>): (r: seq<Order>)
    ensures |r| == |texts| && forall i :: 0 <= i < |texts| ==> r[i] == OrderOf(texts[i])
  {
    if texts == [] then [] else [OrderOf(texts[0])] + OrdersOf(texts[1..])
  }

  function ParamsOf(q: Query): Params {
    Params(
      if q.paging.None? then None else Some(ToInt(q.paging.value.offset)),
      if q.paging.None? then None else Some(q.paging.value.size),
      if q.orders == [] then None else Some(OrderTexts(q.orders)),
      if q.filter.Nil? then None else Some(Encode(q.filter)))
  }

  method ToParams(q: Query) returns (ret: Params)
    ensures ret == ParamsOf(q)
    ensures ret.filter == if q.filter.Nil? then None else Some(Encode(q.filter))
    ensures ret.order.None? <==> q.orders == []
    ensures ret.order.Some? ==>
              |ret.order.value| == |q.orders|
              && forall i :: 0 <= i < |q.orders| ==> ret.order.value[i] == OrderText(q.orders[i])
    ensures ret.pageOffset.Some? == ret.pageSize.Some? == q.paging.Some?
    ensures q.paging.Some? ==>
              ret.pageSize.value == q.paging.value.size && ToUint(ret.pageOffset.value) == q.paging.value.offset
  {
    ret := NO_PARAMS;
    if !q.filter.Nil? {
      ret := ret.(filter := Some(Encode(q.filter)));
    }
    if |q.orders| > 0 {
      ret := ret.(order := Some(OrderTexts(q.orders)));
    }
    if q.paging.Some? {
      ret := ret.(pageOffset := Some(ToInt(q.paging.value.offset)));
      ret := ret.(pageSize := Some(q.paging.value.size));
    }
  }

  function QueryOf(w: NumWire, p: Params): Result<Query> {
    var filter := if p.filter.None? then Ok(Nil) else DecodeFilter(w, p.filter.value);
    var page := Page(ToUint(GetOr(p.pageOffset, DEFAULT_PAGE_OFFSET)), GetOr(p.pageSize, DEFAULT_PAGE_SIZE));
    match filter
    case Ok(e) => Ok(Query(OrdersOf(GetOr(p.order, [])), Some(page), e))
    case Err(msg) => Err(msg)
    case Panic(msg) => Panic(msg)
  }

  /** Each part of the query comes from its own parameter, or is the default if that is absent; only
      the filter can make the whole fail. */
  method FromParams(w: NumWire, p: Params) returns (r: Result<Query>)
    ensures r == QueryOf(w, p)
    ensures r.Ok? <==> p.filter.None? || DecodeFilter(w, p.filter.value).Ok?
    ensures r.Ok? ==>
              && r.value.paging.Some?
              && r.value.paging.value.size == (if p.pageSize.Some? then p.pageSize.value else 20)
              && ToInt(r.value.paging.value.offset) == (if p.pageOffset.Some? then p.pageOffset.value else 0)
              && |r.value.orders| == (if p.order.Some? then |p.order.value| else 0)
              && (forall i :: 0 <= i < |r.value.orders| ==> r.value.orders[i] == OrderOf(p.order.value[i]))
              && (if p.filter.None? then r.value.filter == Nil
                  else Ok(r.value.filter) == DecodeFilter(w, p.filter.value))
    ensures r.Err? ==> p.filter.Some? && DecodeFilter(w, p.filter.value) == Err(r.msg)
    ensures r.Panic? ==> p.filter.Some? && DecodeFilter(w, p.filter.value) == Panic(r.msg)
  {
    hide DecodeFilter, OrderOf;
    ConversionsExact();
    var orders: seq<Order> := [];
    var filter := Nil;
    var pageOffset, pageSize := DEFAULT_PAGE_OFFSET, DEFAULT_PAGE_SIZE;
    if p.pageSize.Some? {
      pageSize := p.pageSize.value;
    }
    if p.pageOffset.Some? {
      pageOffset := p.pageOffset.value;
    }
    if p.order.Some? {
      var texts := p.order.value;
      for i := 0 to |texts|
        invariant orders == OrdersOf(texts)[..i]
      {
        var ord := new OrderRef();
        ord.UnmarshalText(texts[i]);
        orders := orders + [Order(ord.name, ord.asc)];
      }
    }
    assert orders == OrdersOf(GetOr(p.order, []));
    if p.filter.Some? {
      match DecodeFilter(w, p.filter.value) {
        case Err(msg) => return Err(msg);
        case Panic(msg) => return Panic(msg);
        case Ok(e) => filter := e;
      }
    }
    return Ok(Query(orders, Some(Page(ToUint(pageOffset), pageSize)), filter));
  }

  // ---- The trip over the wire ----

  /** A query as the other side sees it: absent paging takes the defaults, and values of simple
      filters are strings. */
  function Received(w: NumWire, q: Query): Query {
    Query(q.orders, Some(GetOr(q.paging, DEFAULT_PAGE)), Norm(w, q.filter))
  }

  predicate NamesPlain(os: seq<Order>) {
    forall i :: 0 <= i < |os| ==> '=' !in os[i].name
  }

  lemma UnsignedRoundTrip(u: U64)
    ensures ToUint(ToInt(u)) == u
  {
  }

  /** Parameters that differ only in one of them give queries that differ only in its part: a page
      size is used whether or not there is an offset, and so on. */
  lemma PartsIndependent(w: NumWire, p: Params, p': Params)
    requires QueryOf(w, p).Ok? && QueryOf(w, p').Ok?
    ensures var q, q' := QueryOf(w, p).value, QueryOf(w, p').value;
            && q.paging.Some? && q'.paging.Some?
            && (p.pageSize == p'.pageSize ==> q.paging.value.size == q'.paging.value.size)
            && (p.pageOffset == p'.pageOffset ==> q.paging.value.offset == q'.paging.value.offset)
            && (p.order == p'.order ==> q.orders == q'.orders)
            && (p.filter == p'.filter ==> q.filter == q'.filter)
  {
    hide DecodeFilter, OrdersOf;
  }

  lemma OrdersRoundTrip(os: seq<Order>)
    ensures OrdersOf(OrderTexts(os)) == os <==> NamesPlain(os)
  {
    var back := OrdersOf(OrderTexts(os));
    forall i | 0 <= i < |os| ensures back[i] == os[i] <==> '=' !in os[i].name {
      OrderRoundTrip(os[i]);
    }
    if !NamesPlain(os) {
      var i :| 0 <= i < |os| && '=' in os[i].name;
      assert back[i] != os[i];
    }
  }

  /** A query survives its request parameters exactly when no order name has '=' and the filter is
      absent or has no nil part: paging for every 64-bit offset, orders in order, filter
      normalised, defaults for what is absent. */
  lemma QueryRoundTrip(w: NumWire, q: Query)
    ensures QueryOf(w, ParamsOf(q)) == Ok(Received(w, q))
       <==> NamesPlain(q.orders) && (q.filter.Nil? || Solid(q.filter))
  {
    OrdersRoundTrip(q.orders);
    JsonRoundTrip(w, q.filter);
    if q.paging.Some? {
      UnsignedRoundTrip(q.paging.value.offset);
    }
    assert q.orders == [] ==> OrdersOf(GetOr<seq<string>>(None, [])) == q.orders;
  }

  /** A received query makes every further trip unchanged. */
  lemma ReceivedIsStable(w: NumWire, q: Query)
    requires Idempotent(w)
    ensures Received(w, Received(w, q)) == Received(w, q)
  {
    NormIdempotent(w, q.filter);
  }
}
