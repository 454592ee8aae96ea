/** The fluent query builder (pkg/query/builder.go), with Go slices as shared backing arrays. */
module Builder {
  import opened Values
  import opened Filter
  import Q = Query

  type Order = Q.Order
  type Page = Q.Page
  type Query = Q.Query

  /** A slice header: a window from the start of a backing array. */
  datatype Header = Header(arr: array<Order>, len: nat)

  /** qryData as Build hands it out: it copies the slice header, not the array. */
  datatype Built = Built(orders: Header, paging: Page, filter: Expr)

  ghost predicate InBounds(h: Header) {
    h.len <= h.arr.Length
  }

  ghost function View(q: Built): Query
    requires InBounds(q.orders)
    reads q.orders.arr
  {
    Q.Query(q.orders.arr[..q.orders.len], Some(q.paging), q.filter)
  }

  datatype Call = OrderBy(name: string, asc: bool) | Paging(offset: I64, size: I64) | SetFilter(fe: Expr) | Build

  // ---- What a run of calls amounts to ----

  /** All OrderBy calls, in order. */
  function OrdersIn(calls: seq<Call>): seq<Order> {
    if calls == [] then []
    else if calls[0].OrderBy? then [Q.Order(calls[0].name, calls[0].asc)] + OrdersIn(calls[1..])
    else OrdersIn(calls[1..])
  }

  /** The last Paging call, or the default page. */
  function LastPage(calls: seq<Call>): Page {
    if calls == [] then Q.DEFAULT_PAGE
    else
      var c := calls[|calls| - 1];
      if c.Paging? then Q.Page(ToUint(c.offset), c.size) else LastPage(calls[..|calls| - 1])
  }

  /** The last Filter call, or none. */
  function LastFilter(calls: seq<Call>): Expr {
    if calls == [] then Nil
    else
      var c := calls[|calls| - 1];
      if c.SetFilter? then c.fe else LastFilter(calls[..|calls| - 1])
  }

  function Described(calls: seq<Call>): Query {
    Q.Query(OrdersIn(calls), Some(LastPage(calls)), LastFilter(calls))
  }

  /** The queries that a run hands out, each described by the calls made before it. */
  function Snapshots(before: seq<Call>, calls: seq<Call>): seq<Query> {
    if calls == [] then []
    else
      var n := |calls| - 1;
      Snapshots(before, calls[..n]) + if calls[n].Build? then [Described(before + calls[..n])] else []
  }

  lemma {:induction false} OrdersInAppend(calls: seq<Call>, c: Call)
    ensures OrdersIn(calls + [c]) == OrdersIn(calls) + OrdersIn([c])
  {
    if calls != [] {
      assert (calls + [c])[1..] == calls[1..] + [c];
      OrdersInAppend(calls[1..], c);
    } else {
      assert calls + [c] == [c];
    }
  }

  lemma DescribedStep(calls: seq<Call>, c: Call)
    ensures Described(calls + [c]) ==
            match c
            case OrderBy(name, asc) => Described(calls).(orders := OrdersIn(calls) + [Q.Order(name, asc)])
            case Paging(o, s) => Described(calls).(paging := Some(Q.Page(ToUint(o), s)))
            case SetFilter(fe) => Described(calls).(filter := fe)
            case Build => Described(calls)
  {
    OrdersInAppend(calls, c);
    assert (calls + [c])[..|calls|] == calls;
    assert OrdersIn(calls) + [] == OrdersIn(calls);
  }

  /** append: writes into spare capacity when there is some, else moves to a larger array. */
  method Append(h: Header, x: Order) returns (r: Header)
    requires InBounds(h)
    modifies h.arr
    ensures InBounds(r) && r.len == h.len + 1
    ensures r.arr[..r.len] == old(h.arr[..h.len]) + [x]
    ensures h.arr[..h.len] == old(h.arr[..h.len])
    ensures r.arr == h.arr || fresh(r.arr)
  {
    if h.len < h.arr.Length {
      h.arr[h.len] := x;
      r := Header(h.arr, h.len + 1);
    } else {
      var spare :| spare >= 0;  // how far Go grows the array is not specified
      var bigger := new Order[h.len + 1 + spare](_ => x);
      for i := 0 to h.len
        invariant bigger[..i] == h.arr[..i]
        invariant bigger[h.len] == x
        invariant h.arr[..h.len] == old(h.arr[..h.len])
      {
        bigger[i] := h.arr[i];
      }
      r := Header(bigger, h.len + 1);
    }
  }

  class Builder {
    var ords: Header
    var fe: Expr
    var pg: Page
    ghost var log: seq<Call>  // every call made so far

    ghost predicate Valid()
      reads this, ords.arr
    {
      InBounds(ords) && Q.Query(ords.arr[..ords.len], Some(pg), fe) == Described(log)
    }

    /** A query that later appends cannot reach: it uses another array, or only the part of the
        current one that is already filled. */
    ghost predicate Safe(q: Built)
      reads this
    {
      InBounds(q.orders) && (q.orders.arr == ords.arr ==> q.orders.len <= ords.len)
    }

    constructor ()
      ensures Valid() && fresh(ords.arr) && log == []
      ensures ords.len == 0 && fe == Nil && pg == Q.Page(0, 20)
    {
      var none := new Order[0];
      ords := Header(none, 0);
      fe := Nil;
      pg := Q.DEFAULT_PAGE;
      log := [];
    }

    method OrderBy(name: string, asc: bool)
      requires Valid()
      modifies this, ords.arr
      ensures Valid() && log == old(log) + [Call.OrderBy(name, asc)]
      ensures ords.arr == old(ords.arr) || fresh(ords.arr)
      ensures ords.len == old(ords.len) + 1
      ensures old(ords).arr[..old(ords).len] == old(ords.arr[..ords.len])
      ensures ords.arr[..ords.len] == old(ords.arr[..ords.len]) + [Q.Order(name, asc)]
      ensures fe == old(fe) && pg == old(pg)
    {
      DescribedStep(log, Call.OrderBy(name, asc));
      ords := Append(ords, Q.Order(name, asc));
      log := log + [Call.OrderBy(name, asc)];
    }

    method Paging(offset: I64, size: I64)
      requires Valid()
      modifies this`pg, this`log
      ensures Valid() && log == old(log) + [Call.Paging(offset, size)]
      ensures pg.size == size && (offset >= 0 ==> pg.offset == offset) && (pg.offset - offset) % TWO_64 == 0
    {
      DescribedStep(log, Call.Paging(offset, size));
      pg := Q.Page(ToUint(offset), size);
      log := log + [Call.Paging(offset, size)];
    }

    method Filter(fe: Expr)
      requires Valid()
      modifies this`fe, this`log
      ensures Valid() && log == old(log) + [SetFilter(fe)]
      ensures this.fe == fe
    {
      DescribedStep(log, SetFilter(fe));
      this.fe := fe;
      log := log + [SetFilter(fe)];
    }

    method Build() returns (q: Built)
      requires Valid()
      modifies this`log
      ensures Valid() && log == old(log) + [Call.Build]
      ensures Safe(q) && q.orders == ords && View(q) == Described(old(log))
      ensures View(q) == Q.Query(ords.arr[..ords.len], Some(pg), fe)
    {
      DescribedStep(log, Call.Build);
      q := Built(ords, pg, fe);
      log := log + [Call.Build];
    }

    /** One call; what was built before keeps its contents. */
    method Do(c: Call, ghost kept: set<Built>) returns (built: Option<Built>)
      requires Valid() && forall q :: q in kept ==> Safe(q)
      modifies this, ords.arr
      ensures Valid() && log == old(log) + [c]
      ensures ords.arr == old(ords.arr) || fresh(ords.arr)
      ensures forall q :: q in kept ==> Safe(q) && View(q) == old(View(q))
      ensures built.Some? <==> c.Build?
      ensures built.Some? ==> Safe(built.value) && View(built.value) == Described(old(log))
                              && built.value.orders.arr == ords.arr
    {
      built := None;
      match c {
        case OrderBy(name, asc) =>
          OrderBy(name, asc);
          forall q | q in kept ensures Safe(q) && View(q) == old(View(q)) {
            if q.orders.arr == old(ords).arr {
              assert q.orders.arr[..q.orders.len] == old(ords).arr[..old(ords).len][..q.orders.len];
            }
          }
        case Paging(o, s) => Paging(o, s);
        case SetFilter(e) => Filter(e);
        case Build =>
          var q := Build();
          built := Some(q);
      }
    }

    /** Any run of further calls: queries built before it keep their contents, and each query
        built in it still says, at the end, what the calls before its Build described. */
    method Run(calls: seq<Call>, ghost earlier: set<Built>) returns (built: seq<Built>)
      requires Valid() && forall q :: q in earlier ==> Safe(q)
      modifies this, ords.arr
      ensures Valid() && log == old(log) + calls
      ensures forall q :: q in earlier ==> Safe(q) && View(q) == old(View(q))
      ensures |built| == |Snapshots(old(log), calls)|
      ensures forall j :: 0 <= j < |built| ==> Safe(built[j]) && View(built[j]) == Snapshots(old(log), calls)[j]
    {
      built := [];
      ghost var log0 := log;
      for i := 0 to |calls|
        invariant Valid() && log == log0 + calls[..i]
        invariant ords.arr == old(ords.arr) || fresh(ords.arr)
        invariant forall q :: q in earlier ==> Safe(q) && View(q) == old(View(q))
        invariant |built| == |Snapshots(log0, calls[..i])|
        invariant forall j :: 0 <= j < |built| ==>
                    Safe(built[j]) && View(built[j]) == Snapshots(log0, calls[..i])[j]
      {
        assert calls[..i + 1][..i] == calls[..i];
        assert calls[..i + 1] == calls[..i] + [calls[i]];
        assert log + [calls[i]] == log0 + calls[..i + 1];
        var b := Do(calls[i], earlier + set q | q in built);
        if b.Some? {
          built := built + [b.value];
        }
      }
      assert calls[..|calls|] == calls;
    }
  }
}
