/** Client-side paging (pkg/client/filter.go) and full retrieval page by page
    (pkg/client/misc.go). */
module Paging {
  import opened Values

  function Min(a: int, b: int): int {
    if a <= b then a else b
  }

  /** What a page of a list is. */
  function PageOf<T>(items: seq<T>, offset: nat, size: nat): seq<T> {
    items[Min(offset, |items|)..Min(offset + size, |items|)]
  }

  // ---- ApplyPaging ----

  /** ApplyPaging on a slice of length `n` whose backing array is `data`: Go lets a slice
      expression reach past the length, up to the capacity. */
  function ApplyPaging<T>(data: seq<T>, n: nat, offset: U64, size: I64): Result<seq<T>>
    requires n <= |data|
  {
    var low := ToInt(offset);
    if low > n then Ok([])
    else
      var high := low + Min(size, low + n);
      if 0 <= low <= high <= |data| then Ok(data[low..high]) else Panic("slice bounds out of range")
  }

  /** ApplyPaging gives the page exactly when the page starts at the beginning, or ends within the
      list, or starts past its end (as a signed offset). */
  lemma ApplyPagingExact<T>(data: seq<T>, n: nat, offset: U64, size: I64)
    requires n <= |data| < TWO_63 && size >= 0
    ensures ApplyPaging(data, n, offset, size) == Ok(PageOf(data[..n], offset, size))
       <==> offset == 0 || offset + size <= n || n < offset < TWO_63
  {
    var low := ToInt(offset);
    if 0 <= low <= n {
      var high := low + Min(size, low + n);
      if high <= |data| {
        assert |data[low..high]| == high - low;
        assert |PageOf(data[..n], offset, size)| == Min(offset + size, n) - offset;
        if offset == 0 || offset + size <= n {
          assert data[low..high] == data[..n][Min(offset, n)..Min(offset + size, n)];
        }
      }
    } else if low > n {
      assert PageOf(data[..n], offset, size) == [];
    }
  }

  lemma OnePageLess(k: nat, s: nat)
    requires k > 0
    ensures 0 <= (k - 1) * s && (k - 1) * s + s == k * s
  {
  }

  /** Full pages 0, s, .., (k-1)s, one after another. */
  function FullPages<T>(data: seq<T>, n: nat, s: I64, k: nat): seq<T>
    requires n <= |data| < TWO_63 && s >= 0 && k * s <= n
  {
    if k == 0 then []
    else
      OnePageLess(k, s);
      FullPages(data, n, s, k - 1) + ApplyPaging(data, n, (k - 1) * s, s).value
  }

  lemma {:induction false} FullPagesTile<T>(data: seq<T>, n: nat, s: I64, k: nat)
    requires n <= |data| < TWO_63 && s >= 0 && k * s <= n
    ensures FullPages(data, n, s, k) == data[..k * s]
  {
    if k == 0 {
    } else {
      OnePageLess(k, s);
      FullPagesTile(data, n, s, k - 1);
      ApplyPagingExact(data, n, (k - 1) * s, s);
      assert data[..k * s] == data[..(k - 1) * s] + data[..n][(k - 1) * s..k * s];
    }
  }

  // ---- LoadAllInBatch ----

  /** The List operation of a fixed collection: offset and size to a page and a total. */
  type Lister<!T> = (nat, int) -> Result<(seq<T>, int)>

  /** The loop from `loaded` on, followed for at most `fuel` calls: its result and how many calls
      it makes, or nothing if it is still going. */
  function Loop<T>(list: Lister<T>, batch: int, loaded: nat, fuel: nat): Option<(Result<seq<T>>, nat)>
    decreases fuel
  {
    if fuel == 0 then None
    else
      match list(loaded, batch)
      case Err(msg) => Some((Err(msg), 1))
      case Panic(msg) => Some((Panic(msg), 1))
      case Ok((rows, total)) =>
        if loaded + |rows| == total then Some((Ok(rows), 1))
        else
          match Loop(list, batch, loaded + |rows|, fuel - 1)
          case None => None
          case Some((Ok(more), calls)) => Some((Ok(rows + more), calls + 1))
          case Some((failed, calls)) => Some((failed, calls + 1))
  }

  /** How much the loop holds after `k` calls. */
  function LoadedAfter<T>(list: Lister<T>, batch: int, k: nat): nat {
    if k == 0 then 0
    else
      var before := LoadedAfter(list, batch, k - 1);
      match list(before, batch)
      case Ok((rows, _)) => before + |rows|
      case _ => before
  }

  /** The pages that the first `k` calls answer, one after another. */
  function PagesAfter<T>(list: Lister<T>, batch: int, k: nat): seq<T> {
    if k == 0 then []
    else
      match list(LoadedAfter(list, batch, k - 1), batch)
      case Ok((rows, _)) => PagesAfter(list, batch, k - 1) + rows
      case _ => PagesAfter(list, batch, k - 1)
  }

  /** Call number j answers a page, and what is loaded by then is not the total that it reports. */
  predicate GoesOn<T>(list: Lister<T>, batch: int, j: nat) {
    match list(LoadedAfter(list, batch, j), batch)
    case Ok((_, total)) => LoadedAfter(list, batch, j + 1) != total
    case _ => false
  }

  /** What the calls themselves say about an end after `calls` of them with result `r`: every call but
      the last answered a page and left something to load; the last one failed, and `r` is its
      failure, or it completed the total that it reports, and `r` is all pages in order. */
  ghost predicate Ends<T>(list: Lister<T>, batch: int, r: Result<seq<T>>, calls: nat) {
    && calls >= 1
    && (forall j: nat :: j < calls - 1 ==> GoesOn(list, batch, j))
    && match list(LoadedAfter(list, batch, calls - 1), batch)
       case Err(msg) => r == Err(msg)
       case Panic(msg) => r == Panic(msg)
       case Ok((_, total)) => r == Ok(PagesAfter(list, batch, calls)) && |PagesAfter(list, batch, calls)| == total
  }

  lemma {:induction false} LoadedIsLength<T>(list: Lister<T>, batch: int, k: nat)
    ensures LoadedAfter(list, batch, k) == |PagesAfter(list, batch, k)|
  {
    if k == 0 {
    } else {
      LoadedIsLength(list, batch, k - 1);
    }
  }

  /** Following the loop from call j on. */
  lemma {:induction false} LoopFrom<T>(list: Lister<T>, batch: int, j: nat, fuel: nat)
    requires forall i: nat :: i < j ==> GoesOn(list, batch, i)
    ensures match Loop(list, batch, LoadedAfter(list, batch, j), fuel)
            case None => forall i: nat :: i < j + fuel ==> GoesOn(list, batch, i)
            case Some((r, calls)) =>
              1 <= calls <= fuel
              && Ends(list, batch, if r.Ok? then Ok(PagesAfter(list, batch, j) + r.value) else r, j + calls)
    decreases fuel
  {
    hide Ends, GoesOn;
    var before := LoadedAfter(list, batch, j);
    if fuel > 0 {
      CallStep(list, batch, j);
      LoadedStep(list, batch, j);
      if list(before, batch).Ok? && before + |list(before, batch).value.0| != list(before, batch).value.1 {
        var rows := list(before, batch).value.0;
        LoopFrom(list, batch, j + 1, fuel - 1);
        var next := Loop(list, batch, before + |rows|, fuel - 1);
        if next.Some? && next.value.0.Ok? {
          PagesJoin(PagesAfter(list, batch, j), rows, next.value.0.value);
        }
      }
    }
  }

  lemma LoadedStep<T>(list: Lister<T>, batch: int, j: nat)
    ensures match list(LoadedAfter(list, batch, j), batch)
            case Ok((rows, _)) =>
              LoadedAfter(list, batch, j + 1) == LoadedAfter(list, batch, j) + |rows|
              && PagesAfter(list, batch, j + 1) == PagesAfter(list, batch, j) + rows
            case _ => true
  {
  }

  lemma PagesJoin<T>(a: seq<T>, b: seq<T>, c: seq<T>)
    ensures a + b + c == a + (b + c)
  {
  }

  lemma EndsOnce<T>(list: Lister<T>, batch: int, r: Result<seq<T>>, calls: nat, r': Result<seq<T>>, calls': nat)
    requires Ends(list, batch, r, calls) && Ends(list, batch, r', calls')
    ensures r == r' && calls == calls'
  {
    LoadedIsLength(list, batch, calls);
    LoadedIsLength(list, batch, calls');
    assert calls < calls' ==> GoesOn(list, batch, calls - 1);
    assert calls' < calls ==> GoesOn(list, batch, calls' - 1);
  }

  /** The loop ends with a result after a number of calls exactly when the calls say so: a failing call
      is the result, at that call, and a success is every page, with the reported total. */
  lemma LoopExact<T>(list: Lister<T>, batch: int, fuel: nat, r: Result<seq<T>>, calls: nat)
    ensures Loop(list, batch, 0, fuel) == Some((r, calls)) <==> Ends(list, batch, r, calls) && calls <= fuel
  {
    hide Loop, Ends, GoesOn;
    LoopFrom(list, batch, 0, fuel);
    var end := Loop(list, batch, 0, fuel);
    if end.Some? {
      var (r0, calls0) := end.value;
      assert r0.Ok? ==> [] + r0.value == r0.value;
      if Ends(list, batch, r, calls) { EndsOnce(list, batch, r, calls, r0, calls0); }
    } else if Ends(list, batch, r, calls) && calls <= fuel {
      LastCallEnds(list, batch, r, calls);
    }
  }

  lemma LastCallEnds<T>(list: Lister<T>, batch: int, r: Result<seq<T>>, calls: nat)
    requires Ends(list, batch, r, calls)
    ensures calls >= 1 && !GoesOn(list, batch, calls - 1)
  {
    LoadedIsLength(list, batch, calls);
  }

  /** The loop has no bound of its own: it is followed on every collection on which it ends, after
      at most `limit` calls. */
  method LoadAllInBatch<T>(list: Lister<T>, batch: int, ghost limit: nat) returns (r: Result<seq<T>>, calls: nat)
    requires Loop(list, batch, 0, limit).Some?
    ensures Loop(list, batch, 0, limit) == Some((r, calls))
    ensures Ends(list, batch, r, calls)
  {
    hide Loop, Ends, GoesOn;
    ghost var last := Loop(list, batch, 0, limit).value.1 - 1;
    LoopExact(list, batch, limit, Loop(list, batch, 0, limit).value.0, last + 1);
    LastCallEnds(list, batch, Loop(list, batch, 0, limit).value.0, last + 1);
    var loaded: nat := 0;
    var results: seq<T> := [];
    calls := 0;
    while true
      invariant calls <= last
      invariant loaded == LoadedAfter(list, batch, calls) && results == PagesAfter(list, batch, calls)
      invariant forall j: nat :: j < calls ==> GoesOn(list, batch, j)
      decreases last - calls
    {
      var page := list(loaded, batch);
      calls := calls + 1;
      LoadedIsLength(list, batch, calls);
      CallStep(list, batch, calls - 1);
      match page {
        case Err(msg) =>
          LoopExact(list, batch, limit, Err(msg), calls);
          return Err(msg), calls;
        case Panic(msg) =>
          LoopExact(list, batch, limit, Panic(msg), calls);
          return Panic(msg), calls;
        case Ok((rows, total)) =>
          loaded := loaded + |rows|;
          results := results + rows;
          if loaded == total {
            LoopExact(list, batch, limit, Ok(results), calls);
            return Ok(results), calls;
          }
      }
    }
  }

  /** Call number j, after calls that all went on: it goes on too, or the loop ends with it. */
  lemma CallStep<T>(list: Lister<T>, batch: int, j: nat)
    requires forall i: nat :: i < j ==> GoesOn(list, batch, i)
    ensures match list(LoadedAfter(list, batch, j), batch)
            case Err(msg) => Ends(list, batch, Err(msg), j + 1)
            case Panic(msg) => Ends(list, batch, Panic(msg), j + 1)
            case Ok((rows, total)) =>
              if LoadedAfter(list, batch, j + 1) == total
              then Ends(list, batch, Ok(PagesAfter(list, batch, j + 1)), j + 1)
              else GoesOn(list, batch, j)
  {
    LoadedIsLength(list, batch, j + 1);
  }

  /** LoadAll. */
  method LoadAll<T>(list: Lister<T>, ghost limit: nat) returns (r: Result<seq<T>>, calls: nat)
    requires Loop(list, 20, 0, limit).Some?
    ensures Loop(list, 20, 0, limit) == Some((r, calls))
    ensures Ends(list, 20, r, calls)
  {
    r, calls := LoadAllInBatch(list, 20, limit);
  }

  /** A server that gives pages of a fixed list and its full length (total_count in the API). */
  ghost predicate Serves<T>(list: Lister<T>, items: seq<T>, batch: nat) {
    forall o: nat :: o <= |items| ==> list(o, batch) == Ok((PageOf(items, o, batch), |items|))
  }

  function CallsFor(left: nat, batch: nat): nat
    requires batch >= 1
  {
    if left <= batch then 1 else 1 + CallsFor(left - batch, batch)
  }

  /** The ceiling of left/batch, but at least one. */
  lemma {:induction false} CallsForIsCeiling(left: nat, batch: nat)
    requires batch >= 1
    ensures var c := CallsFor(left, batch);
            c >= 1 && left <= c * batch && ((c - 1) * batch < left || (c == 1 && left == 0))
  {
    if left > batch {
      CallsForIsCeiling(left - batch, batch);
      var c := CallsFor(left, batch);
      assert c * batch == (c - 1) * batch + batch && (c - 1) * batch == (c - 2) * batch + batch;
    }
  }

  /** From any point, the loop fetches exactly the rest, in order, in exactly CallsFor calls. */
  lemma {:induction false} ServedFrom<T>(list: Lister<T>, items: seq<T>, batch: nat, loaded: nat, fuel: nat)
    requires Serves(list, items, batch) && batch >= 1 && loaded <= |items|
    ensures Loop(list, batch, loaded, fuel) ==
            if fuel < CallsFor(|items| - loaded, batch) then None
            else Some((Ok(items[loaded..]), CallsFor(|items| - loaded, batch)))
    decreases fuel
  {
    if fuel == 0 {
    } else {
      var rows := PageOf(items, loaded, batch);
      assert list(loaded, batch) == Ok((rows, |items|));
      if |items| - loaded > batch {
        ServedFrom(list, items, batch, loaded + batch, fuel - 1);
        assert rows + items[loaded + batch..] == items[loaded..];
      } else {
        assert rows == items[loaded..];
      }
    }
  }

  /** Against such a server the whole list arrives, once and in order, in max(1, ceil(n/b)) calls,
      and not in fewer. */
  lemma LoadsEverything<T>(list: Lister<T>, items: seq<T>, batch: nat, calls: nat, fuel: nat)
    requires Serves(list, items, batch) && batch >= 1
    requires calls >= 1 && |items| <= calls * batch && ((calls - 1) * batch < |items| || (calls == 1 && items == []))
    ensures Loop(list, batch, 0, fuel) == if fuel < calls then None else Some((Ok(items), calls))
  {
    ServedFrom(list, items, batch, 0, fuel);
    CallsForIsCeiling(|items|, batch);
    CeilingUnique(|items|, batch, calls, CallsFor(|items|, batch));
    assert items[0..] == items;
  }

  lemma CeilingUnique(n: nat, b: nat, c: nat, d: nat)
    requires b >= 1
    requires c >= 1 && n <= c * b && ((c - 1) * b < n || (c == 1 && n == 0))
    requires d >= 1 && n <= d * b && ((d - 1) * b < n || (d == 1 && n == 0))
    ensures c == d
  {
    if c < d {
      TimesMonotone(c, d - 1, b);
    } else if d < c {
      TimesMonotone(d, c - 1, b);
    }
  }

  lemma TimesMonotone(x: int, y: int, b: nat)
    requires x <= y
    ensures x * b <= y * b
  {
  }

  lemma {:induction false} LoadedAfterIsMin<T>(list: Lister<T>, items: seq<T>, batch: nat, k: nat)
    requires Serves(list, items, batch)
    ensures LoadedAfter(list, batch, k) == Min(k * batch, |items|)
  {
    if k == 0 {
    } else {
      LoadedAfterIsMin(list, items, batch, k - 1);
      assert (k - 1) * batch + batch == k * batch;
      var before: nat := Min((k - 1) * batch, |items|);
      assert list(before, batch) == Ok((PageOf(items, before, batch), |items|));
      assert k * batch >= (k - 1) * batch >= 0;
    }
  }

  lemma {:induction false} EmptyBatchLoops<T>(list: Lister<T>, items: seq<T>, fuel: nat)
    requires Serves(list, items, 0) && items != []
    ensures Loop(list, 0, 0, fuel) == None
  {
    if fuel == 0 {
    } else {
      EmptyBatchLoops(list, items, fuel - 1);
      assert list(0, 0) == Ok((PageOf(items, 0, 0), |items|));
    }
  }

  /** The loop ends exactly when the batch is not empty or there is nothing to load. */
  lemma TerminationExact<T>(list: Lister<T>, items: seq<T>, batch: nat)
    requires Serves(list, items, batch)
    ensures (exists fuel :: Loop(list, batch, 0, fuel).Some?) <==> batch >= 1 || items == []
  {
    if batch >= 1 {
      var calls := CallsFor(|items|, batch);
      ServedFrom(list, items, batch, 0, calls);
      assert Loop(list, batch, 0, calls).Some?;
    } else if items == [] {
      assert list(0, 0) == Ok((PageOf(items, 0, 0), |items|));
      assert Loop(list, batch, 0, 1).Some?;
    } else {
      forall fuel: nat ensures Loop(list, batch, 0, fuel) == None {
        EmptyBatchLoops(list, items, fuel);
      }
    }
  }

  /** A List that reports the length of the page as the total, as the in-memory store does. */
  ghost predicate ReportsPageLength<T>(list: Lister<T>, items: seq<T>, batch: nat) {
    list(0, batch) == Ok((PageOf(items, 0, batch), |PageOf(items, 0, batch)|))
  }

  /** Against such a List the loop stops after one page, so it is complete exactly when everything
      fits in one batch. */
  lemma PageLengthAsTotal<T>(list: Lister<T>, items: seq<T>, batch: nat, fuel: nat)
    requires ReportsPageLength(list, items, batch) && fuel >= 1
    ensures Loop(list, batch, 0, fuel) == Some((Ok(PageOf(items, 0, batch)), 1))
    ensures Loop(list, batch, 0, fuel) == Some((Ok(items), 1)) <==> |items| <= batch
  {
    if |items| <= batch {
      assert PageOf(items, 0, batch) == items;
    } else {
      assert |PageOf(items, 0, batch)| == batch;
    }
  }
}
