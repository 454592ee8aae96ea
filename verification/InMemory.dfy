/** The in-memory store (pkg/client/inmemory.go): a list of references to items. */
module InMemory {
  import opened Values
  import opened Texts
  import opened Filter
  import opened Predicate
  import opened Paging
  import Q = Query

  /** Whether a string is the key of an item. */
  type KeyFn = (string, Row) -> bool

  class Item {
    var val: Row

    constructor (v: Row)
      ensures val == v
    {
      val := v;
    }
  }

  ghost function Vals(items: seq<Item>): (r: seq<Row>)
    reads items
    ensures |r| == |items| && forall i :: 0 <= i < |items| ==> r[i] == items[i].val
  {
    if items == [] then [] else [items[0].val] + Vals(items[1..])
  }

  // ---- What the operations do, on the items' values ----

  function Find(isKey: KeyFn, key: string, vals: seq<Row>): (r: Option<nat>)
    ensures r.Some? ==> r.value < |vals| && isKey(key, vals[r.value])
    ensures forall i :: 0 <= i < (if r.Some? then r.value else |vals|) ==> !isKey(key, vals[i])
  {
    if vals == [] then None
    else if isKey(key, vals[0]) then Some(0)
    else
      match Find(isKey, key, vals[1..])
      case None => None
      case Some(i) => Some(i + 1)
  }

  function Without(isKey: KeyFn, key: string, vals: seq<Row>): seq<Row> {
    if vals == [] then []
    else (if isKey(key, vals[0]) then [] else [vals[0]]) + Without(isKey, key, vals[1..])
  }

  /** The rows that a filter keeps; the first panic ends the evaluation. */
  function Selected(fe: Expr, vals: seq<Row>): Result<seq<Row>> {
    if vals == [] then Ok([])
    else
      match Holds(fe, vals[0])
      case Err(msg) => Err(msg)
      case Panic(msg) => Panic(msg)
      case Ok(keep) =>
        Prefixed(if keep then [vals[0]] else [], Selected(fe, vals[1..]))
  }

  /** A selection with more rows put in front. */
  function Prefixed(done: seq<Row>, r: Result<seq<Row>>): Result<seq<Row>> {
    if r.Ok? then Ok(done + r.value) else r
  }

  lemma PrefixedTwice(a: seq<Row>, b: seq<Row>, r: Result<seq<Row>>)
    ensures Prefixed(a, Prefixed(b, r)) == Prefixed(a + b, r)
    ensures Prefixed([], r) == r
  {
    if r.Ok? {
      assert a + (b + r.value) == (a + b) + r.value;
      assert [] + r.value == r.value;
    }
  }

  function Present(vals: seq<Row>): (r: seq<Option<Row>>)
    ensures |r| == |vals| && forall i :: 0 <= i < |vals| ==> r[i] == Some(vals[i])
  {
    seq(|vals|, i requires 0 <= i < |vals| => Some(vals[i]))
  }

  function Absent<T>(n: nat): seq<Option<T>> {
    seq(n, _ => None)
  }

  lemma {:induction false} SelectedFits(fe: Expr, vals: seq<Row>)
    ensures Selected(fe, vals).Ok? ==> |Selected(fe, vals).value| <= |vals|
  {
    if vals == [] {
    } else {
      SelectedFits(fe, vals[1..]);
    }
  }

  /** List over values: filtering allocates room for all items, so an over-long page shows nil
      references; the length of the page is reported as the total. */
  function ListOf(fe: Expr, vals: seq<Row>, page: Option<Q.Page>): Result<(seq<Option<Row>>, int)> {
    match Selected(fe, vals)
    case Err(msg) => Err(msg)
    case Panic(msg) => Panic(msg)
    case Ok(out) =>
      SelectedFits(fe, vals);
      if page.None? then Panic("nil paging")
      else
        match ApplyPaging(Present(out) + Absent(|vals| - |out|), |out|, page.value.offset, page.value.size)
        case Err(msg) => Err(msg)
        case Panic(msg) => Panic(msg)
        case Ok(rows) => Ok((rows, |rows|))
  }

  /** Filtering goes item by item: a collection in two parts is filtered part by part, in order, and
      a single item is kept exactly when it is accepted. */
  lemma {:induction false} SelectedInParts(fe: Expr, a: seq<Row>, b: seq<Row>)
    ensures var x, y := Selected(fe, a), Selected(fe, b);
            Selected(fe, a + b) == if !x.Ok? then x else Prefixed(x.value, y)
  {
    hide Holds;
    if a == [] {
      assert a + b == b;
      PrefixedTwice([], [], Selected(fe, b));
    } else {
      assert (a + b)[0] == a[0] && (a + b)[1..] == a[1..] + b;
      SelectedInParts(fe, a[1..], b);
      var keep := Holds(fe, a[0]);
      if keep.Ok? && Selected(fe, a[1..]).Ok? {
        PrefixedTwice(if keep.value then [a[0]] else [], Selected(fe, a[1..]).value, Selected(fe, b));
      }
    }
  }

  lemma SelectedOne(fe: Expr, row: Row)
    ensures match Holds(fe, row)
            case Ok(keep) => Selected(fe, [row]) == Ok(if keep then [row] else [])
            case Err(msg) => Selected(fe, [row]) == Err(msg)
            case Panic(msg) => Selected(fe, [row]) == Panic(msg)
  {
    hide Holds;
    var none: seq<Row> := [];
    assert [row][1..] == none && Selected(fe, none) == Ok(none);
    assert [row] + none == [row] && none + none == none;
  }

  lemma {:induction false} NoFilterKeepsAll(vals: seq<Row>)
    ensures Selected(Nil, vals) == Ok(vals)
  {
    if vals == [] {
    } else {
      NoFilterKeepsAll(vals[1..]);
      assert [vals[0]] + vals[1..] == vals;
    }
  }

  /** What a page shows, for every offset and size: from the offset on, one match after another, and
      nil references past the last; its length is the total. It is refused exactly when it would run
      past the store, or has a negative size, or the offset is no signed integer. */
  lemma ListShows(fe: Expr, vals: seq<Row>, offset: U64, size: I64)
    requires Selected(fe, vals).Ok? && |vals| < TWO_63
    ensures var matches, r := Selected(fe, vals).value, ListOf(fe, vals, Some(Q.Page(offset, size)));
            var n := |matches|;
            && (r.Ok? <==> n < offset < TWO_63
                           || (offset <= n && size >= 0 && offset + Min(size, offset + n) <= |vals|))
            && !r.Err?
            && (r.Ok? ==>
                var (rows, total) := r.value;
                && total == |rows| == (if offset > n then 0 else Min(size, offset + n))
                && (forall i :: 0 <= i < |rows| ==>
                      rows[i] == if offset + i < n then Some(matches[offset + i]) else None))
  {
    hide Selected;
    SelectedFits(fe, vals);
  }

  /** Without paging there is a panic, and a filter that fails is the whole answer. */
  lemma ListFails(fe: Expr, vals: seq<Row>, page: Option<Q.Page>)
    ensures match Selected(fe, vals)
            case Err(msg) => ListOf(fe, vals, page) == Err(msg)
            case Panic(msg) => ListOf(fe, vals, page) == Panic(msg)
            case Ok(_) => page.None? ==> ListOf(fe, vals, page).Panic?
  {
  }

  /** A page inside the matches is that page of them. */
  lemma ListPage(fe: Expr, vals: seq<Row>, offset: U64, size: I64)
    requires Selected(fe, vals).Ok? && |vals| < TWO_63
    requires size >= 0 && offset + size <= |Selected(fe, vals).value|
    ensures ListOf(fe, vals, Some(Q.Page(offset, size))) ==
            Ok((Present(PageOf(Selected(fe, vals).value, offset, size)), size))
  {
    hide Selected, ListOf;
    ListShows(fe, vals, offset, size);
    SelectedFits(fe, vals);
    var r := ListOf(fe, vals, Some(Q.Page(offset, size)));
    assert r.value.0 == Present(PageOf(Selected(fe, vals).value, offset, size));
  }

  datatype Op = Create(v: Row) | Get(key: string) | Delete(key: string) | Update(key: string, v: Row)

  function StepVals(isKey: KeyFn, vals: seq<Row>, op: Op): seq<Row> {
    match op
    case Create(v) => vals + [v]
    case Get(_) => vals
    case Delete(key) => Without(isKey, key, vals)
    case Update(key, v) => if Find(isKey, key, vals).None? then vals else vals[Find(isKey, key, vals).value := v]
  }

  function Answer(isKey: KeyFn, vals: seq<Row>, op: Op): Option<Row> {
    match op
    case Create(v) => Some(v)
    case Get(key) => if Find(isKey, key, vals).None? then None else Some(vals[Find(isKey, key, vals).value])
    case Delete(_) => None
    case Update(_, v) => Some(v)
  }

  lemma ValsAppend(items: seq<Item>, x: Item)
    ensures Vals(items + [x]) == Vals(items) + [x.val]
  {
  }

  /** The references whose objects do not have the key, in order. */
  ghost function Remaining(isKey: KeyFn, key: string, items: seq<Item>): seq<Item>
    reads items
  {
    if items == [] then []
    else (if isKey(key, items[0].val) then [] else [items[0]]) + Remaining(isKey, key, items[1..])
  }

  lemma {:induction false} RemainingVals(isKey: KeyFn, key: string, items: seq<Item>)
    ensures Vals(Remaining(isKey, key, items)) == Without(isKey, key, Vals(items))
  {
    if items == [] {
    } else {
      RemainingVals(isKey, key, items[1..]);
      assert Vals(items)[1..] == Vals(items[1..]);
      ValsInFront(items[0], Remaining(isKey, key, items[1..]));
      NothingInFront(Remaining(isKey, key, items[1..]), Without(isKey, key, Vals(items[1..])));
    }
  }

  lemma ValsInFront(x: Item, items: seq<Item>)
    ensures Vals([x] + items) == [x.val] + Vals(items)
  {
    assert ([x] + items)[1..] == items;
  }

  lemma NothingInFront<S, T>(a: seq<S>, b: seq<T>)
    ensures [] + a == a && [] + b == b
  {
  }

  lemma {:induction false} RemainingMembers(isKey: KeyFn, key: string, items: seq<Item>)
    ensures forall x :: x in Remaining(isKey, key, items) <==> x in items && !isKey(key, x.val)
  {
    if items == [] {
    } else {
      RemainingMembers(isKey, key, items[1..]);
      assert items == [items[0]] + items[1..];
    }
  }

  lemma {:induction false} RemainingDistinct(isKey: KeyFn, key: string, items: seq<Item>)
    requires Distinct(items)
    ensures Distinct(Remaining(isKey, key, items))
  {
    if items == [] {
    } else {
      var rest := Remaining(isKey, key, items[1..]);
      RemainingDistinct(isKey, key, items[1..]);
      RemainingMembers(isKey, key, items[1..]);
      if isKey(key, items[0].val) {
        assert [] + rest == rest;
      } else {
        assert items[0] !in rest;
      }
    }
  }

  lemma RemainingStep(isKey: KeyFn, key: string, kept: seq<Item>, rest: seq<Item>)
    requires rest != []
    ensures kept + Remaining(isKey, key, rest) ==
            (if isKey(key, rest[0].val) then kept else kept + [rest[0]]) + Remaining(isKey, key, rest[1..])
  {
  }

  lemma NoneRemain(isKey: KeyFn, key: string, none: seq<Item>)
    requires none == []
    ensures Remaining(isKey, key, none) == []
  {
  }

  lemma SelectStart(fe: Expr, items: seq<Item>)
    ensures items[0..] == items
    ensures Prefixed(Vals([]), Selected(fe, Vals(items))) == Selected(fe, Vals(items))
  {
    PrefixedTwice([], [], Selected(fe, Vals(items)));
  }

  lemma SelectStep(fe: Expr, out: seq<Item>, rest: seq<Item>)
    requires rest != []
    ensures var now, keep := Prefixed(Vals(out), Selected(fe, Vals(rest))), Holds(fe, rest[0].val);
            match keep
            case Err(_) => now.Err?
            case Panic(_) => now.Panic?
            case Ok(b) => now == Prefixed(Vals(if b then out + [rest[0]] else out), Selected(fe, Vals(rest[1..])))
  {
    hide Holds;
    var keep := Holds(fe, rest[0].val);
    assert Vals(rest)[0] == rest[0].val && Vals(rest)[1..] == Vals(rest[1..]);
    if keep.Ok? {
      var add := if keep.value then [rest[0].val] else [];
      PrefixedTwice(Vals(out), add, Selected(fe, Vals(rest[1..])));
      if keep.value { ValsAppend(out, rest[0]); } else { assert Vals(out) + [] == Vals(out); }
    }
  }

  lemma SelectEnd(fe: Expr, out: seq<Item>)
    ensures Prefixed(Vals(out), Selected(fe, Vals([]))) == Ok(Vals(out))
  {
    assert Vals(out) + [] == Vals(out);
  }

  // ---- The store ----

  ghost function ViewItem(x: Item?): Option<Row>
    reads x
  {
    if x == null then None else Some(x.val)
  }

  class ImCrud {
    var items: seq<Item>
    const isKey: KeyFn

    ghost function Own(): set<object>
      reads this
    {
      set x | x in items
    }

    /** No item is referenced twice. */
    ghost predicate Valid()
      reads this
    {
      Distinct(items)
    }

    constructor (isKey: KeyFn, initData: seq<Item>)
      ensures items == initData && this.isKey == isKey
      ensures Valid() <==> Distinct(initData)
    {
      this.isKey := isKey;
      items := initData;
    }

    /** lo.Filter with the filter as predicate. */
    method Select(fe: Expr) returns (r: Result<seq<Item>>)
      ensures match r
              case Ok(out) => Selected(fe, Vals(items)) == Ok(Vals(out))
              case Err(_) => Selected(fe, Vals(items)).Err?
              case Panic(_) => Selected(fe, Vals(items)).Panic?
    {
      hide Holds, Selected, Vals, Prefixed;
      var out: seq<Item> := [];
      var all := items;
      SelectStart(fe, all);
      for k := 0 to |all|
        invariant Selected(fe, Vals(all)) == Prefixed(Vals(out), Selected(fe, Vals(all[k..])))
      {
        assert all[k..][1..] == all[k + 1..];
        SelectStep(fe, out, all[k..]);
        var keep := FilterPredicate(fe, all[k].val);
        match keep {
          case Err(msg) => return Err(msg);
          case Panic(msg) => return Panic(msg);
          case Ok(b) =>
            if b {
              out := out + [all[k]];
            }
        }
      }
      assert all[|all|..] == [];
      SelectEnd(fe, out);
      return Ok(out);
    }

    method List(q: Q.Query) returns (r: Result<(seq<Item?>, int)>)
      ensures var spec := ListOf(q.filter, Vals(items), q.paging);
              match r
              case Ok((page, total)) => spec.Ok? && total == spec.value.1 && |page| == |spec.value.0|
                  && forall i :: 0 <= i < |page| ==> ViewItem(page[i]) == spec.value.0[i]
              case Err(_) => spec.Err?
              case Panic(_) => spec.Panic?
    {
      hide Selected, Holds, Vals;
      SelectedFits(q.filter, Vals(items));
      var sel := Select(q.filter);
      match sel {
        case Err(msg) => return Err(msg);
        case Panic(msg) => return Panic(msg);
        case Ok(out) =>
          if q.paging.None? {
            return Panic("nil paging");
          }
          var data: seq<Item?> := seq(|items|, i => if 0 <= i < |out| then out[i] else null);
          ghost var seen := Present(Vals(out)) + Absent(|items| - |out|);
          assert forall i :: 0 <= i < |items| ==> ViewItem(data[i]) == seen[i];
          var page := ApplyPaging(data, |out|, q.paging.value.offset, q.paging.value.size);
          match page {
            case Err(msg) => return Err(msg);
            case Panic(msg) => return Panic(msg);
            case Ok(rows) => return Ok((rows, |rows|));
          }
      }
    }

    method Create(t: Item) returns (r: Item)
      modifies this`items
      ensures r == t && items == old(items) + [t]
      ensures old(Valid()) && t !in old(items) ==> Valid()
    {
      items := items + [t];
      return t;
    }

    method Get(key: string) returns (r: Item?)
      ensures var found := Find(isKey, key, Vals(items));
              r == if found.None? then null else items[found.value]
      ensures r == null ==> forall x :: x in items ==> !isKey(key, x.val)
      ensures r != null ==> exists i :: 0 <= i < |items| && items[i] == r && isKey(key, r.val)
                                        && forall j :: 0 <= j < i ==> !isKey(key, items[j].val)
    {
      var i := FindIndex(key);
      return if i < |items| then items[i] else null;
    }

    /** lo.Find: the index of the first item with the key, or the length. */
    method FindIndex(key: string) returns (i: nat)
      ensures var found := Find(isKey, key, Vals(items)); i == if found.None? then |items| else found.value
    {
      i := 0;
      while i < |items|
        invariant i <= |items|
        invariant forall j :: 0 <= j < i ==> !isKey(key, Vals(items)[j])
      {
        if isKey(key, items[i].val) {
          return;
        }
        i := i + 1;
      }
    }

    method Delete(key: string)
      modifies this`items
      ensures Vals(items) == Without(isKey, key, old(Vals(items)))
      ensures forall x :: x in items <==> x in old(items) && !isKey(key, x.val)
      ensures old(Valid()) ==> Valid()
    {
      hide Remaining, Vals, Without;
      var kept: seq<Item> := [];
      var all := items;
      assert all[0..] == all;
      for k := 0 to |all|
        invariant kept + Remaining(isKey, key, all[k..]) == Remaining(isKey, key, all)
      {
        assert all[k..][1..] == all[k + 1..];
        RemainingStep(isKey, key, kept, all[k..]);
        if !isKey(key, all[k].val) {
          kept := kept + [all[k]];
        }
      }
      NoneRemain(isKey, key, all[|all|..]);
      assert kept == Remaining(isKey, key, all);
      RemainingVals(isKey, key, all);
      RemainingMembers(isKey, key, all);
      if Distinct(all) { RemainingDistinct(isKey, key, all); }
      items := kept;
    }

    /** Overwrites the first matching object with what `t` points to, and no other object. */
    method Update(key: string, t: Item) returns (r: Item)
      modifies Own()
      ensures r == t && items == old(items)
      ensures var found := Find(isKey, key, old(Vals(items)));
              && (found.None? ==> Vals(items) == old(Vals(items)))
              && (found.Some? ==> items[found.value].val == old(t.val))
              && (forall x: Item :: x in items && !(found.Some? && x == items[found.value]) ==> x.val == old(x.val))
      ensures Valid() ==> Vals(items) == StepVals(isKey, old(Vals(items)), Op.Update(key, old(t.val)))
    {
      hide Find, Vals;
      var i := FindIndex(key);
      ghost var was := Vals(items);
      if i < |items| {
        items[i].val := t.val;
        assert Valid() ==> Vals(items) == was[i := old(t.val)];
      }
      return t;
    }

    /** One operation on values: new items are allocated for the values handed in. */
    method Do(op: Op) returns (r: Option<Row>)
      requires Valid()
      modifies this`items, Own()
      ensures Valid()
      ensures Vals(items) == StepVals(isKey, old(Vals(items)), op)
      ensures r == Answer(isKey, old(Vals(items)), op)
      ensures forall x :: x in items ==> x in old(items) || fresh(x)
    {
      match op {
        case Create(v) =>
          var t := new Item(v);
          ghost var was := Vals(items);
          var x := Create(t);
          assert Vals(items) == was + [v];
          r := Some(x.val);
        case Get(key) =>
          var x := Get(key);
          r := if x == null then None else Some(x.val);
        case Delete(key) =>
          Delete(key);
          r := None;
        case Update(key, v) =>
          var t := new Item(v);
          var x := Update(key, t);
          r := Some(x.val);
      }
    }

    method Run(ops: seq<Op>) returns (answers: seq<Option<Row>>)
      requires Valid()
      modifies this`items, Own()
      ensures Valid()
      ensures Vals(items) == RunVals(isKey, old(Vals(items)), ops)
      ensures answers == RunAnswers(isKey, old(Vals(items)), ops)
    {
      answers := [];
      ghost var vals0 := Vals(items);
      for i := 0 to |ops|
        invariant Valid()
        invariant forall x :: x in items ==> x in old(items) || fresh(x)
        invariant Vals(items) == RunVals(isKey, vals0, ops[..i])
        invariant answers == RunAnswers(isKey, vals0, ops[..i])
      {
        assert ops[..i + 1][..i] == ops[..i];
        var r := Do(ops[i]);
        answers := answers + [r];
      }
      assert ops[..|ops|] == ops;
    }
  }

  /** A run, defined from its last operation. */
  function RunVals(isKey: KeyFn, vals: seq<Row>, ops: seq<Op>): seq<Row> {
    if ops == [] then vals
    else StepVals(isKey, RunVals(isKey, vals, ops[..|ops| - 1]), ops[|ops| - 1])
  }

  function RunAnswers(isKey: KeyFn, vals: seq<Row>, ops: seq<Op>): seq<Option<Row>> {
    if ops == [] then []
    else
      var n := |ops| - 1;
      RunAnswers(isKey, vals, ops[..n]) + [Answer(isKey, RunVals(isKey, vals, ops[..n]), ops[n])]
  }

  // ---- The keyed store that this refines ----

  /** A map with the order in which its keys were inserted. */
  datatype Store = Store(order: seq<string>, m: map<string, Row>)

  ghost predicate KeyedBy(isKey: KeyFn, keyOf: Row -> string) {
    forall k: string, r: Row :: isKey(k, r) <==> keyOf(r) == k
  }

  function KeysOf(keyOf: Row -> string, vals: seq<Row>): (r: seq<string>)
    ensures |r| == |vals| && forall i :: 0 <= i < |vals| ==> r[i] == keyOf(vals[i])
  {
    seq(|vals|, i requires 0 <= i < |vals| => keyOf(vals[i]))
  }

  function RemoveKey(key: string, order: seq<string>): seq<string> {
    if order == [] then []
    else (if order[0] == key then [] else [order[0]]) + RemoveKey(key, order[1..])
  }

  function StoreStep(s: Store, op: Op, keyOf: Row -> string): Store {
    match op
    case Create(v) => Store(s.order + [keyOf(v)], s.m[keyOf(v) := v])
    case Get(_) => s
    case Delete(key) => Store(RemoveKey(key, s.order), s.m - {key})
    case Update(key, v) => if key in s.m then s.(m := s.m[key := v]) else s
  }

  function StoreAnswer(s: Store, op: Op): Option<Row> {
    match op
    case Create(v) => Some(v)
    case Get(key) => if key in s.m then Some(s.m[key]) else None
    case Delete(_) => None
    case Update(_, v) => Some(v)
  }

  /** Create with a fresh key, Update keeping the key. */
  predicate Admissible(s: Store, op: Op, keyOf: Row -> string) {
    match op
    case Create(v) => keyOf(v) !in s.m
    case Update(key, v) => keyOf(v) == key
    case _ => true
  }

  predicate AdmissibleRun(s: Store, ops: seq<Op>, keyOf: Row -> string) {
    ops == [] ||
    var n := |ops| - 1;
    AdmissibleRun(s, ops[..n], keyOf) && Admissible(RunStore(s, ops[..n], keyOf), ops[n], keyOf)
  }

  function RunStore(s: Store, ops: seq<Op>, keyOf: Row -> string): Store {
    if ops == [] then s
    else StoreStep(RunStore(s, ops[..|ops| - 1], keyOf), ops[|ops| - 1], keyOf)
  }

  function RunStoreAnswers(s: Store, ops: seq<Op>, keyOf: Row -> string): seq<Option<Row>> {
    if ops == [] then []
    else
      var n := |ops| - 1;
      RunStoreAnswers(s, ops[..n], keyOf) + [StoreAnswer(RunStore(s, ops[..n], keyOf), ops[n])]
  }

  /** The values are the store: keys in order, at most one value per key, and the map of them. */
  ghost predicate Represents(keyOf: Row -> string, vals: seq<Row>, s: Store) {
    && s.order == KeysOf(keyOf, vals)
    && Distinct(s.order)
    && (forall k :: k in s.m <==> k in s.order)
    && (forall i :: 0 <= i < |vals| ==> s.m[s.order[i]] == vals[i])
  }

  lemma FindByKey(isKey: KeyFn, keyOf: Row -> string, key: string, vals: seq<Row>, s: Store)
    requires KeyedBy(isKey, keyOf) && Represents(keyOf, vals, s)
    ensures var f := Find(isKey, key, vals);
            if key in s.m then f.Some? && s.order[f.value] == key && vals[f.value] == s.m[key] else f.None?
  {
    var f := Find(isKey, key, vals);
    if f.Some? {
      assert s.order[f.value] == key;
    }
    assert key in s.m ==> key in s.order;
  }

  lemma {:induction false} WithoutKey(
    isKey: KeyFn, keyOf: Row -> string, key: string, vals: seq<Row>, m: map<string, Row>)
    requires KeyedBy(isKey, keyOf) && Distinct(KeysOf(keyOf, vals))
    requires forall i :: 0 <= i < |vals| ==> keyOf(vals[i]) in m && m[keyOf(vals[i])] == vals[i]
    ensures var out := Without(isKey, key, vals);
            && KeysOf(keyOf, out) == RemoveKey(key, KeysOf(keyOf, vals))
            && Distinct(KeysOf(keyOf, out))
            && (forall k :: k in KeysOf(keyOf, out) <==> k in KeysOf(keyOf, vals) && k != key)
            && forall i :: 0 <= i < |out| ==> keyOf(out[i]) in m && m[keyOf(out[i])] == out[i]
  {
    if vals == [] {
    } else {
      var ks := KeysOf(keyOf, vals);
      assert ks[1..] == KeysOf(keyOf, vals[1..]);
      WithoutKey(isKey, keyOf, key, vals[1..], m);
      var rest := Without(isKey, key, vals[1..]);
      var out := Without(isKey, key, vals);
      assert ks[0] !in ks[1..];
      assert forall k :: k in ks <==> k == ks[0] || k in ks[1..];
      if keyOf(vals[0]) != key {
        assert out == [vals[0]] + rest;
        assert KeysOf(keyOf, out) == [ks[0]] + KeysOf(keyOf, rest);
      } else {
        assert out == rest;
      }
    }
  }

  lemma DeleteRefines(isKey: KeyFn, keyOf: Row -> string, vals: seq<Row>, s: Store, key: string)
    requires KeyedBy(isKey, keyOf) && Represents(keyOf, vals, s)
    ensures Represents(keyOf, Without(isKey, key, vals), StoreStep(s, Op.Delete(key), keyOf))
  {
    hide Without, KeyedBy;
    WithoutKey(isKey, keyOf, key, vals, s.m);
    var out := Without(isKey, key, vals);
    assert forall i :: 0 <= i < |out| ==> KeysOf(keyOf, out)[i] in KeysOf(keyOf, out);
  }

  lemma CreateRefines(keyOf: Row -> string, vals: seq<Row>, s: Store, v: Row)
    requires Represents(keyOf, vals, s) && keyOf(v) !in s.m
    ensures Represents(keyOf, vals + [v], StoreStep(s, Op.Create(v), keyOf))
  {
    assert KeysOf(keyOf, vals + [v]) == s.order + [keyOf(v)];
  }

  lemma UpdateRefines(isKey: KeyFn, keyOf: Row -> string, vals: seq<Row>, s: Store, key: string, v: Row)
    requires KeyedBy(isKey, keyOf) && Represents(keyOf, vals, s) && keyOf(v) == key
    ensures Represents(keyOf, StepVals(isKey, vals, Op.Update(key, v)), StoreStep(s, Op.Update(key, v), keyOf))
  {
    FindByKey(isKey, keyOf, key, vals, s);
    if key in s.m {
      var i := Find(isKey, key, vals).value;
      assert KeysOf(keyOf, vals[i := v]) == s.order;
    }
  }

  /** One step of the list is one step of the map, and keeps keys unique. */
  lemma StepRefines(isKey: KeyFn, keyOf: Row -> string, vals: seq<Row>, s: Store, op: Op)
    requires KeyedBy(isKey, keyOf) && Represents(keyOf, vals, s) && Admissible(s, op, keyOf)
    ensures Represents(keyOf, StepVals(isKey, vals, op), StoreStep(s, op, keyOf))
    ensures Answer(isKey, vals, op) == StoreAnswer(s, op)
  {
    hide Represents, KeyedBy, Find, Without;
    match op
    case Create(v) => CreateRefines(keyOf, vals, s, v);
    case Get(key) => FindByKey(isKey, keyOf, key, vals, s);
    case Delete(key) => DeleteRefines(isKey, keyOf, vals, s, key);
    case Update(key, v) => UpdateRefines(isKey, keyOf, vals, s, key, v);
  }

  /** Every admissible run of the in-memory list has the answers and the contents of the map. */
  lemma {:induction false} RunRefines(isKey: KeyFn, keyOf: Row -> string, vals: seq<Row>, s: Store, ops: seq<Op>)
    requires KeyedBy(isKey, keyOf) && Represents(keyOf, vals, s) && AdmissibleRun(s, ops, keyOf)
    ensures Represents(keyOf, RunVals(isKey, vals, ops), RunStore(s, ops, keyOf))
    ensures RunAnswers(isKey, vals, ops) == RunStoreAnswers(s, ops, keyOf)
  {
    if ops == [] {
    } else {
      var n := |ops| - 1;
      RunRefines(isKey, keyOf, vals, s, ops[..n]);
      StepRefines(isKey, keyOf, RunVals(isKey, vals, ops[..n]), RunStore(s, ops[..n], keyOf), ops[n]);
    }
  }

  // ---- Listing everything from the in-memory store ----

  /** The store's List, asked by offset and size the way the builder passes them on. */
  function ListerOf(fe: Expr, vals: seq<Row>): Lister<Option<Row>> {
    (offset: nat, size: int) =>
      if offset >= TWO_63 || !(-TWO_63 <= size < TWO_63) then Panic("not an int")
      else ListOf(fe, vals, Some(Q.Page(ToUint(offset), size)))
  }

  /** A first page of the matches, and its length as the total. */
  lemma FirstPage(fe: Expr, vals: seq<Row>, size: I64)
    requires Selected(fe, vals).Ok? && size >= 0 && |vals| < TWO_63
    ensures var page := PageOf(Present(Selected(fe, vals).value), 0, size);
            ListOf(fe, vals, Some(Q.Page(0, size))) == Ok((page, |page|))
  {
    hide Selected, ApplyPaging, PageOf;
    var out := Selected(fe, vals).value;
    SelectedFits(fe, vals);
    var data := Present(out) + Absent(|vals| - |out|);
    assert data[..|out|] == Present(out);
    ApplyPagingExact(data, |out|, 0, size);
  }

  /** LoadAllInBatch on the in-memory store returns the first page of the matches, which is all of
      them exactly when they fit in one batch: List reports the page length as the total. */
  lemma InMemoryLoad(fe: Expr, vals: seq<Row>, batch: nat, fuel: nat)
    requires Selected(fe, vals).Ok? && batch < TWO_63 && |vals| < TWO_63 && fuel >= 1
    ensures var matches := Present(Selected(fe, vals).value);
            Loop(ListerOf(fe, vals), batch, 0, fuel) == Some((Ok(PageOf(matches, 0, batch)), 1))
            && (Loop(ListerOf(fe, vals), batch, 0, fuel) == Some((Ok(matches), 1)) <==> |matches| <= batch)
  {
    hide Selected, ListOf, Loop, PageOf;
    FirstPage(fe, vals, batch);
    PageLengthAsTotal(ListerOf(fe, vals), Present(Selected(fe, vals).value), batch, fuel);
  }

  /** The total that List reports is the number of matches, as the API says, exactly when a first
      page holds them all, or a later page of just that size starts among them and runs no further
      than the store is long, or there are none and the page starts past the end. */
  lemma ReportedTotal(fe: Expr, vals: seq<Row>, offset: U64, size: I64)
    requires Selected(fe, vals).Ok? && |vals| < TWO_63
    ensures var r, n := ListOf(fe, vals, Some(Q.Page(offset, size))), |Selected(fe, vals).value|;
            r.Ok? && r.value.1 == n <==>
            (offset == 0 && n <= size)
            || (0 < offset <= n && size == n && offset + size <= |vals|)
            || (n < offset < TWO_63 && n == 0)
  {
    hide Selected;
    SelectedFits(fe, vals);
  }
}
