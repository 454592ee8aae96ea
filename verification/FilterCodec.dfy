/** Decoding filters from JSON (pkg/query/codec.go) and how far it undoes encoding. */
module FilterCodec {
  import opened Values
  import opened Texts
  import opened Filter

  /** hasSubMap: the value under `key`, if it is an object. */
  function HasSubMap(key: string, m: Value): (r: Option<Value>)
    requires m.Obj?
    ensures r.Some? ==> key in m.fields && r.value == m.fields[key] && r.value.Obj?
  {
    if key in m.fields && m.fields[key].Obj? then Some(m.fields[key]) else None
  }

  /** Indexing a Go map: a missing key reads as nil. */
  function At(m: Value, key: string): Value
    requires m.Obj?
  {
    if key in m.fields then m.fields[key] else Null
  }

  /** decodeExprFromMap: the first key present with an object under it decides. */
  function DecodeObj(m: Value): Result<Expr>
    requires m.Obj?
    decreases m, 0
  {
    if HasSubMap("simple", m).Some? then SimpleFrom(m.fields["simple"])
    else if HasSubMap("junction", m).Some? then JunctionFrom(m.fields["junction"])
    else if HasSubMap("not", m).Some? then NotFrom(m.fields["not"])
    else if HasSubMap("in", m).Some? then InFrom(m.fields["in"])
    else if HasSubMap("un", m).Some? then UnFrom(m.fields["un"])
    else if HasSubMap("between", m).Some? then BetweenFrom(m.fields["between"])
    else Ok(Nil)
  }

  function SimpleFrom(m: Value): Result<Expr>
    requires m.Obj?
  {
    if !At(m, "op").Str? then Panic("op is not a string")
    else Ok(Simple(Sprint(At(m, "name")), At(m, "op").s, Str(Sprint(At(m, "val")))))
  }

  function JunctionFrom(m: Value): Result<Expr>
    requires m.Obj?
    decreases m
  {
    if !At(m, "op").Str? then Panic("op is not a string")
    else if "sub" !in m.fields || !m.fields["sub"].Arr? then Panic("sub is not an array")
    else
      match DecodeEach(m.fields["sub"].items)
      case Ok(es) => Ok(Junction(m.fields["op"].s, Slice(es)))
      case Err(msg) => Err(msg)
      case Panic(msg) => Panic(msg)
  }

  function DecodeEach(items: seq<Value>): (r: Result<seq<Expr>>)
    ensures r.Ok? ==> |r.value| == |items|
    decreases items
  {
    if items == [] then Ok([])
    else if !items[0].Obj? then Panic("sub item is not an object")
    else
      match DecodeObj(items[0])
      case Ok(e) =>
        (match DecodeEach(items[1..])
         case Ok(es) => Ok([e] + es)
         case Err(msg) => Err(msg)
         case Panic(msg) => Panic(msg))
      case Err(msg) => Err(msg)
      case Panic(msg) => Panic(msg)
  }

  function NotFrom(m: Value): Result<Expr>
    requires m.Obj?
    decreases m, 1
  {
    match DecodeObj(m)
    case Ok(e) => Ok(Not(e))
    case Err(msg) => Err(msg)
    case Panic(msg) => Panic(msg)
  }

  function InFrom(m: Value): Result<Expr>
    requires m.Obj?
  {
    if !At(m, "val").Arr? then Panic("val is not an array")
    else Ok(In(Sprint(At(m, "name")), Slice(At(m, "val").items)))
  }

  function UnFrom(m: Value): Result<Expr>
    requires m.Obj?
  {
    if !At(m, "op").Str? then Panic("op is not a string")
    else Ok(Un(Sprint(At(m, "name")), At(m, "op").s))
  }

  function BetweenFrom(m: Value): Result<Expr>
    requires m.Obj?
  {
    Ok(Between(Sprint(At(m, "name")), At(m, "left"), At(m, "right")))
  }

  /** DecodeFilter: only an object or null unmarshals into a map; numbers become float64. */
  function DecodeFilter(w: NumWire, j: Value): Result<Expr> {
    match j
    case Obj(_) => DecodeObj(Wire(w, j))
    case Null => Ok(Nil)
    case _ => Err("not an object")
  }

  // ---- Any JSON, not only what an encoder wrote ----

  /** The kinds of filter, in the order in which the decoder looks for them. */
  const KINDS: seq<string> := ["simple", "junction", "not", "in", "un", "between"]

  /** The kind under whose key the first object stands. */
  function Decides(m: Value): Option<nat>
    requires m.Obj?
  {
    FirstKind(m, 0)
  }

  function FirstKind(m: Value, k: nat): (r: Option<nat>)
    requires m.Obj? && k <= |KINDS|
    ensures r.None? ==> forall j :: k <= j < |KINDS| ==> HasSubMap(KINDS[j], m).None?
    ensures r.Some? ==> k <= r.value < |KINDS| && HasSubMap(KINDS[r.value], m).Some?
                        && forall j :: k <= j < r.value ==> HasSubMap(KINDS[j], m).None?
    decreases |KINDS| - k
  {
    if k == |KINDS| then None
    else if HasSubMap(KINDS[k], m).Some? then Some(k)
    else FirstKind(m, k + 1)
  }

  predicate OfKind(e: Expr, k: nat) {
    match e
    case Nil => false
    case Simple(_, _, _) => k == 0
    case Junction(_, _) => k == 1
    case Not(_) => k == 2
    case In(_, _) => k == 3
    case Un(_, _) => k == 4
    case Between(_, _, _) => k == 5
  }

  /** Of several keys the first kind with an object under it decides, whatever else is there; a filter
      that comes out is of that kind, and without such a key it is nil. */
  lemma FirstKeyDecides(m: Value)
    requires m.Obj?
    ensures var k := Decides(m);
            if k.None? then DecodeObj(m) == Ok(Nil)
            else
              var key := KINDS[k.value];
              DecodeObj(m) == DecodeObj(Obj(map[key := m.fields[key]]))
              && (DecodeObj(m).Ok? ==> OfKind(DecodeObj(m).value, k.value))
  {
    var k := Decides(m);
    if k.Some? {
      var key := KINDS[k.value];
      var alone := Obj(map[key := m.fields[key]]);
      assert forall j :: 0 <= j < |KINDS| && j != k.value ==> KINDS[j] != key;
      assert HasSubMap(key, alone) == Some(m.fields[key]);
    }
    assert KINDS[0] == "simple" && KINDS[1] == "junction" && KINDS[2] == "not";
    assert KINDS[3] == "in" && KINDS[4] == "un" && KINDS[5] == "between";
  }

  /** What the parts of a filter decode to, and which of them are asserted to be there. */
  lemma PartsDecode(body: map<string, Value>)
    ensures var m, name := Obj(body), Sprint(At(Obj(body), "name"));
            && (DecodeObj(Obj(map["simple" := m])) ==
                if At(m, "op").Str? then Ok(Simple(name, At(m, "op").s, Str(Sprint(At(m, "val")))))
                else Panic("op is not a string"))
            && (DecodeObj(Obj(map["in" := m])) ==
                if At(m, "val").Arr? then Ok(In(name, Slice(At(m, "val").items)))
                else Panic("val is not an array"))
            && (DecodeObj(Obj(map["un" := m])) ==
                if At(m, "op").Str? then Ok(Un(name, At(m, "op").s)) else Panic("op is not a string"))
            && DecodeObj(Obj(map["between" := m])) == Ok(Between(name, At(m, "left"), At(m, "right")))
            && (match DecodeObj(m)
                case Ok(x) => DecodeObj(Obj(map["not" := m])) == Ok(Not(x))
                case Err(msg) => DecodeObj(Obj(map["not" := m])) == Err(msg)
                case Panic(msg) => DecodeObj(Obj(map["not" := m])) == Panic(msg))
  {
  }

  /** A junction decodes member by member, in order; each has to be an object that decodes. */
  lemma JunctionDecodes(body: map<string, Value>)
    ensures var m, r := Obj(body), DecodeObj(Obj(map["junction" := Obj(body)]));
            && (r.Ok? <==> At(m, "op").Str? && At(m, "sub").Arr?
                           && forall i :: 0 <= i < |At(m, "sub").items| ==>
                                At(m, "sub").items[i].Obj? && DecodeObj(At(m, "sub").items[i]).Ok?)
            && (r.Ok? ==> r.value.Junction? && r.value.jop == At(m, "op").s && r.value.sub.Slice?
                          && |r.value.sub.elems| == |At(m, "sub").items|
                          && forall i :: 0 <= i < |r.value.sub.elems| ==>
                               DecodeObj(At(m, "sub").items[i]) == Ok(r.value.sub.elems[i]))
            && !r.Err?
  {
    var m := Obj(body);
    NeverErrs(Obj(map["junction" := m]));
    if At(m, "op").Str? && At(m, "sub").Arr? { EachDecodes(At(m, "sub").items); }
  }

  lemma {:induction false} EachDecodes(items: seq<Value>)
    ensures DecodeEach(items).Ok? <==> forall i :: 0 <= i < |items| ==> items[i].Obj? && DecodeObj(items[i]).Ok?
    ensures DecodeEach(items).Ok? ==>
            forall i :: 0 <= i < |items| ==> items[i].Obj? && DecodeObj(items[i]) == Ok(DecodeEach(items).value[i])
  {
    hide DecodeObj;
    if items == [] {
    } else {
      EachDecodes(items[1..]);
      assert forall i :: 0 < i < |items| ==> items[i] == items[1..][i - 1];
      assert forall i :: 0 <= i < |items[1..]| ==> items[1..][i] == items[i + 1];
    }
  }

  /** A filter with missing parts: the name and the value read as "<nil>". */
  lemma MissingParts(op: string)
    ensures DecodeObj(Obj(map["simple" := Obj(map["op" := Str(op)])])) == Ok(Simple("<nil>", op, Str("<nil>")))
    ensures DecodeObj(Obj(map["between" := Obj(map[])])) == Ok(Between("<nil>", Null, Null))
  {
  }

  /** What is neither an object nor null is an error, null is no filter, and an object is decoded after
      its numbers became float64. */
  lemma DecodeFilterExact(w: NumWire, j: Value)
    ensures DecodeFilter(w, j).Err? <==> !j.Obj? && !j.Null?
    ensures j.Null? ==> DecodeFilter(w, j) == Ok(Nil)
    ensures j.Obj? ==> DecodeFilter(w, j) == DecodeObj(Wire(w, j))
  {
    if j.Obj? { NeverErrs(Wire(w, j)); }
  }

  lemma {:induction false} NeverErrs(m: Value)
    requires m.Obj?
    ensures !DecodeObj(m).Err?
    decreases m, 0
  {
    if HasSubMap("simple", m).Some? {
    } else if HasSubMap("junction", m).Some? {
      var sub := m.fields["junction"];
      if "sub" in sub.fields && sub.fields["sub"].Arr? { EachNeverErrs(sub.fields["sub"].items); }
    } else if HasSubMap("not", m).Some? {
      NeverErrs(m.fields["not"]);
    }
  }

  lemma {:induction false} EachNeverErrs(items: seq<Value>)
    ensures !DecodeEach(items).Err?
    decreases items
  {
    if items == [] {
    } else {
      if items[0].Obj? { NeverErrs(items[0]); }
      EachNeverErrs(items[1..]);
    }
  }

  // ---- What a trip through JSON does to an expression ----

  function WireSlice(w: NumWire, vs: Slice<Value>): Slice<Value> {
    if vs.NilSlice? then NilSlice else Slice(WireAll(w, vs.elems))
  }

  /** Numbers in leaf values pass through float64. */
  function WireExpr(w: NumWire, e: Expr): Expr {
    match e
    case Simple(name, op, val) => Simple(name, op, Wire(w, val))
    case Junction(op, sub) => Junction(op, if sub.NilSlice? then NilSlice else Slice(WireEach(w, sub.elems)))
    case Not(x) => Not(WireExpr(w, x))
    case In(name, vals) => In(name, WireSlice(w, vals))
    case Between(name, l, r) => Between(name, Wire(w, l), Wire(w, r))
    case _ => e
  }

  function WireEach(w: NumWire, es: seq<Expr>): (r: seq<Expr>)
    ensures |r| == |es|
    ensures forall i :: 0 <= i < |es| ==> r[i] == WireExpr(w, es[i])
  {
    if es == [] then [] else [WireExpr(w, es[0])] + WireEach(w, es[1..])
  }

  /** Values of simple expressions become strings, and nothing else changes. */
  function Stringify(e: Expr): Expr {
    match e
    case Simple(name, op, val) => Simple(name, op, Str(Sprint(val)))
    case Junction(op, sub) => Junction(op, if sub.NilSlice? then NilSlice else Slice(StringifyEach(sub.elems)))
    case Not(x) => Not(Stringify(x))
    case _ => e
  }

  function StringifyEach(es: seq<Expr>): (r: seq<Expr>)
    ensures |r| == |es|
    ensures forall i :: 0 <= i < |es| ==> r[i] == Stringify(es[i])
  {
    if es == [] then [] else [Stringify(es[0])] + StringifyEach(es[1..])
  }

  function Norm(w: NumWire, e: Expr): Expr {
    Stringify(WireExpr(w, e))
  }

  /** No nil expression and no nil slice anywhere. */
  predicate Solid(e: Expr) {
    match e
    case Nil => false
    case Junction(_, sub) => sub.Slice? && SolidIn(sub.elems)
    case Not(x) => Solid(x)
    case In(_, vals) => vals.Slice?
    case _ => true
  }

  predicate SolidIn(es: seq<Expr>) {
    es == [] || (Solid(es[0]) && SolidIn(es[1..]))
  }

  /** A nil operand of NOT is tolerated (though lost); a nil slice or a nil junction member is not. */
  predicate Decodable(e: Expr) {
    match e
    case Junction(_, sub) => sub.Slice? && DecodableIn(sub.elems)
    case Not(x) => Decodable(x)
    case In(_, vals) => vals.Slice?
    case _ => true
  }

  predicate DecodableIn(es: seq<Expr>) {
    es == [] || (!es[0].Nil? && Decodable(es[0]) && DecodableIn(es[1..]))
  }

  lemma {:induction false} WireEncode(w: NumWire, e: Expr)
    ensures Wire(w, Encode(e)) == Encode(WireExpr(w, e))
  {
    match e
    case Nil =>
    case Junction(op, sub) =>
      if sub.Slice? { WireEncodeEach(w, sub.elems); }
      WireUnder(w, "junction", Encode(e).fields["junction"].fields, Encode(WireExpr(w, e)).fields["junction"].fields);
    case Not(x) => WireEncode(w, x);
    case _ => WireEncodeLeaf(w, e);
  }

  lemma WireEncodeLeaf(w: NumWire, e: Expr)
    requires e.Simple? || e.In? || e.Un? || e.Between?
    ensures Wire(w, Encode(e)) == Encode(WireExpr(w, e))
  {
    match e
    case Simple(name, op, val) =>
      WireUnder(w, "simple", Encode(e).fields["simple"].fields, Encode(WireExpr(w, e)).fields["simple"].fields);
    case In(name, vals) =>
      WireUnder(w, "in", Encode(e).fields["in"].fields, Encode(WireExpr(w, e)).fields["in"].fields);
    case Un(name, op) =>
      UnJson(name, op);
      WireUnder(w, "un", Encode(e).fields["un"].fields, Encode(e).fields["un"].fields);
    case Between(name, l, r) => WireBetween(w, name, l, r);
  }

  lemma WireBetween(w: NumWire, name: string, l: Value, r: Value)
    ensures Wire(w, Encode(Between(name, l, r))) == Encode(Between(name, Wire(w, l), Wire(w, r)))
  {
    hide Encode;
    BetweenJson(name, l, r);
    BetweenJson(name, Wire(w, l), Wire(w, r));
    WireUnder(w, "between", map["left" := l, "name" := Str(name), "right" := r],
              map["left" := Wire(w, l), "name" := Str(name), "right" := Wire(w, r)]);
  }

  lemma {:induction false} WireUnder(w: NumWire, key: string, f: map<string, Value>, g: map<string, Value>)
    requires f.Keys == g.Keys && forall k :: k in f ==> Wire(w, f[k]) == g[k]
    ensures Wire(w, Obj(map[key := Obj(f)])) == Obj(map[key := Obj(g)])
  {
    assert Wire(w, Obj(f)).fields == g;
    assert Wire(w, Obj(map[key := Obj(f)])).fields == map[key := Obj(g)];
  }

  lemma {:induction false} WireEncodeEach(w: NumWire, es: seq<Expr>)
    ensures WireAll(w, EncodeEach(es)) == EncodeEach(WireEach(w, es))
  {
    forall i | 0 <= i < |es| ensures WireAll(w, EncodeEach(es))[i] == EncodeEach(WireEach(w, es))[i] {
      WireEncode(w, es[i]);
    }
  }

  lemma {:induction false} UnJson(name: string, op: string)
    ensures Encode(Un(name, op)) == Obj(map["un" := Obj(map["name" := Str(name), "op" := Str(op)])])
  {
    assert Encode(Un(name, op)).fields == map["un" := Obj(map["name" := Str(name), "op" := Str(op)])];
  }

  lemma {:induction false} BetweenJson(name: string, l: Value, r: Value)
    ensures Encode(Between(name, l, r))
         == Obj(map["between" := Obj(map["left" := l, "name" := Str(name), "right" := r])])
  {
    var body := Obj(map["left" := l, "name" := Str(name), "right" := r]);
    assert Encode(Between(name, l, r)).fields == map["between" := body];
  }

  lemma DecodeEncodeLeaf(e: Expr)
    requires e.Simple? || e.In? || e.Un? || e.Between?
    ensures Encode(e).Obj?
    ensures DecodeObj(Encode(e)) == Ok(Stringify(e)) <==> Solid(e)
    ensures if Decodable(e) then DecodeObj(Encode(e)).Ok? else DecodeObj(Encode(e)).Panic?
  {
    match e
    case Simple(name, op, val) =>
    case In(name, vals) =>
    case Un(name, op) => UnJson(name, op);
    case Between(name, l, r) => BetweenJson(name, l, r);
  }

  /** The tree-level round trip, in both directions and with the exact panics. */
  lemma {:induction false} DecodeEncode(e: Expr)
    requires !e.Nil?
    ensures Encode(e).Obj?
    ensures DecodeObj(Encode(e)) == Ok(Stringify(e)) <==> Solid(e)
    ensures if Decodable(e) then DecodeObj(Encode(e)).Ok? else DecodeObj(Encode(e)).Panic?
  {
    match e
    case Junction(op, sub) =>
      if sub.Slice? { DecodeEncodeEach(sub.elems); }
    case Not(x) =>
      if !x.Nil? { DecodeEncode(x); }
    case _ => DecodeEncodeLeaf(e);
  }

  lemma {:induction false} DecodeEncodeEach(es: seq<Expr>)
    ensures DecodeEach(EncodeEach(es)) == Ok(StringifyEach(es)) <==> SolidIn(es)
    ensures if DecodableIn(es) then DecodeEach(EncodeEach(es)).Ok? else DecodeEach(EncodeEach(es)).Panic?
  {
    if es == [] {
    } else {
      assert EncodeEach(es)[1..] == EncodeEach(es[1..]);
      if !es[0].Nil? {
        DecodeEncode(es[0]);
        DecodeEncodeEach(es[1..]);
        var d := DecodeEach(EncodeEach(es));
        if d == Ok(StringifyEach(es)) {
          assert d.value[0] == Stringify(es[0]);
          assert d.value[1..] == StringifyEach(es)[1..] == StringifyEach(es[1..]);
        }
      }
    }
  }

  lemma {:induction false} WireKeepsShape(w: NumWire, e: Expr)
    ensures Solid(WireExpr(w, e)) == Solid(e) && Decodable(WireExpr(w, e)) == Decodable(e)
    ensures WireExpr(w, e).Nil? == e.Nil?
  {
    match e
    case Junction(_, sub) => if sub.Slice? { WireKeepsShapeEach(w, sub.elems); }
    case Not(x) => WireKeepsShape(w, x);
    case _ =>
  }

  lemma {:induction false} WireKeepsShapeEach(w: NumWire, es: seq<Expr>)
    ensures SolidIn(WireEach(w, es)) == SolidIn(es) && DecodableIn(WireEach(w, es)) == DecodableIn(es)
  {
    if es == [] {
    } else {
      WireKeepsShape(w, es[0]);
      WireKeepsShapeEach(w, es[1..]);
      assert WireEach(w, es)[1..] == WireEach(w, es[1..]);
    }
  }

  /** Encoding a filter and decoding it again gives its normal form exactly when the filter is
      nil or holds no nil part; the decoder's type assertions fail exactly on nil slices and on
      nil members of junctions. */
  lemma {:induction false} JsonRoundTrip(w: NumWire, e: Expr)
    ensures DecodeFilter(w, Encode(e)) == Ok(Norm(w, e)) <==> e.Nil? || Solid(e)
    ensures if Decodable(e) then DecodeFilter(w, Encode(e)).Ok? else DecodeFilter(w, Encode(e)).Panic?
  {
    if !e.Nil? {
      WireEncode(w, e);
      WireKeepsShape(w, e);
      DecodeEncode(e);
      DecodeEncode(WireExpr(w, e));
    }
  }

  /** A second trip changes nothing. */
  lemma {:induction false} NormIdempotent(w: NumWire, e: Expr)
    requires Idempotent(w)
    ensures Norm(w, Norm(w, e)) == Norm(w, e)
  {
    match e
    case Junction(_, sub) =>
      if sub.Slice? {
        forall i | 0 <= i < |sub.elems| ensures Norm(w, Norm(w, sub.elems[i])) == Norm(w, sub.elems[i]) {
          NormIdempotent(w, sub.elems[i]);
        }
        assert Norm(w, Norm(w, e)).sub.elems == Norm(w, e).sub.elems;
      }
    case Not(x) => NormIdempotent(w, x);
    case In(name, vals) => if vals.Slice? { WireAllTwice(w, vals.elems); }
    case Between(name, l, r) => WireTwice(w, l); WireTwice(w, r);
    case _ =>
  }

  /** Once decoded, a filter survives every further trip unchanged. */
  lemma {:induction false} SecondTripIsIdentity(w: NumWire, e: Expr)
    requires Idempotent(w) && Solid(e)
    ensures DecodeFilter(w, Encode(Norm(w, e))) == Ok(Norm(w, e))
  {
    NormIdempotent(w, e);
    JsonRoundTrip(w, e);
    NormSolid(w, e);
    JsonRoundTrip(w, Norm(w, e));
  }

  lemma {:induction false} NormSolid(w: NumWire, e: Expr)
    requires Solid(e)
    ensures Solid(Norm(w, e))
  {
    match e
    case Junction(_, sub) => NormSolidEach(w, sub.elems);
    case Not(x) => NormSolid(w, x);
    case _ =>
  }

  lemma {:induction false} NormSolidEach(w: NumWire, es: seq<Expr>)
    requires SolidIn(es)
    ensures SolidIn(StringifyEach(WireEach(w, es)))
  {
    if es == [] {
    } else {
      NormSolid(w, es[0]);
      NormSolidEach(w, es[1..]);
      assert StringifyEach(WireEach(w, es))[1..] == StringifyEach(WireEach(w, es[1..]));
    }
  }

  // ---- The wrapper's JSON against the untyped decoder ----

  /** Every NOT has a nil operand, and no slice is nil. */
  predicate WrapperSafe(e: Expr) {
    match e
    case Junction(_, sub) => sub.Slice? && WrapperSafeIn(sub.elems)
    case Not(x) => x.Nil?
    case In(_, vals) => vals.Slice?
    case _ => true
  }

  predicate WrapperSafeIn(es: seq<Expr>) {
    es == [] || (WrapperSafe(es[0]) && WrapperSafeIn(es[1..]))
  }

  /** The body that a lifted junction or membership test carries in JSON. */
  function JunctionJson(op: string, sub: Slice<Expr>): Value {
    Obj(map["op" := Str(op), "sub" := if sub.NilSlice? then Null else Arr(EncodeWrapperEach(LiftEach(sub.elems)))])
  }

  lemma {:induction false} LiftedJson(e: Expr)
    ensures e.Nil? ==> EncodeWrapper(Lift(e)) == Obj(map[])
    ensures e.Simple? ==> EncodeWrapper(Lift(e)) == Encode(e)
    ensures e.Not? ==> EncodeWrapper(Lift(e)) == Obj(map["not" := Obj(map["sub" := EncodeWrapper(Lift(e.expr))])])
    ensures e.In? ==> EncodeWrapper(Lift(e)) == Encode(e)
    ensures e.Un? || e.Between? ==> EncodeWrapper(Lift(e)) == Encode(e)
  {
    var j := EncodeWrapper(Lift(e));
    match e
    case Nil => assert j.fields == map[];
    case Simple(name, op, val) => assert j.fields == Encode(e).fields;
    case Junction(op, sub) =>
    case Not(x) => assert j.fields == map["not" := Obj(map["sub" := EncodeWrapper(Lift(x))])];
    case In(name, vals) => assert j.fields == Encode(e).fields;
    case Un(name, op) =>
    case Between(name, l, r) =>
  }

  lemma {:induction false} LiftedJunctionJson(op: string, sub: Slice<Expr>)
    ensures EncodeWrapper(Lift(Junction(op, sub))) == Obj(map["junction" := JunctionJson(op, sub)])
  {
    assert EncodeWrapper(Lift(Junction(op, sub))).fields == map["junction" := JunctionJson(op, sub)];
  }

  /** Decoding an object with the one key `junction`, or `not` over an object with only `sub`. */
  lemma DecodeJunctionJson(op: string, sub: Slice<Expr>)
    ensures DecodeObj(Obj(map["junction" := JunctionJson(op, sub)])) ==
            if sub.NilSlice? then Panic("sub is not an array")
            else
              match DecodeEach(EncodeWrapperEach(LiftEach(sub.elems)))
              case Ok(es) => Ok(Junction(op, Slice(es)))
              case Err(msg) => Err(msg)
              case Panic(msg) => Panic(msg)
  {
    hide DecodeEach, EncodeWrapperEach, LiftEach;
    var body := JunctionJson(op, sub);
    assert At(body, "op") == Str(op);
    assert DecodeObj(Obj(map["junction" := body])) == JunctionFrom(body);
  }

  lemma DecodeNotJson(sub: Value)
    ensures DecodeObj(Obj(map["not" := Obj(map["sub" := sub])])) == Ok(Not(Nil))
  {
    var inner := Obj(map["sub" := sub]);
    assert DecodeObj(inner) == Ok(Nil);
    assert NotFrom(inner) == Ok(Not(Nil));
  }

  /** The untyped decoder reads a wrapper's JSON as the same filter exactly when no NOT has an
      operand and no slice is nil: the wrapper puts that operand one key (`sub`) deeper. */
  lemma {:induction false} WrapperDecode(e: Expr)
    ensures DecodeObj(EncodeWrapper(Lift(e))) == Ok(Stringify(e)) <==> WrapperSafe(e)
  {
    hide DecodeObj, EncodeWrapper, Lift, Encode, JunctionJson, DecodeEach, EncodeWrapperEach, LiftEach;
    match e
    case Nil => NilDecodes();
    case Junction(op, sub) =>
      LiftedJunctionJson(op, sub);
      DecodeJunctionJson(op, sub);
      if sub.Slice? { WrapperDecodeEach(sub.elems); }
    case Not(x) =>
      LiftedJson(e);
      DecodeNotJson(EncodeWrapper(Lift(x)));
    case _ =>
      LiftedJson(e);
      DecodeEncode(e);
  }

  lemma NilDecodes()
    ensures DecodeObj(EncodeWrapper(Lift(Nil))) == Ok(Nil)
  {
    LiftedJson(Nil);
  }

  lemma {:induction false} WrapperDecodeEach(es: seq<Expr>)
    ensures DecodeEach(EncodeWrapperEach(LiftEach(es))) == Ok(StringifyEach(es)) <==> WrapperSafeIn(es)
  {
    if es == [] {
    } else {
      WrapperDecode(es[0]);
      WrapperDecodeEach(es[1..]);
      assert LiftEach(es)[1..] == LiftEach(es[1..]);
      assert EncodeWrapperEach(LiftEach(es))[1..] == EncodeWrapperEach(LiftEach(es[1..]));
      var d := DecodeEach(EncodeWrapperEach(LiftEach(es)));
      if d == Ok(StringifyEach(es)) {
        assert d.value[0] == Stringify(es[0]);
        assert d.value[1..] == StringifyEach(es)[1..] == StringifyEach(es[1..]);
      }
    }
  }
}
