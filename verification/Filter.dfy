/** Filter expressions (pkg/query/filter.go): the expression tree, its SQL text, its JSON tree
    and the typed wrapper that mirrors that JSON. */
module Filter {
  import opened Values
  import opened Texts

  /** A FilterExpression. `Nil` is the nil interface value. */
  datatype Expr =
    | Nil
    | Simple(name: string, op: string, val: Value)
    | Junction(jop: string, sub: Slice<Expr>)
    | Not(expr: Expr)
    | In(name: string, vals: Slice<Value>)
    | Un(name: string, op: string)
    | Between(name: string, left: Value, right: Value)

  // ---- SQL text ----

  function WrapStr(v: Value, q: string): string {
    if v.Str? then q + v.s + q else Sprint(v)
  }

  /** Calling String on a nil interface panics, so a printable tree holds no `Nil`. */
  predicate NoNil(e: Expr) {
    match e
    case Nil => false
    case Junction(_, sub) => sub.NilSlice? || NoNilIn(sub.elems)
    case Not(x) => NoNil(x)
    case _ => true
  }

  predicate NoNilIn(es: seq<Expr>) {
    es == [] || (NoNil(es[0]) && NoNilIn(es[1..]))
  }

  function Print(e: Expr): string
    requires NoNil(e)
  {
    match e
    case Simple(name, op, val) => name + " " + op + " " + WrapStr(val, "'")
    case Junction(op, sub) => "(" + Join(if sub.NilSlice? then [] else PrintEach(sub.elems), " " + op + " ") + ")"
    case Not(x) => "NOT (" + Print(x) + ")"
    case In(name, vals) => name + " IN (" + Join(QuoteEach(vals.Elems()), ",") + ")"
    case Un(name, op) => name + " " + op
    case Between(name, l, r) => name + " BETWEEN " + WrapStr(l, "'") + " AND " + WrapStr(r, "'")
  }

  function PrintEach(es: seq<Expr>): (r: seq<string>)
    requires NoNilIn(es)
    ensures |r| == |es|
  {
    if es == [] then [] else ["(" + Print(es[0]) + ")"] + PrintEach(es[1..])
  }

  function QuoteEach(vs: seq<Value>): (r: seq<string>)
    ensures |r| == |vs|
  {
    if vs == [] then [] else [WrapStr(vs[0], "'")] + QuoteEach(vs[1..])
  }

  // ---- JSON tree ----

  function OfSlice(vs: Slice<Value>): Value {
    if vs.NilSlice? then Null else Arr(vs.elems)
  }

  /** MarshalJSON; a nil interface or nil slice marshals as null. */
  function Encode(e: Expr): Value {
    match e
    case Nil => Null
    case Simple(name, op, val) =>
      Obj(map["simple" := Obj(map["name" := Str(name), "op" := Str(op), "val" := val])])
    case Junction(op, sub) =>
      Obj(map["junction" := Obj(map["sub" := if sub.NilSlice? then Null else Arr(EncodeEach(sub.elems)),
                                    "op" := Str(op)])])
    case Not(x) => Obj(map["not" := Encode(x)])
    case In(name, vals) => Obj(map["in" := Obj(map["name" := Str(name), "val" := OfSlice(vals)])])
    case Un(name, op) => EncodeWrapper(EMPTY_WRAPPER.(un := Some(UnBody(name, op))))
    case Between(name, l, r) => EncodeWrapper(EMPTY_WRAPPER.(between := Some(BetweenBody(l, name, r))))
  }

  function EncodeEach(es: seq<Expr>): (r: seq<Value>)
    ensures |r| == |es|
    ensures forall i :: 0 <= i < |es| ==> r[i] == Encode(es[i])
  {
    if es == [] then [] else [Encode(es[0])] + EncodeEach(es[1..])
  }

  // ---- The typed wrapper ----

  datatype Wrapper = Wrapper(
    between: Option<BetweenBody>,
    isIn: Option<InBody>,
    junction: Option<JunctionBody>,
    not: Option<NotBody>,
    simple: Option<SimpleBody>,
    un: Option<UnBody>)

  datatype BetweenBody = BetweenBody(left: Value, name: string, right: Value)
  datatype InBody = InBody(name: string, val: Slice<Value>)
  datatype JunctionBody = JunctionBody(op: string, sub: Slice<Wrapper>)
  datatype NotBody = NotBody(sub: Wrapper)
  datatype SimpleBody = SimpleBody(name: string, op: string, val: Value)
  datatype UnBody = UnBody(name: string, op: string)

  const EMPTY_WRAPPER := Wrapper(None, None, None, None, None, None)

  /** AsFilterExpression: the first field present decides; an empty wrapper gives nil. */
  function AsExpr(w: Wrapper): Expr {
    if w.simple.Some? then Simple(w.simple.value.name, w.simple.value.op, w.simple.value.val)
    else if w.junction.Some? then
      var sub := w.junction.value.sub;
      Junction(w.junction.value.op, Slice(if sub.NilSlice? then [] else AsExprEach(sub.elems)))
    else if w.not.Some? then Not(AsExpr(w.not.value.sub))
    else if w.isIn.Some? then In(w.isIn.value.name, w.isIn.value.val)
    else if w.between.Some? then Between(w.between.value.name, w.between.value.left, w.between.value.right)
    else if w.un.Some? then Un(w.un.value.name, w.un.value.op)
    else Nil
  }

  function AsExprEach(ws: seq<Wrapper>): (r: seq<Expr>)
    ensures |r| == |ws|
    ensures forall i :: 0 <= i < |ws| ==> r[i] == AsExpr(ws[i])
  {
    if ws == [] then [] else [AsExpr(ws[0])] + AsExprEach(ws[1..])
  }

  /** The wrapper that has exactly the one field for `e` set. */
  function Lift(e: Expr): Wrapper {
    match e
    case Nil => EMPTY_WRAPPER
    case Simple(name, op, val) => EMPTY_WRAPPER.(simple := Some(SimpleBody(name, op, val)))
    case Junction(op, sub) =>
      EMPTY_WRAPPER.(junction := Some(JunctionBody(op, if sub.NilSlice? then NilSlice else Slice(LiftEach(sub.elems)))))
    case Not(x) => EMPTY_WRAPPER.(not := Some(NotBody(Lift(x))))
    case In(name, vals) => EMPTY_WRAPPER.(isIn := Some(InBody(name, vals)))
    case Un(name, op) => EMPTY_WRAPPER.(un := Some(UnBody(name, op)))
    case Between(name, l, r) => EMPTY_WRAPPER.(between := Some(BetweenBody(l, name, r)))
  }

  function LiftEach(es: seq<Expr>): (r: seq<Wrapper>)
    ensures |r| == |es|
    ensures forall i :: 0 <= i < |es| ==> r[i] == Lift(es[i])
  {
    if es == [] then [] else [Lift(es[0])] + LiftEach(es[1..])
  }

  function Field<T>(key: string, o: Option<T>, enc: T --> Value): map<string, Value>
    requires o.Some? ==> enc.requires(o.value)
  {
    if o.None? then map[] else map[key := enc(o.value)]
  }

  /** The wrapper's JSON: absent fields are omitted. */
  function EncodeWrapper(w: Wrapper): Value {
    Obj(Field("between", w.between, (b: BetweenBody) =>
                Obj(map["left" := b.left, "name" := Str(b.name), "right" := b.right]))
        + Field("in", w.isIn, (b: InBody) => Obj(map["name" := Str(b.name), "val" := OfSlice(b.val)]))
        + (if w.junction.None? then map[] else
             map["junction" := Obj(map["op" := Str(w.junction.value.op),
                                       "sub" := if w.junction.value.sub.NilSlice? then Null
                                                else Arr(EncodeWrapperEach(w.junction.value.sub.elems))])])
        + (if w.not.None? then map[] else map["not" := Obj(map["sub" := EncodeWrapper(w.not.value.sub)])])
        + Field("simple", w.simple, (b: SimpleBody) =>
                  Obj(map["name" := Str(b.name), "op" := Str(b.op), "val" := b.val]))
        + Field("un", w.un, (b: UnBody) => Obj(map["name" := Str(b.name), "op" := Str(b.op)])))
  }

  function EncodeWrapperEach(ws: seq<Wrapper>): (r: seq<Value>)
    ensures |r| == |ws|
    ensures forall i :: 0 <= i < |ws| ==> r[i] == EncodeWrapper(ws[i])
  {
    if ws == [] then [] else [EncodeWrapper(ws[0])] + EncodeWrapperEach(ws[1..])
  }

  /** The wrapper's JSON of a negation keeps its operand one level deeper than the tree's. */
  lemma WrapperNotJson(x: Expr)
    ensures EncodeWrapper(Lift(Not(x))) == Obj(map["not" := Obj(map["sub" := EncodeWrapper(Lift(x))])])
  {
    assert EncodeWrapper(Lift(Not(x))).fields == map["not" := Obj(map["sub" := EncodeWrapper(Lift(x))])];
  }

  // ---- Wrapper and tree agree ----

  /** No junction, at any depth, holds a nil slice of subexpressions. */
  predicate NoNilJunction(e: Expr) {
    match e
    case Junction(_, sub) => sub.Slice? && NoNilJunctionIn(sub.elems)
    case Not(x) => NoNilJunction(x)
    case _ => true
  }

  predicate NoNilJunctionIn(es: seq<Expr>) {
    es == [] || (NoNilJunction(es[0]) && NoNilJunctionIn(es[1..]))
  }

  /** Of several fields the first one present decides, in this order; an empty wrapper is nil. */
  lemma FirstFieldDecides(w: Wrapper)
    ensures AsExpr(w) ==
            if w.simple.Some? then AsExpr(EMPTY_WRAPPER.(simple := w.simple))
            else if w.junction.Some? then AsExpr(EMPTY_WRAPPER.(junction := w.junction))
            else if w.not.Some? then AsExpr(EMPTY_WRAPPER.(not := w.not))
            else if w.isIn.Some? then AsExpr(EMPTY_WRAPPER.(isIn := w.isIn))
            else if w.between.Some? then AsExpr(EMPTY_WRAPPER.(between := w.between))
            else if w.un.Some? then AsExpr(EMPTY_WRAPPER.(un := w.un))
            else Nil
  {
  }

  /** Lifting and lowering gives the tree back exactly when no junction has a nil slice:
      lowering always allocates one. */
  lemma {:induction false} LiftLower(e: Expr)
    ensures AsExpr(Lift(e)) == e <==> NoNilJunction(e)
  {
    match e
    case Junction(_, sub) =>
      if sub.Slice? { LiftLowerEach(sub.elems); }
    case Not(x) => LiftLower(x);
    case _ =>
  }

  lemma {:induction false} LiftLowerEach(es: seq<Expr>)
    ensures AsExprEach(LiftEach(es)) == es <==> NoNilJunctionIn(es)
  {
    hide Lift, AsExpr, NoNilJunction;
    if es == [] {
    } else {
      LiftLower(es[0]);
      LiftLowerEach(es[1..]);
      assert es == [es[0]] + es[1..];
      assert LiftEach(es)[1..] == LiftEach(es[1..]);
      var back := AsExprEach(LiftEach(es));
      assert back == [AsExpr(Lift(es[0]))] + AsExprEach(LiftEach(es[1..]));
      if back == es {
        assert back[0] == es[0] && back[1..] == es[1..];
      }
    }
  }
}
