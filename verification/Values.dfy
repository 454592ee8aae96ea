/** Go values as the bridge moves them around: dynamic values (`interface{}`), slices that may
    be nil, machine integers, and the three ways a call can end. */
module Values {

  datatype Option<+T> = None | Some(value: T)

  function GetOr<T>(o: Option<T>, default: T): T {
    if o.Some? then o.value else default
  }

  /** How a Go call ends: normally, with an error result, or by a panic. */
  datatype Result<+T> = Ok(value: T) | Err(msg: string) | Panic(msg: string)

  /** A Go slice value; only a nil slice encodes as JSON null. */
  datatype Slice<+T> = NilSlice | Slice(elems: seq<T>)
  {
    function Elems(): seq<T> {
      if NilSlice? then [] else elems
    }
  }

  predicate IsDigit(c: char) { '0' <= c <= '9' }

  /** Position `i` of a numeral: a digit, a leading sign, a point or `e` after a digit, or a sign after
      `e`. */
  predicate NumeralAt(t: string, i: nat)
    requires i < |t|
  {
    var c := t[i];
    IsDigit(c) || (if i == 0 then c == '-'
                   else ((c == '.' || c == 'e') && IsDigit(t[i - 1])) || ((c == '+' || c == '-') && t[i - 1] == 'e'))
  }

  predicate IsMark(c: char) { c == '.' || c == 'e' }

  /** Text that the verb `%v` may give for a finite number, such as `53`, `-0.5` or `1e+06`. */
  predicate IsNumToken(t: string) {
    && |t| > 0 && IsDigit(t[|t| - 1])
    && (forall i :: 0 <= i < |t| ==> NumeralAt(t, i))
    && (forall i, j :: 0 <= i < j < |t| && IsMark(t[i]) && IsMark(t[j]) ==> t[i] == '.' && t[j] == 'e')
  }

  type NumToken = t: string | IsNumToken(t) witness "0"

  /** A dynamic value, which is also a JSON tree (RFC 8259, section 3). A number is identified
      with its `%v` text. */
  datatype Value =
    | Null
    | Bool(b: bool)
    | Num(tok: NumToken)
    | Str(s: string)
    | Arr(items: seq<Value>)
    | Obj(fields: map<string, Value>)
  {
    predicate IsLeaf() { !Arr? && !Obj? }
  }

  type Row = map<string, Value>

  /** What a number's `%v` text becomes after the number has been written as JSON and read back
      as a float64. */
  type NumWire = NumToken -> NumToken

  /** A JSON tree written out and read back: only numbers can change. */
  function Wire(w: NumWire, v: Value): Value {
    match v
    case Num(t) => Num(w(t))
    case Arr(items) => Arr(WireAll(w, items))
    case Obj(fields) => Obj(map k | k in fields :: Wire(w, fields[k]))
    case _ => v
  }

  function WireAll(w: NumWire, vs: seq<Value>): (r: seq<Value>)
    ensures |r| == |vs|
    ensures forall i :: 0 <= i < |vs| ==> r[i] == Wire(w, vs[i])
  {
    if vs == [] then [] else [Wire(w, vs[0])] + WireAll(w, vs[1..])
  }

  // 64-bit machine integers and the conversions between them.

  const TWO_63: int := 0x8000_0000_0000_0000
  const TWO_64: int := 0x1_0000_0000_0000_0000

  type U64 = x: int | 0 <= x < TWO_64
  type I64 = x: int | -TWO_63 <= x < TWO_63

  function ToInt(u: U64): I64 {
    if u < TWO_63 then u else u - TWO_64
  }

  function ToUint(i: I64): U64 {
    if i >= 0 then i else i + TWO_64
  }

  /** The conversions keep small numbers, are inverse to each other, and are exact modulo 2^64. */
  lemma ConversionsExact()
    ensures forall i: I64 :: ToInt(ToUint(i)) == i && (i >= 0 ==> ToUint(i) == i) && (ToUint(i) - i) % TWO_64 == 0
    ensures forall u: U64 :: ToUint(ToInt(u)) == u && (u < TWO_63 ==> ToInt(u) == u) && (u - ToInt(u)) % TWO_64 == 0
  {
  }

  ghost predicate Idempotent(w: NumWire) {
    forall t: NumToken :: w(w(t)) == w(t)
  }

  lemma {:induction false} WireTwice(w: NumWire, v: Value)
    requires Idempotent(w)
    ensures Wire(w, Wire(w, v)) == Wire(w, v)
  {
    match v
    case Arr(items) =>
      WireAllTwice(w, items);
    case Obj(fields) =>
      forall k | k in fields ensures Wire(w, Wire(w, fields[k])) == Wire(w, fields[k]) {
        WireTwice(w, fields[k]);
      }
    case _ =>
  }

  lemma {:induction false} WireAllTwice(w: NumWire, vs: seq<Value>)
    requires Idempotent(w)
    ensures WireAll(w, WireAll(w, vs)) == WireAll(w, vs)
  {
    forall i | 0 <= i < |vs| ensures WireAll(w, WireAll(w, vs))[i] == WireAll(w, vs)[i] {
      WireTwice(w, vs[i]);
    }
  }
}
