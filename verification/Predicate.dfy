/** Filters evaluated in memory (pkg/client/filter.go), and their agreement with the SQL text. */
module Predicate {
  import opened Values
  import opened Filter
  import opened SqlCondition
  import opened FilterSql
  import opened FilterParse

  /** extractItemProperty: the value of a leaf property, or nil. */
  function Extract(row: Row, name: string): Value {
    if name in row && row[name].IsLeaf() then row[name] else Null
  }

  // ---- What the predicates compute ----

  function SimpleHolds(op: string, val: Value, v: Value): Result<bool> {
    if op == "=" then Ok(val == v)
    else if op == "!=" || op == "<>" then Ok(val != v)
    else Panic("unsupported op for binary expression")
  }

  function Holds(e: Expr, row: Row): Result<bool> {
    match e
    case Nil => Ok(true)
    case In(name, vals) => Ok(Extract(row, name) in vals.Elems())
    case Simple(name, op, val) => SimpleHolds(op, val, Extract(row, name))
    case Not(x) =>
      (match Holds(x, row)
       case Ok(b) => Ok(!b)
       case r => r)
    case Junction(op, sub) =>
      if op == "AND" then (if sub.NilSlice? then Ok(true) else AllHold(sub.elems, row))
      else if op == "OR" then (if sub.NilSlice? then Ok(false) else AnyHolds(sub.elems, row))
      else Panic("unsupported op for junction")
    case _ => Panic("unsupported filter expression")
  }

  /** Members are evaluated left to right, and none after the first that is false. */
  function AllHold(es: seq<Expr>, row: Row): Result<bool> {
    if es == [] then Ok(true)
    else
      match Holds(es[0], row)
      case Ok(true) => AllHold(es[1..], row)
      case r => r
  }

  function AnyHolds(es: seq<Expr>, row: Row): Result<bool> {
    if es == [] then Ok(false)
    else
      match Holds(es[0], row)
      case Ok(false) => AnyHolds(es[1..], row)
      case r => r
  }

  // ---- The predicates as the client runs them ----

  method InPredicate(vals: seq<Value>, v: Value) returns (out: bool)
    ensures out <==> v in vals
  {
    for i := 0 to |vals|
      invariant v !in vals[..i]
    {
      if vals[i] == v {
        return true;
      }
    }
    return false;
  }

  method JunctionPredicate(e: Expr, row: Row) returns (r: Result<bool>)
    requires e.Junction?
    ensures r == Holds(e, row)
    decreases e, 0
  {
    var es := e.sub.Elems();
    if e.jop == "AND" {
      var out := true;
      for i := 0 to |es|
        invariant Holds(e, row) == if out then AllHold(es[i..], row) else Ok(false)
      {
        if out {
          assert es[i..][1..] == es[i + 1..];
          var b := FilterPredicate(es[i], row);
          if !b.Ok? { return b; }
          out := b.value;
        }
      }
      return Ok(out);
    } else if e.jop == "OR" {
      var out := false;
      for i := 0 to |es|
        invariant Holds(e, row) == if out then Ok(true) else AnyHolds(es[i..], row)
      {
        if !out {
          assert es[i..][1..] == es[i + 1..];
          var b := FilterPredicate(es[i], row);
          if !b.Ok? { return b; }
          out := b.value;
        }
      }
      return Ok(out);
    }
    return Panic("unsupported op for junction");
  }

  /** FilterExpressionAsPredicate. It gives no error, and panics exactly on what it cannot evaluate. */
  method FilterPredicate(e: Expr, row: Row) returns (r: Result<bool>)
    ensures r == Holds(e, row)
    ensures !r.Err? && (r.Panic? <==> Panics(e, row))
    decreases e, 1
  {
    HoldsNeverErrs(e, row);
    PanicExact(e, row);
    match e
    case Nil => return Ok(true);
    case In(name, vals) =>
      var b := InPredicate(vals.Elems(), Extract(row, name));
      return Ok(b);
    case Simple(name, op, val) => return SimpleHolds(op, val, Extract(row, name));
    case Not(x) =>
      var b := FilterPredicate(x, row);
      return if b.Ok? then Ok(!b.value) else b;
    case Junction(_, _) => r := JunctionPredicate(e, row);
    case _ => return Panic("unsupported filter expression");
  }

  // ---- When the predicate panics ----

  /** The fragment that memory can evaluate on every row. */
  predicate Supported(e: Expr) {
    match e
    case Nil => true
    case Simple(_, op, _) => op == "=" || op == "!=" || op == "<>"
    case In(_, _) => true
    case Not(x) => Supported(x)
    case Junction(op, sub) => IsJunctionOp(op) && (sub.NilSlice? || SupportedIn(sub.elems))
    case _ => false
  }

  predicate SupportedIn(es: seq<Expr>) {
    es == [] || (Supported(es[0]) && SupportedIn(es[1..]))
  }

  lemma {:induction false} SupportedNeverPanics(e: Expr, row: Row)
    requires Supported(e)
    ensures Holds(e, row).Ok?
  {
    match e
    case Not(x) => SupportedNeverPanics(x, row);
    case Junction(_, sub) => if sub.Slice? { SupportedInNeverPanics(sub.elems, row); }
    case _ =>
  }

  lemma {:induction false} SupportedInNeverPanics(es: seq<Expr>, row: Row)
    requires SupportedIn(es)
    ensures AllHold(es, row).Ok? && AnyHolds(es, row).Ok?
  {
    if es == [] {
    } else {
      SupportedNeverPanics(es[0], row);
      SupportedInNeverPanics(es[1..], row);
    }
  }

  lemma {:induction false} HoldsNeverErrs(e: Expr, row: Row)
    ensures !Holds(e, row).Err?
  {
    match e
    case Not(x) => HoldsNeverErrs(x, row);
    case Junction(_, sub) => if sub.Slice? { MembersNeverErr(sub.elems, row); }
    case _ =>
  }

  lemma {:induction false} MembersNeverErr(es: seq<Expr>, row: Row)
    ensures !AllHold(es, row).Err? && !AnyHolds(es, row).Err?
  {
    if es == [] {
    } else {
      HoldsNeverErrs(es[0], row);
      MembersNeverErr(es[1..], row);
    }
  }

  /** Whether evaluation runs into something that memory cannot evaluate: an operator or a kind of
      expression that it does not know, in a member that no earlier one makes irrelevant. */
  predicate Panics(e: Expr, row: Row)
    decreases e
  {
    match e
    case Nil => false
    case Simple(_, op, _) => op !in {"=", "!=", "<>"}
    case In(_, _) => false
    case Un(_, _) => true
    case Between(_, _, _) => true
    case Not(x) => Panics(x, row)
    case Junction(op, sub) => op !in {"AND", "OR"} || (sub.Slice? && MemberPanics(op == "AND", sub.elems, row))
  }

  predicate MemberPanics(conj: bool, es: seq<Expr>, row: Row)
    decreases es
  {
    exists k :: 0 <= k < |es| && Panics(es[k], row) && forall j :: 0 <= j < k ==> Holds(es[j], row) == Ok(conj)
  }

  /** The predicate panics exactly then. */
  lemma {:induction false} PanicExact(e: Expr, row: Row)
    ensures Holds(e, row).Panic? <==> Panics(e, row)
  {
    match e
    case Not(x) => PanicExact(x, row);
    case Junction(op, sub) => if sub.Slice? { MembersPanicExact(sub.elems, row); }
    case _ =>
  }

  lemma {:induction false} MembersPanicExact(es: seq<Expr>, row: Row)
    ensures AllHold(es, row).Panic? <==> MemberPanics(true, es, row)
    ensures AnyHolds(es, row).Panic? <==> MemberPanics(false, es, row)
    decreases es
  {
    hide Holds, Panics;
    if es == [] {
    } else {
      PanicExact(es[0], row);
      HoldsNeverErrs(es[0], row);
      MembersPanicExact(es[1..], row);
      FirstOrLater(true, es, row);
      FirstOrLater(false, es, row);
    }
  }

  lemma FirstOrLater(conj: bool, es: seq<Expr>, row: Row)
    requires es != []
    ensures MemberPanics(conj, es, row) <==>
            Panics(es[0], row) || (Holds(es[0], row) == Ok(conj) && MemberPanics(conj, es[1..], row))
  {
    hide Holds, Panics;
    var rest := es[1..];
    if Holds(es[0], row) == Ok(conj) && MemberPanics(conj, rest, row) {
      var k :| 0 <= k < |rest| && Panics(rest[k], row) && forall j :: 0 <= j < k ==> Holds(rest[j], row) == Ok(conj);
      assert Panics(es[k + 1], row);
      assert forall j :: 0 < j < k + 1 ==> es[j] == rest[j - 1];
    }
    if MemberPanics(conj, es, row) && !Panics(es[0], row) {
      var k :| 0 <= k < |es| && Panics(es[k], row) && forall j :: 0 <= j < k ==> Holds(es[j], row) == Ok(conj);
      assert rest[k - 1] == es[k];
      assert forall j :: 0 <= j < k - 1 ==> rest[j] == es[j + 1];
    }
  }

  /** A conjunction holds exactly when every member does, and a disjunction fails exactly when every
      member does. */
  lemma {:induction false} JunctionExact(es: seq<Expr>, row: Row)
    ensures AllHold(es, row) == Ok(true) <==> forall i :: 0 <= i < |es| ==> Holds(es[i], row) == Ok(true)
    ensures AnyHolds(es, row) == Ok(false) <==> forall i :: 0 <= i < |es| ==> Holds(es[i], row) == Ok(false)
  {
    hide Holds;
    if es == [] {
    } else {
      JunctionExact(es[1..], row);
      assert forall i :: 0 < i < |es| ==> es[i] == es[1..][i - 1];
      assert forall i :: 0 <= i < |es[1..]| ==> es[1..][i] == es[i + 1];
    }
  }

  /** No filter accepts everything, an empty conjunction too, and an empty disjunction nothing. */
  lemma NothingToCheck(row: Row)
    ensures Holds(Nil, row) == Ok(true)
    ensures Holds(Junction("AND", NilSlice), row) == Holds(Junction("AND", Slice([])), row) == Ok(true)
    ensures Holds(Junction("OR", NilSlice), row) == Holds(Junction("OR", Slice([])), row) == Ok(false)
  {
  }

  /** Equality is membership in a list of one, whatever the kind of the value, and inequality its
      negation under both spellings. */
  lemma EqualityIsMembership(name: string, val: Value, row: Row)
    ensures Holds(Simple(name, "=", val), row) == Holds(In(name, Slice([val])), row)
    ensures Holds(Simple(name, "!=", val), row) == Holds(Not(Simple(name, "=", val)), row)
    ensures Holds(Simple(name, "<>", val), row) == Holds(Simple(name, "!=", val), row)
  {
  }

  /** A property is equal to its own leaf value and to no other; one that is missing, a list or an
      object is equal to nil alone. */
  lemma EqualityExact(name: string, val: Value, row: Row)
    ensures Holds(Simple(name, "=", val), row) ==
            Ok(if name in row && row[name].IsLeaf() then row[name] == val else val == Null)
  {
  }

  // ---- Agreement with the SQL condition ----

  /** Both strings, both numbers or both booleans. */
  predicate SameKind(a: Value, b: Value) {
    (a.Str? && b.Str?) || (a.Num? && b.Num?) || (a.Bool? && b.Bool?)
  }

  /** The database takes values of one kind for equal exactly when they are the same. Between strings
      it always does. */
  ghost predicate DecidesEquality(cmp: Collation) {
    forall a, b :: SameKind(a, b) ==>
      (cmp("=", a, b) <==> a == b) && (cmp("<>", a, b) <==> a != b) && (cmp("!=", a, b) <==> a != b)
  }

  /** Whether a comparison or membership leaf answers alike in memory and in SQL for the column
      value `v` and the listed values, where only truth (`positive`) or only falsity of the leaf is
      observed. A null column makes SQL undecided and memory decided. */
  predicate LeafAgrees(equality: bool, v: Value, vals: seq<Value>, positive: bool) {
    (!v.Null? && forall u :: u in vals ==> SameKind(v, u)) || (v.Null? && equality == positive)
  }

  /** Equality, inequality and membership over literals; columns hold values of the same kind, or are
      null where being undecided in SQL has the effect that memory's answer has. */
  predicate Agrees(e: Expr, row: Row, positive: bool) {
    match e
    case Simple(name, op, val) =>
      IsLiteral(val) && (op == "=" || op == "!=" || op == "<>")
      && LeafAgrees(op == "=", Column(row, name), [val], positive)
    case In(name, vals) =>
      (forall v :: v in vals.Elems() ==> IsLiteral(v)) && LeafAgrees(true, Column(row, name), vals.Elems(), positive)
    case Not(x) => Agrees(x, row, !positive)
    case Junction(op, sub) => IsJunctionOp(op) && (sub.NilSlice? || AgreesIn(sub.elems, row, positive))
    case _ => false
  }

  predicate AgreesIn(es: seq<Expr>, row: Row, positive: bool) {
    es == [] || (Agrees(es[0], row, positive) && AgreesIn(es[1..], row, positive))
  }

  /** In a positive place SQL truth is memory truth; in a negative place SQL falsity is memory
      falsity. */
  predicate Matches(t: Truth, r: Result<bool>, positive: bool) {
    r.Ok? && (if positive then t.True? == r.value else t.False? == !r.value)
  }

  lemma EqualOfKind(cmp: Collation, op: string, a: Value, b: Value)
    requires SameKind(a, b) && (a.Str? || DecidesEquality(cmp))
    requires op == "=" || op == "!=" || op == "<>"
    ensures Comparison(cmp, op, a, b) == TruthOf((a == b) == (op == "="))
  {
    if !a.Str? {
      assert cmp("=", a, b) <==> a == b;
    }
  }

  lemma {:induction false} AnyEqualOfKind(cmp: Collation, v: Value, vs: seq<Value>)
    requires v.Null? || ((v.Str? || DecidesEquality(cmp)) && forall u :: u in vs ==> SameKind(v, u))
    requires forall u :: u in vs ==> IsLiteral(u)
    ensures !v.Null? ==> AnyEqual(cmp, v, vs) == TruthOf(v in vs)
    ensures v.Null? ==> !AnyEqual(cmp, v, vs).True? && v !in vs
  {
    hide DecidesEquality;
    if vs == [] {
    } else {
      AnyEqualOfKind(cmp, v, vs[1..]);
      assert vs[0] in vs;
      if !v.Null? { EqualOfKind(cmp, "=", v, vs[0]); }
    }
  }

  lemma {:induction false} ConditionAgrees(cmp: Collation, e: Expr, row: Row, positive: bool)
    requires Parsable(e) && Agrees(e, row, positive) && (StringLeaves(e) || DecidesEquality(cmp))
    ensures Matches(Eval(cmp, CondOf(e), row), Holds(e, row), positive)
  {
    hide IsColumn, DecidesEquality, Comparison;
    match e
    case Simple(name, op, val) => SimpleAgrees(cmp, name, op, val, row, positive);
    case In(name, vals) => InAgrees(cmp, e, row, positive);
    case Not(x) => ConditionAgrees(cmp, x, row, !positive);
    case Junction(op, sub) =>
      MembersAgree(cmp, sub.elems, row, positive);
      var cs := Groups(sub.elems);
      if |cs| == 1 {
        assert EvalAll(cmp, cs, row) == Both(Eval(cmp, cs[0], row), EvalAll(cmp, cs[1..], row));
        assert EvalAny(cmp, cs, row) == Either(Eval(cmp, cs[0], row), EvalAny(cmp, cs[1..], row));
      }
  }

  lemma SimpleAgrees(cmp: Collation, name: string, op: string, val: Value, row: Row, positive: bool)
    requires Agrees(Simple(name, op, val), row, positive) && (val.Str? || DecidesEquality(cmp))
    ensures Matches(Comparison(cmp, op, Column(row, name), val), Holds(Simple(name, op, val), row), positive)
  {
    var v := Column(row, name);
    assert val in [val];
    if !v.Null? { EqualOfKind(cmp, op, v, val); }
  }

  lemma InAgrees(cmp: Collation, e: Expr, row: Row, positive: bool)
    requires e.In? && Parsable(e) && Agrees(e, row, positive) && (StringLeaves(e) || DecidesEquality(cmp))
    ensures Matches(AnyEqual(cmp, Column(row, e.name), e.vals.elems), Holds(e, row), positive)
  {
    hide IsColumn, DecidesEquality;
    assert e.vals.elems[0] in e.vals.elems;
    AnyEqualOfKind(cmp, Column(row, e.name), e.vals.elems);
  }

  lemma {:induction false} MembersAgree(cmp: Collation, es: seq<Expr>, row: Row, positive: bool)
    requires ParsableIn(es) && AgreesIn(es, row, positive) && (StringLeavesIn(es) || DecidesEquality(cmp))
    ensures Matches(EvalAll(cmp, Groups(es), row), AllHold(es, row), positive)
    ensures Matches(EvalAny(cmp, Groups(es), row), AnyHolds(es, row), positive)
  {
    hide DecidesEquality;
    if es == [] {
    } else {
      ConditionAgrees(cmp, es[0], row, positive);
      MembersAgree(cmp, es[1..], row, positive);
      assert Groups(es)[1..] == Groups(es[1..]);
    }
  }

  /** The main agreement: a database that parses the printed WHERE clause keeps exactly the rows
      that the in-memory predicate accepts. */
  lemma TextAgreesWithMemory(cmp: Collation, e: Expr, row: Row)
    requires Lexable(e) && Parsable(e) && Agrees(e, row, true) && (StringLeaves(e) || DecidesEquality(cmp))
    ensures NoNil(e) && ParseCondition(Print(e)).Some?
    ensures Holds(e, row) == Ok(Selects(cmp, ParseCondition(Print(e)), row))
  {
    PrintedTextParses(e);
    ConditionAgrees(cmp, e, row, true);
  }

  /** All leaves are string comparisons or memberships. */
  predicate StringLeaves(e: Expr) {
    match e
    case Simple(name, op, val) => val.Str? && (op == "=" || op == "!=" || op == "<>")
    case In(name, vals) => forall v :: v in vals.Elems() ==> v.Str?
    case Not(x) => StringLeaves(x)
    case Junction(op, sub) => IsJunctionOp(op) && (sub.NilSlice? || StringLeavesIn(sub.elems))
    case _ => false
  }

  predicate StringLeavesIn(es: seq<Expr>) {
    es == [] || (StringLeaves(es[0]) && StringLeavesIn(es[1..]))
  }

  function Names(e: Expr): set<string> {
    match e
    case Nil => {}
    case Junction(_, sub) => if sub.NilSlice? then {} else NamesIn(sub.elems)
    case Not(x) => Names(x)
    case _ => {e.name}
  }

  function NamesIn(es: seq<Expr>): set<string> {
    if es == [] then {} else Names(es[0]) + NamesIn(es[1..])
  }

  /** Rows whose named columns all hold strings agree whatever the shape of the filter. */
  lemma {:induction false} NonNullAgrees(e: Expr, row: Row, positive: bool)
    requires StringLeaves(e)
    requires forall n :: n in Names(e) ==> Column(row, n).Str?
    ensures Agrees(e, row, positive)
  {
    match e
    case Not(x) => NonNullAgrees(x, row, !positive);
    case Junction(_, sub) => if sub.Slice? { NonNullAgreesIn(sub.elems, row, positive); }
    case Simple(name, _, _) => assert name in Names(e);
    case In(name, _) => assert name in Names(e);
  }

  lemma {:induction false} NonNullAgreesIn(es: seq<Expr>, row: Row, positive: bool)
    requires StringLeavesIn(es)
    requires forall n :: n in NamesIn(es) ==> Column(row, n).Str?
    ensures AgreesIn(es, row, positive)
  {
    if es == [] {
    } else {
      NonNullAgrees(es[0], row, positive);
      NonNullAgreesIn(es[1..], row, positive);
    }
  }

  /** At a single comparison with a string, a null column is where the two differ: agreement holds
      exactly when the column is not null or the operator is an equality. */
  lemma LeafAgreementExact(cmp: Collation, name: string, op: string, s: string, row: Row)
    requires op == "=" || op == "!=" || op == "<>"
    requires Column(row, name).Str? || Column(row, name).Null?
    ensures Holds(Simple(name, op, Str(s)), row) == Ok(Selects(cmp, Some(Compare(name, op, Str(s))), row))
       <==> !Column(row, name).Null? || op == "="
  {
  }
}
