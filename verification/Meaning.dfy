/** What a filter asks of a row in SQL's three-valued logic, said on the filter itself, and that its
    text asks just that. */
module Meaning {
  import opened Values
  import opened Filter
  import opened SqlCondition
  import opened FilterSql
  import opened FilterParse

  /** True, false, or undecided because of a null. */
  ghost function Means(cmp: Collation, e: Expr, row: Row): Truth
    decreases e
  {
    match e
    case Nil => True
    case Simple(name, op, val) => Comparison(cmp, op, Column(row, name), val)
    case In(name, vals) => ListMeans(cmp, Column(row, name), vals.Elems())
    case Un(name, op) => TruthOf(Column(row, name).Null? == (op == "IS NULL"))
    case Between(name, l, r) => RangeMeans(cmp, Column(row, name), l, r)
    case Not(x) =>
      (match Means(cmp, x, row)
       case True => False
       case False => True
       case Unknown => Unknown)
    case Junction(op, sub) =>
      if sub.NilSlice? then TruthOf(op == "AND") else JunctionMeans(cmp, op == "AND", sub.elems, row)
  }

  /** One equal value decides; otherwise one undecided comparison leaves it open. */
  ghost function ListMeans(cmp: Collation, v: Value, vs: seq<Value>): Truth {
    if exists u :: u in vs && Comparison(cmp, "=", v, u) == True then True
    else if exists u :: u in vs && Comparison(cmp, "=", v, u) == Unknown then Unknown
    else False
  }

  /** Not below the left and not above the right bound; one bound that fails decides. */
  function RangeMeans(cmp: Collation, v: Value, l: Value, r: Value): Truth {
    var low, high := Comparison(cmp, ">=", v, l), Comparison(cmp, "<=", v, r);
    if low == True && high == True then True
    else if low == False || high == False then False
    else Unknown
  }

  /** A false member decides a conjunction and a true one a disjunction; otherwise they have to be all
      true, or all false. */
  ghost function JunctionMeans(cmp: Collation, conj: bool, es: seq<Expr>, row: Row): Truth
    decreases es
  {
    if exists k :: 0 <= k < |es| && Means(cmp, es[k], row) == TruthOf(!conj) then TruthOf(!conj)
    else if forall k :: 0 <= k < |es| ==> Means(cmp, es[k], row) == TruthOf(conj) then TruthOf(conj)
    else Unknown
  }

  lemma {:induction false} ListIsMeant(cmp: Collation, v: Value, vs: seq<Value>)
    ensures AnyEqual(cmp, v, vs) == ListMeans(cmp, v, vs)
  {
    hide Comparison;
    if vs == [] {
    } else {
      ListIsMeant(cmp, v, vs[1..]);
      assert vs == [vs[0]] + vs[1..];
    }
  }

  lemma {:induction false} TreeMeans(cmp: Collation, e: Expr, row: Row)
    requires Lexable(e) && Parsable(e)
    ensures Eval(cmp, CondOf(e), row) == Means(cmp, e, row)
  {
    hide IsColumn, Comparison, ListMeans, AnyEqual;
    match e
    case Simple(_, _, _) =>
    case In(name, vals) => ListIsMeant(cmp, Column(row, name), vals.elems);
    case Un(_, _) =>
    case Between(_, _, _) =>
    case Not(x) => TreeMeans(cmp, x, row);
    case Junction(op, sub) =>
      MembersMean(cmp, sub.elems, row);
      var cs := Groups(sub.elems);
      if |cs| == 1 {
        assert EvalAll(cmp, cs, row) == Both(Eval(cmp, cs[0], row), EvalAll(cmp, cs[1..], row));
        assert EvalAny(cmp, cs, row) == Either(Eval(cmp, cs[0], row), EvalAny(cmp, cs[1..], row));
      }
  }

  lemma {:induction false} MembersMean(cmp: Collation, es: seq<Expr>, row: Row)
    requires LexableIn(es) && ParsableIn(es)
    ensures EvalAll(cmp, Groups(es), row) == JunctionMeans(cmp, true, es, row)
    ensures EvalAny(cmp, Groups(es), row) == JunctionMeans(cmp, false, es, row)
    decreases es
  {
    hide Lexable, Parsable, CondOf, Means;
    if es == [] {
    } else {
      TreeMeans(cmp, es[0], row);
      MembersMean(cmp, es[1..], row);
      assert Groups(es)[1..] == Groups(es[1..]);
      assert Eval(cmp, Groups(es)[0], row) == Eval(cmp, CondOf(es[0]), row);
      OneMoreMember(cmp, true, es, row);
      OneMoreMember(cmp, false, es, row);
    }
  }

  lemma OneMoreMember(cmp: Collation, conj: bool, es: seq<Expr>, row: Row)
    requires es != []
    ensures JunctionMeans(cmp, conj, es, row) ==
            var first, rest := Means(cmp, es[0], row), JunctionMeans(cmp, conj, es[1..], row);
            if conj then Both(first, rest) else Either(first, rest)
  {
    hide Means;
    var rest := es[1..];
    assert forall k :: 0 < k < |es| ==> es[k] == rest[k - 1];
    assert forall k :: 0 <= k < |rest| ==> rest[k] == es[k + 1];
  }

  /** The text of a filter of well-formed parts is a condition that asks of every row what the filter
      asks: every operator, ranges, lists, null tests, NOT, AND and OR, with nulls. */
  lemma TextMeans(cmp: Collation, e: Expr, row: Row)
    requires Lexable(e) && Parsable(e)
    ensures NoNil(e) && ParseCondition(Print(e)).Some?
    ensures Eval(cmp, ParseCondition(Print(e)).value, row) == Means(cmp, e, row)
  {
    hide ParseCondition, Print, Means, Eval, Lexable, Parsable, CondOf;
    PrintedTextParses(e);
    TreeMeans(cmp, e, row);
  }
}
