/** For which filters memory and SQL agree on every table: the nulls that a place in the filter can
    meet decide it. */
module Agreement {
  import opened Values
  import opened Filter
  import opened SqlCondition
  import opened FilterSql
  import opened FilterParse
  import opened Predicate

  /** Every leaf stands where being undecided has the effect of memory's answer: equality and
      membership under an even number of NOTs, inequality under an odd number. */
  predicate NullSafe(e: Expr, positive: bool) {
    match e
    case Simple(_, op, _) => (op == "=") == positive
    case In(_, _) => positive
    case Not(x) => NullSafe(x, !positive)
    case Junction(_, sub) => sub.NilSlice? || NullSafeIn(sub.elems, positive)
    case _ => false
  }

  predicate NullSafeIn(es: seq<Expr>, positive: bool) {
    es == [] || (NullSafe(es[0], positive) && NullSafeIn(es[1..], positive))
  }

  /** The members of each junction name different columns. */
  predicate Separate(e: Expr) {
    match e
    case Not(x) => Separate(x)
    case Junction(_, sub) => sub.NilSlice? || SeparateIn(sub.elems)
    case _ => true
  }

  predicate SeparateIn(es: seq<Expr>) {
    es == [] || (Separate(es[0]) && Names(es[0]) !! NamesIn(es[1..]) && SeparateIn(es[1..]))
  }

  function LeafValues(e: Expr): seq<Value>
    requires e.Simple? || e.In?
  {
    if e.Simple? then [e.val] else e.vals.Elems()
  }

  /** Values of one kind of which some are left out: all but a list of both booleans. */
  predicate OneKind(vs: seq<Value>) {
    && (forall v :: v in vs ==> IsLiteral(v) && SameKind(v, vs[0]))
    && !(Bool(true) in vs && Bool(false) in vs)
  }

  /** Every leaf is a comparison for equality or inequality, or a membership, with literals of one
      kind. */
  predicate LiteralLeaves(e: Expr) {
    match e
    case Simple(_, op, _) => OneKind(LeafValues(e)) && (op == "=" || op == "!=" || op == "<>")
    case In(_, _) => OneKind(LeafValues(e))
    case Not(x) => LiteralLeaves(x)
    case Junction(op, sub) => IsJunctionOp(op) && (sub.NilSlice? || LiteralLeavesIn(sub.elems))
    case _ => false
  }

  predicate LiteralLeavesIn(es: seq<Expr>) {
    es == [] || (LiteralLeaves(es[0]) && LiteralLeavesIn(es[1..]))
  }

  /** The columns that the leaves name hold values of the leaf's kind or, if allowed, null. */
  predicate Fits(e: Expr, row: Row, nulls: bool) {
    match e
    case Simple(name, _, _) => FitsLeaf(e, Column(row, name), nulls)
    case In(name, _) => FitsLeaf(e, Column(row, name), nulls)
    case Not(x) => Fits(x, row, nulls)
    case Junction(_, sub) => sub.NilSlice? || FitsIn(sub.elems, row, nulls)
    case _ => true
  }

  predicate FitsLeaf(e: Expr, v: Value, nulls: bool)
    requires e.Simple? || e.In?
  {
    if v.Null? then nulls else forall u :: u in LeafValues(e) ==> SameKind(v, u)
  }

  predicate FitsIn(es: seq<Expr>, row: Row, nulls: bool) {
    es == [] || (Fits(es[0], row, nulls) && FitsIn(es[1..], row, nulls))
  }

  /** Strings are literals, and equal strings are equal in every database. */
  ghost predicate Comparable(cmp: Collation, e: Expr) {
    StringLeaves(e) || (LiteralLeaves(e) && DecidesEquality(cmp))
  }

  lemma {:induction false} StringsAreLiterals(e: Expr)
    requires StringLeaves(e)
    ensures LiteralLeaves(e)
  {
    match e
    case Not(x) => StringsAreLiterals(x);
    case Junction(_, sub) => if sub.Slice? { StringsAreLiteralsIn(sub.elems); }
    case In(_, vals) =>
      forall v | v in vals.Elems() ensures SameKind(v, vals.Elems()[0]) {
        assert vals.Elems()[0] in vals.Elems();
      }
    case _ =>
  }

  lemma {:induction false} StringsAreLiteralsIn(es: seq<Expr>)
    requires StringLeavesIn(es)
    ensures LiteralLeavesIn(es)
  {
    if es == [] {
    } else {
      StringsAreLiterals(es[0]);
      StringsAreLiteralsIn(es[1..]);
    }
  }

  // ---- One leaf ----

  /** At one comparison or membership, in a positive or a negative place. */
  lemma LeafExact(cmp: Collation, e: Expr, row: Row, positive: bool)
    requires (e.Simple? || e.In?) && Comparable(cmp, e) && Parsable(e) && Fits(e, row, true)
    ensures Matches(Eval(cmp, CondOf(e), row), Holds(e, row), positive)
       <==> LeafAgrees(e.In? || e.op == "=", Column(row, e.name), LeafValues(e), positive)
  {
    hide IsColumn, DecidesEquality, Comparison, AnyEqual;
    var v, vs := Column(row, e.name), LeafValues(e);
    LeafLiterals(e);
    if StringLeaves(e) { StringsAreLiterals(e); }
    if !v.Null? {
      ConditionAgrees(cmp, e, row, positive);
    } else if e.In? {
      NullInList(cmp, vs);
    } else {
      NullCompares(cmp, e.op, e.val);
    }
  }

  lemma LeafLiterals(e: Expr)
    requires (e.Simple? || e.In?) && Parsable(e) && (StringLeaves(e) || LiteralLeaves(e))
    ensures LeafValues(e) != [] && Null !in LeafValues(e) && forall u :: u in LeafValues(e) ==> IsLiteral(u)
  {
    hide IsColumn;
  }

  lemma NullCompares(cmp: Collation, op: string, val: Value)
    ensures Comparison(cmp, op, Null, val) == Unknown
  {
  }

  lemma {:induction false} NullInList(cmp: Collation, vs: seq<Value>)
    requires vs != []
    ensures AnyEqual(cmp, Null, vs) == Unknown
  {
    if |vs| == 1 {
      assert AnyEqual(cmp, Null, vs[1..]) == False;
    } else {
      NullInList(cmp, vs[1..]);
    }
  }

  // ---- Only the named columns matter ----

  predicate SameOn(names: set<string>, a: Row, b: Row) {
    forall n :: n in names ==> Column(a, n) == Column(b, n)
  }

  lemma {:induction false} Frame(cmp: Collation, e: Expr, a: Row, b: Row)
    requires Parsable(e) && SameOn(Names(e), a, b)
    ensures Holds(e, a) == Holds(e, b) && Eval(cmp, CondOf(e), a) == Eval(cmp, CondOf(e), b)
  {
    hide IsColumn, Comparison, SimpleHolds;
    match e
    case Not(x) => Frame(cmp, x, a, b);
    case Junction(_, sub) =>
      FrameIn(cmp, sub.elems, a, b);
      if |sub.elems| == 1 { OneMember(cmp, Groups(sub.elems), a); OneMember(cmp, Groups(sub.elems), b); }
    case Simple(name, _, _) => assert name in Names(e);
    case In(name, _) => assert name in Names(e);
    case Un(name, _) => assert name in Names(e);
    case Between(name, _, _) => assert name in Names(e);
  }

  lemma {:induction false} FrameIn(cmp: Collation, es: seq<Expr>, a: Row, b: Row)
    requires ParsableIn(es) && SameOn(NamesIn(es), a, b)
    ensures AllHold(es, a) == AllHold(es, b) && AnyHolds(es, a) == AnyHolds(es, b)
    ensures EvalAll(cmp, Groups(es), a) == EvalAll(cmp, Groups(es), b)
    ensures EvalAny(cmp, Groups(es), a) == EvalAny(cmp, Groups(es), b)
  {
    hide Parsable, Holds, CondOf;
    if es == [] {
    } else {
      Frame(cmp, es[0], a, b);
      FrameIn(cmp, es[1..], a, b);
      assert Groups(es)[1..] == Groups(es[1..]);
    }
  }

  lemma {:induction false} FitsFrame(e: Expr, a: Row, b: Row, nulls: bool)
    requires SameOn(Names(e), a, b)
    ensures Fits(e, a, nulls) == Fits(e, b, nulls)
  {
    match e
    case Not(x) => FitsFrame(x, a, b, nulls);
    case Junction(_, sub) => if sub.Slice? { FitsFrameIn(sub.elems, a, b, nulls); }
    case Simple(name, _, _) => assert name in Names(e);
    case In(name, _) => assert name in Names(e);
    case _ =>
  }

  lemma {:induction false} FitsFrameIn(es: seq<Expr>, a: Row, b: Row, nulls: bool)
    requires SameOn(NamesIn(es), a, b)
    ensures FitsIn(es, a, nulls) == FitsIn(es, b, nulls)
  {
    hide Fits;
    if es == [] {
    } else {
      FitsFrame(es[0], a, b, nulls);
      FitsFrameIn(es[1..], a, b, nulls);
    }
  }

  lemma OneMember(cmp: Collation, cs: seq<Cond>, row: Row)
    requires |cs| == 1
    ensures EvalAll(cmp, cs, row) == EvalAny(cmp, cs, row) == Eval(cmp, cs[0], row)
  {
    assert EvalAll(cmp, cs[1..], row) == True && EvalAny(cmp, cs[1..], row) == False;
  }

  // ---- A row that decides a filter ----

  /** The lengths of all texts together. */
  function Total(vs: seq<Value>): nat {
    if vs == [] then 0
    else (match vs[0] case Str(s) => |s| case Num(t) => |t| case _ => 0) + Total(vs[1..])
  }

  lemma {:induction false} NoneIsLonger(vs: seq<Value>, v: Value)
    requires v in vs
    ensures v.Str? ==> |v.s| <= Total(vs)
    ensures v.Num? ==> |v.tok| <= Total(vs)
  {
    if v != vs[0] {
      assert v in vs[1..] by { assert vs == [vs[0]] + vs[1..]; }
      NoneIsLonger(vs[1..], v);
    }
  }

  function Ones(n: nat): (s: string)
    ensures |s| == n && forall i :: 0 <= i < n ==> s[i] == '1'
  {
    if n == 0 then "" else "1" + Ones(n - 1)
  }

  /** A literal of the same kind that is none of the given ones. */
  function Outside(vs: seq<Value>): Value
    requires vs != []
  {
    match vs[0]
    case Str(_) => Str(Ones(1 + Total(vs)))
    case Num(_) =>
      var t := Ones(1 + Total(vs));
      assert IsNumToken(t) by { OnesAreNumeral(1 + Total(vs)); }
      Num(t)
    case Bool(_) => Bool(Bool(false) in vs)
    case v => v
  }

  lemma OnesAreNumeral(n: nat)
    requires n > 0
    ensures IsNumToken(Ones(n))
  {
    var t := Ones(n);
    forall i | 0 <= i < n ensures NumeralAt(t, i) {
      assert t[i] == '1';
    }
  }

  lemma OutsideIsOutside(vs: seq<Value>)
    requires vs != [] && OneKind(vs)
    ensures Outside(vs) !in vs && SameKind(Outside(vs), vs[0]) && IsLiteral(Outside(vs))
    ensures forall v :: v in vs ==> SameKind(Outside(vs), v)
  {
    assert vs[0] in vs;
    var v := Outside(vs);
    if v in vs {
      NoneIsLonger(vs, v);
    }
  }

  /** A row with literals in exactly the named columns, on which the filter holds or not as wanted. */
  function Forced(e: Expr, want: bool): Row
    requires LiteralLeaves(e) && Parsable(e)
  {
    match e
    case Simple(name, op, val) => map[name := if (op == "=") == want then val else Outside([val])]
    case In(name, vals) => map[name := if want then vals.elems[0] else Outside(vals.elems)]
    case Not(x) => Forced(x, !want)
    case Junction(_, sub) => ForcedEach(sub.elems, want)
  }

  function ForcedEach(es: seq<Expr>, want: bool): Row
    requires LiteralLeavesIn(es) && ParsableIn(es)
  {
    if es == [] then map[] else Forced(es[0], want) + ForcedEach(es[1..], want)
  }

  lemma {:induction false} ForcedKeys(e: Expr, want: bool)
    requires LiteralLeaves(e) && Parsable(e)
    ensures Forced(e, want).Keys == Names(e)
  {
    hide IsColumn, Outside;
    match e
    case Not(x) => ForcedKeys(x, !want);
    case Junction(_, sub) => ForcedEachKeys(sub.elems, want);
    case _ =>
  }

  lemma {:induction false} ForcedEachKeys(es: seq<Expr>, want: bool)
    requires LiteralLeavesIn(es) && ParsableIn(es)
    ensures ForcedEach(es, want).Keys == NamesIn(es)
  {
    hide Forced, Names, LiteralLeaves, Parsable;
    if es == [] {
    } else {
      ForcedKeys(es[0], want);
      ForcedEachKeys(es[1..], want);
    }
  }

  /** Rows over disjoint columns put together look like each of them on its own columns. */
  lemma Together(a: Row, b: Row, ns: set<string>, ms: set<string>)
    requires ns !! ms && a.Keys <= ns && b.Keys <= ms
    ensures SameOn(ns, a + b, a) && SameOn(ms, a + b, b)
  {
  }

  lemma {:induction false} ForcedHolds(cmp: Collation, e: Expr, want: bool)
    requires LiteralLeaves(e) && Parsable(e) && Separate(e)
    ensures Holds(e, Forced(e, want)) == Ok(want) && Fits(e, Forced(e, want), false)
  {
    hide IsColumn, Outside;
    match e
    case Simple(_, _, val) => OutsideIsOutside([val]);
    case In(_, vals) =>
      OutsideIsOutside(vals.elems);
      assert vals.elems[0] in vals.elems;
    case Not(x) => ForcedHolds(cmp, x, !want);
    case Junction(_, sub) => ForcedEachHold(cmp, sub.elems, want);
  }

  lemma {:induction false} ForcedEachHold(cmp: Collation, es: seq<Expr>, want: bool)
    requires LiteralLeavesIn(es) && ParsableIn(es) && SeparateIn(es)
    ensures AllHold(es, ForcedEach(es, want)) == Ok(want || es == [])
    ensures AnyHolds(es, ForcedEach(es, want)) == Ok(want && es != [])
    ensures FitsIn(es, ForcedEach(es, want), false)
  {
    hide Holds, Forced, Names, LiteralLeaves, Parsable, Separate, SameOn, Fits;
    if es == [] {
    } else {
      var a, b := Forced(es[0], want), ForcedEach(es[1..], want);
      ForcedKeys(es[0], want);
      ForcedEachKeys(es[1..], want);
      Together(a, b, Names(es[0]), NamesIn(es[1..]));
      Frame(cmp, es[0], a + b, a);
      FrameIn(cmp, es[1..], a + b, b);
      FitsFrame(es[0], a + b, a, false);
      FitsFrameIn(es[1..], a + b, b, false);
      ForcedHolds(cmp, es[0], want);
      ForcedEachHold(cmp, es[1..], want);
    }
  }

  // ---- A row on which memory and SQL differ ----

  /** Null at the first leaf that is not null-safe, and literals that make every other member of the
      junctions around it irrelevant. */
  function Bad(e: Expr, positive: bool): Row
    requires LiteralLeaves(e) && Parsable(e)
  {
    match e
    case Not(x) => Bad(x, !positive)
    case Junction(op, sub) => BadIn(op, sub.elems, positive)
    case _ => map[]
  }

  function BadIn(op: string, es: seq<Expr>, positive: bool): Row
    requires LiteralLeavesIn(es) && ParsableIn(es)
    decreases es
  {
    if es == [] then map[]
    else if !NullSafe(es[0], positive) then Bad(es[0], positive) + ForcedEach(es[1..], op == "AND")
    else Forced(es[0], op == "AND") + BadIn(op, es[1..], positive)
  }

  lemma {:induction false} BadKeys(e: Expr, positive: bool)
    requires LiteralLeaves(e) && Parsable(e)
    ensures Bad(e, positive).Keys <= Names(e)
  {
    match e
    case Not(x) => BadKeys(x, !positive);
    case Junction(op, sub) => BadInKeys(op, sub.elems, positive);
    case _ =>
  }

  lemma {:induction false} BadInKeys(op: string, es: seq<Expr>, positive: bool)
    requires LiteralLeavesIn(es) && ParsableIn(es)
    ensures BadIn(op, es, positive).Keys <= NamesIn(es)
    decreases es
  {
    hide Forced, ForcedEach, Bad, Names, LiteralLeaves, Parsable, NullSafe;
    if es == [] {
    } else {
      ForcedKeys(es[0], op == "AND");
      ForcedEachKeys(es[1..], op == "AND");
      BadKeys(es[0], positive);
      BadInKeys(op, es[1..], positive);
    }
  }

  /** The row on which they differ fits the filter. */
  lemma {:induction false} BadFits(cmp: Collation, e: Expr, positive: bool)
    requires LiteralLeaves(e) && Parsable(e) && Separate(e) && !NullSafe(e, positive)
    ensures Fits(e, Bad(e, positive), true)
  {
    hide IsColumn;
    match e
    case Not(x) => BadFits(cmp, x, !positive);
    case Junction(op, sub) => BadInFits(cmp, op, sub.elems, positive);
    case _ =>
  }

  lemma {:induction false} BadInFits(cmp: Collation, op: string, es: seq<Expr>, positive: bool)
    requires LiteralLeavesIn(es) && ParsableIn(es) && SeparateIn(es) && !NullSafeIn(es, positive)
    ensures FitsIn(es, BadIn(op, es, positive), true)
    decreases es
  {
    hide Forced, ForcedEach, Bad, Names, LiteralLeaves, Parsable, Separate, NullSafe, SameOn, Fits;
    var conj, row := op == "AND", BadIn(op, es, positive);
    var x, rest := es[0], es[1..];
    if !NullSafe(x, positive) {
      BadKeys(x, positive);
      ForcedEachKeys(rest, conj);
      Together(Bad(x, positive), ForcedEach(rest, conj), Names(x), NamesIn(rest));
      FitsFrame(x, row, Bad(x, positive), true);
      FitsFrameIn(rest, row, ForcedEach(rest, conj), true);
      BadFits(cmp, x, positive);
      ForcedEachHold(cmp, rest, conj);
      FitsMoreIn(rest, ForcedEach(rest, conj));
    } else {
      ForcedKeys(x, conj);
      BadInKeys(op, rest, positive);
      Together(Forced(x, conj), BadIn(op, rest, positive), Names(x), NamesIn(rest));
      FitsFrame(x, row, Forced(x, conj), true);
      FitsFrameIn(rest, row, BadIn(op, rest, positive), true);
      ForcedHolds(cmp, x, conj);
      FitsMore(x, Forced(x, conj));
      BadInFits(cmp, op, rest, positive);
    }
  }

  lemma {:induction false} FitsMore(e: Expr, row: Row)
    requires Fits(e, row, false)
    ensures Fits(e, row, true)
  {
    match e
    case Not(x) => FitsMore(x, row);
    case Junction(_, sub) => if sub.Slice? { FitsMoreIn(sub.elems, row); }
    case _ =>
  }

  lemma {:induction false} FitsMoreIn(es: seq<Expr>, row: Row)
    requires FitsIn(es, row, false)
    ensures FitsIn(es, row, true)
  {
    if es == [] {
    } else {
      FitsMore(es[0], row);
      FitsMoreIn(es[1..], row);
    }
  }

  /** Members forced to be irrelevant are that in SQL too. */
  lemma ForcedEachNeutral(cmp: Collation, es: seq<Expr>, conj: bool)
    requires LiteralLeavesIn(es) && ParsableIn(es) && SeparateIn(es) && (StringLeavesIn(es) || DecidesEquality(cmp))
    ensures var row := ForcedEach(es, conj);
            if conj then AllHold(es, row) == Ok(true) && EvalAll(cmp, Groups(es), row) == True
            else AnyHolds(es, row) == Ok(false) && EvalAny(cmp, Groups(es), row) == False
  {
    hide Holds, ForcedEach, LiteralLeavesIn, ParsableIn, DecidesEquality;
    var row := ForcedEach(es, conj);
    ForcedEachHold(cmp, es, conj);
    TypedAgreesIn(es, row, conj);
    MembersAgree(cmp, es, row, conj);
  }

  lemma ForcedNeutral(cmp: Collation, e: Expr, conj: bool)
    requires LiteralLeaves(e) && Parsable(e) && Separate(e) && (StringLeaves(e) || DecidesEquality(cmp))
    ensures var row := Forced(e, conj);
            Holds(e, row) == Ok(conj) && Eval(cmp, CondOf(e), row) == TruthOf(conj)
  {
    hide Holds, Forced, LiteralLeaves, StringLeaves, Parsable, CondOf, Eval, DecidesEquality;
    ForcedHolds(cmp, e, conj);
    TypedAgrees(e, Forced(e, conj), conj);
    ConditionAgrees(cmp, e, Forced(e, conj), conj);
  }

  lemma {:induction false} BadDiffers(cmp: Collation, e: Expr, positive: bool)
    requires LiteralLeaves(e) && Parsable(e) && Separate(e) && !NullSafe(e, positive)
    requires StringLeaves(e) || DecidesEquality(cmp)
    ensures !Matches(Eval(cmp, CondOf(e), Bad(e, positive)), Holds(e, Bad(e, positive)), positive)
  {
    hide IsColumn, DecidesEquality;
    match e
    case Not(x) => BadDiffers(cmp, x, !positive);
    case Junction(op, sub) =>
      BadInDiffers(cmp, op, sub.elems, positive);
      if |sub.elems| == 1 { OneMember(cmp, Groups(sub.elems), Bad(e, positive)); }
    case Simple(_, _, _) => LeafExact(cmp, e, map[], positive);
    case In(_, _) => LeafExact(cmp, e, map[], positive);
  }

  /** The truth of a junction in SQL and in memory. */
  function JunctionTruth(cmp: Collation, op: string, es: seq<Expr>, row: Row): Truth
    requires ParsableIn(es)
  {
    if op == "AND" then EvalAll(cmp, Groups(es), row) else EvalAny(cmp, Groups(es), row)
  }

  function JunctionHolds(op: string, es: seq<Expr>, row: Row): Result<bool> {
    if op == "AND" then AllHold(es, row) else AnyHolds(es, row)
  }

  /** A junction whose other members are irrelevant is its one member. */
  lemma JunctionStep(cmp: Collation, op: string, es: seq<Expr>, row: Row)
    requires es != [] && ParsableIn(es)
    ensures var rest := es[1..];
            JunctionHolds(op, rest, row) == Ok(op == "AND") && JunctionTruth(cmp, op, rest, row) == TruthOf(op == "AND")
            && Holds(es[0], row).Ok? ==>
            JunctionHolds(op, es, row) == Holds(es[0], row)
            && JunctionTruth(cmp, op, es, row) == Eval(cmp, CondOf(es[0]), row)
    ensures Holds(es[0], row) == Ok(op == "AND") && Eval(cmp, CondOf(es[0]), row) == TruthOf(op == "AND") ==>
            JunctionHolds(op, es, row) == JunctionHolds(op, es[1..], row)
            && JunctionTruth(cmp, op, es, row) == JunctionTruth(cmp, op, es[1..], row)
  {
    hide Holds, CondOf, Parsable;
    var cs := Groups(es);
    assert cs[1..] == Groups(es[1..]);
    assert Eval(cmp, cs[0], row) == Eval(cmp, CondOf(es[0]), row);
    assert EvalAll(cmp, cs, row) == Both(Eval(cmp, cs[0], row), EvalAll(cmp, cs[1..], row));
    assert EvalAny(cmp, cs, row) == Either(Eval(cmp, cs[0], row), EvalAny(cmp, cs[1..], row));
  }

  lemma {:induction false} BadInDiffers(cmp: Collation, op: string, es: seq<Expr>, positive: bool)
    requires LiteralLeavesIn(es) && ParsableIn(es) && SeparateIn(es) && !NullSafeIn(es, positive)
    requires StringLeavesIn(es) || DecidesEquality(cmp)
    ensures var row := BadIn(op, es, positive);
            !Matches(JunctionTruth(cmp, op, es, row), JunctionHolds(op, es, row), positive)
    decreases es
  {
    hide Holds, Eval, CondOf, Forced, ForcedEach, Bad, Names, LiteralLeaves, Parsable, Separate, NullSafe, SameOn;
    hide Matches, AllHold, AnyHolds, EvalAll, EvalAny, StringLeaves, DecidesEquality;
    var conj := op == "AND";
    var row := BadIn(op, es, positive);
    var x, rest := es[0], es[1..];
    if !NullSafe(x, positive) {
      BadKeys(x, positive);
      ForcedEachKeys(rest, conj);
      Together(Bad(x, positive), ForcedEach(rest, conj), Names(x), NamesIn(rest));
      Frame(cmp, x, row, Bad(x, positive));
      FrameIn(cmp, rest, row, ForcedEach(rest, conj));
      ForcedEachNeutral(cmp, rest, conj);
      NeverPanics(x, row);
      BadDiffers(cmp, x, positive);
    } else {
      ForcedKeys(x, conj);
      BadInKeys(op, rest, positive);
      Together(Forced(x, conj), BadIn(op, rest, positive), Names(x), NamesIn(rest));
      Frame(cmp, x, row, Forced(x, conj));
      FrameIn(cmp, rest, row, BadIn(op, rest, positive));
      ForcedNeutral(cmp, x, conj);
      BadInDiffers(cmp, op, rest, positive);
    }
    JunctionStep(cmp, op, es, row);
  }

  lemma NeverPanics(e: Expr, row: Row)
    requires LiteralLeaves(e)
    ensures Holds(e, row).Ok?
  {
    LiteralsSupported(e);
    SupportedNeverPanics(e, row);
  }

  lemma {:induction false} LiteralsSupported(e: Expr)
    requires LiteralLeaves(e)
    ensures Supported(e)
  {
    match e
    case Not(x) => LiteralsSupported(x);
    case Junction(_, sub) => if sub.Slice? { LiteralsSupportedIn(sub.elems); }
    case _ =>
  }

  lemma {:induction false} LiteralsSupportedIn(es: seq<Expr>)
    requires LiteralLeavesIn(es)
    ensures SupportedIn(es)
  {
    if es == [] {
    } else {
      LiteralsSupported(es[0]);
      LiteralsSupportedIn(es[1..]);
    }
  }

  // ---- Null-safe filters agree ----

  lemma {:induction false} NullSafeAgrees(e: Expr, row: Row, positive: bool)
    requires LiteralLeaves(e) && NullSafe(e, positive) && Fits(e, row, true)
    ensures Agrees(e, row, positive)
  {
    match e
    case Not(x) => NullSafeAgrees(x, row, !positive);
    case Junction(_, sub) => if sub.Slice? { NullSafeAgreesIn(sub.elems, row, positive); }
    case Simple(name, _, val) => assert val in LeafValues(e);
    case In(name, vals) => assert LeafValues(e) == vals.Elems();
  }

  lemma {:induction false} NullSafeAgreesIn(es: seq<Expr>, row: Row, positive: bool)
    requires LiteralLeavesIn(es) && NullSafeIn(es, positive) && FitsIn(es, row, true)
    ensures AgreesIn(es, row, positive)
  {
    hide Agrees;
    if es == [] {
    } else {
      NullSafeAgrees(es[0], row, positive);
      NullSafeAgreesIn(es[1..], row, positive);
    }
  }

  /** Rows without nulls, with values of the kinds that the filter compares with, agree whatever the
      shape of the filter. */
  lemma {:induction false} TypedAgrees(e: Expr, row: Row, positive: bool)
    requires LiteralLeaves(e) && Fits(e, row, false)
    ensures Agrees(e, row, positive)
  {
    match e
    case Not(x) => TypedAgrees(x, row, !positive);
    case Junction(_, sub) => if sub.Slice? { TypedAgreesIn(sub.elems, row, positive); }
    case Simple(name, _, val) => assert val in LeafValues(e);
    case In(name, vals) => assert LeafValues(e) == vals.Elems();
  }

  lemma {:induction false} TypedAgreesIn(es: seq<Expr>, row: Row, positive: bool)
    requires LiteralLeavesIn(es) && FitsIn(es, row, false)
    ensures AgreesIn(es, row, positive)
  {
    hide Agrees;
    if es == [] {
    } else {
      TypedAgrees(es[0], row, positive);
      TypedAgreesIn(es[1..], row, positive);
    }
  }

  /** A filter over strings, or over strings, numbers and booleans where the database decides their
      equality, each junction of which names a column in at most one member, selects the same rows of
      every fitting table in memory and in the database exactly when it is null-safe. */
  lemma AgreementExact(cmp: Collation, e: Expr)
    requires Comparable(cmp, e) && Parsable(e) && Separate(e)
    ensures (forall row :: Fits(e, row, true) ==> Holds(e, row) == Ok(Selects(cmp, Some(CondOf(e)), row)))
       <==> NullSafe(e, true)
  {
    hide LiteralLeaves, StringLeaves, Parsable, Separate, NullSafe, CondOf, Holds, Eval, DecidesEquality;
    if StringLeaves(e) { StringsAreLiterals(e); }
    if NullSafe(e, true) {
      forall row | Fits(e, row, true) ensures Holds(e, row) == Ok(Selects(cmp, Some(CondOf(e)), row)) {
        NullSafeAgrees(e, row, true);
        ConditionAgrees(cmp, e, row, true);
      }
    } else {
      var row := Bad(e, true);
      BadFits(cmp, e, true);
      BadDiffers(cmp, e, true);
      assert Fits(e, row, true) && Holds(e, row) != Ok(Selects(cmp, Some(CondOf(e)), row));
    }
  }

  /** The same for the printed text. */
  lemma TextAgreementExact(cmp: Collation, e: Expr)
    requires Comparable(cmp, e) && Lexable(e) && Parsable(e) && Separate(e)
    ensures NoNil(e)
    ensures (forall row :: Fits(e, row, true) ==> Holds(e, row) == Ok(Selects(cmp, ParseCondition(Print(e)), row)))
       <==> NullSafe(e, true)
  {
    hide LiteralLeaves, Lexable, Parsable, Separate, NullSafe, CondOf, Holds, Eval, ParseCondition, Print, Comparable;
    PrintedTextParses(e);
    AgreementExact(cmp, e);
  }
}
