/** What the parser of search conditions does to a token sequence: it consumes exactly the tokens that
    its tree stands for, and tokens that cannot continue a condition stay behind, whatever the
    condition is. */
module CondTokens {
  import opened Values
  import opened SqlLexer
  import opened SqlCondition
  import opened FilterSql

  // ---- The tokens of a parse tree ----

  function Unparse(c: Cond): Tokens {
    match c
    case Compare(name, op, val) => [Word(name)] + OpTokens(op) + [ValueToken(val)]
    case Range(name, l, r) => [Word(name), Word("BETWEEN"), ValueToken(l), Word("AND"), ValueToken(r)]
    case Member(name, vals) => [Word(name), Word("IN"), LParen] + ListTokens(vals) + [RParen]
    case NullTest(name, negated) => [Word(name)] + OpTokens(if negated then "IS NOT NULL" else "IS NULL")
    case Neg(a) => [Word("NOT")] + Unparse(a)
    case Group(a) => [LParen] + Unparse(a) + [RParen]
    case And(cs) => UnparseEach("AND", cs)
    case Or(cs) => UnparseEach("OR", cs)
  }

  function UnparseEach(op: string, cs: seq<Cond>): Tokens
    decreases cs
  {
    if cs == [] then []
    else if |cs| == 1 then Unparse(cs[0])
    else Unparse(cs[0]) + ([Word(op)] + UnparseEach(op, cs[1..]))
  }

  /** Trees that the parser gives: columns on the left, known operators, literals as values, at least
      one member in a list and at least two in a conjunction or disjunction. */
  predicate Sound(c: Cond) {
    match c
    case Compare(name, op, val) => IsColumn(name) && IsSimpleOp(op) && IsLiteral(val)
    case Range(name, l, r) => IsColumn(name) && IsLiteral(l) && IsLiteral(r)
    case Member(name, vals) => IsColumn(name) && vals != [] && forall v :: v in vals ==> IsLiteral(v)
    case NullTest(name, _) => IsColumn(name)
    case Neg(a) => Sound(a)
    case Group(a) => Sound(a)
    case And(cs) => |cs| > 1 && SoundEach(cs)
    case Or(cs) => |cs| > 1 && SoundEach(cs)
  }

  predicate SoundEach(cs: seq<Cond>) {
    cs == [] || (Sound(cs[0]) && SoundEach(cs[1..]))
  }

  /** A parse that took exactly the tokens of its tree. */
  predicate Takes(ts: Tokens, r: Parse) {
    r.Some? ==> Sound(r.value.0) && ts == Unparse(r.value.0) + r.value.1
  }

  lemma {:induction false} UnparseMore(op: string, cs: seq<Cond>, c: Cond)
    requires cs != []
    ensures UnparseEach(op, cs + [c]) == UnparseEach(op, cs) + ([Word(op)] + Unparse(c))
    ensures SoundEach(cs) && Sound(c) ==> SoundEach(cs + [c])
  {
    hide Unparse, Sound;
    assert (cs + [c])[1..] == cs[1..] + [c];
    if |cs| == 1 {
      assert cs[1..] + [c] == [c];
    } else {
      UnparseMore(op, cs[1..], c);
    }
  }

  lemma ValueTakes(ts: Tokens)
    ensures var r := ParseValue(ts);
            r.Some? ==> IsLiteral(r.value.0) && ts == [ValueToken(r.value.0)] + r.value.1
  {
  }

  lemma ConsTokens(v: Value, vs: seq<Value>)
    requires vs != []
    ensures ListTokens([v] + vs) == [ValueToken(v), Comma] + ListTokens(vs)
  {
    assert ([v] + vs)[1..] == vs;
  }

  lemma {:induction false} ValuesTake(ts: Tokens)
    ensures var r := ParseValues(ts);
            r.Some? ==> r.value.0 != [] && (forall v :: v in r.value.0 ==> IsLiteral(v))
                        && ts == ListTokens(r.value.0) + ([RParen] + r.value.1)
    decreases |ts|
  {
    hide ParseValue, ValueToken;
    ValueTakes(ts);
    if ParseValues(ts).Some? {
      var (v, rest) := ParseValue(ts).value;
      if rest[0] == Comma {
        ValuesTake(rest[1..]);
        var (vs, more) := ParseValues(rest[1..]).value;
        ConsTokens(v, vs);
        assert rest == [Comma] + rest[1..];
      } else {
        assert rest == [RParen] + rest[1..];
      }
    }
  }

  lemma CompareTakes(name: string, op: string, ts: Tokens)
    requires IsColumn(name) && IsSimpleOp(op)
    ensures var r := ParseCompare(name, op, ts);
            r.Some? ==> Sound(r.value.0) && [Word(name)] + OpTokens(op) + ts == Unparse(r.value.0) + r.value.1
  {
    hide IsColumn, ParseValue, ValueToken, OpTokens;
    ValueTakes(ts);
  }

  lemma PredicateTakes(ts: Tokens)
    ensures Takes(ts, ParsePredicate(ts))
  {
    hide IsColumn, ParseValue, ParseValues, ParseCompare, ValueToken, ListTokens;
    if ParsePredicate(ts).Some? {
      var name, rest := ts[0].w, ts[2..];
      assert ts == [ts[0], ts[1]] + rest;
      match ts[1]
      case Sym(op) => CompareTakes(name, op, rest);
      case Word(w) => WordTakes(ts, name, w, rest);
    }
  }

  lemma WordTakes(ts: Tokens, name: string, w: string, rest: Tokens)
    requires ts == [Word(name), Word(w)] + rest && ParsePredicate(ts).Some?
    ensures Takes(ts, ParsePredicate(ts))
  {
    hide IsColumn, ParseValue, ParseValues, ParseCompare, Takes;
    assert ts[2..] == rest;
    if w == "LIKE" || w == "NOT" {
      LikeTakes(ts, name, w, rest);
    } else if w == "IN" {
      MemberTakes(ts, name, rest);
    } else if w == "BETWEEN" {
      RangeTakes(ts, name, rest);
    } else {
      NullTakes(ts, name, rest);
    }
  }

  lemma LikeTakes(ts: Tokens, name: string, w: string, rest: Tokens)
    requires ts == [Word(name), Word(w)] + rest && ts[2..] == rest && (w == "LIKE" || w == "NOT")
    requires IsColumn(name)
    ensures Takes(ts, ParsePredicate(ts))
  {
    hide IsColumn, ParseValue, ParseValues, ParseCompare, ValueToken, ListTokens;
    if w == "LIKE" {
      CompareTakes(name, "LIKE", rest);
    } else if StartsWith(rest, "LIKE") {
      CompareTakes(name, "NOT LIKE", rest[1..]);
      assert rest == [Word("LIKE")] + rest[1..];
    }
  }

  lemma MemberTakes(ts: Tokens, name: string, rest: Tokens)
    requires ts == [Word(name), Word("IN")] + rest && ts[2..] == rest
    requires IsColumn(name)
    ensures Takes(ts, ParsePredicate(ts))
  {
    hide IsColumn, ParseValue, ParseValues, ValueToken, ListTokens;
    if rest != [] && rest[0] == LParen {
      ValuesTake(rest[1..]);
      assert rest == [LParen] + rest[1..];
    }
  }

  lemma RangeTakes(ts: Tokens, name: string, rest: Tokens)
    requires ts == [Word(name), Word("BETWEEN")] + rest && ts[2..] == rest
    requires IsColumn(name)
    ensures Takes(ts, ParsePredicate(ts))
  {
    hide IsColumn, ParseValue, ParseValues, ValueToken;
    ValueTakes(rest);
    if ParseValue(rest).Some? {
      var more := ParseValue(rest).value.1;
      if StartsWith(more, "AND") {
        ValueTakes(more[1..]);
        assert more == [Word("AND")] + more[1..];
      }
    }
  }

  lemma NullTakes(ts: Tokens, name: string, rest: Tokens)
    requires ts == [Word(name), Word("IS")] + rest && ts[2..] == rest
    requires IsColumn(name)
    ensures Takes(ts, ParsePredicate(ts))
  {
    hide IsColumn;
    if StartsWith(rest, "NULL") {
      assert rest == [Word("NULL")] + rest[1..];
    } else if StartsWith(rest, "NOT") && StartsWith(rest[1..], "NULL") {
      assert rest == [Word("NOT"), Word("NULL")] + rest[2..];
    }
  }

  lemma {:induction false} PrimaryTakes(ts: Tokens)
    ensures Takes(ts, ParsePrimary(ts))
    decreases |ts|, 0
  {
    hide ParseOr, ParsePredicate;
    if |ts| > 0 && ts[0] == LParen {
      OrTakes(ts[1..]);
      if ParsePrimary(ts).Some? {
        var (c, rest) := ParseOr(ts[1..]).value;
        assert ts == [LParen] + (Unparse(c) + ([RParen] + rest[1..]));
      }
    } else {
      PredicateTakes(ts);
    }
  }

  lemma {:induction false} FactorTakes(ts: Tokens)
    ensures Takes(ts, ParseFactor(ts))
    decreases |ts|, 1
  {
    hide ParsePrimary;
    if StartsWith(ts, "NOT") {
      PrimaryTakes(ts[1..]);
      assert ts == [Word("NOT")] + ts[1..];
    } else {
      PrimaryTakes(ts);
    }
  }

  lemma {:induction false} AndTakes(ts: Tokens)
    ensures Takes(ts, ParseAnd(ts))
    decreases |ts|, 2
  {
    hide ParseFactor, ParseAndTail;
    FactorTakes(ts);
    if ParseFactor(ts).Some? {
      var (c, rest) := ParseFactor(ts).value;
      AndTailTakes([c], rest);
    }
  }

  lemma {:induction false} AndTailTakes(acc: seq<Cond>, ts: Tokens)
    requires acc != [] && SoundEach(acc)
    ensures Takes(UnparseEach("AND", acc) + ts, ParseAndTail(acc, ts))
    decreases |ts|, 2
  {
    hide ParseFactor;
    if StartsWith(ts, "AND") {
      FactorTakes(ts[1..]);
      if ParseFactor(ts[1..]).Some? {
        var (c, rest) := ParseFactor(ts[1..]).value;
        UnparseMore("AND", acc, c);
        AndTailTakes(acc + [c], rest);
        assert ts == [Word("AND")] + (Unparse(c) + rest);
        OneMore(UnparseEach("AND", acc), Word("AND"), Unparse(c), rest);
      }
    }
  }

  lemma OneMore(a: Tokens, t: Token, b: Tokens, rest: Tokens)
    ensures a + ([t] + (b + rest)) == a + ([t] + b) + rest
  {
  }

  lemma {:induction false} OrTakes(ts: Tokens)
    ensures Takes(ts, ParseOr(ts))
    decreases |ts|, 4
  {
    hide ParseAnd, ParseOrTail;
    AndTakes(ts);
    if ParseAnd(ts).Some? {
      var (c, rest) := ParseAnd(ts).value;
      OrTailTakes([c], rest);
    }
  }

  lemma {:induction false} OrTailTakes(acc: seq<Cond>, ts: Tokens)
    requires acc != [] && SoundEach(acc)
    ensures Takes(UnparseEach("OR", acc) + ts, ParseOrTail(acc, ts))
    decreases |ts|, 3
  {
    hide ParseAnd;
    if StartsWith(ts, "OR") {
      AndTakes(ts[1..]);
      if ParseAnd(ts[1..]).Some? {
        var (c, rest) := ParseAnd(ts[1..]).value;
        UnparseMore("OR", acc, c);
        OrTailTakes(acc + [c], rest);
        assert ts == [Word("OR")] + (Unparse(c) + rest);
        OneMore(UnparseEach("OR", acc), Word("OR"), Unparse(c), rest);
      }
    }
  }

  // ---- Tokens that stay behind ----

  /** Tokens that cannot continue a condition. */
  predicate ClauseStart(ts: Tokens) {
    ts == [] || ts[0] == Word("ORDER") || ts[0] == Word("LIMIT")
  }

  /** The parse `r`, with more tokens left over. */
  function Leaving<T>(r: Option<(T, Tokens)>, more: Tokens): Option<(T, Tokens)> {
    if r.None? then None else Some((r.value.0, r.value.1 + more))
  }

  lemma CutMore(ts: Tokens, more: Tokens, n: nat)
    requires n <= |ts|
    ensures (ts + more)[n..] == ts[n..] + more
  {
  }

  lemma ValueLeaves(ts: Tokens, more: Tokens)
    ensures ParseValue(ts).Some? ==> ParseValue(ts + more) == Leaving(ParseValue(ts), more)
  {
    if ts != [] { CutMore(ts, more, 1); }
  }

  lemma {:induction false} ValuesLeave(ts: Tokens, more: Tokens)
    ensures ParseValues(ts).Some? ==> ParseValues(ts + more) == Leaving(ParseValues(ts), more)
    decreases |ts|
  {
    hide ParseValue;
    ValueLeaves(ts, more);
    if ParseValues(ts).Some? {
      var (v, rest) := ParseValue(ts).value;
      CutMore(rest, more, 1);
      if rest[0] == Comma { ValuesLeave(rest[1..], more); }
    }
  }

  lemma PredicateLeaves(ts: Tokens, more: Tokens)
    ensures ParsePredicate(ts).Some? ==> ParsePredicate(ts + more) == Leaving(ParsePredicate(ts), more)
  {
    hide IsColumn, ParseValue, ParseValues;
    if ParsePredicate(ts).Some? {
      var rest := ts[2..];
      CutMore(ts, more, 2);
      ValueLeaves(rest, more);
      if rest != [] {
        CutMore(rest, more, 1);
        ValueLeaves(rest[1..], more);
        ValuesLeave(rest[1..], more);
        if |rest| > 1 { CutMore(rest, more, 2); }
      }
      if ParseValue(rest).Some? && ParseValue(rest).value.1 != [] {
        var right := ParseValue(rest).value.1;
        CutMore(right, more, 1);
        ValueLeaves(right[1..], more);
      }
    }
  }

  lemma {:induction false} PrimaryLeaves(ts: Tokens, more: Tokens)
    requires ClauseStart(more) && ParsePrimary(ts).Some?
    ensures ParsePrimary(ts + more) == Leaving(ParsePrimary(ts), more)
    decreases |ts|, 0
  {
    hide ParseOr, ParsePredicate;
    if ts[0] == LParen {
      OrLeaves(ts[1..], more);
      CutMore(ts, more, 1);
      CutMore(ParseOr(ts[1..]).value.1, more, 1);
    } else {
      PredicateLeaves(ts, more);
    }
  }

  lemma {:induction false} FactorLeaves(ts: Tokens, more: Tokens)
    requires ClauseStart(more) && ParseFactor(ts).Some?
    ensures ParseFactor(ts + more) == Leaving(ParseFactor(ts), more)
    decreases |ts|, 1
  {
    hide ParsePrimary;
    if StartsWith(ts, "NOT") {
      CutMore(ts, more, 1);
      PrimaryLeaves(ts[1..], more);
    } else {
      PrimaryLeaves(ts, more);
    }
  }

  lemma {:induction false} AndLeaves(ts: Tokens, more: Tokens)
    requires ClauseStart(more) && ParseAnd(ts).Some?
    ensures ParseAnd(ts + more) == Leaving(ParseAnd(ts), more)
    decreases |ts|, 2
  {
    hide ParseFactor, ParseAndTail;
    FactorLeaves(ts, more);
    var (c, rest) := ParseFactor(ts).value;
    AndTailLeaves([c], rest, more);
  }

  lemma {:induction false} AndTailLeaves(acc: seq<Cond>, ts: Tokens, more: Tokens)
    requires ClauseStart(more) && acc != [] && ParseAndTail(acc, ts).Some?
    ensures ParseAndTail(acc, ts + more) == Leaving(ParseAndTail(acc, ts), more)
    decreases |ts|, 2
  {
    hide ParseFactor;
    if StartsWith(ts, "AND") {
      CutMore(ts, more, 1);
      FactorLeaves(ts[1..], more);
      var (c, rest) := ParseFactor(ts[1..]).value;
      AndTailLeaves(acc + [c], rest, more);
    } else if ts == [] {
      assert ts + more == more;
    }
  }

  /** A condition that parses by itself is read the same in front of ORDER BY or LIMIT. */
  lemma {:induction false} OrLeaves(ts: Tokens, more: Tokens)
    requires ClauseStart(more) && ParseOr(ts).Some?
    ensures ParseOr(ts + more) == Leaving(ParseOr(ts), more)
    decreases |ts|, 4
  {
    hide ParseAnd, ParseOrTail;
    AndLeaves(ts, more);
    var (c, rest) := ParseAnd(ts).value;
    OrTailLeaves([c], rest, more);
  }

  lemma {:induction false} OrTailLeaves(acc: seq<Cond>, ts: Tokens, more: Tokens)
    requires ClauseStart(more) && acc != [] && ParseOrTail(acc, ts).Some?
    ensures ParseOrTail(acc, ts + more) == Leaving(ParseOrTail(acc, ts), more)
    decreases |ts|, 3
  {
    hide ParseAnd;
    if StartsWith(ts, "OR") {
      CutMore(ts, more, 1);
      AndLeaves(ts[1..], more);
      var (c, rest) := ParseAnd(ts[1..]).value;
      OrTailLeaves(acc + [c], rest, more);
    } else if ts == [] {
      assert ts + more == more;
    }
  }
}
