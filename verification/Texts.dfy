/** Go library text helpers that the bridge relies on: strings.Join, strings.Split, `%d` and `%v`
    formatting, and slices.Sort over strings. */
module Texts {
  import opened Values

  function Join(parts: seq<string>, sep: string): string {
    if parts == [] then "" else if |parts| == 1 then parts[0] else parts[0] + sep + Join(parts[1..], sep)
  }

  /** strings.Split with a one-character separator: never empty. */
  function Split(s: string, sep: char): (parts: seq<string>)
    ensures |parts| > 0
  {
    if s == "" then [""]
    else
      var rest := Split(s[1..], sep);
      if s[0] == sep then [""] + rest else [[s[0]] + rest[0]] + rest[1..]
  }

  lemma {:induction false} SplitAtSeparator(a: string, b: string, sep: char)
    requires sep !in a
    ensures Split(a + [sep] + b, sep) == [a] + Split(b, sep)
  {
    var s := a + [sep] + b;
    if a == "" {
      assert s[1..] == b;
    } else {
      assert s[1..] == a[1..] + [sep] + b;
      SplitAtSeparator(a[1..], b, sep);
      assert [a[0]] + a[1..] == a;
    }
  }

  lemma {:induction false} SplitWithout(a: string, sep: char)
    requires sep !in a
    ensures Split(a, sep) == [a]
  {
    if a == "" {
    } else {
      SplitWithout(a[1..], sep);
      assert [a[0]] + a[1..] == a;
    }
  }

  /** No piece of a split contains the separator. */
  lemma {:induction false} SplitPiecesClean(s: string, sep: char)
    ensures forall p :: p in Split(s, sep) ==> sep !in p
  {
    if s == "" {
    } else {
      SplitPiecesClean(s[1..], sep);
      var rest := Split(s[1..], sep);
      assert rest[0] in rest;
      assert forall p :: p in rest[1..] ==> p in rest;
    }
  }

  /** The pieces of a split, joined again, are the text. */
  lemma {:induction false} JoinSplit(s: string, sep: char)
    ensures Join(Split(s, sep), [sep]) == s
  {
    if s == "" {
    } else {
      var rest := Split(s[1..], sep);
      JoinSplit(s[1..], sep);
      if s[0] == sep {
        assert ([""] + rest)[1..] == rest;
        assert s == "" + [sep] + s[1..];
      } else {
        assert s == [s[0]] + s[1..];
        assert ([[s[0]] + rest[0]] + rest[1..])[1..] == rest[1..];
        if |rest| > 1 {
          assert [s[0]] + (rest[0] + [sep] + Join(rest[1..], [sep]))
              == ([s[0]] + rest[0]) + [sep] + Join(rest[1..], [sep]);
        }
      }
    }
  }

  function Lower(s: string): (r: string)
    ensures |r| == |s|
  {
    if s == "" then "" else [if 'A' <= s[0] <= 'Z' then s[0] - 'A' + 'a' else s[0]] + Lower(s[1..])
  }

  lemma {:induction false} LowerBoth(a: string, b: string)
    ensures Lower(a + b) == Lower(a) + Lower(b)
  {
    if a == "" {
      assert a + b == b;
    } else {
      assert (a + b)[1..] == a[1..] + b;
      LowerBoth(a[1..], b);
    }
  }

  // Decimal numerals.

  function Digit(d: nat): char
    requires d < 10
  {
    '0' + d as char
  }

  /** `%d` of a non-negative integer. */
  function NatText(n: nat): (t: string)
    ensures |t| > 0
    ensures forall i :: 0 <= i < |t| ==> '0' <= t[i] <= '9'
  {
    if n < 10 then [Digit(n)] else NatText(n / 10) + [Digit(n % 10)]
  }

  /** `%d` of an integer. */
  function IntText(n: int): string {
    if n < 0 then "-" + NatText(-n) else NatText(n)
  }

  /** Reads an unsigned numeral (SQL-92, section 5.3). */
  function ParseNat(t: string): Option<nat> {
    if t == "" then None
    else
      var c := t[|t| - 1];
      if !('0' <= c <= '9') then None
      else
        var d := (c - '0') as nat;
        if |t| == 1 then Some(d)
        else
          match ParseNat(t[..|t| - 1])
          case None => None
          case Some(n) => Some(10 * n + d)
  }

  lemma {:induction false} NumeralRoundTrip(n: nat)
    ensures ParseNat(NatText(n)) == Some(n)
  {
    if n >= 10 {
      NumeralRoundTrip(n / 10);
      var t := NatText(n);
      assert t[..|t| - 1] == NatText(n / 10);
      assert t[|t| - 1] == Digit(n % 10);
    }
  }

  /** A numeral with a sign is not an unsigned numeral. */
  lemma {:induction false} SignedNumeralRejected(t: string)
    ensures ParseNat("-" + t) == None
  {
    if t == "" {
    } else {
      var u := "-" + t;
      assert u[..|u| - 1] == "-" + t[..|t| - 1];
      SignedNumeralRejected(t[..|t| - 1]);
    }
  }

  // Byte-wise string order, and the result of sorting a set of strings.

  predicate AtMost(a: string, b: string) {
    a == "" || (b != "" && (a[0] < b[0] || (a[0] == b[0] && AtMost(a[1..], b[1..]))))
  }

  /** The order is the ascending one: a prefix comes first, and else the first difference decides. */
  lemma {:induction false} AtMostExact(a: string, b: string)
    ensures AtMost(a, b) <==> a <= b || exists i :: 0 <= i < |a| && i < |b| && a[..i] == b[..i] && a[i] < b[i]
  {
    if a != "" && b != "" && a[0] == b[0] {
      AtMostExact(a[1..], b[1..]);
      assert a == [a[0]] + a[1..] && b == [b[0]] + b[1..];
      if i :| 0 <= i < |a[1..]| && i < |b[1..]| && a[1..][..i] == b[1..][..i] && a[1..][i] < b[1..][i] {
        assert a[..i + 1] == [a[0]] + a[1..][..i] && b[..i + 1] == [b[0]] + b[1..][..i];
      }
      if i :| 0 <= i < |a| && i < |b| && a[..i] == b[..i] && a[i] < b[i] {
        assert i > 0 && a[1..][..i - 1] == a[..i][1..] == b[..i][1..] == b[1..][..i - 1];
        assert a[1..][i - 1] < b[1..][i - 1];
      }
    } else if a != "" && b != "" {
      assert a[..0] == b[..0];
      if i :| 0 <= i < |a| && i < |b| && a[..i] == b[..i] && a[i] < b[i] {
        assert i > 0 ==> a[..i][0] == b[..i][0];
      }
    }
  }

  lemma {:induction false} AtMostTotal(a: string, b: string)
    ensures AtMost(a, b) || AtMost(b, a)
  {
    if a != "" && b != "" {
      AtMostTotal(a[1..], b[1..]);
    }
  }

  lemma {:induction false} AtMostAntisymmetric(a: string, b: string)
    requires AtMost(a, b) && AtMost(b, a)
    ensures a == b
  {
    if a == "" {
    } else {
      AtMostAntisymmetric(a[1..], b[1..]);
      assert a == [a[0]] + a[1..];
      assert b == [b[0]] + b[1..];
    }
  }

  lemma {:induction false} AtMostTransitive(a: string, b: string, c: string)
    requires AtMost(a, b) && AtMost(b, c)
    ensures AtMost(a, c)
  {
    if a != "" && a[0] == b[0] && b[0] == c[0] {
      AtMostTransitive(a[1..], b[1..], c[1..]);
    }
  }

  ghost predicate Sorted(ss: seq<string>) {
    forall i, j :: 0 <= i < j < |ss| ==> AtMost(ss[i], ss[j])
  }

  predicate Distinct<T(==)>(ss: seq<T>) {
    forall i, j :: 0 <= i < j < |ss| ==> ss[i] != ss[j]
  }

  lemma AtMostAll(x: string, ss: seq<string>)
    requires Sorted(ss) && ss != [] && AtMost(x, ss[0])
    ensures forall i :: 0 <= i < |ss| ==> AtMost(x, ss[i])
  {
    hide AtMost;
    forall i | 0 < i < |ss| ensures AtMost(x, ss[i]) { AtMostTransitive(x, ss[0], ss[i]); }
  }

  lemma StillAtMost(x: string, ss: seq<string>, tail: seq<string>)
    requires Sorted(ss) && ss != [] && AtMost(ss[0], x) && multiset(tail) == multiset(ss[1..]) + multiset{x}
    ensures forall i :: 0 <= i < |tail| ==> AtMost(ss[0], tail[i])
  {
    hide AtMost;
    forall i | 0 <= i < |tail| ensures AtMost(ss[0], tail[i]) { assert tail[i] in multiset(tail); }
  }

  function InsertSorted(x: string, ss: seq<string>): (r: seq<string>)
    requires Sorted(ss)
    ensures Sorted(r) && multiset(r) == multiset(ss) + multiset{x}
  {
    if ss == [] then [x]
    else
      AtMostTotal(x, ss[0]);
      assert ss == [ss[0]] + ss[1..];
      if AtMost(x, ss[0]) then
        AtMostAll(x, ss);
        [x] + ss
      else
        var tail := InsertSorted(x, ss[1..]);
        StillAtMost(x, ss, tail);
        [ss[0]] + tail
  }

  /** slices.Sort: the caller sees only that the result is a sorted permutation. */
  function Sort(ss: seq<string>): (r: seq<string>)
    ensures Sorted(r) && multiset(r) == multiset(ss)
  {
    if ss == [] then []
    else
      assert ss == [ss[0]] + ss[1..];
      InsertSorted(ss[0], Sort(ss[1..]))
  }

  lemma {:induction false} SameElements(a: seq<string>, b: seq<string>, x: string)
    requires multiset(a) == multiset(b)
    ensures x in a <==> x in b
  {
    assert x in a <==> x in multiset(a);
    assert x in b <==> x in multiset(b);
  }

  lemma HeadIsLeast(a: seq<string>, x: string)
    requires Sorted(a) && x in a
    ensures AtMost(a[0], x)
  {
    var i :| 0 <= i < |a| && a[i] == x;
    AtMostTotal(x, x);
  }

  lemma TailsSame(a: seq<string>, b: seq<string>)
    requires a != [] && b != [] && a[0] == b[0] && multiset(a) == multiset(b)
    ensures multiset(a[1..]) == multiset(b[1..])
  {
    assert a == [a[0]] + a[1..];
    assert b == [b[0]] + b[1..];
    assert multiset(a[1..]) == multiset(a) - multiset{a[0]};
    assert multiset(b[1..]) == multiset(b) - multiset{a[0]};
  }

  /** A sorted sequence is determined by its elements: the heads agree, then the tails do. */
  lemma {:induction false} SortedUnique(a: seq<string>, b: seq<string>)
    requires Sorted(a) && Sorted(b)
    requires multiset(a) == multiset(b)
    ensures a == b
  {
    hide AtMost;
    assert |a| == |multiset(a)| && |b| == |multiset(b)|;
    if a == [] {
    } else {
      SameElements(a, b, a[0]);
      SameElements(a, b, b[0]);
      HeadIsLeast(a, b[0]);
      HeadIsLeast(b, a[0]);
      AtMostAntisymmetric(a[0], b[0]);
      TailsSame(a, b);
      SortedUnique(a[1..], b[1..]);
      assert a == [a[0]] + a[1..] && b == [b[0]] + b[1..];
    }
  }

  ghost predicate IsLeast(x: string, s: set<string>) {
    x in s && forall y :: y in s ==> AtMost(x, y)
  }

  function Least(s: set<string>): (x: string)
    requires s != {}
    ensures IsLeast(x, s)
  {
    assert exists m :: m in s && forall y :: y in s ==> AtMost(m, y) by {
      var m := LeastExists(s);
      assert m in s;
    }
    assert forall a, b :: AtMost(a, b) && AtMost(b, a) ==> a == b by {
      forall a, b | AtMost(a, b) && AtMost(b, a) ensures a == b { AtMostAntisymmetric(a, b); }
    }
    var x :| x in s && forall y :: y in s ==> AtMost(x, y);
    x
  }

  lemma {:induction false} LeastExists(s: set<string>) returns (m: string)
    requires s != {}
    ensures IsLeast(m, s)
    decreases |s|
  {
    var z :| z in s;
    AtMostTotal(z, z);
    if s == {z} {
      m := z;
    } else {
      var rest := s - {z};
      assert s == {z} + rest;
      m := LeastExists(rest);
      AtMostTotal(z, m);
      if AtMost(z, m) {
        forall y | y in s ensures AtMost(z, y) {
          if y != z { AtMostTransitive(z, m, y); }
        }
        m := z;
      }
    }
  }

  /** The strings of a set in ascending order. */
  function SortedSet(s: set<string>): (r: seq<string>)
    ensures Sorted(r) && Distinct(r)
    ensures forall x :: x in r <==> x in s
    ensures |r| == |s|
  {
    if s == {} then []
    else
      var x := Least(s);
      var tail := SortedSet(s - {x});
      assert forall i :: 0 <= i < |tail| ==> tail[i] in s - {x};
      [x] + tail
  }

  function SortedKeys<V>(m: map<string, V>): (r: seq<string>)
    ensures Sorted(r) && Distinct(r)
    ensures forall x :: x in r <==> x in m
    ensures |r| == |m.Keys|
  {
    SortedSet(m.Keys)
  }

  lemma {:induction false} DistinctMultiset<T>(a: seq<T>, x: T)
    requires Distinct(a)
    ensures multiset(a)[x] == if x in a then 1 else 0
  {
    if a == [] {
    } else {
      assert a == [a[0]] + a[1..];
      DistinctMultiset(a[1..], x);
    }
  }

  /** Whatever order a map hands out its keys in, sorting them gives the same sequence. */
  lemma {:induction false} SortForgetsEnumeration<V>(keys: seq<string>, m: map<string, V>)
    requires Distinct(keys)
    requires forall x :: x in keys <==> x in m
    ensures Sort(keys) == SortedKeys(m)
  {
    var a, b := Sort(keys), SortedKeys(m);
    forall x ensures multiset(keys)[x] == multiset(b)[x] {
      DistinctMultiset(keys, x);
      DistinctMultiset(b, x);
    }
    assert multiset(keys) == multiset(b);
    SortedUnique(a, b);
  }

  // `%v` of a dynamic value.

  function Sprint(v: Value): string {
    match v
    case Null => "<nil>"
    case Bool(b) => if b then "true" else "false"
    case Num(t) => t
    case Str(s) => s
    case Arr(items) => "[" + Join(SprintAll(items), " ") + "]"
    case Obj(fields) => "map[" + Join(SprintFields(v, SortedKeys(fields)), " ") + "]"
  }

  function SprintAll(vs: seq<Value>): seq<string> {
    if vs == [] then [] else [Sprint(vs[0])] + SprintAll(vs[1..])
  }

  function SprintFields(v: Value, keys: seq<string>): seq<string>
    requires v.Obj? && forall k :: k in keys ==> k in v.fields
    decreases v, |keys|
  {
    if keys == [] then []
    else [keys[0] + ":" + Sprint(v.fields[keys[0]])] + SprintFields(v, keys[1..])
  }

  /** `%v` of a list and of a map. */
  lemma SprintNested(v: Value, key: string)
    ensures Sprint(Arr([])) == "[]" && Sprint(Arr([v])) == "[" + Sprint(v) + "]"
    ensures Sprint(Arr([v, v])) == "[" + (Sprint(v) + " " + Sprint(v)) + "]"
    ensures Sprint(Obj(map[key := v])) == "map[" + (key + ":" + Sprint(v)) + "]"
  {
    var m := Obj(map[key := v]);
    assert SprintAll([v]) == [Sprint(v)];
    assert [v, v][1..] == [v] && SprintAll([v, v]) == [Sprint(v), Sprint(v)];
    var keys := SortedKeys(m.fields);
    assert |keys| == 1 && keys[0] in m.fields;
    assert keys == [key];
    assert keys[1..] == [] && SprintFields(m, keys) == [key + ":" + Sprint(v)] + [];
  }
}
