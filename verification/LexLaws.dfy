/** The lexer read backwards: what a text made of known pieces lexes to, provided that each piece ends
    at a token boundary, and what becomes of a text that is followed by more. */
module LexLaws {
  import opened Values
  import opened SqlLexer

  // ---- Reading the lexer backwards ----

  /** Text that can follow any token without changing it. */
  predicate Boundary(rest: string) {
    rest == "" || rest[0] == ' ' || rest[0] == '(' || rest[0] == ')' || rest[0] == ','
  }

  lemma BeforeTwice(a: Tokens, b: Tokens, r: Option<Tokens>)
    ensures Before(a, Before(b, r)) == Before(a + b, r)
    ensures Before([], r) == r
  {
    if r.Some? {
      assert a + (b + r.value) == (a + b) + r.value;
      assert [] + r.value == r.value;
    }
  }

  lemma {:induction false} RunStops(a: string, rest: string, sym: bool)
    requires forall i :: 0 <= i < |a| ==> if sym then IsSymChar(a[i]) else IsWordChar(a[i])
    requires Boundary(rest)
    ensures Run(a + rest, sym) == |a|
  {
    if a == "" {
      assert a + rest == rest;
    } else {
      assert (a + rest)[1..] == a[1..] + rest;
      RunStops(a[1..], rest, sym);
    }
  }

  lemma FirstIsWord(a: string, rest: string)
    requires IsWord(a) && Boundary(rest)
    ensures First(a + rest) == Some(([Word(a)], |a|)) && !LineComment(a + rest)
  {
    RunStops(a, rest, false);
    assert (a + rest)[0] == a[0];
    assert (a + rest)[..|a|] == a;
  }

  lemma LexWord(a: string, rest: string)
    requires IsWord(a) && Boundary(rest)
    ensures Lex(a + rest) == Before([Word(a)], Lex(rest))
  {
    hide First;
    FirstIsWord(a, rest);
    assert (a + rest)[|a|..] == rest;
  }

  lemma NumeralIsWord(t: NumToken)
    ensures IsWord(t) && (IsDigit(t[0]) || t[0] == '-')
  {
    assert NumeralAt(t, 0);
    forall i | 0 <= i < |t| ensures IsWordChar(t[i]) {
      assert NumeralAt(t, i);
    }
  }

  lemma LexSym(a: string, rest: string)
    requires IsSym(a) && Boundary(rest)
    ensures Lex(a + rest) == Before([Sym(a)], Lex(rest))
  {
    RunStops(a, rest, true);
    assert (a + rest)[0] == a[0];
    assert (a + rest)[..|a|] == a && (a + rest)[|a|..] == rest;
  }

  lemma LexSpace(rest: string)
    ensures Lex(" " + rest) == Lex(rest)
  {
    assert (" " + rest)[1..] == rest;
    BeforeTwice([], [], Lex(rest));
  }

  lemma LexLParen(rest: string)
    ensures Lex("(" + rest) == Before([LParen], Lex(rest))
  {
    assert ("(" + rest)[1..] == rest;
  }

  lemma LexRParen(rest: string)
    ensures Lex(")" + rest) == Before([RParen], Lex(rest))
  {
    assert (")" + rest)[1..] == rest;
  }

  lemma LexComma(rest: string)
    ensures Lex("," + rest) == Before([Comma], Lex(rest))
  {
    assert ("," + rest)[1..] == rest;
  }

  lemma {:induction false} ReadTextOf(v: string, rest: string)
    requires '\'' !in v && Boundary(rest)
    ensures ReadText(v + "'" + rest) == Some((v, |v| + 1))
  {
    var s := v + "'" + rest;
    if v == "" {
      assert s == "'" + rest;
    } else {
      assert s[1..] == v[1..] + "'" + rest;
      ReadTextOf(v[1..], rest);
      assert [v[0]] + v[1..] == v;
    }
  }

  lemma LexText(v: string, rest: string)
    requires '\'' !in v && Boundary(rest)
    ensures Lex("'" + v + "'" + rest) == Before([Text(v)], Lex(rest))
  {
    var s := "'" + v + "'" + rest;
    assert s[1..] == v + "'" + rest;
    ReadTextOf(v, rest);
    assert s[|v| + 2..] == rest;
  }

  lemma {:induction false} ReadIdentOf(v: string, rest: string)
    requires '`' !in v
    ensures ReadIdent(v + "`" + rest) == Some((v, |v| + 1))
  {
    var s := v + "`" + rest;
    if v == "" {
    } else {
      assert s[1..] == v[1..] + "`" + rest;
      ReadIdentOf(v[1..], rest);
      assert [v[0]] + v[1..] == v;
    }
  }

  lemma LexIdent(v: string, rest: string)
    requires '`' !in v
    ensures Lex("`" + v + "`" + rest) == Before([Ident(v)], Lex(rest))
  {
    var s := "`" + v + "`" + rest;
    assert s[1..] == v + "`" + rest;
    ReadIdentOf(v, rest);
    assert s[|v| + 2..] == rest;
  }

  // ---- Text that lexes by itself, with more behind it ----

  /** A line comment that no newline ends. */
  predicate Unended(s: string) {
    LineComment(s) && '\n' !in s
  }

  /** The text ends inside a line comment, so that what follows on the line belongs to it. */
  predicate EndsInComment(s: string)
    decreases |s|
  {
    s != "" && (Unended(s) || (First(s).Some? && EndsInComment(s[First(s).value.1..])))
  }

  lemma RunNone(rest: string, sym: bool)
    requires Boundary(rest)
    ensures Run(rest, sym) == 0
  {
    if rest != "" {
      assert !IsSymChar(rest[0]) && !IsWordChar(rest[0]);
    }
  }

  lemma {:induction false} RunExtends(a: string, rest: string, sym: bool)
    requires Boundary(rest)
    ensures Run(a + rest, sym) == Run(a, sym)
  {
    if a == "" {
      assert a + rest == rest;
      RunNone(rest, sym);
    } else {
      assert (a + rest)[1..] == a[1..] + rest;
      RunExtends(a[1..], rest, sym);
    }
  }

  lemma CutExtends(a: string, rest: string, n: nat)
    requires n <= |a|
    ensures (a + rest)[..n] == a[..n] && (a + rest)[n..] == a[n..] + rest
  {
  }

  lemma {:induction false} ReadTextExtends(a: string, rest: string)
    requires ReadText(a).Some? && Boundary(rest)
    ensures ReadText(a + rest) == ReadText(a)
  {
    var all := a + rest;
    assert all[0] == a[0];
    if a[0] != '\'' {
      CutExtends(a, rest, 1);
      ReadTextExtends(a[1..], rest);
    } else if |a| == 1 {
      assert |all| > 1 ==> all[1] == rest[0];
    } else {
      assert all[1] == a[1];
      if a[1] == '\'' {
        CutExtends(a, rest, 2);
        ReadTextExtends(a[2..], rest);
      }
    }
  }

  lemma {:induction false} ReadIdentExtends(a: string, rest: string)
    requires ReadIdent(a).Some?
    ensures ReadIdent(a + rest) == ReadIdent(a)
  {
    if a[0] == '`' {
    } else {
      CutExtends(a, rest, 1);
      ReadIdentExtends(a[1..], rest);
    }
  }

  lemma {:induction false} ToNewlineExtends(a: string, rest: string)
    ensures '\n' in a ==> ToNewline(a + rest) == ToNewline(a)
    ensures '\n' !in a + rest ==> ToNewline(a + rest) == |a + rest|
  {
    if a == "" {
      NoNewline(rest);
      assert a + rest == rest;
    } else {
      assert a == [a[0]] + a[1..] && a + rest == [a[0]] + (a[1..] + rest);
      CutExtends(a, rest, 1);
      ToNewlineExtends(a[1..], rest);
    }
  }

  lemma {:induction false} NoNewline(s: string)
    ensures '\n' !in s ==> ToNewline(s) == |s|
  {
    if s == "" {
    } else {
      NoNewline(s[1..]);
      assert s == [s[0]] + s[1..];
    }
  }

  lemma {:induction false} ToBracketExtends(a: string, rest: string)
    requires ToBracket(a).Some?
    ensures ToBracket(a + rest) == ToBracket(a)
  {
    if a[0] == '*' && a[1] == '/' {
    } else {
      CutExtends(a, rest, 1);
      ToBracketExtends(a[1..], rest);
    }
  }

  /** Text that ends every token and leaves an unended comment unended. */
  predicate Blank(rest: string) {
    rest == "" || rest[0] == ' '
  }

  /** Whether two hyphens at the end of `a` begin a comment is settled within `a`. */
  predicate Settled(a: string, rest: string) {
    Boundary(rest) && (Blank(rest) || !EndsInComment(a))
  }

  lemma CommentExtends(a: string, rest: string)
    requires a != "" && !Unended(a) && Settled(a, rest)
    ensures LineComment(a + rest) == LineComment(a)
    ensures LineComment(a) ==> ToNewline(a + rest) == ToNewline(a)
  {
    ToNewlineExtends(a, rest);
  }

  lemma WordExtends(a: string, rest: string)
    requires a != "" && IsWordChar(a[0]) && !LineComment(a) && Settled(a, rest)
    ensures !LineComment(a + rest) ==> WordLength(a + rest) == WordLength(a)
  {
    var n := Run(a, false);
    RunExtends(a, rest, false);
    CutExtends(a, rest, n);
    if n == |a| && EndsInHyphens(a) {
      var tail := a[n - 2..];
      assert First(a) == Some(([Word(a[..n - 2])], n - 2));
      assert Unended(tail);
      assert EndsInComment(a);
    }
  }

  lemma FirstExtends(a: string, rest: string)
    requires a != "" && First(a).Some? && !Unended(a) && Settled(a, rest)
    ensures First(a + rest) == First(a)
  {
    hide Run, ReadText, ReadIdent, ToNewline, ToBracket, WordLength, EndsInComment;
    var c, all := a[0], a + rest;
    CutExtends(a, rest, 1);
    CommentExtends(a, rest);
    if IsSpace(c) || LineComment(a) {
    } else if c == '/' {
      CutExtends(a, rest, 2);
      ToBracketExtends(a[2..], rest);
    } else if c == '\'' {
      ReadTextExtends(a[1..], rest);
    } else if c == '`' {
      ReadIdentExtends(a[1..], rest);
    } else if IsSymChar(c) {
      RunExtends(a, rest, true);
      CutExtends(a, rest, Run(a, true));
    } else if c == '(' || c == ')' || c == ',' {
    } else {
      WordExtends(a, rest);
      CutExtends(a, rest, WordLength(a));
    }
  }

  lemma EndsInCommentStep(a: string)
    ensures EndsInComment(a) <==> a != "" && (Unended(a) || (First(a).Some? && EndsInComment(a[First(a).value.1..])))
  {
  }

  lemma EndsAfterSpace(rest: string)
    ensures EndsInComment(" " + rest) == EndsInComment(rest)
  {
    assert (" " + rest)[1..] == rest;
    EndsInCommentStep(" " + rest);
  }

  lemma EndsAfterWord(a: string, rest: string)
    requires IsWord(a) && Boundary(rest)
    ensures EndsInComment(a + rest) == EndsInComment(rest)
  {
    hide First;
    FirstIsWord(a, rest);
    assert (a + rest)[|a|..] == rest;
    EndsInCommentStep(a + rest);
  }

  /** What a text lexes to is not changed by what follows it at a token boundary, whatever the text
      is, as long as it lexes at all and does not end inside a comment. */
  lemma {:induction false} LexExtends(a: string, rest: string)
    requires Lex(a).Some? && Boundary(rest) && !EndsInComment(a)
    ensures Lex(a + rest) == Before(Lex(a).value, Lex(rest))
    decreases |a|
  {
    hide First, Boundary, EndsInComment, Unended;
    if a == "" {
      assert a + rest == rest;
      BeforeTwice([], [], Lex(rest));
    } else {
      var (t, n) := First(a).value;
      EndsInCommentStep(a);
      FirstExtends(a, rest);
      LexExtends(a[n..], rest);
      assert (a + rest)[n..] == a[n..] + rest;
      BeforeTwice(t, Lex(a[n..]).value, Lex(rest));
    }
  }

  /** What follows on the line of an unended comment is part of it. */
  lemma {:induction false} LexSwallows(a: string, rest: string)
    requires Lex(a).Some? && Blank(rest) && EndsInComment(a) && '\n' !in rest
    ensures Lex(a + rest) == Lex(a)
    decreases |a|
  {
    hide First, EndsInComment, Unended;
    EndsInCommentStep(a);
    if Unended(a) {
      StillUnended(a, rest);
      UnendedIsNothing(a);
      UnendedIsNothing(a + rest);
    } else {
      var (t, n) := First(a).value;
      FirstExtends(a, rest);
      assert (a + rest)[n..] == a[n..] + rest;
      LexSwallows(a[n..], rest);
    }
  }

  lemma StillUnended(a: string, rest: string)
    requires Unended(a) && Blank(rest) && '\n' !in rest
    ensures Unended(a + rest)
  {
  }

  lemma UnendedIsNothing(s: string)
    requires Unended(s)
    ensures Lex(s) == Some([])
  {
    NoNewline(s);
    assert s[|s|..] == "";
    BeforeTwice([], [], Lex(""));
  }

  /** A text in front of which more tokens can be written does not end inside a comment. */
  lemma ClosedBefore(a: string, ts: Tokens)
    requires Lex(a) == Some(ts) && Lex(a + " (") != Some(ts)
    ensures !EndsInComment(a)
  {
    hide Lex, EndsInComment;
    if EndsInComment(a) {
      LexSwallows(a, " (");
    }
  }
}
