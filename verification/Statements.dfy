/** The SQL statements that the CRUD layer writes (pkg/crud/misc.go), and a parser that gives such
    texts a structure. */
module Statements {
  import opened Values
  import opened Texts
  import opened SqlLexer
  import opened LexLaws

  // ---- Texts ----

  /** `a`,`b`,`c` */
  function ColList(cols: seq<string>): string {
    if cols == [] then ""
    else "`" + cols[0] + "`" + (if |cols| == 1 then "" else "," + ColList(cols[1..]))
  }

  /** ?,?,? */
  function Holders(n: nat): string {
    if n == 0 then "" else "?" + (if n == 1 then "" else "," + Holders(n - 1))
  }

  /** `a` = ?, `b` = ? */
  function SetList(cols: seq<string>): string {
    if cols == [] then ""
    else "`" + cols[0] + "` = ?" + (if |cols| == 1 then "" else ", " + SetList(cols[1..]))
  }

  function Verb(replace: bool): string {
    if replace then "REPLACE" else "INSERT"
  }

  function InsertText(replace: bool, entity: string, cols: seq<string>): string {
    Verb(replace) + " INTO `" + entity + "` " + ("(" + ColList(cols) + ")") + (" VALUES(" + Holders(|cols|) + ")")
  }

  function SingleItemFilter(idColumn: string): string {
    "WHERE " + "`" + idColumn + "`" + " = ?" + " LIMIT 1"
  }

  function MultiItemFilter(idColumn: string, n: nat): string {
    "WHERE " + "`" + idColumn + "`" + " IN (" + Holders(n) + ")"
  }

  function UpdateText(entity: string, idColumn: string, cols: seq<string>): string {
    "UPDATE `" + entity + "` SET " + SetList(cols) + " " + SingleItemFilter(idColumn)
  }

  function DeletePrefix(entity: string): string {
    "DELETE FROM `" + entity + "` "
  }

  function DeleteText(entity: string, idColumn: string): string {
    DeletePrefix(entity) + SingleItemFilter(idColumn)
  }

  function MultiDeleteText(entity: string, idColumn: string, n: nat): string {
    DeletePrefix(entity) + MultiItemFilter(idColumn, n)
  }

  function SelectText(entity: string, idColumn: string): string {
    "SELECT * FROM `" + entity + "` " + SingleItemFilter(idColumn)
  }

  function ValuesOf(body: Row, cols: seq<string>): (r: seq<Value>)
    requires forall c :: c in cols ==> c in body
    ensures |r| == |cols| && forall i :: 0 <= i < |cols| ==> r[i] == body[cols[i]]
  {
    seq(|cols|, i requires 0 <= i < |cols| => body[cols[i]])
  }

  // ---- The builders ----

  /** `keys` is the order in which the map happens to hand out its keys. */
  ghost predicate Enumerates(keys: seq<string>, body: Row) {
    Distinct(keys) && forall k :: k in keys <==> k in body
  }

  /** Appending piece by piece. */
  lemma Appends(s: string, a: string, b: string, c: string)
    ensures s + a + b == s + (a + b)
    ensures s + a + b + c == s + (a + b + c)
  {
  }

  function ColPiece(col: string, last: bool): string {
    "`" + col + "`" + (if last then "" else ",")
  }

  function HolderPiece(last: bool): string {
    "?" + (if last then "" else ",")
  }

  function SetPiece(col: string, last: bool): string {
    "`" + col + "` = ?" + (if last then "" else ", ")
  }

  lemma ListsUnfold(cols: seq<string>)
    requires cols != []
    ensures ColList(cols) == ColPiece(cols[0], |cols| == 1) + ColList(cols[1..])
    ensures SetList(cols) == SetPiece(cols[0], |cols| == 1) + SetList(cols[1..])
  {
    if |cols| > 1 {
      Appends("`" + cols[0] + "`", ",", ColList(cols[1..]), "");
      Appends("`" + cols[0] + "` = ?", ", ", SetList(cols[1..]), "");
    } else {
      assert ColPiece(cols[0], true) + "" == ColPiece(cols[0], true);
      assert SetPiece(cols[0], true) + "" == SetPiece(cols[0], true);
    }
  }

  lemma HoldersUnfold(n: nat)
    requires n > 0
    ensures Holders(n) == HolderPiece(n == 1) + Holders(n - 1)
  {
    if n > 1 {
      Appends("?", ",", Holders(n - 1), "");
    }
  }

  lemma ListsEnd(s: string)
    ensures s + ColList([]) == s && s + Holders(0) == s && s + SetList([]) == s
  {
  }

  /** createInsertOrReplaceQuery. Neither result depends on `keys`. */
  method CreateInsertOrReplaceQuery(replace: bool, entity: string, body: Row, keys: seq<string>)
    returns (text: string, values: seq<Value>)
    requires Enumerates(keys, body)
    ensures text == InsertText(replace, entity, SortedKeys(body))
    ensures values == ValuesOf(body, SortedKeys(body))
  {
    hide ColList, Holders, Verb;
    var sb, csb, vsb := "", "", "";
    var cols := Sort(keys);
    SortForgetsEnumeration(keys, body);
    csb, vsb, values := InsertLists(body, cols);
    sb := sb + Verb(replace);
    sb := sb + " INTO `";
    sb := sb + entity;
    sb := sb + "` ";
    InsertStart(replace, entity);
    sb := sb + csb;
    sb := sb + vsb;
    text := sb;
  }

  lemma InsertStart(replace: bool, entity: string)
    ensures "" + Verb(replace) + " INTO `" + entity + "` " == Verb(replace) + " INTO `" + entity + "` "
  {
    hide Verb;
    assert "" + Verb(replace) == Verb(replace);
  }

  /** The loop of createInsertOrReplaceQuery, filling the column list and the value list. */
  method InsertLists(body: Row, cols: seq<string>) returns (csb: string, vsb: string, values: seq<Value>)
    requires forall c :: c in cols ==> c in body
    ensures csb == "(" + ColList(cols) + ")"
    ensures vsb == " VALUES(" + Holders(|cols|) + ")"
    ensures values == ValuesOf(body, cols)
  {
    hide ColList, Holders;
    var colCount := |cols|;
    csb, vsb, values := "", "", [];
    csb := csb + "(";
    vsb := vsb + " VALUES(";
    assert cols[0..] == cols;
    for i := 0 to colCount
      invariant csb + ColList(cols[i..]) == "(" + ColList(cols)
      invariant vsb + Holders(colCount - i) == " VALUES(" + Holders(colCount)
      invariant values == ValuesOf(body, cols)[..i]
    {
      var col := cols[i];
      ghost var c0, v0, last := csb, vsb, i == colCount - 1;
      csb := csb + "`";
      csb := csb + col;
      csb := csb + "`";
      vsb := vsb + "?";
      Appends(c0, "`", col, "`");
      if i < colCount - 1 {
        csb := csb + ",";
        vsb := vsb + ",";
      }
      assert csb == c0 + ColPiece(col, last);
      assert vsb == v0 + HolderPiece(last);
      values := values + [body[col]];
      assert cols[i..][1..] == cols[i + 1..];
      ListsUnfold(cols[i..]);
      HoldersUnfold(colCount - i);
      Appends(c0, ColPiece(col, last), ColList(cols[i + 1..]), "");
      Appends(v0, HolderPiece(last), Holders(colCount - i - 1), "");
    }
    assert cols[colCount..] == [];
    ListsEnd(csb);
    ListsEnd(vsb);
    csb := csb + ")";
    vsb := vsb + ")";
  }

  /** createUpdateQuery. */
  method CreateUpdateQuery(entity: string, idColumn: string, body: Row, keys: seq<string>)
    returns (text: string, values: seq<Value>)
    requires Enumerates(keys, body)
    ensures text == UpdateText(entity, idColumn, SortedKeys(body))
    ensures values == ValuesOf(body, SortedKeys(body))
  {
    hide SetList, SingleItemFilter;
    var sb := "";
    sb := sb + "UPDATE `";
    sb := sb + entity;
    sb := sb + "` SET ";
    assert sb == "UPDATE `" + entity + "` SET ";
    var cols := Sort(keys);
    SortForgetsEnumeration(keys, body);
    sb, values := AppendSets(sb, body, cols);
    sb := sb + " ";
    sb := sb + SingleItemFilter(idColumn);
    text := sb;
  }

  /** The loop of createUpdateQuery, appending the SET list to what is written already. */
  method AppendSets(head: string, body: Row, cols: seq<string>) returns (sb: string, values: seq<Value>)
    requires forall c :: c in cols ==> c in body
    ensures sb == head + SetList(cols)
    ensures values == ValuesOf(body, cols)
  {
    hide SetList;
    var colCount := |cols|;
    sb, values := head, [];
    assert cols[0..] == cols;
    for i := 0 to colCount
      invariant sb + SetList(cols[i..]) == head + SetList(cols)
      invariant values == ValuesOf(body, cols)[..i]
    {
      var col := cols[i];
      ghost var s0, last := sb, i == colCount - 1;
      sb := sb + "`";
      sb := sb + col;
      sb := sb + "` = ?";
      Appends(s0, "`", col, "` = ?");
      values := values + [body[col]];
      if i < colCount - 1 {
        sb := sb + ", ";
        Appends(s0, "`" + col + "` = ?", ", ", "");
      }
      assert sb == s0 + SetPiece(col, last);
      assert cols[i..][1..] == cols[i + 1..];
      ListsUnfold(cols[i..]);
      Appends(s0, SetPiece(col, last), SetList(cols[i + 1..]), "");
    }
    assert cols[colCount..] == [];
    ListsEnd(sb);
  }

  // ---- Statements ----

  datatype Stmt =
    | Insert(replace: bool, table: string, cols: seq<string>, holders: nat)
    | Update(table: string, cols: seq<string>, key: string)
    | DeleteOne(table: string, key: string)
    | DeleteIn(table: string, key: string, holders: nat)
    | SelectOne(table: string, key: string)

  /** identifier { , identifier } ) or just the parenthesis */
  function ParseIdents(ts: Tokens): (r: Option<(seq<string>, Tokens)>)
    ensures r.Some? ==> |r.value.1| < |ts|
    decreases |ts|
  {
    if ts == [] then None
    else if ts[0] == RParen then Some(([], ts[1..]))
    else if !ts[0].Ident? || |ts| < 2 then None
    else if ts[1] == RParen then Some(([ts[0].id], ts[2..]))
    else if ts[1] != Comma || |ts| < 3 || ts[2] == RParen then None
    else
      match ParseIdents(ts[2..])
      case None => None
      case Some((ids, rest)) => Some(([ts[0].id] + ids, rest))
  }

  /** ? { , ? } ) or just the parenthesis */
  function ParseHolders(ts: Tokens): (r: Option<(nat, Tokens)>)
    ensures r.Some? ==> |r.value.1| < |ts|
    decreases |ts|
  {
    if ts == [] then None
    else if ts[0] == RParen then Some((0, ts[1..]))
    else if ts[0] != Word("?") || |ts| < 2 then None
    else if ts[1] == RParen then Some((1, ts[2..]))
    else if ts[1] != Comma || |ts| < 3 || ts[2] == RParen then None
    else
      match ParseHolders(ts[2..])
      case None => None
      case Some((n, rest)) => Some((n + 1, rest))
  }

  /** identifier = ? { , identifier = ? } */
  function ParseSets(ts: Tokens): (r: Option<(seq<string>, Tokens)>)
    ensures r.Some? ==> r.value.0 != [] && |r.value.1| < |ts|
    decreases |ts|
  {
    if |ts| < 3 || !ts[0].Ident? || ts[1] != Sym("=") || ts[2] != Word("?") then None
    else if |ts| > 3 && ts[3] == Comma then
      match ParseSets(ts[4..])
      case None => None
      case Some((ids, rest)) => Some(([ts[0].id] + ids, rest))
    else Some(([ts[0].id], ts[3..]))
  }

  /** WHERE identifier = ? LIMIT 1, at the end of a statement */
  function ParseKeyFilter(ts: Tokens): Option<string> {
    if |ts| == 6 && ts[0] == Word("WHERE") && ts[1].Ident? && ts[2..] == [Sym("="), Word("?"), Word("LIMIT"), Word("1")]
    then Some(ts[1].id) else None
  }

  function ParseStatement(ts: Tokens): Option<Stmt> {
    if |ts| < 4 || !ts[0].Word? then None
    else if (ts[0].w == "INSERT" || ts[0].w == "REPLACE")
            && ts[1] == Word("INTO") && ts[2].Ident? && ts[3] == LParen then
      match ParseIdents(ts[4..])
      case None => None
      case Some((cols, rest)) =>
        if |rest| < 2 || rest[0] != Word("VALUES") || rest[1] != LParen then None
        else
          match ParseHolders(rest[2..])
          case Some((n, end)) => if end == [] then Some(Insert(ts[0].w == "REPLACE", ts[2].id, cols, n)) else None
          case None => None
    else if ts[0].w == "UPDATE" && ts[1].Ident? && ts[2] == Word("SET") then
      match ParseSets(ts[3..])
      case None => None
      case Some((cols, rest)) =>
        match ParseKeyFilter(rest)
        case None => None
        case Some(key) => Some(Update(ts[1].id, cols, key))
    else if ts[0].w == "DELETE" && ts[1] == Word("FROM") && ts[2].Ident? then
      match ParseKeyFilter(ts[3..])
      case Some(key) => Some(DeleteOne(ts[2].id, key))
      case None =>
        if |ts| >= 7 && ts[3] == Word("WHERE") && ts[4].Ident? && ts[5] == Word("IN") && ts[6] == LParen then
          match ParseHolders(ts[7..])
          case Some((n, end)) => if end == [] && n > 0 then Some(DeleteIn(ts[2].id, ts[4].id, n)) else None
          case None => None
        else None
    else if ts[0].w == "SELECT" && ts[1] == Word("*") && ts[2] == Word("FROM") && ts[3].Ident? then
      match ParseKeyFilter(ts[4..])
      case Some(key) => Some(SelectOne(ts[3].id, key))
      case None => None
    else None
  }

  function ParseText(text: string): Option<Stmt> {
    match Lex(text)
    case None => None
    case Some(ts) => ParseStatement(ts)
  }

  // ---- The written texts, as tokens ----

  predicate PlainNames(names: seq<string>) {
    forall i :: 0 <= i < |names| ==> '`' !in names[i]
  }

  function ColTokens(cols: seq<string>): Tokens {
    if cols == [] then []
    else [Ident(cols[0])] + (if |cols| == 1 then [] else [Comma] + ColTokens(cols[1..]))
  }

  function HolderTokens(n: nat): Tokens {
    if n == 0 then [] else [Word("?")] + (if n == 1 then [] else [Comma] + HolderTokens(n - 1))
  }

  function SetTokens(cols: seq<string>): Tokens {
    if cols == [] then []
    else [Ident(cols[0]), Sym("="), Word("?")] + (if |cols| == 1 then [] else [Comma] + SetTokens(cols[1..]))
  }

  /** The text is these tokens. */
  predicate Reads(text: string, ts: Tokens) {
    Lex(text) == Some(ts)
  }

  lemma ReadWord(w: string, tail: string, ts: Tokens)
    requires IsWord(w) && Boundary(tail) && Reads(tail, ts)
    ensures Reads(w + tail, [Word(w)] + ts)
  {
    LexWord(w, tail);
  }

  lemma ReadSpacedWord(w: string, tail: string, ts: Tokens)
    requires IsWord(w) && Boundary(tail) && Reads(tail, ts)
    ensures Reads(" " + (w + tail), [Word(w)] + ts)
  {
    LexWord(w, tail);
    LexSpace(w + tail);
  }

  lemma ReadIdentifier(id: string, tail: string, ts: Tokens)
    requires '`' !in id && Reads(tail, ts)
    ensures Reads("`" + id + "`" + tail, [Ident(id)] + ts)
    ensures Reads(" " + ("`" + id + "`" + tail), [Ident(id)] + ts)
  {
    LexIdent(id, tail);
    LexSpace("`" + id + "`" + tail);
  }

  lemma ReadPunctuation(tail: string, ts: Tokens)
    requires Reads(tail, ts)
    ensures Reads(" " + tail, ts)
    ensures Reads("(" + tail, [LParen] + ts)
    ensures Reads(")" + tail, [RParen] + ts)
    ensures Reads("," + tail, [Comma] + ts)
  {
    LexSpace(tail);
    LexLParen(tail);
    LexRParen(tail);
    LexComma(tail);
  }

  lemma ReadEnd()
    ensures Reads("", [])
  {
  }

  lemma {:induction false} ReadColList(cols: seq<string>, tail: string, ts: Tokens)
    requires PlainNames(cols) && Reads(tail, ts)
    ensures Reads(ColList(cols) + tail, ColTokens(cols) + ts)
  {
    hide Reads;
    if cols == [] {
      assert "" + tail == tail && [] + ts == ts;
    } else if |cols| == 1 {
      ReadIdentifier(cols[0], tail, ts);
      assert "`" + cols[0] + "`" + "" + tail == "`" + cols[0] + "`" + tail;
      assert [Ident(cols[0])] + [] + ts == [Ident(cols[0])] + ts;
    } else {
      var rest, rts := ColList(cols[1..]), ColTokens(cols[1..]);
      ReadColList(cols[1..], tail, ts);
      ReadPunctuation(rest + tail, rts + ts);
      ReadIdentifier(cols[0], "," + (rest + tail), [Comma] + (rts + ts));
      assert "`" + cols[0] + "`" + ("," + rest) + tail == "`" + cols[0] + "`" + ("," + (rest + tail));
      assert [Ident(cols[0])] + ([Comma] + rts) + ts == [Ident(cols[0])] + ([Comma] + (rts + ts));
    }
  }

  lemma {:induction false} ReadHolders(n: nat, tail: string, ts: Tokens)
    requires Boundary(tail) && Reads(tail, ts)
    ensures Reads(Holders(n) + tail, HolderTokens(n) + ts)
  {
    hide Reads;
    if n == 0 {
      assert "" + tail == tail && [] + ts == ts;
    } else if n == 1 {
      ReadWord("?", tail, ts);
      assert "?" + "" + tail == "?" + tail;
      assert [Word("?")] + [] + ts == [Word("?")] + ts;
    } else {
      var rest, rts := Holders(n - 1), HolderTokens(n - 1);
      ReadHolders(n - 1, tail, ts);
      ReadPunctuation(rest + tail, rts + ts);
      ReadWord("?", "," + (rest + tail), [Comma] + (rts + ts));
      assert "?" + ("," + rest) + tail == "?" + ("," + (rest + tail));
      assert [Word("?")] + ([Comma] + rts) + ts == [Word("?")] + ([Comma] + (rts + ts));
    }
  }

  lemma ReadEquals(tail: string, ts: Tokens)
    requires Boundary(tail) && Reads(tail, ts)
    ensures Reads("=" + tail, [Sym("=")] + ts)
  {
    LexSym("=", tail);
  }

  /** One `column` = ? and what follows. */
  lemma ReadSet(col: string, tail: string, ts: Tokens)
    requires '`' !in col && Boundary(tail) && Reads(tail, ts)
    ensures Reads("`" + col + "` = ?" + tail, [Ident(col), Sym("="), Word("?")] + ts)
  {
    hide Reads;
    ReadSpacedWord("?", tail, ts);
    var t := " " + ("?" + tail);
    ReadEquals(t, [Word("?")] + ts);
    ReadPunctuation("=" + t, [Sym("=")] + ([Word("?")] + ts));
    ReadIdentifier(col, " " + ("=" + t), [Sym("=")] + ([Word("?")] + ts));
    assert "`" + col + "` = ?" + tail == "`" + col + "`" + (" " + ("=" + t)) by {
      assert "` = ?" == "`" + " " + "=" + " " + "?";
    }
    assert [Ident(col)] + ([Sym("=")] + ([Word("?")] + ts)) == [Ident(col), Sym("="), Word("?")] + ts;
  }

  lemma {:induction false} ReadSetList(cols: seq<string>, tail: string, ts: Tokens)
    requires PlainNames(cols) && Boundary(tail) && Reads(tail, ts)
    ensures Reads(SetList(cols) + tail, SetTokens(cols) + ts)
  {
    hide Reads;
    if cols == [] {
      assert "" + tail == tail && [] + ts == ts;
    } else if |cols| == 1 {
      ReadSet(cols[0], tail, ts);
      assert "`" + cols[0] + "` = ?" + "" + tail == "`" + cols[0] + "` = ?" + tail;
      assert SetTokens(cols) == [Ident(cols[0]), Sym("="), Word("?")];
    } else {
      var rest, rts := SetList(cols[1..]), SetTokens(cols[1..]);
      ReadSetList(cols[1..], tail, ts);
      ReadPunctuation(rest + tail, rts + ts);
      ReadPunctuation(" " + (rest + tail), rts + ts);
      var comma := "," + (" " + (rest + tail));
      ReadSet(cols[0], comma, [Comma] + (rts + ts));
      assert "`" + cols[0] + "` = ?" + (", " + rest) + tail == "`" + cols[0] + "` = ?" + comma by {
        assert ", " == "," + " ";
      }
      assert [Ident(cols[0]), Sym("="), Word("?")] + ([Comma] + rts) + ts
          == [Ident(cols[0]), Sym("="), Word("?")] + ([Comma] + (rts + ts));
    }
  }

  const LIMIT_ONE: Tokens := [Sym("="), Word("?"), Word("LIMIT"), Word("1")]

  lemma ReadSingleItemFilter(idColumn: string)
    requires '`' !in idColumn
    ensures Reads(SingleItemFilter(idColumn), [Word("WHERE"), Ident(idColumn)] + LIMIT_ONE)
  {
    hide Reads;
    ReadEnd();
    ReadSpacedWord("1", "", []);
    ReadSpacedWord("LIMIT", " " + ("1" + ""), [Word("1")] + []);
    var t := " " + ("LIMIT" + (" " + ("1" + "")));
    var ts: Tokens := [Word("LIMIT")] + ([Word("1")] + []);
    ReadSet(idColumn, t, ts);
    var u := "`" + idColumn + "` = ?" + t;
    var us := [Ident(idColumn), Sym("="), Word("?")] + ts;
    ReadPunctuation(u, us);
    ReadWord("WHERE", " " + u, us);
    assert SingleItemFilter(idColumn) == "WHERE" + (" " + u) by {
      assert "` = ?" == "`" + " = ?" && " LIMIT 1" == t && "WHERE " == "WHERE" + " ";
    }
    assert [Word("WHERE")] + us == [Word("WHERE"), Ident(idColumn)] + LIMIT_ONE;
  }

  lemma ReadMultiItemFilter(idColumn: string, n: nat)
    requires '`' !in idColumn
    ensures Reads(MultiItemFilter(idColumn, n),
                  [Word("WHERE"), Ident(idColumn), Word("IN"), LParen] + (HolderTokens(n) + [RParen]))
  {
    hide Reads, Holders, HolderTokens;
    ReadEnd();
    ReadPunctuation("", []);
    assert ")" + "" == ")" && [RParen] + [] == [RParen];
    ReadHolders(n, ")", [RParen]);
    var t, ts := Holders(n) + ")", HolderTokens(n) + [RParen];
    ReadPunctuation(t, ts);
    ReadPunctuation("(" + t, [LParen] + ts);
    ReadSpacedWord("IN", " " + ("(" + t), [LParen] + ts);
    var u := " " + ("IN" + (" " + ("(" + t)));
    ReadIdentifier(idColumn, u, [Word("IN")] + ([LParen] + ts));
    ReadWord("WHERE", " " + ("`" + idColumn + "`" + u), [Ident(idColumn)] + ([Word("IN")] + ([LParen] + ts)));
    assert MultiItemFilter(idColumn, n) == "WHERE" + (" " + ("`" + idColumn + "`" + u)) by {
      assert "WHERE " == "WHERE" + " " && " IN (" == " " + "IN" + " " + "(";
    }
    assert [Word("WHERE")] + ([Ident(idColumn)] + ([Word("IN")] + ([LParen] + ts)))
        == [Word("WHERE"), Ident(idColumn), Word("IN"), LParen] + ts;
  }

  lemma ReadValuesPart(n: nat)
    ensures Reads(" " + ("VALUES" + ("(" + (Holders(n) + ")"))),
                  [Word("VALUES")] + ([LParen] + (HolderTokens(n) + [RParen])))
  {
    hide Reads, Holders, HolderTokens;
    ReadEnd();
    ReadPunctuation("", []);
    assert ")" + "" == ")" && [RParen] + [] == [RParen];
    ReadHolders(n, ")", [RParen]);
    ReadPunctuation(Holders(n) + ")", HolderTokens(n) + [RParen]);
    ReadSpacedWord("VALUES", "(" + (Holders(n) + ")"), [LParen] + (HolderTokens(n) + [RParen]));
  }

  lemma ReadInsertHead(verb: string, entity: string, v: string, vs: Tokens)
    requires IsWord(verb) && '`' !in entity && Reads(v, vs)
    ensures Reads(verb + (" " + ("INTO" + (" " + ("`" + entity + "`" + (" " + ("(" + v)))))),
                  [Word(verb), Word("INTO"), Ident(entity), LParen] + vs)
  {
    hide Reads;
    ReadPunctuation(v, vs);
    ReadPunctuation("(" + v, [LParen] + vs);
    ReadIdentifier(entity, " " + ("(" + v), [LParen] + vs);
    var w := " " + ("`" + entity + "`" + (" " + ("(" + v)));
    ReadSpacedWord("INTO", w, [Ident(entity)] + ([LParen] + vs));
    ReadWord(verb, " " + ("INTO" + w), [Word("INTO")] + ([Ident(entity)] + ([LParen] + vs)));
    assert [Word(verb)] + ([Word("INTO")] + ([Ident(entity)] + ([LParen] + vs)))
        == [Word(verb), Word("INTO"), Ident(entity), LParen] + vs;
  }

  lemma ReadInsertBody(cols: seq<string>)
    requires PlainNames(cols)
    ensures Reads(ColList(cols) + (")" + (" " + ("VALUES" + ("(" + (Holders(|cols|) + ")"))))),
                  ColTokens(cols) + ([RParen] + ([Word("VALUES")] + ([LParen] + (HolderTokens(|cols|) + [RParen])))))
  {
    hide Reads, Holders, HolderTokens, ColList, ColTokens;
    var u := " " + ("VALUES" + ("(" + (Holders(|cols|) + ")")));
    var us := [Word("VALUES")] + ([LParen] + (HolderTokens(|cols|) + [RParen]));
    ReadValuesPart(|cols|);
    ReadPunctuation(u, us);
    ReadColList(cols, ")" + u, [RParen] + us);
  }

  lemma ReadInsertText(replace: bool, entity: string, cols: seq<string>)
    requires '`' !in entity && PlainNames(cols)
    ensures Reads(InsertText(replace, entity, cols),
                  [Word(Verb(replace)), Word("INTO"), Ident(entity), LParen]
                  + (ColTokens(cols)
                     + ([RParen] + ([Word("VALUES")] + ([LParen] + (HolderTokens(|cols|) + [RParen]))))))
  {
    VerbIsWord(replace);
    hide Reads, Holders, HolderTokens, ColList, ColTokens, Verb, IsWord;
    ReadInsert(Verb(replace), entity, cols);
  }

  lemma VerbIsWord(replace: bool)
    ensures IsWord(Verb(replace))
  {
  }

  lemma ReadInsert(verb: string, entity: string, cols: seq<string>)
    requires IsWord(verb) && '`' !in entity && PlainNames(cols)
    ensures Reads(verb + " INTO `" + entity + "` " + ("(" + ColList(cols) + ")") + (" VALUES(" + Holders(|cols|) + ")"),
                  [Word(verb), Word("INTO"), Ident(entity), LParen]
                  + (ColTokens(cols)
                     + ([RParen] + ([Word("VALUES")] + ([LParen] + (HolderTokens(|cols|) + [RParen]))))))
  {
    hide Reads, Holders, HolderTokens, ColList, ColTokens;
    ReadInsertBody(cols);
    ReadInsertHead(verb, entity,
                   ColList(cols) + (")" + (" " + ("VALUES" + ("(" + (Holders(|cols|) + ")"))))),
                   ColTokens(cols) + ([RParen] + ([Word("VALUES")] + ([LParen] + (HolderTokens(|cols|) + [RParen])))));
    InsertPieces(verb, entity, ColList(cols), Holders(|cols|));
  }

  lemma InsertPieces(verb: string, entity: string, c: string, h: string)
    ensures verb + " INTO `" + entity + "` " + ("(" + c + ")") + (" VALUES(" + h + ")")
         == verb + (" " + ("INTO" + (" " + ("`" + entity + "`"
                   + (" " + ("(" + (c + (")" + (" " + ("VALUES" + ("(" + (h + ")"))))))))))))
  {
    var u := " " + ("VALUES" + ("(" + (h + ")")));
    assert " VALUES(" + h + ")" == u by { assert " VALUES(" == " " + "VALUES" + "("; }
    var v := " " + ("(" + (c + (")" + u)));
    assert " " + ("(" + c + ")") + u == v;
    assert verb + " INTO `" + entity + "` " + ("(" + c + ")") + u
        == verb + " INTO `" + entity + "`" + (" " + ("(" + c + ")") + u) by {
      assert "` " == "`" + " ";
    }
    assert verb + " INTO `" + entity + "`" + v == verb + (" " + ("INTO" + (" " + ("`" + entity + "`" + v)))) by {
      assert " INTO `" == " " + "INTO" + " " + "`";
    }
  }

  lemma ReadUpdateText(entity: string, idColumn: string, cols: seq<string>)
    requires '`' !in entity && '`' !in idColumn && PlainNames(cols)
    ensures Reads(UpdateText(entity, idColumn, cols),
                  [Word("UPDATE"), Ident(entity), Word("SET")]
                  + (SetTokens(cols) + ([Word("WHERE"), Ident(idColumn)] + LIMIT_ONE)))
  {
    hide Reads, SetList, SetTokens, SingleItemFilter, LIMIT_ONE;
    var f, fs := SingleItemFilter(idColumn), [Word("WHERE"), Ident(idColumn)] + LIMIT_ONE;
    ReadSingleItemFilter(idColumn);
    ReadPunctuation(f, fs);
    ReadSetList(cols, " " + f, fs);
    var t, ts := SetList(cols) + (" " + f), SetTokens(cols) + fs;
    ReadPunctuation(t, ts);
    ReadSpacedWord("SET", " " + t, ts);
    var u, us := " " + ("SET" + (" " + t)), [Word("SET")] + ts;
    ReadIdentifier(entity, u, us);
    ReadWord("UPDATE", " " + ("`" + entity + "`" + u), [Ident(entity)] + us);
    assert UpdateText(entity, idColumn, cols) == "UPDATE" + (" " + ("`" + entity + "`" + u)) by {
      assert "UPDATE `" == "UPDATE" + " " + "`" && "` SET " == "`" + " " + "SET" + " ";
    }
    assert [Word("UPDATE")] + ([Ident(entity)] + us) == [Word("UPDATE"), Ident(entity), Word("SET")] + ts;
  }

  lemma ReadDelete(entity: string, f: string, fs: Tokens)
    requires '`' !in entity && Reads(f, fs)
    ensures Reads(DeletePrefix(entity) + f, [Word("DELETE"), Word("FROM"), Ident(entity)] + fs)
  {
    hide Reads;
    ReadPunctuation(f, fs);
    ReadIdentifier(entity, " " + f, fs);
    var u := " " + ("`" + entity + "`" + (" " + f));
    ReadSpacedWord("FROM", u, [Ident(entity)] + fs);
    ReadWord("DELETE", " " + ("FROM" + u), [Word("FROM")] + ([Ident(entity)] + fs));
    assert DeletePrefix(entity) + f == "DELETE" + (" " + ("FROM" + u)) by {
      assert "DELETE FROM `" == "DELETE" + " " + "FROM" + " " + "`" && "` " == "`" + " ";
    }
    assert [Word("DELETE")] + ([Word("FROM")] + ([Ident(entity)] + fs))
        == [Word("DELETE"), Word("FROM"), Ident(entity)] + fs;
  }

  lemma ReadSelect(entity: string, f: string, fs: Tokens)
    requires '`' !in entity && Reads(f, fs)
    ensures Reads("SELECT * FROM `" + entity + "` " + f, [Word("SELECT"), Word("*"), Word("FROM"), Ident(entity)] + fs)
  {
    hide Reads;
    ReadPunctuation(f, fs);
    ReadIdentifier(entity, " " + f, fs);
    var u := " " + ("`" + entity + "`" + (" " + f));
    ReadSpacedWord("FROM", u, [Ident(entity)] + fs);
    ReadSpacedWord("*", " " + ("FROM" + u), [Word("FROM")] + ([Ident(entity)] + fs));
    ReadWord("SELECT", " " + ("*" + (" " + ("FROM" + u))), [Word("*")] + ([Word("FROM")] + ([Ident(entity)] + fs)));
    assert "SELECT * FROM `" + entity + "` " + f == "SELECT" + (" " + ("*" + (" " + ("FROM" + u)))) by {
      assert "SELECT * FROM `" == "SELECT" + " " + "*" + " " + "FROM" + " " + "`" && "` " == "`" + " ";
    }
    assert [Word("SELECT")] + ([Word("*")] + ([Word("FROM")] + ([Ident(entity)] + fs)))
        == [Word("SELECT"), Word("*"), Word("FROM"), Ident(entity)] + fs;
  }

  // ---- The written texts parse to the statements they mean ----

  lemma IdentsStep(c: string, ts: Tokens)
    requires ts != []
    ensures ts[0] == RParen ==> ParseIdents(ts) == Some(([], ts[1..]))
    ensures ts[0] == RParen ==> ParseIdents([Ident(c)] + ts) == Some(([c], ts[1..]))
    ensures ts[0] != RParen && ParseIdents(ts).Some? ==>
            ParseIdents([Ident(c), Comma] + ts) == Some(([c] + ParseIdents(ts).value.0, ParseIdents(ts).value.1))
  {
    assert ([Ident(c)] + ts)[2..] == ts[1..];
    assert ([Ident(c), Comma] + ts)[2..] == ts;
  }

  lemma HoldersEnd(ts: Tokens)
    requires ts != [] && ts[0] == RParen
    ensures ParseHolders(ts) == Some((0, ts[1..]))
    ensures ParseHolders([Word("?")] + ts) == Some((1, ts[1..]))
  {
    assert ([Word("?")] + ts)[2..] == ts[1..];
  }

  lemma HoldersStep(ts: Tokens)
    requires ts != [] && ts[0] != RParen && ParseHolders(ts).Some?
    ensures ParseHolders([Word("?"), Comma] + ts) == Some((ParseHolders(ts).value.0 + 1, ParseHolders(ts).value.1))
  {
    var all := [Word("?"), Comma] + ts;
    assert all[0] == Word("?") && all[1] == Comma && all[2] == ts[0] && all[2..] == ts;
  }

  lemma ColTokensUnfold(cols: seq<string>)
    requires cols != []
    ensures ColTokens(cols) != [] && ColTokens(cols)[0] == Ident(cols[0])
    ensures ColTokens(cols) == if |cols| == 1 then [Ident(cols[0])] else [Ident(cols[0]), Comma] + ColTokens(cols[1..])
  {
    if |cols| > 1 {
      Glue([Ident(cols[0])], Comma, ColTokens(cols[1..]));
    }
  }

  lemma SetTokensUnfold(cols: seq<string>)
    requires cols != []
    ensures SetTokens(cols) == if |cols| == 1 then [Ident(cols[0]), Sym("="), Word("?")]
                               else [Ident(cols[0]), Sym("="), Word("?"), Comma] + SetTokens(cols[1..])
  {
    if |cols| > 1 {
      Glue([Ident(cols[0]), Sym("="), Word("?")], Comma, SetTokens(cols[1..]));
      assert [Ident(cols[0]), Sym("="), Word("?")] + [Comma] == [Ident(cols[0]), Sym("="), Word("?"), Comma];
    }
  }

  lemma Glue(a: Tokens, t: Token, b: Tokens)
    ensures a + ([t] + b) == (a + [t]) + b
  {
  }

  lemma {:induction false} ParseColTokens(cols: seq<string>, rest: Tokens)
    ensures ParseIdents(ColTokens(cols) + ([RParen] + rest)) == Some((cols, rest))
  {
    hide ParseIdents, ColTokens;
    var end := [RParen] + rest;
    assert end[1..] == rest;
    if cols == [] {
      NoCols(end);
      IdentsStep("", end);
    } else {
      ColTokensUnfold(cols);
      if |cols| == 1 {
        IdentsStep(cols[0], end);
        assert [cols[0]] == cols;
      } else {
        var more := ColTokens(cols[1..]) + end;
        ParseColTokens(cols[1..], rest);
        ColTokensUnfold(cols[1..]);
        IdentsStep(cols[0], more);
        assert [Ident(cols[0]), Comma] + ColTokens(cols[1..]) + end == [Ident(cols[0]), Comma] + more;
        assert [cols[0]] + cols[1..] == cols;
      }
    }
  }

  lemma NoCols(ts: Tokens)
    ensures ColTokens([]) + ts == ts && HolderTokens(0) + ts == ts
  {
  }

  lemma HolderTokensUnfold(n: nat)
    ensures n > 0 ==> HolderTokens(n) != [] && HolderTokens(n)[0] == Word("?")
    ensures HolderTokens(n) == if n == 0 then [] else if n == 1 then [Word("?")]
                               else [Word("?"), Comma] + HolderTokens(n - 1)
  {
  }

  lemma {:induction false} ParseHolderTokens(n: nat, rest: Tokens)
    ensures ParseHolders(HolderTokens(n) + ([RParen] + rest)) == Some((n, rest))
  {
    hide ParseHolders, HolderTokens;
    HolderTokensUnfold(n);
    var end := [RParen] + rest;
    assert end[1..] == rest;
    if n == 0 {
      HoldersEnd(end);
      assert [] + end == end;
    } else if n == 1 {
      HoldersEnd(end);
    } else {
      var more := HolderTokens(n - 1) + end;
      ParseHolderTokens(n - 1, rest);
      HolderTokensUnfold(n - 1);
      HoldersStep(more);
      assert HolderTokens(n) + end == [Word("?"), Comma] + more;
    }
  }

  lemma SetsStep(c: string, ts: Tokens)
    ensures ts == [] || ts[0] != Comma ==> ParseSets([Ident(c), Sym("="), Word("?")] + ts) == Some(([c], ts))
    ensures ParseSets(ts).Some? ==>
            ParseSets([Ident(c), Sym("="), Word("?"), Comma] + ts) ==
            Some(([c] + ParseSets(ts).value.0, ParseSets(ts).value.1))
  {
    assert ([Ident(c), Sym("="), Word("?")] + ts)[3..] == ts;
    assert ([Ident(c), Sym("="), Word("?"), Comma] + ts)[4..] == ts;
  }

  lemma {:induction false} ParseSetTokens(cols: seq<string>, rest: Tokens)
    requires cols != [] && (rest == [] || rest[0] != Comma)
    ensures ParseSets(SetTokens(cols) + rest) == Some((cols, rest))
  {
    hide ParseSets, SetTokens;
    SetTokensUnfold(cols);
    if |cols| == 1 {
      SetsStep(cols[0], rest);
      assert [cols[0]] == cols;
    } else {
      var more := SetTokens(cols[1..]) + rest;
      ParseSetTokens(cols[1..], rest);
      SetsStep(cols[0], more);
      assert [Ident(cols[0]), Sym("="), Word("?"), Comma] + SetTokens(cols[1..]) + rest
          == [Ident(cols[0]), Sym("="), Word("?"), Comma] + more;
      assert [cols[0]] + cols[1..] == cols;
    }
  }

  lemma InsertParses(replace: bool, entity: string, cols: seq<string>)
    requires '`' !in entity && PlainNames(cols)
    ensures ParseText(InsertText(replace, entity, cols)) == Some(Insert(replace, entity, cols, |cols|))
  {
    hide ColTokens, HolderTokens, ParseIdents, ParseHolders;
    ReadInsertText(replace, entity, cols);
    var h := HolderTokens(|cols|) + [RParen];
    var v := [Word("VALUES")] + ([LParen] + h);
    var ts := [Word(Verb(replace)), Word("INTO"), Ident(entity), LParen] + (ColTokens(cols) + ([RParen] + v));
    assert ts[4..] == ColTokens(cols) + ([RParen] + v);
    ParseColTokens(cols, v);
    assert v[2..] == h;
    ParseHolderTokens(|cols|, []);
    assert [RParen] + [] == [RParen];
  }

  lemma KeyFilterParses(idColumn: string)
    ensures ParseKeyFilter([Word("WHERE"), Ident(idColumn)] + LIMIT_ONE) == Some(idColumn)
  {
    assert ([Word("WHERE"), Ident(idColumn)] + LIMIT_ONE)[2..] == LIMIT_ONE;
  }

  lemma NoSets(ts: Tokens)
    requires ts != [] && ts[0].Word?
    ensures ParseSets(SetTokens([]) + ts) == None
  {
    assert SetTokens([]) + ts == ts;
  }

  /** An UPDATE without columns is no statement. */
  lemma UpdateParses(entity: string, idColumn: string, cols: seq<string>)
    requires '`' !in entity && '`' !in idColumn && PlainNames(cols)
    ensures ParseText(UpdateText(entity, idColumn, cols)) ==
            if cols == [] then None else Some(Update(entity, cols, idColumn))
  {
    hide ParseSets, SetTokens;
    ReadUpdateText(entity, idColumn, cols);
    var f := [Word("WHERE"), Ident(idColumn)] + LIMIT_ONE;
    var ts := [Word("UPDATE"), Ident(entity), Word("SET")] + (SetTokens(cols) + f);
    assert ts[3..] == SetTokens(cols) + f;
    KeyFilterParses(idColumn);
    if cols == [] {
      NoSets(f);
    } else {
      ParseSetTokens(cols, f);
    }
  }

  lemma DeleteParses(entity: string, idColumn: string)
    requires '`' !in entity && '`' !in idColumn
    ensures ParseText(DeleteText(entity, idColumn)) == Some(DeleteOne(entity, idColumn))
  {
    ReadSingleItemFilter(idColumn);
    var f := [Word("WHERE"), Ident(idColumn)] + LIMIT_ONE;
    ReadDelete(entity, SingleItemFilter(idColumn), f);
    KeyFilterParses(idColumn);
    assert ([Word("DELETE"), Word("FROM"), Ident(entity)] + f)[3..] == f;
  }

  lemma MultiDeleteParses(entity: string, idColumn: string, n: nat)
    requires '`' !in entity && '`' !in idColumn && n > 0
    ensures ParseText(MultiDeleteText(entity, idColumn, n)) == Some(DeleteIn(entity, idColumn, n))
  {
    hide HolderTokens, ParseHolders;
    var h := HolderTokens(n) + [RParen];
    var f := [Word("WHERE"), Ident(idColumn), Word("IN"), LParen] + h;
    ReadMultiItemFilter(idColumn, n);
    ReadDelete(entity, MultiItemFilter(idColumn, n), f);
    var ts := [Word("DELETE"), Word("FROM"), Ident(entity)] + f;
    assert ts[3..] == f && f[2] == Word("IN");
    assert ParseKeyFilter(f) == None by {
      if |f| == 6 { assert f[2..][0] == Word("IN"); }
    }
    assert ts[7..] == h;
    ParseHolderTokens(n, []);
    assert [RParen] + [] == [RParen];
  }

  lemma SelectParses(entity: string, idColumn: string)
    requires '`' !in entity && '`' !in idColumn
    ensures ParseText(SelectText(entity, idColumn)) == Some(SelectOne(entity, idColumn))
  {
    ReadSingleItemFilter(idColumn);
    var f := [Word("WHERE"), Ident(idColumn)] + LIMIT_ONE;
    ReadSelect(entity, SingleItemFilter(idColumn), f);
    KeyFilterParses(idColumn);
    assert ([Word("SELECT"), Word("*"), Word("FROM"), Ident(entity)] + f)[4..] == f;
  }

  // ---- The names of a parsed statement ----

  predicate IdentsPlain(ts: Tokens) {
    forall i :: 0 <= i < |ts| && ts[i].Ident? ==> '`' !in ts[i].id
  }

  lemma {:induction false} ReadIdentPlain(s: string)
    ensures ReadIdent(s).Some? ==> '`' !in ReadIdent(s).value.0
  {
    if s == "" || s[0] == '`' {
    } else {
      ReadIdentPlain(s[1..]);
    }
  }

  lemma FirstPlain(s: string)
    requires s != ""
    ensures First(s).Some? ==> IdentsPlain(First(s).value.0)
  {
    ReadIdentPlain(s[1..]);
  }

  /** No identifier that is read holds a back-quote. */
  lemma {:induction false} LexPlain(s: string)
    ensures Lex(s).Some? ==> IdentsPlain(Lex(s).value)
    decreases |s|
  {
    hide First;
    if s == "" {
    } else {
      FirstPlain(s);
      if First(s).Some? { LexPlain(s[First(s).value.1..]); }
    }
  }

  lemma {:induction false} ParsedIdentsPlain(ts: Tokens)
    requires IdentsPlain(ts)
    ensures ParseIdents(ts).Some? ==> PlainNames(ParseIdents(ts).value.0)
    decreases |ts|
  {
    if |ts| > 2 { ParsedIdentsPlain(ts[2..]); }
  }

  lemma {:induction false} ParsedSetsPlain(ts: Tokens)
    requires IdentsPlain(ts)
    ensures var r := ParseSets(ts); r.Some? ==> PlainNames(r.value.0) && IdentsPlain(r.value.1)
    decreases |ts|
  {
    if |ts| > 4 { ParsedSetsPlain(ts[4..]); }
  }

  function NamesOf(stmt: Stmt): seq<string> {
    match stmt
    case Insert(_, table, cols, _) => [table] + cols
    case Update(table, cols, key) => [table, key] + cols
    case DeleteOne(table, key) => [table, key]
    case DeleteIn(table, key, _) => [table, key]
    case SelectOne(table, key) => [table, key]
  }

  lemma ParsedNamesPlain(text: string)
    ensures ParseText(text).Some? ==> PlainNames(NamesOf(ParseText(text).value))
  {
    hide Lex, ParseIdents, ParseSets, ParseHolders;
    LexPlain(text);
    if ParseText(text).Some? {
      var ts := Lex(text).value;
      ParsedIdentsPlain(ts[4..]);
      ParsedSetsPlain(ts[3..]);
    }
  }

  /** Each text is the statement that it is meant to be exactly when no name holds a back-quote, and,
      for UPDATE, there is something to set. */
  lemma InsertTextExact(replace: bool, entity: string, cols: seq<string>)
    ensures ParseText(InsertText(replace, entity, cols)) == Some(Insert(replace, entity, cols, |cols|))
       <==> '`' !in entity && PlainNames(cols)
  {
    hide ParseText, InsertText;
    ParsedNamesPlain(InsertText(replace, entity, cols));
    PlainParts([entity], cols);
    PlainPair(entity, entity);
    if '`' !in entity && PlainNames(cols) { InsertParses(replace, entity, cols); }
  }

  lemma UpdateTextExact(entity: string, idColumn: string, cols: seq<string>)
    ensures ParseText(UpdateText(entity, idColumn, cols)) == Some(Update(entity, cols, idColumn))
       <==> '`' !in entity && '`' !in idColumn && PlainNames(cols) && cols != []
  {
    hide ParseText, UpdateText;
    ParsedNamesPlain(UpdateText(entity, idColumn, cols));
    PlainParts([entity, idColumn], cols);
    PlainPair(entity, idColumn);
    UpdateSetsSomething(UpdateText(entity, idColumn, cols));
    if '`' !in entity && '`' !in idColumn && PlainNames(cols) { UpdateParses(entity, idColumn, cols); }
  }

  lemma PlainParts(a: seq<string>, b: seq<string>)
    ensures PlainNames(a + b) <==> PlainNames(a) && PlainNames(b)
  {
    if PlainNames(a + b) {
      assert forall i :: 0 <= i < |a| ==> a[i] == (a + b)[i];
      assert forall i :: 0 <= i < |b| ==> b[i] == (a + b)[|a| + i];
    }
  }

  lemma UpdateSetsSomething(text: string)
    ensures ParseText(text).Some? && ParseText(text).value.Update? ==> ParseText(text).value.cols != []
  {
    hide Lex, ParseIdents, ParseHolders;
  }

  lemma KeyTextsExact(entity: string, idColumn: string, n: nat)
    requires n > 0
    ensures ParseText(DeleteText(entity, idColumn)) == Some(DeleteOne(entity, idColumn))
       <==> '`' !in entity && '`' !in idColumn
    ensures ParseText(MultiDeleteText(entity, idColumn, n)) == Some(DeleteIn(entity, idColumn, n))
       <==> '`' !in entity && '`' !in idColumn
    ensures ParseText(SelectText(entity, idColumn)) == Some(SelectOne(entity, idColumn))
       <==> '`' !in entity && '`' !in idColumn
  {
    hide ParseText, DeleteText, MultiDeleteText, SelectText;
    ParsedNamesPlain(DeleteText(entity, idColumn));
    ParsedNamesPlain(MultiDeleteText(entity, idColumn, n));
    ParsedNamesPlain(SelectText(entity, idColumn));
    PlainPair(entity, idColumn);
    if '`' !in entity && '`' !in idColumn {
      DeleteParses(entity, idColumn);
      MultiDeleteParses(entity, idColumn, n);
      SelectParses(entity, idColumn);
    }
  }

  lemma PlainPair(a: string, b: string)
    ensures PlainNames([a, b]) <==> '`' !in a && '`' !in b
    ensures PlainNames([a]) <==> '`' !in a
  {
    if PlainNames([a, b]) {
      assert [a, b][0] == a && [a, b][1] == b;
    }
    if PlainNames([a]) {
      assert [a][0] == a;
    }
  }

  // ---- Binding placeholders ----

  /** Column i takes value i. */
  function Zip(cols: seq<string>, values: seq<Value>): (m: Row)
    requires |cols| == |values|
    ensures forall c :: c in m <==> c in cols
  {
    if cols == [] then map[] else Zip(cols[1..], values[1..])[cols[0] := values[0]]
  }

  lemma {:induction false} ZipAt(cols: seq<string>, values: seq<Value>, i: nat)
    requires |cols| == |values| && Distinct(cols) && i < |cols|
    ensures Zip(cols, values)[cols[i]] == values[i]
  {
    if i == 0 {
    } else {
      ZipAt(cols[1..], values[1..], i - 1);
    }
  }

  /** The columns of the parsed statement, zipped with the values that go with the text, are the
      body: one placeholder for each value, and the right one. */
  lemma BindingRebuildsBody(body: Row)
    ensures var cols := SortedKeys(body); Zip(cols, ValuesOf(body, cols)) == body
  {
    hide Zip, SortedKeys, Sorted;
    var cols := SortedKeys(body);
    var m := Zip(cols, ValuesOf(body, cols));
    forall c | c in body ensures m[c] == body[c] {
      var i :| 0 <= i < |cols| && cols[i] == c;
      ZipAt(cols, ValuesOf(body, cols), i);
    }
    assert m == body;
  }

  predicate PlainBody(body: Row) {
    forall c :: c in body ==> '`' !in c
  }

  /** Text and values of an INSERT or REPLACE together say exactly the body. */
  lemma InsertCarriesBody(replace: bool, entity: string, body: Row)
    requires '`' !in entity && PlainBody(body)
    ensures var cols, values := SortedKeys(body), ValuesOf(body, SortedKeys(body));
            ParseText(InsertText(replace, entity, cols)) == Some(Insert(replace, entity, cols, |values|))
            && Zip(cols, values) == body
  {
    InsertParses(replace, entity, SortedKeys(body));
    BindingRebuildsBody(body);
  }

  /** Likewise for UPDATE, whose one further placeholder is the id; an empty body makes no
      statement. */
  lemma UpdateCarriesBody(entity: string, idColumn: string, body: Row)
    requires '`' !in entity && '`' !in idColumn && PlainBody(body)
    ensures var cols, values := SortedKeys(body), ValuesOf(body, SortedKeys(body));
            ParseText(UpdateText(entity, idColumn, cols)) ==
              (if body == map[] then None else Some(Update(entity, cols, idColumn)))
            && Zip(cols, values) == body
  {
    UpdateParses(entity, idColumn, SortedKeys(body));
    BindingRebuildsBody(body);
  }
}
