/** SQL search conditions (SQL-92, section 8.12): grammar and three-valued meaning. Nothing here
    knows how the bridge prints filters. */
module SqlCondition {
  import opened Values
  import opened Texts
  import opened SqlLexer

  datatype Cond =
    | Compare(name: string, op: string, val: Value)  // section 8.2, and LIKE of section 8.5
    | Range(name: string, left: Value, right: Value) // section 8.3
    | Member(name: string, vals: seq<Value>)         // section 8.4
    | NullTest(name: string, negated: bool)          // section 8.6
    | Neg(arg: Cond)
    | Group(arg: Cond)
    | And(args: seq<Cond>)
    | Or(args: seq<Cond>)

  type Parse = Option<(Cond, Tokens)>

  /** The reserved words of MySQL 8.0 (Reference Manual, section 9.3), in lower case. */
  predicate IsKeyword(w: string) {
    match |w|
    case 2 => w in {"as", "by", "if", "in", "is", "of", "on", "or", "to"}
    case 3 =>
      w in {"add", "all", "and", "asc", "dec", "div", "for", "get", "int", "key", "lag", "mod", "not", "out", "row",
            "set", "sql", "ssl", "use", "xor"}
    case 4 =>
      w in {"blob", "both", "call", "case", "char", "cube", "desc", "drop", "dual", "each", "else", "exit", "from",
            "int1", "int2", "int3", "int4", "int8", "into", "join", "keys", "kill", "lead", "left", "like", "load",
            "lock", "long", "loop", "null", "over", "rank", "read", "real", "rows", "show", "then", "true", "undo",
            "when", "with"}
    case 5 =>
      w in {"alter", "check", "cross", "empty", "false", "fetch", "float", "force", "grant", "group", "index",
            "inner", "inout", "leave", "limit", "lines", "match", "ntile", "order", "outer", "purge", "range",
            "reads", "right", "rlike", "table", "union", "usage", "using", "where", "while", "write"}
    case 6 =>
      w in {"before", "bigint", "binary", "change", "column", "create", "cursor", "delete", "double", "elseif",
            "except", "exists", "float4", "float8", "groups", "having", "ignore", "infile", "insert", "linear",
            "option", "regexp", "rename", "repeat", "return", "revoke", "schema", "select", "signal", "stored",
            "system", "unique", "unlock", "update", "values", "window"}
    case 7 =>
      w in {"analyze", "between", "cascade", "collate", "convert", "decimal", "declare", "default", "delayed",
            "escaped", "explain", "foreign", "integer", "iterate", "lateral", "leading", "natural", "numeric",
            "outfile", "primary", "release", "replace", "require", "schemas", "spatial", "tinyint", "trigger",
            "varchar", "varying", "virtual"}
    case 8 =>
      w in {"continue", "database", "day_hour", "describe", "distinct", "enclosed", "fulltext", "function",
            "grouping", "interval", "longblob", "longtext", "maxvalue", "modifies", "optimize", "resignal",
            "restrict", "smallint", "specific", "sqlstate", "starting", "tinyblob", "tinytext", "trailing",
            "unsigned", "utc_date", "utc_time", "zerofill"}
    case 9 =>
      w in {"character", "condition", "cume_dist", "databases", "generated", "intersect", "localtime", "mediumint",
            "middleint", "nth_value", "partition", "precision", "procedure", "recursive", "sensitive", "separator",
            "varbinary"}
    case 10 =>
      w in {"accessible", "asensitive", "constraint", "day_minute", "day_second", "dense_rank", "json_table",
            "last_value", "mediumblob", "mediumtext", "optionally", "read_write", "references", "row_number",
            "sqlwarning", "terminated", "year_month"}
    case 11 => w in {"distinctrow", "first_value", "hour_minute", "hour_second", "insensitive", "master_bind"}
    case 12 =>
      w in {"current_date", "current_time", "current_user", "low_priority", "percent_rank", "sqlexception",
            "varcharacter"}
    case 13 => w in {"deterministic", "high_priority", "minute_second", "straight_join", "utc_timestamp"}
    case 14 => w in {"io_after_gtids", "localtimestamp", "sql_big_result"}
    case 15 => w in {"day_microsecond", "io_before_gtids", "optimizer_costs"}
    case 16 => w in {"hour_microsecond", "sql_small_result"}
    case 17 => w in {"current_timestamp"}
    case 18 => w in {"minute_microsecond", "no_write_to_binlog", "second_microsecond"}
    case 19 => w in {"sql_calc_found_rows"}
    case 29 => w in {"master_ssl_verify_server_cert"}
    case _ => false
  }

  predicate IsReserved(w: string) {
    IsKeyword(Lower(w))
  }

  predicate IsLetter(c: char) {
    'A' <= c <= 'Z' || 'a' <= c <= 'z' || c == '_'
  }

  /** A regular identifier (section 5.2): the only unquoted text that names a column. */
  predicate IsColumn(w: string) {
    |w| > 0 && IsLetter(w[0]) && (forall i :: 0 <= i < |w| ==> IsLetter(w[i]) || IsDigit(w[i])) && !IsReserved(w)
  }

  lemma KeywordsAreNoColumns()
    ensures !IsColumn("NOT") && !IsColumn("LIKE") && !IsColumn("IN") && !IsColumn("IS") && !IsColumn("BETWEEN")
  {
    hide IsKeyword, IsColumn, Lower;
    KeywordsInLowerCase();
    LowerShort();
    LowerBetween();
    KeywordIsNoColumn("NOT");
    KeywordIsNoColumn("LIKE");
    KeywordIsNoColumn("IN");
    KeywordIsNoColumn("IS");
    KeywordIsNoColumn("BETWEEN");
  }

  lemma LowerShort()
    ensures Lower("NOT") == "not" && Lower("LIKE") == "like" && Lower("IN") == "in" && Lower("IS") == "is"
  {
  }

  lemma LowerBetween()
    ensures Lower("BETWEEN") == "between"
  {
    LowerBoth("BET", "WEEN");
    assert "BET" + "WEEN" == "BETWEEN" && "bet" + "ween" == "between";
    assert Lower("BET") == "bet" && Lower("WEEN") == "ween";
  }

  lemma KeywordIsNoColumn(w: string)
    ensures IsKeyword(Lower(w)) ==> !IsColumn(w)
  {
    hide IsKeyword, Lower;
  }

  lemma KeywordsInLowerCase()
    ensures IsKeyword("not") && IsKeyword("like") && IsKeyword("in") && IsKeyword("is") && IsKeyword("between")
  {
  }

  lemma ColumnIsWord(w: string)
    requires IsColumn(w)
    ensures IsWord(w)
  {
    hide IsReserved;
  }

  predicate IsComparison(op: string) {
    op == "=" || op == "<>" || op == "!=" || op == "<" || op == ">"
  }

  predicate StartsWith(ts: Tokens, w: string) {
    |ts| > 0 && ts[0] == Word(w)
  }

  /** search condition ::= boolean term { OR boolean term } */
  function ParseOr(ts: Tokens): (r: Parse)
    ensures r.Some? ==> |r.value.1| < |ts|
    decreases |ts|, 4
  {
    match ParseAnd(ts)
    case None => None
    case Some((c, rest)) => ParseOrTail([c], rest)
  }

  function ParseOrTail(acc: seq<Cond>, ts: Tokens): (r: Parse)
    requires acc != []
    ensures r.Some? ==> |r.value.1| <= |ts|
    decreases |ts|, 3
  {
    if StartsWith(ts, "OR") then
      match ParseAnd(ts[1..])
      case None => None
      case Some((c, rest)) => ParseOrTail(acc + [c], rest)
    else Some((if |acc| == 1 then acc[0] else Or(acc), ts))
  }

  /** boolean term ::= boolean factor { AND boolean factor } */
  function ParseAnd(ts: Tokens): (r: Parse)
    ensures r.Some? ==> |r.value.1| < |ts|
    decreases |ts|, 2
  {
    match ParseFactor(ts)
    case None => None
    case Some((c, rest)) => ParseAndTail([c], rest)
  }

  function ParseAndTail(acc: seq<Cond>, ts: Tokens): (r: Parse)
    requires acc != []
    ensures r.Some? ==> |r.value.1| <= |ts|
    decreases |ts|, 2
  {
    if StartsWith(ts, "AND") then
      match ParseFactor(ts[1..])
      case None => None
      case Some((c, rest)) => ParseAndTail(acc + [c], rest)
    else Some((if |acc| == 1 then acc[0] else And(acc), ts))
  }

  /** boolean factor ::= [ NOT ] boolean primary */
  function ParseFactor(ts: Tokens): (r: Parse)
    ensures r.Some? ==> |r.value.1| < |ts|
    decreases |ts|, 1
  {
    if StartsWith(ts, "NOT") then
      match ParsePrimary(ts[1..])
      case None => None
      case Some((c, rest)) => Some((Neg(c), rest))
    else ParsePrimary(ts)
  }

  /** boolean primary ::= predicate | ( search condition ) */
  function ParsePrimary(ts: Tokens): (r: Parse)
    ensures r.Some? ==> |r.value.1| < |ts|
    decreases |ts|, 0
  {
    if |ts| > 0 && ts[0] == LParen then
      match ParseOr(ts[1..])
      case None => None
      case Some((c, rest)) => if |rest| > 0 && rest[0] == RParen then Some((Group(c), rest[1..])) else None
    else ParsePredicate(ts)
  }

  function ParseValue(ts: Tokens): (r: Option<(Value, Tokens)>)
    ensures r.Some? ==> |r.value.1| < |ts|
  {
    if ts == [] then None
    else
      match ts[0]
      case Text(s) => Some((Str(s), ts[1..]))
      case Word(w) =>
        if w == "true" then Some((Bool(true), ts[1..]))
        else if w == "false" then Some((Bool(false), ts[1..]))
        else if IsNumToken(w) then Some((Num(w), ts[1..]))
        else None
      case _ => None
  }

  /** in value list ::= value { , value }, up to and including the closing parenthesis */
  function ParseValues(ts: Tokens): (r: Option<(seq<Value>, Tokens)>)
    ensures r.Some? ==> |r.value.1| < |ts|
    decreases |ts|
  {
    match ParseValue(ts)
    case None => None
    case Some((v, rest)) =>
      if rest == [] then None
      else if rest[0] == RParen then Some(([v], rest[1..]))
      else if rest[0] == Comma then
        match ParseValues(rest[1..])
        case None => None
        case Some((vs, rest')) => Some(([v] + vs, rest'))
      else None
  }

  function ParseCompare(name: string, op: string, ts: Tokens): (r: Parse)
    ensures r.Some? ==> |r.value.1| < |ts|
  {
    match ParseValue(ts)
    case None => None
    case Some((v, rest)) => Some((Compare(name, op, v), rest))
  }

  function ParsePredicate(ts: Tokens): (r: Parse)
    ensures r.Some? ==> |r.value.1| < |ts|
  {
    if |ts| < 2 || !ts[0].Word? || !IsColumn(ts[0].w) then None
    else
      var name, rest := ts[0].w, ts[2..];
      match ts[1]
      case Sym(op) => if IsComparison(op) then ParseCompare(name, op, rest) else None
      case Word(w) =>
        if w == "LIKE" then ParseCompare(name, "LIKE", rest)
        else if w == "NOT" && StartsWith(rest, "LIKE") then ParseCompare(name, "NOT LIKE", rest[1..])
        else if w == "IS" && StartsWith(rest, "NULL") then Some((NullTest(name, false), rest[1..]))
        else if w == "IS" && StartsWith(rest, "NOT") && StartsWith(rest[1..], "NULL") then
          Some((NullTest(name, true), rest[2..]))
        else if w == "IN" && |rest| > 0 && rest[0] == LParen then
          match ParseValues(rest[1..])
          case None => None
          case Some((vs, rest')) => Some((Member(name, vs), rest'))
        else if w == "BETWEEN" then
          match ParseValue(rest)
          case None => None
          case Some((l, rest')) =>
            if !StartsWith(rest', "AND") then None
            else
              match ParseValue(rest'[1..])
              case None => None
              case Some((r, rest'')) => Some((Range(name, l, r), rest''))
        else None
      case _ => None
  }

  /** A text that is one whole search condition. */
  function ParseCondition(text: string): Option<Cond> {
    match Lex(text)
    case None => None
    case Some(ts) =>
      match ParseOr(ts)
      case None => None
      case Some((c, rest)) => if rest == [] then Some(c) else None
  }

  // ---- Meaning ----

  datatype Truth = False | Unknown | True

  function TruthOf(b: bool): Truth {
    if b then True else False
  }

  function Negate(t: Truth): Truth {
    match t
    case False => True
    case Unknown => Unknown
    case True => False
  }

  function Both(a: Truth, b: Truth): Truth {
    if a.False? || b.False? then False else if a.True? && b.True? then True else Unknown
  }

  function Either(a: Truth, b: Truth): Truth {
    if a.True? || b.True? then True else if a.False? && b.False? then False else Unknown
  }

  /** How the database decides a comparison of non-null values that is not an equality of
      strings: orderings, patterns and type coercion. */
  type Collation = (string, Value, Value) -> bool

  function Column(row: Row, name: string): Value {
    if name in row then row[name] else Null
  }

  function Comparison(cmp: Collation, op: string, a: Value, b: Value): Truth {
    if a.Null? || b.Null? then Unknown
    else if a.Str? && b.Str? && op == "=" then TruthOf(a == b)
    else if a.Str? && b.Str? && (op == "<>" || op == "!=") then TruthOf(a != b)
    else TruthOf(cmp(op, a, b))
  }

  function Eval(cmp: Collation, c: Cond, row: Row): Truth {
    match c
    case Compare(name, op, v) => Comparison(cmp, op, Column(row, name), v)
    case Range(name, l, r) =>
      Both(Comparison(cmp, ">=", Column(row, name), l), Comparison(cmp, "<=", Column(row, name), r))
    case Member(name, vs) => AnyEqual(cmp, Column(row, name), vs)
    case NullTest(name, negated) => TruthOf(Column(row, name).Null? != negated)
    case Neg(a) => Negate(Eval(cmp, a, row))
    case Group(a) => Eval(cmp, a, row)
    case And(cs) => EvalAll(cmp, cs, row)
    case Or(cs) => EvalAny(cmp, cs, row)
  }

  function AnyEqual(cmp: Collation, v: Value, vs: seq<Value>): Truth {
    if vs == [] then False else Either(Comparison(cmp, "=", v, vs[0]), AnyEqual(cmp, v, vs[1..]))
  }

  function EvalAll(cmp: Collation, cs: seq<Cond>, row: Row): Truth {
    if cs == [] then True else Both(Eval(cmp, cs[0], row), EvalAll(cmp, cs[1..], row))
  }

  function EvalAny(cmp: Collation, cs: seq<Cond>, row: Row): Truth {
    if cs == [] then False else Either(Eval(cmp, cs[0], row), EvalAny(cmp, cs[1..], row))
  }

  /** WHERE keeps a row only when its condition is true; no WHERE keeps every row. */
  predicate Selects(cmp: Collation, where: Option<Cond>, row: Row) {
    where.None? || Eval(cmp, where.value, row) == True
  }
}
