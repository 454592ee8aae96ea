/** A lexer for SQL text (SQL-92, sections 5.1 to 5.3, with MySQL's back-quoted identifiers, comments
    and `?` placeholders). */
module SqlLexer {
  import opened Values

  datatype Token =
    | LParen
    | RParen
    | Comma
    | Word(w: string)   // keyword, plain identifier or number
    | Sym(op: string)   // run of comparison characters
    | Text(s: string)   // character string literal
    | Ident(id: string) // back-quoted identifier

  type Tokens = seq<Token>

  predicate IsSpace(c: char) { c == ' ' || c == '\t' || c == '\n' || c == '\r' }

  predicate IsSymChar(c: char) { c == '<' || c == '=' || c == '>' || c == '!' }

  predicate IsWordChar(c: char) {
    && !IsSpace(c) && !IsSymChar(c) && c != '(' && c != ')' && c != ',' && c != '\'' && c != '`'
    && c != '\"' && c != '#' && c != '/'
  }

  /** Two hyphens at the end of a word begin a comment if white space or nothing follows. */
  predicate EndsInHyphens(s: string) {
    |s| >= 2 && s[|s| - 2] == '-' && s[|s| - 1] == '-'
  }

  predicate IsWord(s: string) {
    |s| > 0 && (forall i :: 0 <= i < |s| ==> IsWordChar(s[i])) && !EndsInHyphens(s)
  }

  predicate IsSym(s: string) {
    |s| > 0 && forall i :: 0 <= i < |s| ==> IsSymChar(s[i])
  }

  /** Length of the leading run of word (or comparison) characters. */
  function Run(s: string, sym: bool): (n: nat)
    ensures n <= |s|
    ensures s != "" && (if sym then IsSymChar(s[0]) else IsWordChar(s[0])) ==> n > 0
  {
    if s != "" && (if sym then IsSymChar(s[0]) else IsWordChar(s[0])) then 1 + Run(s[1..], sym) else 0
  }

  /** The rest of a string literal after its opening quote: its value, in which a doubled quote
      stands for one, and how many characters it takes. */
  function ReadText(s: string): (r: Option<(string, nat)>)
    ensures r.Some? ==> 0 < r.value.1 <= |s|
  {
    if s == "" then None
    else if s[0] != '\'' then
      match ReadText(s[1..])
      case None => None
      case Some((v, n)) => Some(([s[0]] + v, n + 1))
    else if |s| > 1 && s[1] == '\'' then
      match ReadText(s[2..])
      case None => None
      case Some((v, n)) => Some((['\''] + v, n + 2))
    else Some(("", 1))
  }

  function ReadIdent(s: string): (r: Option<(string, nat)>)
    ensures r.Some? ==> 0 < r.value.1 <= |s|
  {
    if s == "" then None
    else if s[0] == '`' then Some(("", 1))
    else
      match ReadIdent(s[1..])
      case None => None
      case Some((v, n)) => Some(([s[0]] + v, n + 1))
  }

  // Comments: from two hyphens and white space, or from a hash, to the end of the line, and bracketed
  // ones, which have to be closed.

  predicate LineComment(s: string) {
    s != "" && (s[0] == '#' || (|s| >= 2 && s[0] == '-' && s[1] == '-' && (|s| == 2 || IsSpace(s[2]))))
  }

  function ToNewline(s: string): (n: nat)
    ensures n <= |s| && (s != "" ==> n > 0)
  {
    if s == "" then 0 else if s[0] == '\n' then 1 else 1 + ToNewline(s[1..])
  }

  predicate BracketedComment(s: string) {
    |s| > 2 && s[0] == '/' && s[1] == '*' && s[2] != '!'
  }

  function ToBracket(s: string): (r: Option<nat>)
    ensures r.Some? ==> 0 < r.value <= |s|
  {
    if |s| < 2 then None
    else if s[0] == '*' && s[1] == '/' then Some(2)
    else
      match ToBracket(s[1..])
      case None => None
      case Some(n) => Some(1 + n)
  }

  /** The leading word of a text, without a comment that begins in it. */
  function WordLength(s: string): (n: nat)
    requires s != "" && IsWordChar(s[0]) && !LineComment(s)
    ensures 0 < n <= |s|
  {
    var n := Run(s, false);
    if EndsInHyphens(s[..n]) && (n == |s| || IsSpace(s[n])) then n - 2 else n
  }

  /** The first token of a text, or none for white space and comments, and how many characters it
      takes. */
  function First(s: string): (r: Option<(Tokens, nat)>)
    requires s != ""
    ensures r.Some? ==> 0 < r.value.1 <= |s|
  {
    var c := s[0];
    if IsSpace(c) then Some(([], 1))
    else if LineComment(s) then Some(([], ToNewline(s)))
    else if c == '/' then
      if !BracketedComment(s) then None
      else
        match ToBracket(s[2..])
        case None => None
        case Some(n) => Some(([], 2 + n))
    else if c == '\"' then None
    else if c == '(' then Some(([LParen], 1))
    else if c == ')' then Some(([RParen], 1))
    else if c == ',' then Some(([Comma], 1))
    else if c == '\'' then
      match ReadText(s[1..])
      case None => None
      case Some((v, n)) => Some(([Text(v)], 1 + n))
    else if c == '`' then
      match ReadIdent(s[1..])
      case None => None
      case Some((v, n)) => Some(([Ident(v)], 1 + n))
    else if IsSymChar(c) then
      var n := Run(s, true);
      Some(([Sym(s[..n])], n))
    else
      var n := WordLength(s);
      Some(([Word(s[..n])], n))
  }

  /** A lexed text with more tokens put in front. */
  function Before(ts: Tokens, r: Option<Tokens>): Option<Tokens> {
    if r.None? then None else Some(ts + r.value)
  }

  function Lex(s: string): Option<Tokens>
    decreases |s|
  {
    if s == "" then Some([])
    else
      match First(s)
      case None => None
      case Some((ts, n)) => Before(ts, Lex(s[n..]))
  }
}
