/** A database with one table with a key column: what the parsed statements do to it. It stands in
    for MySQL; the statements reach it as text with positional arguments. */
module Engine {
  import opened Values
  import opened Texts
  import opened Statements

  type Rows = seq<Row>

  /** `reject` is every reason the database has to refuse a statement that is not modelled here:
      constraints, types, foreign keys. */
  datatype Engine = Engine(table: string, key: string, reject: (Rows, Stmt, seq<Value>) -> bool)

  /** Values that can be a key or be compared with one: numbers and strings, compared by text. */
  predicate IsKey(v: Value) {
    v.Str? || v.Num?
  }

  function KeyText(row: Row, col: string): Option<string> {
    if col in row && IsKey(row[col]) then Some(Sprint(row[col])) else None
  }

  /** The row's column equals a value. */
  predicate Same(row: Row, col: string, v: Value) {
    IsKey(v) && KeyText(row, col) == Some(Sprint(v))
  }

  function FindRow(rows: Rows, col: string, v: Value): (r: Option<nat>)
    ensures r.Some? ==> r.value < |rows| && Same(rows[r.value], col, v)
    ensures forall i :: 0 <= i < (if r.Some? then r.value else |rows|) ==> !Same(rows[i], col, v)
  {
    if rows == [] then None
    else if Same(rows[0], col, v) then Some(0)
    else
      match FindRow(rows[1..], col, v)
      case None => None
      case Some(i) => Some(i + 1)
  }

  predicate SameAsAny(row: Row, col: string, vs: seq<Value>) {
    exists i :: 0 <= i < |vs| && Same(row, col, vs[i])
  }

  /** The rows that equal none of the values. */
  function RowsWithout(rows: Rows, col: string, vs: seq<Value>): Rows {
    if rows == [] then []
    else (if SameAsAny(rows[0], col, vs) then [] else [rows[0]]) + RowsWithout(rows[1..], col, vs)
  }

  // ---- Statements ----

  function InsertRow(key: string, rows: Rows, replace: bool, row: Row): Result<Rows> {
    if KeyText(row, key).None? then Err("key has no value")
    else if replace then Ok(RowsWithout(rows, key, [row[key]]) + [row])
    else if FindRow(rows, key, row[key]).Some? then Err("duplicate key")
    else Ok(rows + [row])
  }

  /** At most one row changes (LIMIT 1); no row matching is no error. */
  function UpdateRow(key: string, rows: Rows, col: string, id: Value, change: Row): Result<Rows> {
    match FindRow(rows, col, id)
    case None => Ok(rows)
    case Some(i) =>
      var row := rows[i] + change;
      if KeyText(row, key).None? then Err("key has no value")
      else if FindRow(rows[..i] + rows[i + 1..], key, row[key]).Some? then Err("duplicate key")
      else Ok(rows[i := row])
  }

  function DeleteRow(rows: Rows, col: string, id: Value): Rows {
    match FindRow(rows, col, id)
    case None => rows
    case Some(i) => rows[..i] + rows[i + 1..]
  }

  /** Placeholders take the arguments from left to right. */
  function Exec(eng: Engine, rows: Rows, stmt: Stmt, args: seq<Value>): Result<Rows> {
    if stmt.table != eng.table then Err("no such table")
    else if eng.reject(rows, stmt, args) then Err("rejected")
    else
      match stmt
      case Insert(replace, _, cols, holders) =>
        if |cols| != holders || holders != |args| || !Distinct(cols) then Err("column count")
        else InsertRow(eng.key, rows, replace, Zip(cols, args))
      case Update(_, cols, col) =>
        if |args| != |cols| + 1 || !Distinct(cols) then Err("argument count")
        else UpdateRow(eng.key, rows, col, args[|cols|], Zip(cols, args[..|cols|]))
      case DeleteOne(_, col) => if |args| != 1 then Err("argument count") else Ok(DeleteRow(rows, col, args[0]))
      case DeleteIn(_, col, holders) =>
        if holders != |args| then Err("argument count") else Ok(RowsWithout(rows, col, args))
      case SelectOne(_, _) => Ok(rows)
  }

  /** Arguments that the driver can send: no lists and no objects. */
  predicate Bindable(args: seq<Value>) {
    forall i :: 0 <= i < |args| ==> args[i].IsLeaf()
  }

  function ExecText(eng: Engine, rows: Rows, text: string, args: seq<Value>): Result<Rows> {
    if !Bindable(args) then Err("unsupported type")
    else
      match ParseText(text)
      case None => Err("syntax error")
      case Some(stmt) => Exec(eng, rows, stmt, args)
  }

  /** A SELECT of one item. */
  function QueryText(eng: Engine, rows: Rows, text: string, args: seq<Value>): Result<Option<Row>> {
    if !Bindable(args) then Err("unsupported type")
    else
      match ParseText(text)
      case Some(SelectOne(table, col)) =>
        if table != eng.table || |args| != 1 || eng.reject(rows, SelectOne(table, col), args) then Err("rejected")
        else if FindRow(rows, col, args[0]).None? then Ok(None)
        else Ok(Some(rows[FindRow(rows, col, args[0]).value]))
      case _ => Err("syntax error")
  }

  /** The database refuses nothing by itself. */
  ghost predicate NeverRejects(eng: Engine) {
    forall rows, stmt, args :: !eng.reject(rows, stmt, args)
  }

  /** The row with a key, if any. */
  function Lookup(key: string, rows: Rows, k: string): Option<Row> {
    if rows == [] then None
    else if KeyText(rows[0], key) == Some(k) then Some(rows[0])
    else Lookup(key, rows[1..], k)
  }

  lemma {:induction false} FindIsLookup(key: string, rows: Rows, k: string)
    ensures var i := FindRow(rows, key, Str(k));
            Lookup(key, rows, k) == if i.None? then None else Some(rows[i.value])
  {
    if rows == [] {
    } else {
      FindIsLookup(key, rows[1..], k);
    }
  }

  // ---- Unique keys ----

  /** Every row has a key, and no two rows have the same. */
  ghost predicate UniqueKeys(key: string, rows: Rows) {
    && (forall i :: 0 <= i < |rows| ==> KeyText(rows[i], key).Some?)
    && (forall i, j :: 0 <= i < j < |rows| ==> KeyText(rows[i], key) != KeyText(rows[j], key))
  }

  function KeySet(key: string, rows: Rows): set<string> {
    set i | 0 <= i < |rows| && KeyText(rows[i], key).Some? :: KeyText(rows[i], key).value
  }

  lemma {:induction false} RowsWithoutIs(rows: Rows, col: string, vs: seq<Value>)
    ensures var out := RowsWithout(rows, col, vs);
            forall r :: r in out <==> r in rows && !SameAsAny(r, col, vs)
  {
    if rows == [] {
    } else {
      RowsWithoutIs(rows[1..], col, vs);
      assert rows == [rows[0]] + rows[1..];
    }
  }

  lemma {:induction false} RowsWithoutUnique(key: string, rows: Rows, col: string, vs: seq<Value>)
    requires UniqueKeys(key, rows)
    ensures UniqueKeys(key, RowsWithout(rows, col, vs))
  {
    if rows == [] {
    } else {
      var rest := RowsWithout(rows[1..], col, vs);
      RowsWithoutUnique(key, rows[1..], col, vs);
      RowsWithoutIs(rows[1..], col, vs);
      forall j | 0 <= j < |rest| ensures KeyText(rest[j], key) != KeyText(rows[0], key) {
        assert rest[j] in rows[1..];
      }
    }
  }

  lemma {:induction false} NothingToRemove(rows: Rows, col: string, vs: seq<Value>)
    requires forall i :: 0 <= i < |rows| ==> !SameAsAny(rows[i], col, vs)
    ensures RowsWithout(rows, col, vs) == rows
  {
    if rows == [] {
    } else {
      NothingToRemove(rows[1..], col, vs);
      assert [rows[0]] + rows[1..] == rows;
    }
  }

  lemma SameAsOne(row: Row, col: string, id: Value)
    ensures SameAsAny(row, col, [id]) == Same(row, col, id)
  {
    assert Same(row, col, id) == Same(row, col, [id][0]);
  }

  lemma CutShift<T>(xs: seq<T>, i: nat)
    requires i + 1 < |xs|
    ensures xs[..i + 1] + xs[i + 2..] == [xs[0]] + (xs[1..][..i] + xs[1..][i + 1..])
  {
  }

  lemma FindStep(rows: Rows, col: string, id: Value)
    requires rows != []
    ensures Same(rows[0], col, id) ==> FindRow(rows, col, id) == Some(0)
    ensures !Same(rows[0], col, id) ==>
            FindRow(rows, col, id) ==
            if FindRow(rows[1..], col, id).None? then None else Some(FindRow(rows[1..], col, id).value + 1)
  {
    hide Same;
  }

  lemma DeleteRowStep(rows: Rows, col: string, id: Value)
    requires rows != []
    ensures DeleteRow(rows, col, id) ==
            if Same(rows[0], col, id) then rows[1..] else [rows[0]] + DeleteRow(rows[1..], col, id)
  {
    hide Same, KeyText, FindRow;
    FindStep(rows, col, id);
    if Same(rows[0], col, id) {
      assert rows[..0] + rows[1..] == rows[1..];
    } else if FindRow(rows[1..], col, id).Some? {
      CutShift(rows, FindRow(rows[1..], col, id).value);
    } else {
      assert [rows[0]] + rows[1..] == rows;
    }
  }

  /** On a key-unique table, removing the first row with a key removes every row with it. */
  lemma {:induction false} DeleteIsWithout(key: string, rows: Rows, id: Value)
    requires UniqueKeys(key, rows)
    ensures DeleteRow(rows, key, id) == RowsWithout(rows, key, [id])
  {
    hide Same, SameAsAny, FindRow, KeyText;
    if rows == [] {
      NothingFound(key, id);
    } else {
      DeleteRowStep(rows, key, id);
      SameAsOne(rows[0], key, id);
      DeleteIsWithout(key, rows[1..], id);
      if Same(rows[0], key, id) {
        forall j | 0 <= j < |rows[1..]| ensures !SameAsAny(rows[1..][j], key, [id]) {
          OnlyOne(key, rows, 0, j + 1, id);
          SameAsOne(rows[1..][j], key, id);
        }
        NothingToRemove(rows[1..], key, [id]);
      }
    }
  }

  lemma NothingFound(key: string, id: Value)
    ensures FindRow([], key, id) == None
  {
  }

  lemma OnlyOne(key: string, rows: Rows, i: nat, j: nat, id: Value)
    requires UniqueKeys(key, rows) && i < j < |rows| && Same(rows[i], key, id)
    ensures !Same(rows[j], key, id)
  {
  }

  lemma ReplaceIsRowsPlus(key: string, rows: Rows, row: Row)
    requires UniqueKeys(key, rows) && KeyText(row, key).Some?
    ensures UniqueKeys(key, RowsWithout(rows, key, [row[key]]) + [row])
  {
    var kept := RowsWithout(rows, key, [row[key]]);
    RowsWithoutUnique(key, rows, key, [row[key]]);
    RowsWithoutIs(rows, key, [row[key]]);
    forall i | 0 <= i < |kept| ensures KeyText(kept[i], key) != KeyText(row, key) {
      assert kept[i] in kept;
      assert !Same(kept[i], key, [row[key]][0]);
    }
  }

  lemma UpdateKeepsUnique(key: string, rows: Rows, col: string, id: Value, change: Row)
    requires UniqueKeys(key, rows)
    ensures var r := UpdateRow(key, rows, col, id, change); r.Ok? ==> UniqueKeys(key, r.value)
  {
    var r := UpdateRow(key, rows, col, id, change);
    if r.Ok? && FindRow(rows, col, id).Some? {
      var i := FindRow(rows, col, id).value;
      var row := rows[i] + change;
      var others := rows[..i] + rows[i + 1..];
      forall j | 0 <= j < |rows| && j != i ensures KeyText(rows[j], key) != KeyText(row, key) {
        var k := if j < i then j else j - 1;
        assert others[k] == rows[j] && !Same(others[k], key, row[key]);
      }
    }
  }

  /** Every statement keeps keys unique. */
  lemma ExecKeepsUnique(eng: Engine, rows: Rows, stmt: Stmt, args: seq<Value>)
    requires UniqueKeys(eng.key, rows)
    ensures var r := Exec(eng, rows, stmt, args); r.Ok? ==> UniqueKeys(eng.key, r.value)
  {
    var r := Exec(eng, rows, stmt, args);
    if r.Ok? {
      match stmt
      case Insert(replace, _, cols, _) =>
        var row := Zip(cols, args);
        if replace { ReplaceIsRowsPlus(eng.key, rows, row); }
        else {
          assert forall i :: 0 <= i < |rows| ==> !Same(rows[i], eng.key, row[eng.key]);
        }
      case Update(_, cols, col) =>
        UpdateKeepsUnique(eng.key, rows, col, args[|cols|], Zip(cols, args[..|cols|]));
      case DeleteOne(_, col) =>
      case DeleteIn(_, col, _) => RowsWithoutUnique(eng.key, rows, col, args);
      case SelectOne(_, _) =>
    }
  }
}
