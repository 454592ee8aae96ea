/** Whole runs of writes under a configuration: what permissions guarantee. */
module WriteRuns {
  import opened Values
  import opened Texts
  import opened Statements
  import opened Engine
  import opened Crud
  import opened BulkLaws

  /** One call of the CRUD interface. Bulk calls may find the server unwilling to begin or commit. */
  datatype Op =
    | OpCreate(entity: string, body: Row, lastId: Option<string>)
    | OpUpdate(entity: string, id: string, body: Row)
    | OpDelete(entity: string, id: string)
    | OpMultiDelete(entity: string, ids: seq<Value>)
    | OpMultiUpdate(entity: string, objs: seq<Row>, begins: bool, commits: bool)
    | OpMultiCreate(entity: string, objs: seq<Row>, replace: bool, begins: bool, commits: bool)

  function StepEffect(env: Env, rows: Rows, op: Op): Effect {
    match op
    case OpCreate(entity, body, _) => SingleEffect(env.cfg.create, rows, CreateOne(env, rows, entity, false, body))
    case OpUpdate(entity, id, body) => SingleEffect(env.cfg.update, rows, UpdateOne(env, rows, entity, id, body))
    case OpDelete(entity, id) => SingleEffect(env.cfg.delete, rows, DeleteOneItem(env, rows, entity, id))
    case OpMultiDelete(entity, ids) => SingleEffect(env.cfg.delete, rows, MultiDeleteRows(env, rows, entity, ids))
    case OpMultiUpdate(entity, objs, begins, commits) =>
      BulkEffect(env.cfg.update, begins, commits, rows, FoldUpdate(env, rows, entity, objs))
    case OpMultiCreate(entity, objs, replace, begins, commits) =>
      BulkEffect(env.cfg.create, begins, commits, rows, FoldCreate(env, rows, entity, replace, objs))
  }

  function RunRows(env: Env, rows: Rows, ops: seq<Op>): Rows {
    if ops == [] then rows
    else StepEffect(env, RunRows(env, rows, ops[..|ops| - 1]), ops[|ops| - 1]).rows
  }

  // ---- The CRUD layer performs such runs ----

  method NewDtos(bodies: seq<Row>) returns (objs: seq<UntypedDto>)
    ensures Distinct(objs) && FieldsOf(objs) == bodies
    ensures forall o :: o in objs ==> fresh(o)
  {
    objs := [];
    for i := 0 to |bodies|
      invariant |objs| == i && Distinct(objs)
      invariant forall j :: 0 <= j < i ==> objs[j].fields == bodies[j]
      invariant forall o :: o in objs ==> fresh(o)
    {
      var o := new UntypedDto(bodies[i]);
      objs := objs + [o];
    }
  }

  method Perform(c: Impl, op: Op)
    requires c.Valid()
    modifies c.db
    ensures c.db.rows == StepEffect(c.env, old(c.db.rows), op).rows
  {
    hide CreateOne, UpdateOne, DeleteOneItem, MultiDeleteRows, FoldUpdate, FoldCreate;
    match op {
      case OpCreate(entity, body, lastId) =>
        var dto := new UntypedDto(body);
        var _ := c.Create(entity, dto, lastId);
      case OpUpdate(entity, id, body) =>
        var dto := new UntypedDto(body);
        var _ := c.Update(entity, id, dto);
      case OpDelete(entity, id) => var _ := c.Delete(entity, id);
      case OpMultiDelete(entity, ids) => var _ := c.MultiDelete(entity, ids);
      case OpMultiUpdate(entity, bodies, begins, commits) =>
        c.db.beginFails, c.db.commitFails := !begins, !commits;
        var objs := NewDtos(bodies);
        var _, _ := c.MultiUpdate(entity, objs);
      case OpMultiCreate(entity, bodies, replace, begins, commits) =>
        c.db.beginFails, c.db.commitFails := !begins, !commits;
        var objs := NewDtos(bodies);
        var _ := c.MultiCreate(entity, replace, objs);
    }
  }

  method PerformAll(c: Impl, ops: seq<Op>)
    requires c.Valid()
    modifies c.db
    ensures c.db.rows == RunRows(c.env, old(c.db.rows), ops)
  {
    hide StepEffect;
    for i := 0 to |ops|
      invariant c.db.rows == RunRows(c.env, old(c.db.rows), ops[..i])
    {
      assert ops[..i + 1][..i] == ops[..i];
      Perform(c, ops[i]);
    }
    assert ops[..|ops|] == ops;
  }

  // ---- Nothing allowed, nothing written ----

  /** With create, update and delete off, no run of calls changes the table. */
  lemma {:induction false} NoPermissionNoChange(env: Env, rows: Rows, ops: seq<Op>)
    requires !env.cfg.create && !env.cfg.update && !env.cfg.delete
    ensures RunRows(env, rows, ops) == rows
  {
    if ops == [] {
    } else {
      NoPermissionNoChange(env, rows, ops[..|ops| - 1]);
    }
  }

  // ---- Keys stay unique ----

  lemma ExecTextKeepsUnique(eng: Engine, rows: Rows, text: string, args: seq<Value>)
    requires UniqueKeys(eng.key, rows)
    ensures var r := ExecText(eng, rows, text, args); r.Ok? ==> UniqueKeys(eng.key, r.value)
  {
    if ParseText(text).Some? {
      ExecKeepsUnique(eng, rows, ParseText(text).value, args);
    }
  }

  lemma CreateKeepsUnique(env: Env, rows: Rows, entity: string, replace: bool, body: Row)
    requires UniqueKeys(env.eng.key, rows)
    ensures var r := CreateOne(env, rows, entity, replace, body); r.Ok? ==> UniqueKeys(env.eng.key, r.value)
  {
    var b := Remap(env, body);
    ExecTextKeepsUnique(env.eng, rows, InsertText(replace, entity, SortedKeys(b)), InsertValues(b));
  }

  lemma UpdateOneKeepsUnique(env: Env, rows: Rows, entity: string, id: string, body: Row)
    requires UniqueKeys(env.eng.key, rows)
    ensures var r := UpdateOne(env, rows, entity, id, body); r.Ok? ==> UniqueKeys(env.eng.key, r.value)
  {
    var b := Remap(env, body);
    var text := UpdateText(entity, IdColumn(env.cfg, entity), SortedKeys(b));
    ExecTextKeepsUnique(env.eng, rows, text, InsertValues(b) + [Str(id)]);
  }

  lemma {:induction false} FoldsKeepUnique(env: Env, rows: Rows, entity: string, replace: bool, objs: seq<Row>)
    requires UniqueKeys(env.eng.key, rows)
    ensures var r := FoldCreate(env, rows, entity, replace, objs); r.Ok? ==> UniqueKeys(env.eng.key, r.value)
    ensures var r := FoldUpdate(env, rows, entity, objs); r.Ok? ==> UniqueKeys(env.eng.key, r.value)
  {
    hide CreateOne, UpdateOne, UniqueKeys;
    if objs == [] {
    } else {
      var n := |objs| - 1;
      FoldsKeepUnique(env, rows, entity, replace, objs[..n]);
      var c := FoldCreate(env, rows, entity, replace, objs[..n]);
      var u := FoldUpdate(env, rows, entity, objs[..n]);
      if c.Ok? { CreateKeepsUnique(env, c.value, entity, replace, objs[n]); }
      if u.Ok? && UpdateObject(env, u.value, entity, objs[n]).Ok? {
        UpdateOneKeepsUnique(env, u.value, entity, objs[n][IdColumn(env.cfg, entity)].s, objs[n]);
      }
    }
  }

  lemma StepKeepsUnique(env: Env, rows: Rows, op: Op)
    requires UniqueKeys(env.eng.key, rows)
    ensures UniqueKeys(env.eng.key, StepEffect(env, rows, op).rows)
  {
    hide CreateOne, UpdateOne, UniqueKeys, FoldCreate, FoldUpdate, ExecText;
    var idCol := IdColumn(env.cfg, op.entity);
    match op
    case OpCreate(entity, body, _) => CreateKeepsUnique(env, rows, entity, false, body);
    case OpUpdate(entity, id, body) => UpdateOneKeepsUnique(env, rows, entity, id, body);
    case OpDelete(entity, id) => ExecTextKeepsUnique(env.eng, rows, DeleteText(entity, idCol), [Str(id)]);
    case OpMultiDelete(entity, ids) =>
      if |ids| == 1 {
        ExecTextKeepsUnique(env.eng, rows, DeleteText(entity, idCol), [Str(Sprint(ids[0]))]);
      } else {
        ExecTextKeepsUnique(env.eng, rows, MultiDeleteText(entity, idCol, |ids|), ids);
      }
    case OpMultiUpdate(entity, objs, _, _) => FoldsKeepUnique(env, rows, entity, false, objs);
    case OpMultiCreate(entity, objs, replace, _, _) => FoldsKeepUnique(env, rows, entity, replace, objs);
  }

  /** No run of calls, under any permissions and with any bodies, makes two rows share a key. */
  lemma {:induction false} RunKeepsUnique(env: Env, rows: Rows, ops: seq<Op>)
    requires UniqueKeys(env.eng.key, rows)
    ensures UniqueKeys(env.eng.key, RunRows(env, rows, ops))
  {
    if ops == [] {
    } else {
      RunKeepsUnique(env, rows, ops[..|ops| - 1]);
      StepKeepsUnique(env, RunRows(env, rows, ops[..|ops| - 1]), ops[|ops| - 1]);
    }
  }

  // ---- Without delete permission no id disappears ----

  /** The id column comes through the date and blob conversions as it is. */
  predicate IdUntouched(env: Env, entity: string, obj: Row) {
    var idCol := IdColumn(env.cfg, entity);
    idCol in obj ==> Remap(env, obj)[idCol] == obj[idCol]
  }

  /** Calls whose update bodies leave the id column out, or (in bulk, where the id is taken from
      the object) set it to itself; names are plain, and the table's id column is its key. */
  predicate KeepsIds(env: Env, op: Op) {
    && '`' !in op.entity && '`' !in IdColumn(env.cfg, op.entity)
    && (op.entity == env.eng.table ==> IdColumn(env.cfg, op.entity) == env.eng.key)
    && match op
       case OpCreate(_, body, _) => PlainBody(body)
       case OpUpdate(entity, _, body) => PlainBody(body) && IdColumn(env.cfg, entity) !in body
       case OpMultiUpdate(entity, objs, _, _) =>
         PlainBodies(objs) && forall i :: 0 <= i < |objs| ==> IdUntouched(env, entity, objs[i])
       case OpMultiCreate(_, objs, _, _, _) => PlainBodies(objs)
       case _ => true
  }

  lemma InsertKeepsKeys(key: string, rows: Rows, replace: bool, row: Row)
    ensures var r := InsertRow(key, rows, replace, row); r.Ok? ==> KeySet(key, rows) <= KeySet(key, r.value)
  {
    var r := InsertRow(key, rows, replace, row);
    if r.Ok? {
      if replace {
        forall k | k in KeySet(key, rows) ensures k in KeySet(key, r.value) {
          KeySetIsLookup(key, rows, k);
          KeySetIsLookup(key, r.value, k);
          ReplaceLookup(key, rows, row, k);
        }
      } else {
        KeySetAppend(key, rows, row);
      }
    }
  }

  /** An update by key keeps every key if it leaves the key column alone or sets it to the id. */
  lemma UpdateKeepsKeys(key: string, rows: Rows, id: string, change: Row)
    requires key !in change || change[key] == Str(id)
    ensures var r := UpdateRow(key, rows, key, Str(id), change); r.Ok? ==> KeySet(key, rows) <= KeySet(key, r.value)
  {
    var r := UpdateRow(key, rows, key, Str(id), change);
    if r.Ok? && FindRow(rows, key, Str(id)).Some? {
      var n := FindRow(rows, key, Str(id)).value;
      assert KeyText(r.value[n], key) == KeyText(rows[n], key) == Some(id);
      forall k | k in KeySet(key, rows) ensures k in KeySet(key, r.value) {
        var i :| 0 <= i < |rows| && KeyText(rows[i], key) == Some(k);
        assert KeyText(r.value[i], key) == Some(k);
      }
    }
  }

  lemma CreateKeepsKeys(env: Env, rows: Rows, entity: string, replace: bool, body: Row)
    requires '`' !in entity && PlainBody(body)
    ensures var r := CreateOne(env, rows, entity, replace, body);
            r.Ok? ==> KeySet(env.eng.key, rows) <= KeySet(env.eng.key, r.value)
  {
    hide CreateOne, InsertRow, KeySet;
    CreateMeans(env, rows, entity, replace, body);
    InsertKeepsKeys(env.eng.key, rows, replace, Remap(env, body));
  }

  lemma UpdateOneKeepsKeys(env: Env, rows: Rows, entity: string, id: string, body: Row)
    requires '`' !in entity && '`' !in IdColumn(env.cfg, entity) && PlainBody(body)
    requires entity == env.eng.table ==> IdColumn(env.cfg, entity) == env.eng.key
    requires IdColumn(env.cfg, entity) !in body || Remap(env, body)[IdColumn(env.cfg, entity)] == Str(id)
    ensures var r := UpdateOne(env, rows, entity, id, body);
            r.Ok? ==> KeySet(env.eng.key, rows) <= KeySet(env.eng.key, r.value)
  {
    hide UpdateOne, UpdateRow, KeySet;
    UpdateMeans(env, rows, entity, id, body);
    if entity == env.eng.table {
      UpdateKeepsKeys(env.eng.key, rows, id, Remap(env, body));
    }
  }

  lemma {:induction false} FoldCreateKeepsKeys(env: Env, rows: Rows, entity: string, replace: bool, objs: seq<Row>)
    requires '`' !in entity && PlainBodies(objs)
    ensures var r := FoldCreate(env, rows, entity, replace, objs);
            r.Ok? ==> KeySet(env.eng.key, rows) <= KeySet(env.eng.key, r.value)
  {
    hide CreateOne, KeySet;
    if objs == [] {
    } else {
      var n := |objs| - 1;
      FoldCreateKeepsKeys(env, rows, entity, replace, objs[..n]);
      var before := FoldCreate(env, rows, entity, replace, objs[..n]);
      if before.Ok? { CreateKeepsKeys(env, before.value, entity, replace, objs[n]); }
    }
  }

  lemma {:induction false} FoldUpdateKeepsKeys(env: Env, rows: Rows, entity: string, objs: seq<Row>)
    requires '`' !in entity && '`' !in IdColumn(env.cfg, entity) && PlainBodies(objs)
    requires entity == env.eng.table ==> IdColumn(env.cfg, entity) == env.eng.key
    requires forall i :: 0 <= i < |objs| ==> IdUntouched(env, entity, objs[i])
    ensures var r := FoldUpdate(env, rows, entity, objs);
            r.Ok? ==> KeySet(env.eng.key, rows) <= KeySet(env.eng.key, r.value)
  {
    hide UpdateOne, KeySet, Remap;
    if objs == [] {
    } else {
      var n := |objs| - 1;
      FoldUpdateKeepsKeys(env, rows, entity, objs[..n]);
      var before := FoldUpdate(env, rows, entity, objs[..n]);
      var idCol := IdColumn(env.cfg, entity);
      if before.Ok? && UpdateObject(env, before.value, entity, objs[n]).Ok? {
        assert IdUntouched(env, entity, objs[n]);
        UpdateOneKeepsKeys(env, before.value, entity, objs[n][idCol].s, objs[n]);
      }
    }
  }

  /** With delete off, no run of such calls makes an id disappear, not even by REPLACE. */
  lemma {:induction false} IdsNeverShrink(env: Env, rows: Rows, ops: seq<Op>)
    requires !env.cfg.delete
    requires forall i :: 0 <= i < |ops| ==> KeepsIds(env, ops[i])
    ensures KeySet(env.eng.key, rows) <= KeySet(env.eng.key, RunRows(env, rows, ops))
  {
    hide CreateOne, UpdateOne, FoldCreate, FoldUpdate, KeySet;
    if ops == [] {
    } else {
      var n := |ops| - 1;
      IdsNeverShrink(env, rows, ops[..n]);
      var before := RunRows(env, rows, ops[..n]);
      assert KeepsIds(env, ops[n]);
      match ops[n]
      case OpCreate(entity, body, _) => CreateKeepsKeys(env, before, entity, false, body);
      case OpUpdate(entity, id, body) => UpdateOneKeepsKeys(env, before, entity, id, body);
      case OpMultiUpdate(entity, objs, _, _) => FoldUpdateKeepsKeys(env, before, entity, objs);
      case OpMultiCreate(entity, objs, replace, _, _) => FoldCreateKeepsKeys(env, before, entity, replace, objs);
      case _ =>
    }
  }

  // ---- Reading back what was written ----

  lemma {:induction false} LookupUpdated(key: string, rows: Rows, i: nat, row: Row, k: string)
    requires i < |rows| && KeyText(rows[i], key) == KeyText(row, key)
    requires forall j :: 0 <= j < i ==> KeyText(rows[j], key) != KeyText(row, key)
    ensures Lookup(key, rows[i := row], k) == if KeyText(row, key) == Some(k) then Some(row) else Lookup(key, rows, k)
  {
    if i > 0 {
      assert rows[i := row][1..] == rows[1..][i - 1 := row];
      LookupUpdated(key, rows[1..], i - 1, row, k);
    } else {
      assert rows[i := row][1..] == rows[1..];
    }
  }

  lemma UpdateRowLookup(key: string, rows: Rows, id: string, change: Row, other: string)
    requires key !in change
    ensures var r, was := UpdateRow(key, rows, key, Str(id), change), Lookup(key, rows, other);
            r.Ok? ==> Lookup(key, r.value, other) ==
                      if other == id && was.Some? then Some(was.value + change) else was
  {
    hide Lookup;
    FindIsLookup(key, rows, id);
    var f := FindRow(rows, key, Str(id));
    if f.Some? {
      forall j | 0 <= j < f.value ensures KeyText(rows[j], key) != Some(id) {
        assert !Same(rows[j], key, Str(id));
      }
      LookupUpdated(key, rows, f.value, rows[f.value] + change, other);
    }
  }

  /** After a successful update that keeps the id, reading it back gives the old row overridden by
      the (converted) body, and every other id reads as before. */
  lemma UpdateThenFetch(env: Env, rows: Rows, entity: string, id: string, body: Row, other: string)
    requires Targets(env, entity) && NeverRejects(env.eng) && PlainBody(body)
    requires env.eng.key !in body
    ensures var r, was := UpdateOne(env, rows, entity, id, body), Lookup(env.eng.key, rows, other);
            var now := if other == id && was.Some? then Some(was.value + Remap(env, body)) else was;
            r.Ok? ==> FetchOne(env, r.value, entity, other) == Ok(now)
  {
    hide UpdateOne, FetchOne, Remap, Lookup, UpdateRow;
    UpdateMeans(env, rows, entity, id, body);
    UpdateRowLookup(env.eng.key, rows, id, Remap(env, body), other);
    var r := UpdateOne(env, rows, entity, id, body);
    if r.Ok? {
      FetchMeans(env, r.value, entity, other);
    }
  }

  /** A row may take a key if it is its own or no row has it. */
  predicate KeyFits(key: string, rows: Rows, id: string, row: Row) {
    KeyText(row, key).Some? && (KeyText(row, key).value == id || KeyText(row, key).value !in KeySet(key, rows))
  }

  /** What a key reads as after the row with an id was overridden, possibly with another key. */
  function AfterUpdate(key: string, rows: Rows, id: string, change: Row, k: string): Option<Row> {
    match Lookup(key, rows, id)
    case None => Lookup(key, rows, k)
    case Some(was) =>
      if KeyText(was + change, key) == Some(k) then Some(was + change)
      else if k == id then None
      else Lookup(key, rows, k)
  }

  /** On a key-unique table a key is looked up wherever its row stands. */
  lemma {:induction false} LookupAnywhere(key: string, rows: Rows, k: string)
    requires UniqueKeys(key, rows)
    ensures forall i :: 0 <= i < |rows| && KeyText(rows[i], key) == Some(k) ==> Lookup(key, rows, k) == Some(rows[i])
    ensures (forall i :: 0 <= i < |rows| ==> KeyText(rows[i], key) != Some(k)) ==> Lookup(key, rows, k) == None
  {
    if rows == [] {
    } else {
      LookupAnywhere(key, rows[1..], k);
      assert forall i :: 0 < i < |rows| ==> rows[i] == rows[1..][i - 1];
      assert forall i :: 0 <= i < |rows[1..]| ==> rows[1..][i] == rows[i + 1];
    }
  }

  lemma OthersLackKey(key: string, rows: Rows, i: nat, row: Row)
    requires UniqueKeys(key, rows) && i < |rows| && KeyText(row, key).Some?
    ensures FindRow(rows[..i] + rows[i + 1..], key, row[key]).None? <==>
            KeyFits(key, rows, KeyText(rows[i], key).value, row)
  {
    var others := rows[..i] + rows[i + 1..];
    var f := FindRow(others, key, row[key]);
    if f.Some? {
      var m := if f.value < i then f.value else f.value + 1;
      assert others[f.value] == rows[m] && KeyText(rows[m], key) == KeyText(row, key);
    } else if KeyText(row, key).value in KeySet(key, rows) {
      var m :| 0 <= m < |rows| && KeyText(rows[m], key) == KeyText(row, key);
      StillThere(rows, i, m);
    }
  }

  lemma StillThere(rows: Rows, i: nat, m: nat)
    requires i < |rows| && m < |rows|
    ensures m == i || rows[m] in rows[..i] + rows[i + 1..]
  {
    if m != i {
      assert (rows[..i] + rows[i + 1..])[if m < i then m else m - 1] == rows[m];
    }
  }

  lemma UpdateRowExact(key: string, rows: Rows, id: string, change: Row, k: string)
    requires UniqueKeys(key, rows)
    ensures var r, was := UpdateRow(key, rows, key, Str(id), change), Lookup(key, rows, id);
            (r.Ok? <==> was.None? || KeyFits(key, rows, id, was.value + change))
            && (r.Ok? ==> Lookup(key, r.value, k) == AfterUpdate(key, rows, id, change, k))
  {
    hide Lookup, KeySet;
    FindIsLookup(key, rows, id);
    var f := FindRow(rows, key, Str(id));
    if f.Some? {
      var i, row := f.value, rows[f.value] + change;
      if KeyText(row, key).Some? {
        OthersLackKey(key, rows, i, row);
        if UpdateRow(key, rows, key, Str(id), change).Ok? {
          UpdateKeepsUnique(key, rows, key, Str(id), change);
          LookupReplaced(key, rows, i, row, k);
        }
      }
    }
  }

  lemma LookupReplaced(key: string, rows: Rows, i: nat, row: Row, k: string)
    requires i < |rows| && UniqueKeys(key, rows) && UniqueKeys(key, rows[i := row])
    ensures Lookup(key, rows[i := row], k) ==
            if KeyText(row, key) == Some(k) then Some(row)
            else if KeyText(rows[i], key) == Some(k) then None
            else Lookup(key, rows, k)
  {
    hide Lookup, KeyText;
    var after := rows[i := row];
    LookupAnywhere(key, rows, k);
    LookupAnywhere(key, after, k);
    assert after[i] == row;
    if KeyText(row, key) != Some(k) && KeyText(rows[i], key) != Some(k)
       && exists j :: 0 <= j < |rows| && KeyText(rows[j], key) == Some(k) {
      var j :| 0 <= j < |rows| && KeyText(rows[j], key) == Some(k);
      assert after[j] == rows[j];
    }
  }

  /** Any update: it goes through exactly when there is something to set, nothing of it a list or an
      object, and the row, if there is one, ends with a key that is its own or free. Afterwards every
      key reads as one would expect, and Update's own read-back, by the id it was called with, finds
      the item exactly when there was one and it kept that id. */
  lemma UpdateReadBack(env: Env, rows: Rows, entity: string, id: string, body: Row, other: string)
    requires Targets(env, entity) && NeverRejects(env.eng) && PlainBody(body) && UniqueKeys(env.eng.key, rows)
    ensures var key, b := env.eng.key, Remap(env, body);
            var r, was := UpdateOne(env, rows, entity, id, body), Lookup(key, rows, id);
            && (r.Ok? <==> body != map[] && Sendable(b) && (was.None? || KeyFits(key, rows, id, was.value + b)))
            && (r.Ok? ==> FetchOne(env, r.value, entity, other) == Ok(AfterUpdate(key, rows, id, b, other)))
            && (r.Ok? ==> (FetchOne(env, r.value, entity, id) != Ok(None) <==>
                           was.Some? && KeyText(was.value + b, key) == Some(id)))
  {
    hide UpdateOne, FetchOne, Remap, Lookup, UpdateRow, KeyFits, Sendable, UniqueKeys;
    var key, b := env.eng.key, Remap(env, body);
    UpdateMeans(env, rows, entity, id, body);
    UpdateRowExact(key, rows, id, b, other);
    UpdateRowExact(key, rows, id, b, id);
    var r := UpdateOne(env, rows, entity, id, body);
    if r.Ok? {
      FetchMeans(env, r.value, entity, other);
      FetchMeans(env, r.value, entity, id);
    }
  }

  /** After a successful create the new item reads back as the (converted) body, and every other
      id reads as before. */
  lemma CreateThenFetch(env: Env, rows: Rows, entity: string, replace: bool, body: Row, other: string)
    requires Targets(env, entity) && NeverRejects(env.eng) && PlainBody(body)
    ensures var r, b := CreateOne(env, rows, entity, replace, body), Remap(env, body);
            var now := if KeyText(b, env.eng.key) == Some(other) then Some(b) else Lookup(env.eng.key, rows, other);
            r.Ok? ==> FetchOne(env, r.value, entity, other) == Ok(now)
  {
    hide CreateOne, FetchOne, Remap, Lookup, KeySet;
    var key, b := env.eng.key, Remap(env, body);
    CreateMeans(env, rows, entity, replace, body);
    var r := CreateOne(env, rows, entity, replace, body);
    if r.Ok? {
      FetchMeans(env, r.value, entity, other);
      if replace {
        ReplaceLookup(key, rows, b, other);
      } else {
        LookupAppend(key, rows, b, other);
        InsertFresh(key, rows, b);
        KeySetIsLookup(key, rows, KeyText(b, key).value);
      }
    }
  }

  /** Create's own read-back, by the id that the driver reports, gives the created item exactly when
      the item has that id. */
  lemma CreateReadBack(env: Env, rows: Rows, entity: string, replace: bool, body: Row, lastId: string)
    requires Targets(env, entity) && NeverRejects(env.eng) && PlainBody(body)
    ensures var r, b := CreateOne(env, rows, entity, replace, body), Remap(env, body);
            r.Ok? ==>
            (FetchOne(env, r.value, entity, lastId) == Ok(Some(b)) <==> KeyText(b, env.eng.key) == Some(lastId))
  {
    hide CreateOne, FetchOne, Remap;
    CreateThenFetch(env, rows, entity, replace, body, lastId);
    LookupHasKey(env.eng.key, rows, lastId);
  }

  lemma {:induction false} LookupHasKey(key: string, rows: Rows, k: string)
    ensures Lookup(key, rows, k).Some? ==> KeyText(Lookup(key, rows, k).value, key) == Some(k)
  {
    if rows == [] {
    } else {
      LookupHasKey(key, rows[1..], k);
    }
  }

  /** Who is shown a row: read permission decides for Get alone. Update shows the updated row exactly
      when updates are allowed, it went through, and there was an item that kept the id; Create shows
      the created row exactly when creates are allowed, it went through, and the driver reports the
      id that the row has. */
  lemma ReadPermissionExact(
      env: Env, rows: Rows, entity: string, id: string, body: Row, lastId: Option<string>)
    requires Targets(env, entity) && NeverRejects(env.eng) && PlainBody(body) && UniqueKeys(env.eng.key, rows)
    ensures var key, b, was := env.eng.key, Remap(env, body), Lookup(env.eng.key, rows, id);
            var updated, created := UpdateOne(env, rows, entity, id, body), CreateOne(env, rows, entity, false, body);
            && (forall row :: GetResult(env, rows, entity, id) == Ok(Some(row)) <==> env.cfg.read && was == Some(row))
            && (forall row :: UpdateResult(env, updated, entity, id) == Ok(Some(row)) <==>
                  env.cfg.update && updated.Ok? && was.Some? && row == was.value + b && KeyText(row, key) == Some(id))
            && (CreateResult(env, created, entity, lastId) == Ok(Some(b)) <==>
                  env.cfg.create && created.Ok? && lastId.Some? && KeyText(b, key) == lastId)
  {
    hide UpdateOne, CreateOne, FetchOne, Remap, Lookup, KeyFits, Sendable, UniqueKeys;
    FetchMeans(env, rows, entity, id);
    UpdateReadBack(env, rows, entity, id, body, id);
    if lastId.Some? { CreateReadBack(env, rows, entity, false, body, lastId.value); }
  }

  /** Where no column of the body is converted, a successful Create reads back as the body itself, and
      a successful Update as the old row overridden by the body itself. */
  lemma WrittenAsGiven(env: Env, rows: Rows, entity: string, id: string, body: Row)
    requires Targets(env, entity) && NeverRejects(env.eng) && PlainBody(body) && UniqueKeys(env.eng.key, rows)
    requires NothingToConvert(env, body)
    ensures var key, was := env.eng.key, Lookup(env.eng.key, rows, id);
            var created, updated := CreateOne(env, rows, entity, false, body), UpdateOne(env, rows, entity, id, body);
            && (created.Ok? ==> KeyText(body, key).Some?
                                && FetchOne(env, created.value, entity, KeyText(body, key).value) == Ok(Some(body)))
            && (updated.Ok? && was.Some? ==>
                KeyText(was.value + body, key).Some?
                && FetchOne(env, updated.value, entity, KeyText(was.value + body, key).value)
                == Ok(Some(was.value + body)))
  {
    hide CreateOne, UpdateOne, FetchOne, Remap, Lookup, UniqueKeys, NothingToConvert, Sendable;
    RemapKeeps(env, body);
    var key, was := env.eng.key, Lookup(env.eng.key, rows, id);
    CreateExact(env, rows, entity, false, body);
    if KeyText(body, key).Some? {
      CreateThenFetch(env, rows, entity, false, body, KeyText(body, key).value);
    }
    UpdateReadBack(env, rows, entity, id, body, id);
    if was.Some? && KeyText(was.value + body, key).Some? {
      UpdateReadBack(env, rows, entity, id, body, KeyText(was.value + body, key).value);
    }
  }
}
