/** What single and bulk writes mean for the table, over statements and over whole runs. */
module BulkLaws {
  import opened Values
  import opened Texts
  import opened Statements
  import opened Engine
  import opened Crud

  // ---- The meaning of one written statement ----

  lemma CreateMeans(env: Env, rows: Rows, entity: string, replace: bool, body: Row)
    requires '`' !in entity && PlainBody(body)
    ensures var b := Remap(env, body);
            var stmt := Insert(replace, entity, SortedKeys(b), |b.Keys|);
            CreateOne(env, rows, entity, replace, body) ==
            if !Sendable(b) then Err("unsupported type")
            else if entity != env.eng.table then Err("no such table")
            else if env.eng.reject(rows, stmt, InsertValues(b)) then Err("rejected")
            else InsertRow(env.eng.key, rows, replace, b)
  {
    InsertCarriesBody(replace, entity, Remap(env, body));
    ValuesBindable(Remap(env, body));
  }

  lemma BindableWithId(values: seq<Value>, id: string)
    ensures Bindable(values + [Str(id)]) <==> Bindable(values)
  {
    if Bindable(values + [Str(id)]) {
      assert forall i :: 0 <= i < |values| ==> values[i] == (values + [Str(id)])[i];
    }
  }

  /** No value of the body is a list or an object. */
  predicate Sendable(body: Row) {
    forall c :: c in body ==> body[c].IsLeaf()
  }

  lemma ValuesBindable(body: Row)
    ensures Bindable(InsertValues(body)) <==> Sendable(body)
  {
    var cols, vals := SortedKeys(body), InsertValues(body);
    if Bindable(vals) {
      forall c | c in body ensures body[c].IsLeaf() {
        var i :| 0 <= i < |cols| && cols[i] == c;
        assert vals[i].IsLeaf();
      }
    }
  }

  /** When a single create goes through, and what it leaves. */
  lemma CreateExact(env: Env, rows: Rows, entity: string, replace: bool, body: Row)
    requires Targets(env, entity) && NeverRejects(env.eng) && PlainBody(body)
    ensures var r, b, key := CreateOne(env, rows, entity, replace, body), Remap(env, body), env.eng.key;
            && (r.Ok? <==> Sendable(b) && KeyText(b, key).Some?
                           && (replace || KeyText(b, key).value !in KeySet(key, rows)))
            && !r.Panic?
            && (r.Ok? ==> r.value == (if replace then RowsWithout(rows, key, [b[key]]) else rows) + [b])
  {
    hide CreateOne, RowsWithout, KeySet, Remap, Sendable;
    CreateMeans(env, rows, entity, replace, body);
    InsertFresh(env.eng.key, rows, Remap(env, body));
  }

  lemma UpdateMeans(env: Env, rows: Rows, entity: string, id: string, body: Row)
    requires '`' !in entity && '`' !in IdColumn(env.cfg, entity) && PlainBody(body)
    ensures var b := Remap(env, body);
            var col := IdColumn(env.cfg, entity);
            var stmt := Update(entity, SortedKeys(b), col);
            UpdateOne(env, rows, entity, id, body) ==
            if body == map[] then Err("syntax error")
            else if !Sendable(b) then Err("unsupported type")
            else if entity != env.eng.table then Err("no such table")
            else if env.eng.reject(rows, stmt, InsertValues(b) + [Str(id)]) then Err("rejected")
            else UpdateRow(env.eng.key, rows, col, Str(id), b)
  {
    hide Bindable, ParseText;
    var b := Remap(env, body);
    UpdateCarriesBody(entity, IdColumn(env.cfg, entity), b);
    var values := InsertValues(b);
    assert (values + [Str(id)])[..|values|] == values;
    ValuesBindable(b);
    BindableWithId(values, id);
    if body != map[] {
      var c :| c in body;
      assert c in b;
    }
  }

  lemma DeleteMeans(env: Env, rows: Rows, entity: string, id: string)
    requires '`' !in entity && '`' !in IdColumn(env.cfg, entity)
    ensures var col := IdColumn(env.cfg, entity);
            DeleteOneItem(env, rows, entity, id) ==
            if entity != env.eng.table then Err("no such table")
            else if env.eng.reject(rows, DeleteOne(entity, col), [Str(id)]) then Err("rejected")
            else Ok(DeleteRow(rows, col, Str(id)))
  {
    DeleteParses(entity, IdColumn(env.cfg, entity));
  }

  // ---- All or nothing ----

  /** A bulk create succeeds exactly when each of its statements succeeds on what the ones before
      it leave; otherwise there is a first one that fails. */
  lemma {:induction false} FoldCreateSteps(env: Env, rows: Rows, entity: string, replace: bool, objs: seq<Row>)
    ensures FoldCreate(env, rows, entity, replace, objs).Ok? <==>
            forall n :: 0 <= n < |objs| ==> CreateStepOk(env, rows, entity, replace, objs, n)
  {
    hide CreateOne;
    if objs == [] {
    } else {
      var n := |objs| - 1;
      FoldCreateSteps(env, rows, entity, replace, objs[..n]);
      forall m | 0 <= m < n
        ensures CreateStepOk(env, rows, entity, replace, objs, m)
             == CreateStepOk(env, rows, entity, replace, objs[..n], m)
      {
        assert objs[..n][..m] == objs[..m];
      }
      assert FoldCreate(env, rows, entity, replace, objs).Ok? <==>
             FoldCreate(env, rows, entity, replace, objs[..n]).Ok? && CreateStepOk(env, rows, entity, replace, objs, n);
    }
  }

  predicate CreateStepOk(env: Env, rows: Rows, entity: string, replace: bool, objs: seq<Row>, n: nat)
    requires n < |objs|
  {
    var before := FoldCreate(env, rows, entity, replace, objs[..n]);
    before.Ok? && CreateOne(env, before.value, entity, replace, objs[n]).Ok?
  }

  predicate UpdateStepOk(env: Env, rows: Rows, entity: string, objs: seq<Row>, n: nat)
    requires n < |objs|
  {
    var before := FoldUpdate(env, rows, entity, objs[..n]);
    before.Ok? && UpdateObject(env, before.value, entity, objs[n]).Ok?
  }

  lemma {:induction false} FoldUpdateSteps(env: Env, rows: Rows, entity: string, objs: seq<Row>)
    ensures FoldUpdate(env, rows, entity, objs).Ok? <==>
            forall n :: 0 <= n < |objs| ==> UpdateStepOk(env, rows, entity, objs, n)
  {
    hide UpdateObject;
    if objs == [] {
    } else {
      var n := |objs| - 1;
      FoldUpdateSteps(env, rows, entity, objs[..n]);
      forall m | 0 <= m < n
        ensures UpdateStepOk(env, rows, entity, objs, m) == UpdateStepOk(env, rows, entity, objs[..n], m)
      {
        assert objs[..n][..m] == objs[..m];
      }
      assert FoldUpdate(env, rows, entity, objs).Ok? <==>
             FoldUpdate(env, rows, entity, objs[..n]).Ok? && UpdateStepOk(env, rows, entity, objs, n);
    }
  }

  /** Whatever position fails, and however, the committed rows stay; when none fails and the
      transaction commits, the rows are those of the single statements in order. */
  lemma BulkCreateAllOrNothing(
    env: Env, begins: bool, commits: bool, rows: Rows, entity: string, replace: bool, objs: seq<Row>)
    ensures var e := BulkEffect(env.cfg.create, begins, commits, rows, FoldCreate(env, rows, entity, replace, objs));
            var ok := env.cfg.create && begins && commits
                      && forall n :: 0 <= n < |objs| ==> CreateStepOk(env, rows, entity, replace, objs, n);
            (!e.failed <==> ok) && !e.panicked
            && e.rows == if ok then FoldCreate(env, rows, entity, replace, objs).value else rows
  {
    hide CreateOne;
    FoldCreateSteps(env, rows, entity, replace, objs);
    CreateNeverPanics(env, rows, entity, replace, objs);
  }

  lemma {:induction false} CreateNeverPanics(env: Env, rows: Rows, entity: string, replace: bool, objs: seq<Row>)
    ensures !FoldCreate(env, rows, entity, replace, objs).Panic?
  {
    hide CreateOne;
    if objs == [] {
    } else {
      var before := FoldCreate(env, rows, entity, replace, objs[..|objs| - 1]);
      CreateNeverPanics(env, rows, entity, replace, objs[..|objs| - 1]);
      if before.Ok? { CreateOneNeverPanics(env, before.value, entity, replace, objs[|objs| - 1]); }
    }
  }

  lemma CreateOneNeverPanics(env: Env, rows: Rows, entity: string, replace: bool, body: Row)
    ensures !CreateOne(env, rows, entity, replace, body).Panic?
  {
    var b := Remap(env, body);
    ExecNeverPanics(env.eng, rows, InsertText(replace, entity, SortedKeys(b)), InsertValues(b));
  }

  lemma BulkUpdateAllOrNothing(env: Env, begins: bool, commits: bool, rows: Rows, entity: string, objs: seq<Row>)
    ensures var e := BulkEffect(env.cfg.update, begins, commits, rows, FoldUpdate(env, rows, entity, objs));
            var ok := env.cfg.update && begins && commits
                      && forall n :: 0 <= n < |objs| ==> UpdateStepOk(env, rows, entity, objs, n);
            (!e.failed && !e.panicked <==> ok)
            && (e.panicked <==> env.cfg.update && begins && FoldUpdate(env, rows, entity, objs).Panic?)
            && !(e.failed && e.panicked)
            && e.rows == if ok then FoldUpdate(env, rows, entity, objs).value else rows
  {
    hide UpdateObject;
    FoldUpdateSteps(env, rows, entity, objs);
  }

  // ---- Bulk INSERT and bulk REPLACE ----

  predicate PlainBodies(objs: seq<Row>) {
    forall i :: 0 <= i < |objs| ==> PlainBody(objs[i])
  }

  predicate AllSendable(bodies: seq<Row>) {
    forall i :: 0 <= i < |bodies| ==> Sendable(bodies[i])
  }

  function RemapAll(env: Env, objs: seq<Row>): (r: seq<Row>)
    ensures |r| == |objs| && forall i :: 0 <= i < |objs| ==> r[i] == Remap(env, objs[i])
  {
    seq(|objs|, i requires 0 <= i < |objs| => Remap(env, objs[i]))
  }

  /** Bulk INSERT goes through exactly when no value is a list or an object, every object has a key,
      the keys are pairwise distinct and none is in the table; the table then grows by exactly the objects, in order. */
  lemma {:induction false} BulkInsertExact(env: Env, rows: Rows, entity: string, objs: seq<Row>)
    requires Targets(env, entity) && NeverRejects(env.eng) && PlainBodies(objs) && UniqueKeys(env.eng.key, rows)
    ensures var bodies := RemapAll(env, objs);
            FoldCreate(env, rows, entity, false, objs).Ok? <==>
              && AllSendable(bodies)
              && UniqueKeys(env.eng.key, bodies) && KeySet(env.eng.key, rows) !! KeySet(env.eng.key, bodies)
    ensures var r := FoldCreate(env, rows, entity, false, objs);
            r.Ok? ==> r.value == rows + RemapAll(env, objs) && UniqueKeys(env.eng.key, r.value)
  {
    hide CreateOne, FindRow, KeySet, UniqueKeys, KeyText, Remap, Sendable;
    var key := env.eng.key;
    var bodies := RemapAll(env, objs);
    if objs == [] {
      assert rows + bodies == rows;
      NoKeys(key);
    } else {
      var n := |objs| - 1;
      var before := RemapAll(env, objs[..n]);
      BulkInsertExact(env, rows, entity, objs[..n]);
      assert bodies == before + [bodies[n]];
      KeySetAppend(key, before, bodies[n]);
      UniqueAppend(key, before, bodies[n]);
      if FoldCreate(env, rows, entity, false, objs[..n]).Ok? {
        CreateMeans(env, rows + before, entity, false, objs[n]);
        InsertFresh(key, rows + before, bodies[n]);
        KeySetConcat(key, rows, before);
        UniqueAppend(key, rows + before, bodies[n]);
        assert rows + before + [bodies[n]] == rows + bodies;
      }
    }
  }

  lemma NoKeys(key: string)
    ensures UniqueKeys(key, []) && KeySet(key, []) == {}
  {
  }

  lemma KeySetAppend(key: string, rows: Rows, row: Row)
    ensures KeySet(key, rows + [row]) ==
            KeySet(key, rows) + if KeyText(row, key).Some? then {KeyText(row, key).value} else {}
  {
    var all := rows + [row];
    assert all[|rows|] == row;
    forall k | k in KeySet(key, rows) ensures k in KeySet(key, all) {
      var i :| 0 <= i < |rows| && KeyText(rows[i], key) == Some(k);
      assert all[i] == rows[i];
    }
  }

  lemma KeySetConcat(key: string, a: Rows, b: Rows)
    ensures KeySet(key, a + b) == KeySet(key, a) + KeySet(key, b)
  {
    var all := a + b;
    forall k | k in KeySet(key, a) + KeySet(key, b) ensures k in KeySet(key, all) {
      if k in KeySet(key, a) {
        var i :| 0 <= i < |a| && KeyText(a[i], key) == Some(k);
        assert all[i] == a[i];
      } else {
        var i :| 0 <= i < |b| && KeyText(b[i], key) == Some(k);
        assert all[|a| + i] == b[i];
      }
    }
  }

  lemma UniqueAppend(key: string, rows: Rows, row: Row)
    ensures UniqueKeys(key, rows + [row]) <==>
            UniqueKeys(key, rows) && KeyText(row, key).Some? && KeyText(row, key).value !in KeySet(key, rows)
  {
    var all := rows + [row];
    if UniqueKeys(key, all) {
      assert all[|rows|] == row;
      assert forall i :: 0 <= i < |rows| ==> all[i] == rows[i];
    }
  }

  lemma InsertFresh(key: string, rows: Rows, row: Row)
    ensures InsertRow(key, rows, false, row).Ok? <==>
            KeyText(row, key).Some? && KeyText(row, key).value !in KeySet(key, rows)
  {
    if KeyText(row, key).Some? {
      var f := FindRow(rows, key, row[key]);
      if f.Some? {
        assert KeyText(rows[f.value], key) == KeyText(row, key);
      }
    }
  }

  /** The last object with a key, if any. */
  function LastWith(key: string, bodies: seq<Row>, k: string): Option<Row> {
    if bodies == [] then None
    else
      var n := |bodies| - 1;
      if KeyText(bodies[n], key) == Some(k) then Some(bodies[n]) else LastWith(key, bodies[..n], k)
  }

  lemma {:induction false} LookupAppend(key: string, rows: Rows, row: Row, k: string)
    ensures Lookup(key, rows + [row], k) ==
            if Lookup(key, rows, k).Some? then Lookup(key, rows, k)
            else if KeyText(row, key) == Some(k) then Some(row) else None
  {
    if rows == [] {
      assert rows + [row] == [row];
      assert [row][1..] == [];
    } else {
      assert (rows + [row])[1..] == rows[1..] + [row];
      LookupAppend(key, rows[1..], row, k);
    }
  }

  lemma {:induction false} LookupWithout(key: string, rows: Rows, v: Value, k: string)
    requires IsKey(v)
    ensures Lookup(key, RowsWithout(rows, key, [v]), k) == if k == Sprint(v) then None else Lookup(key, rows, k)
  {
    if rows == [] {
    } else {
      LookupWithout(key, rows[1..], v, k);
      SameAsOne(rows[0], key, v);
      var rest := RowsWithout(rows[1..], key, [v]);
      assert ([rows[0]] + rest)[1..] == rest && [] + rest == rest;
    }
  }

  lemma {:induction false} KeySetIsLookup(key: string, rows: Rows, k: string)
    ensures k in KeySet(key, rows) <==> Lookup(key, rows, k).Some?
  {
    if rows == [] {
    } else {
      KeySetIsLookup(key, rows[1..], k);
      KeySetConcat(key, [rows[0]], rows[1..]);
      assert [rows[0]] + rows[1..] == rows;
      assert k in KeySet(key, [rows[0]]) <==> KeyText(rows[0], key) == Some(k) by {
        if KeyText(rows[0], key) == Some(k) { assert [rows[0]][0] == rows[0]; }
      }
    }
  }

  /** One REPLACE, seen through keys. */
  lemma ReplaceLookup(key: string, rows: Rows, row: Row, k: string)
    requires KeyText(row, key).Some?
    ensures Lookup(key, InsertRow(key, rows, true, row).value, k) ==
            if KeyText(row, key) == Some(k) then Some(row) else Lookup(key, rows, k)
  {
    LookupWithout(key, rows, row[key], k);
    LookupAppend(key, RowsWithout(rows, key, [row[key]]), row, k);
  }

  /** Each key holds its last object, or what the table held before. */
  ghost predicate Overridden(key: string, rows: Rows, bodies: seq<Row>, after: Rows) {
    forall k :: Lookup(key, after, k) ==
      if LastWith(key, bodies, k).Some? then LastWith(key, bodies, k) else Lookup(key, rows, k)
  }

  lemma OverriddenStep(key: string, rows: Rows, bodies: seq<Row>, before: Rows, row: Row, after: Rows)
    requires Overridden(key, rows, bodies, before) && KeyText(row, key).Some?
    requires InsertRow(key, before, true, row) == Ok(after)
    ensures Overridden(key, rows, bodies + [row], after)
  {
    hide InsertRow, Lookup, KeyText;
    var n := |bodies|;
    assert (bodies + [row])[..n] == bodies && (bodies + [row])[n] == row;
    forall k
      ensures Lookup(key, after, k) ==
              if LastWith(key, bodies + [row], k).Some? then LastWith(key, bodies + [row], k) else Lookup(key, rows, k)
    {
      ReplaceLookup(key, before, row, k);
    }
  }

  /** Bulk REPLACE goes through exactly when no value is a list or an object and every object has a
      key; then each key holds its last object, or what the table held before, and keys stay unique. */
  lemma {:induction false} BulkReplaceExact(env: Env, rows: Rows, entity: string, objs: seq<Row>)
    requires Targets(env, entity) && NeverRejects(env.eng) && PlainBodies(objs) && UniqueKeys(env.eng.key, rows)
    ensures var bodies := RemapAll(env, objs);
            FoldCreate(env, rows, entity, true, objs).Ok? <==>
              AllSendable(bodies) && forall i :: 0 <= i < |bodies| ==> KeyText(bodies[i], env.eng.key).Some?
    ensures var r := FoldCreate(env, rows, entity, true, objs);
            r.Ok? ==> UniqueKeys(env.eng.key, r.value) && Overridden(env.eng.key, rows, RemapAll(env, objs), r.value)
  {
    hide CreateOne, FindRow, RowsWithout, KeyText, Remap, Overridden, UniqueKeys, Sendable;
    var key := env.eng.key;
    var bodies := RemapAll(env, objs);
    if objs == [] {
      NothingOverridden(key, rows);
    } else {
      var n := |objs| - 1;
      BulkReplaceExact(env, rows, entity, objs[..n]);
      assert RemapAll(env, objs[..n]) == bodies[..n] && bodies == bodies[..n] + [bodies[n]];
      var before := FoldCreate(env, rows, entity, true, objs[..n]);
      if before.Ok? {
        CreateMeans(env, before.value, entity, true, objs[n]);
        if KeyText(bodies[n], key).Some? && Sendable(bodies[n]) {
          ReplaceIsRowsPlus(key, before.value, bodies[n]);
          var after := FoldCreate(env, rows, entity, true, objs).value;
          OverriddenStep(key, rows, bodies[..n], before.value, bodies[n], after);
        }
      }
    }
  }

  lemma NothingOverridden(key: string, rows: Rows)
    ensures Overridden(key, rows, [], rows)
  {
  }

  lemma {:induction false} LastWithKnown(key: string, bodies: seq<Row>, k: string)
    ensures LastWith(key, bodies, k).Some? <==> k in KeySet(key, bodies)
  {
    if bodies == [] {
    } else {
      var n := |bodies| - 1;
      LastWithKnown(key, bodies[..n], k);
      KeySetAppend(key, bodies[..n], bodies[n]);
      assert bodies[..n] + [bodies[n]] == bodies;
    }
  }

  /** After a bulk REPLACE the keys are the old ones and the objects'. */
  lemma BulkReplaceKeys(env: Env, rows: Rows, entity: string, objs: seq<Row>)
    requires Targets(env, entity) && NeverRejects(env.eng) && PlainBodies(objs) && UniqueKeys(env.eng.key, rows)
    ensures var r := FoldCreate(env, rows, entity, true, objs);
            r.Ok? ==>
            KeySet(env.eng.key, r.value) ==
            KeySet(env.eng.key, rows) + KeySet(env.eng.key, RemapAll(env, objs))
  {
    var key := env.eng.key;
    var r := FoldCreate(env, rows, entity, true, objs);
    BulkReplaceExact(env, rows, entity, objs);
    if r.Ok? {
      forall k ensures k in KeySet(key, r.value) <==> k in KeySet(key, rows) + KeySet(key, RemapAll(env, objs)) {
        KeySetIsLookup(key, r.value, k);
        KeySetIsLookup(key, rows, k);
        LastWithKnown(key, RemapAll(env, objs), k);
      }
    }
  }
}
