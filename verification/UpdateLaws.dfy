/** Bulk UPDATE: when it goes through, when it panics, and what it leaves. */
module UpdateLaws {
  import opened Values
  import opened Texts
  import opened Statements
  import opened Engine
  import opened Crud
  import opened BulkLaws
  import opened WriteRuns

  predicate HasStringId(env: Env, entity: string, obj: Row) {
    var idCol := IdColumn(env.cfg, entity);
    idCol in obj && obj[idCol].Str?
  }

  /** A bulk update panics exactly when it reaches an object whose id is missing or not a string,
      every object before it having been updated without error. */
  lemma {:induction false} BulkUpdatePanicExact(env: Env, rows: Rows, entity: string, objs: seq<Row>)
    ensures FoldUpdate(env, rows, entity, objs).Panic? <==>
            exists n :: 0 <= n < |objs| && Reaches(env, rows, entity, objs, n) && !HasStringId(env, entity, objs[n])
  {
    hide UpdateOne;
    if objs == [] {
    } else {
      var n := |objs| - 1;
      BulkUpdatePanicExact(env, rows, entity, objs[..n]);
      forall m | 0 <= m < n
        ensures Reaches(env, rows, entity, objs, m) == Reaches(env, rows, entity, objs[..n], m)
      {
        assert objs[..n][..m] == objs[..m];
      }
      var before := FoldUpdate(env, rows, entity, objs[..n]);
      if before.Ok? {
        assert Reaches(env, rows, entity, objs, n);
        if HasStringId(env, entity, objs[n]) {
          UpdateOneNeverPanics(env, before.value, entity, objs[n][IdColumn(env.cfg, entity)].s, objs[n]);
        }
      } else {
        assert !Reaches(env, rows, entity, objs, n);
        if before.Panic? {
          var m :| 0 <= m < n && Reaches(env, rows, entity, objs[..n], m) && !HasStringId(env, entity, objs[..n][m]);
          assert Reaches(env, rows, entity, objs, m) && objs[..n][m] == objs[m];
        }
      }
    }
  }

  /** The objects before position n all went through. */
  predicate Reaches(env: Env, rows: Rows, entity: string, objs: seq<Row>, n: nat)
    requires n < |objs|
  {
    FoldUpdate(env, rows, entity, objs[..n]).Ok?
  }

  lemma UpdateOneNeverPanics(env: Env, rows: Rows, entity: string, id: string, body: Row)
    ensures !UpdateOne(env, rows, entity, id, body).Panic?
  {
    var b := Remap(env, body);
    var text := UpdateText(entity, IdColumn(env.cfg, entity), SortedKeys(b));
    ExecNeverPanics(env.eng, rows, text, InsertValues(b) + [Str(id)]);
  }

  /** An update that sets the id to itself always goes through, and overrides the one row. */
  lemma UpdateByOwnId(key: string, rows: Rows, id: string, change: Row)
    requires UniqueKeys(key, rows) && key in change && change[key] == Str(id)
    ensures var r := UpdateRow(key, rows, key, Str(id), change);
            r.Ok? && UniqueKeys(key, r.value)
            && forall k :: Lookup(key, r.value, k) ==
                 var was := Lookup(key, rows, k);
                 if was.Some? && k == id then Some(was.value + change) else was
  {
    FindIsLookup(key, rows, id);
    var f := FindRow(rows, key, Str(id));
    if f.Some? {
      var i := f.value;
      var row := rows[i] + change;
      var others := rows[..i] + rows[i + 1..];
      forall j | 0 <= j < |others| ensures !Same(others[j], key, Str(id)) {
        var m := if j < i then j else j + 1;
        assert others[j] == rows[m] && KeyText(rows[m], key) != KeyText(rows[i], key);
      }
      UpdateKeepsUnique(key, rows, key, Str(id), change);
      forall j | 0 <= j < i ensures KeyText(rows[j], key) != Some(id) {
        assert !Same(rows[j], key, Str(id));
      }
      forall k ensures Lookup(key, rows[i := row], k) == if k == id then Some(row) else Lookup(key, rows, k) {
        LookupUpdated(key, rows, i, row, k);
      }
    }
  }

  /** A row overridden by every object with its key, in order. */
  function Applied(key: string, row: Row, bodies: seq<Row>, k: string): Row {
    if bodies == [] then row
    else
      var n := |bodies| - 1;
      var before := Applied(key, row, bodies[..n], k);
      if KeyText(bodies[n], key) == Some(k) then before + bodies[n] else before
  }

  /** One object of a bulk update. */
  lemma UpdateObjectMeans(env: Env, rows: Rows, entity: string, obj: Row)
    requires Targets(env, entity) && NeverRejects(env.eng) && PlainBody(obj) && UniqueKeys(env.eng.key, rows)
    requires IdUntouched(env, entity, obj) && HasStringId(env, entity, obj)
    ensures var r, b := UpdateObject(env, rows, entity, obj), Remap(env, obj);
            (r.Ok? <==> Sendable(b))
            && (r.Ok? ==>
                  UniqueKeys(env.eng.key, r.value)
                  && forall k :: Lookup(env.eng.key, r.value, k) ==
                       var was := Lookup(env.eng.key, rows, k);
                       if was.Some? && KeyText(b, env.eng.key) == Some(k) then Some(was.value + b) else was)
  {
    hide Sendable, UpdateOne, UpdateRow, UniqueKeys, Lookup;
    var key := env.eng.key;
    var id := obj[key].s;
    UpdateMeans(env, rows, entity, id, obj);
    UpdateByOwnId(key, rows, id, Remap(env, obj));
    assert KeyText(Remap(env, obj), key) == Some(id);
  }

  /** One object of a bulk update, whatever the conversion makes of its id column: when it goes
      through, and what every key reads as afterwards. With BulkUpdateAllOrNothing this says what any
      bulk update does, object by object. */
  lemma UpdateObjectExact(env: Env, rows: Rows, entity: string, obj: Row, k: string)
    requires Targets(env, entity) && NeverRejects(env.eng) && PlainBody(obj) && UniqueKeys(env.eng.key, rows)
    ensures var r, key, b := UpdateObject(env, rows, entity, obj), env.eng.key, Remap(env, obj);
            if !HasStringId(env, entity, obj) then r.Panic?
            else
              var id := obj[key].s;
              var was := Lookup(key, rows, id);
              && !r.Panic? && (r.Ok? <==> Sendable(b) && (was.None? || KeyFits(key, rows, id, was.value + b)))
              && (r.Ok? ==> UniqueKeys(key, r.value) && Lookup(key, r.value, k) == AfterUpdate(key, rows, id, b, k))
  {
    hide UpdateOne, Remap, Lookup, KeyFits, Sendable, UniqueKeys, AfterUpdate;
    if HasStringId(env, entity, obj) {
      var id := obj[env.eng.key].s;
      UpdateOneNeverPanics(env, rows, entity, id, obj);
      UpdateReadBack(env, rows, entity, id, obj, k);
      UpdateOneKeepsUnique(env, rows, entity, id, obj);
      var r := UpdateOne(env, rows, entity, id, obj);
      if r.Ok? { FetchMeans(env, r.value, entity, k); }
    }
  }

  /** Bulk UPDATE goes through exactly when every id is a string and no value is a list or an object;
      then every row is overridden by
      the objects with its id, in order, and objects without a row are ignored. */
  lemma {:induction false} BulkUpdateExact(env: Env, rows: Rows, entity: string, objs: seq<Row>)
    requires Targets(env, entity) && NeverRejects(env.eng) && PlainBodies(objs) && UniqueKeys(env.eng.key, rows)
    requires forall i :: 0 <= i < |objs| ==> IdUntouched(env, entity, objs[i])
    ensures FoldUpdate(env, rows, entity, objs).Ok? <==>
            AllSendable(RemapAll(env, objs)) && forall i :: 0 <= i < |objs| ==> HasStringId(env, entity, objs[i])
    ensures var r := FoldUpdate(env, rows, entity, objs);
            r.Ok? ==> UniqueKeys(env.eng.key, r.value)
                      && forall k :: Lookup(env.eng.key, r.value, k) ==
                           var was := Lookup(env.eng.key, rows, k);
                           if was.None? then None else Some(Applied(env.eng.key, was.value, RemapAll(env, objs), k))
  {
    hide UpdateObject, UniqueKeys, Lookup, Remap, KeyText, IdUntouched, HasStringId, Sendable;
    var bodies := RemapAll(env, objs);
    if objs == [] {
    } else {
      var n := |objs| - 1;
      BulkUpdateExact(env, rows, entity, objs[..n]);
      assert RemapAll(env, objs[..n]) == bodies[..n];
      var before := FoldUpdate(env, rows, entity, objs[..n]);
      if before.Ok? {
        if HasStringId(env, entity, objs[n]) {
          UpdateObjectMeans(env, before.value, entity, objs[n]);
        } else {
          NoStringId(env, before.value, entity, objs[n]);
        }
      }
    }
  }

  lemma NoStringId(env: Env, rows: Rows, entity: string, obj: Row)
    requires !HasStringId(env, entity, obj)
    ensures UpdateObject(env, rows, entity, obj).Panic?
  {
  }
}
