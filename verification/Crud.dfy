/** The CRUD layer over a database (pkg/crud/impl.go): permission guards, single statements, and
    bulk writes in a transaction. */
module Crud {
  import opened Values
  import opened Texts
  import opened Statements
  import opened Engine

  // ---- Configuration and column metadata ----

  datatype Config = Config(create: bool, read: bool, update: bool, delete: bool, idMap: map<string, string>)

  function IdColumn(cfg: Config, entity: string): string {
    if entity in cfg.idMap then cfg.idMap[entity] else "id"
  }

  /** What parsing a date with a layout, or decoding base64, gives; nothing if it fails. */
  datatype Parsers = Parsers(time: (string, string) -> Option<Value>, base64: string -> Option<Value>)

  const DATE_LAYOUTS: seq<string> := ["RFC3339", "DateOnly"]

  /** Column name to database type name. */
  type Metadata = map<string, string>

  datatype Env = Env(eng: Engine, cfg: Config, md: Option<Metadata>, parsers: Parsers)

  function FirstLayout(p: Parsers, layouts: seq<string>, s: string): Value {
    if layouts == [] then Str(s)
    else
      match p.time(layouts[0], s)
      case Some(t) => t
      case None => FirstLayout(p, layouts[1..], s)
  }

  function RemapValue(p: Parsers, v: Value, typeName: string): Value {
    if !v.Str? then v
    else if typeName == "DATETIME" || typeName == "TIMESTAMP" || typeName == "DATE" then
      FirstLayout(p, DATE_LAYOUTS, v.s)
    else if typeName == "BLOB" then
      match p.base64(v.s)
      case Some(b) => b
      case None => v
    else v
  }

  function Remap(env: Env, body: Row): (r: Row)
    ensures r.Keys == body.Keys
  {
    map c | c in body ::
      if env.md.Some? && c in env.md.value then RemapValue(env.parsers, body[c], env.md.value[c]) else body[c]
  }

  // ---- What the conversion does ----

  /** The entity's id column is the configured one, or `id`. */
  lemma IdColumnExact(cfg: Config, entity: string, col: string)
    ensures IdColumn(cfg.(idMap := cfg.idMap[entity := col]), entity) == col
    ensures IdColumn(cfg.(idMap := cfg.idMap - {entity}), entity) == "id"
  {
  }

  /** A value is converted only if it is a string in a column whose type is known to be a date or a
      blob; then it is what the first parser that accepts it gives. */
  predicate Converted(env: Env, col: string, was: Value, now: Value) {
    if env.md.None? || col !in env.md.value || !was.Str? then now == was
    else if env.md.value[col] in {"DATETIME", "TIMESTAMP", "DATE"} then
      match (env.parsers.time("RFC3339", was.s), env.parsers.time("DateOnly", was.s))
      case (Some(t), _) => now == t
      case (None, Some(t)) => now == t
      case (None, None) => now == was
    else if env.md.value[col] == "BLOB" then now == GetOr(env.parsers.base64(was.s), was)
    else now == was
  }

  lemma RemapConverts(env: Env, body: Row, col: string)
    requires col in body
    ensures Converted(env, col, body[col], Remap(env, body)[col])
  {
    if body[col].Str? {
      var p, s := env.parsers, body[col].s;
      assert DATE_LAYOUTS[1..] == ["DateOnly"] && DATE_LAYOUTS[1..][1..] == [];
      assert FirstLayout(p, ["DateOnly"], s) == GetOr(p.time("DateOnly", s), Str(s));
    }
  }

  /** No column of the body is a string in a date or blob column. */
  predicate NothingToConvert(env: Env, body: Row) {
    forall c :: c in body && body[c].Str? && env.md.Some? && c in env.md.value ==>
                  env.md.value[c] !in {"DATETIME", "TIMESTAMP", "DATE", "BLOB"}
  }

  lemma RemapKeeps(env: Env, body: Row)
    requires NothingToConvert(env, body)
    ensures Remap(env, body) == body
  {
    forall c | c in body ensures Remap(env, body)[c] == body[c] {
      RemapConverts(env, body, c);
    }
  }

  // ---- One write ----

  function InsertValues(body: Row): seq<Value> {
    ValuesOf(body, SortedKeys(body))
  }

  function CreateOne(env: Env, rows: Rows, entity: string, replace: bool, body: Row): Result<Rows> {
    var b := Remap(env, body);
    ExecText(env.eng, rows, InsertText(replace, entity, SortedKeys(b)), InsertValues(b))
  }

  function UpdateOne(env: Env, rows: Rows, entity: string, id: string, body: Row): Result<Rows> {
    var b := Remap(env, body);
    ExecText(env.eng, rows, UpdateText(entity, IdColumn(env.cfg, entity), SortedKeys(b)), InsertValues(b) + [Str(id)])
  }

  function DeleteOneItem(env: Env, rows: Rows, entity: string, id: string): Result<Rows> {
    ExecText(env.eng, rows, DeleteText(entity, IdColumn(env.cfg, entity)), [Str(id)])
  }

  function FetchOne(env: Env, rows: Rows, entity: string, id: string): Result<Option<Row>> {
    QueryText(env.eng, rows, SelectText(entity, IdColumn(env.cfg, entity)), [Str(id)])
  }

  /** The entity is the table, and its configured id column is the table's key. */
  predicate Targets(env: Env, entity: string) {
    entity == env.eng.table && '`' !in entity && IdColumn(env.cfg, entity) == env.eng.key && '`' !in env.eng.key
  }

  lemma FetchMeans(env: Env, rows: Rows, entity: string, id: string)
    requires Targets(env, entity) && NeverRejects(env.eng)
    ensures FetchOne(env, rows, entity, id) == Ok(Lookup(env.eng.key, rows, id))
  {
    SelectParses(entity, env.eng.key);
    FindIsLookup(env.eng.key, rows, id);
  }

  // ---- What a caller is shown ----

  function GetResult(env: Env, rows: Rows, entity: string, id: string): Result<Option<Row>> {
    if !env.cfg.read then Err("read op is not allowed by configuration") else FetchOne(env, rows, entity, id)
  }

  /** The answer to an update that went through or not; `after` is what its statement made of the
      rows. */
  function UpdateResult(env: Env, after: Result<Rows>, entity: string, id: string): Result<Option<Row>> {
    if !env.cfg.update then Err("update op is not allowed by configuration")
    else if !after.Ok? then Err("failed to update entity")
    else FetchOne(env, after.value, entity, id)
  }

  function CreateResult(env: Env, after: Result<Rows>, entity: string, lastId: Option<string>): Result<Option<Row>> {
    if !env.cfg.create then Err("create op is not allowed by configuration")
    else if !after.Ok? then Err("insert failed")
    else if lastId.None? then Err("failed to retrieve last insert ID")
    else FetchOne(env, after.value, entity, lastId.value)
  }

  // ---- Many writes: the left fold of single ones ----

  /** Bulk update takes the id from the object itself and panics if it is not a string. */
  function UpdateObject(env: Env, rows: Rows, entity: string, obj: Row): Result<Rows> {
    var idCol := IdColumn(env.cfg, entity);
    if idCol !in obj || !obj[idCol].Str? then Panic("id is not a string")
    else UpdateOne(env, rows, entity, obj[idCol].s, obj)
  }

  function FoldUpdate(env: Env, rows: Rows, entity: string, objs: seq<Row>): Result<Rows> {
    if objs == [] then Ok(rows)
    else
      match FoldUpdate(env, rows, entity, objs[..|objs| - 1])
      case Ok(before) => UpdateObject(env, before, entity, objs[|objs| - 1])
      case r => r
  }

  function FoldCreate(env: Env, rows: Rows, entity: string, replace: bool, objs: seq<Row>): Result<Rows> {
    if objs == [] then Ok(rows)
    else
      match FoldCreate(env, rows, entity, replace, objs[..|objs| - 1])
      case Ok(before) => CreateOne(env, before, entity, replace, objs[|objs| - 1])
      case r => r
  }

  function MultiDeleteRows(env: Env, rows: Rows, entity: string, ids: seq<Value>): Result<Rows> {
    if ids == [] then Err("require at least one object")
    else if |ids| == 1 then DeleteOneItem(env, rows, entity, Sprint(ids[0]))
    else ExecText(env.eng, rows, MultiDeleteText(entity, IdColumn(env.cfg, entity), |ids|), ids)
  }

  lemma {:induction false} FoldFailsEarly(env: Env, rows: Rows, entity: string, replace: bool, objs: seq<Row>, n: nat)
    requires n <= |objs|
    ensures !FoldUpdate(env, rows, entity, objs[..n]).Ok? ==>
              FoldUpdate(env, rows, entity, objs) == FoldUpdate(env, rows, entity, objs[..n])
    ensures !FoldCreate(env, rows, entity, replace, objs[..n]).Ok? ==>
              FoldCreate(env, rows, entity, replace, objs) == FoldCreate(env, rows, entity, replace, objs[..n])
  {
    if n == |objs| {
      assert objs[..n] == objs;
    } else {
      FoldFailsEarly(env, rows, entity, replace, objs[..|objs| - 1], n);
      assert objs[..|objs| - 1][..n] == objs[..n];
    }
  }

  lemma FoldStart(env: Env, rows: Rows, entity: string, replace: bool)
    ensures FoldUpdate(env, rows, entity, []) == Ok(rows) && FoldCreate(env, rows, entity, replace, []) == Ok(rows)
  {
  }

  /** Position n of a fold: what it adds, and that a failure there is a failure of the whole. */
  lemma FoldStep(env: Env, rows: Rows, entity: string, replace: bool, objs: seq<Row>, n: nat)
    requires n < |objs|
    ensures var u := FoldUpdate(env, rows, entity, objs[..n]);
            u.Ok? ==> var next := UpdateObject(env, u.value, entity, objs[n]);
                      FoldUpdate(env, rows, entity, objs[..n + 1]) == next
                      && (!next.Ok? ==> FoldUpdate(env, rows, entity, objs) == next)
    ensures var c := FoldCreate(env, rows, entity, replace, objs[..n]);
            c.Ok? ==> var next := CreateOne(env, c.value, entity, replace, objs[n]);
                      FoldCreate(env, rows, entity, replace, objs[..n + 1]) == next
                      && (!next.Ok? ==> FoldCreate(env, rows, entity, replace, objs) == next)
  {
    hide UpdateObject, CreateOne;
    assert objs[..n + 1][..n] == objs[..n];
    FoldFailsEarly(env, rows, entity, replace, objs, n + 1);
  }

  // ---- The database handle ----

  /** Committed rows, and whether the server lets transactions begin and commit. */
  class Db {
    const eng: Engine
    var rows: Rows
    var beginFails: bool
    var commitFails: bool

    constructor (eng: Engine, rows: Rows)
      ensures this.eng == eng && this.rows == rows && !beginFails && !commitFails
    {
      this.eng, this.rows, beginFails, commitFails := eng, rows, false, false;
    }

    method ExecContext(text: string, args: seq<Value>) returns (err: bool)
      modifies this`rows
      ensures var r := ExecText(eng, old(rows), text, args);
              err == !r.Ok? && rows == if r.Ok? then r.value else old(rows)
    {
      var r := ExecText(eng, rows, text, args);
      if r.Ok? {
        rows := r.value;
      }
      err := !r.Ok?;
    }

    method BeginTx() returns (tx: Tx?)
      ensures tx == null <==> beginFails
      ensures tx != null ==> fresh(tx) && tx.db == this && tx.work == rows && tx.open
    {
      if beginFails {
        tx := null;
      } else {
        tx := new Tx(this);
      }
    }
  }

  /** A transaction works on its own copy. */
  class Tx {
    const db: Db
    var work: Rows
    var open: bool

    constructor (db: Db)
      ensures this.db == db && work == db.rows && open
    {
      this.db, work, open := db, db.rows, true;
    }

    method ExecContext(text: string, args: seq<Value>) returns (err: bool)
      requires open
      modifies this`work
      ensures var r := ExecText(db.eng, old(work), text, args);
              err == !r.Ok? && work == if r.Ok? then r.value else old(work)
    {
      var r := ExecText(db.eng, work, text, args);
      if r.Ok? {
        work := r.value;
      }
      err := !r.Ok?;
    }

    method Commit() returns (err: bool)
      requires open
      modifies this`open, db`rows
      ensures !open && err == db.commitFails
      ensures db.rows == if err then old(db.rows) else work
    {
      open := false;
      if !db.commitFails {
        db.rows := work;
      }
      err := db.commitFails;
    }

    method Rollback()
      requires open
      modifies this`open
      ensures !open
    {
      open := false;
    }
  }

  /** api.UntypedDto: a map that is passed by reference. */
  class UntypedDto {
    var fields: Row

    constructor (fields: Row)
      ensures this.fields == fields
    {
      this.fields := fields;
    }
  }

  ghost function FieldsOf(objs: seq<UntypedDto>): (r: seq<Row>)
    reads objs
    ensures |r| == |objs| && forall i :: 0 <= i < |objs| ==> r[i] == objs[i].fields
  {
    if objs == [] then [] else [objs[0].fields] + FieldsOf(objs[1..])
  }

  ghost function Refs(objs: seq<UntypedDto>): set<object> {
    set o | o in objs
  }

  /** lo.Keys: the keys in some order. */
  method Keys(body: Row) returns (keys: seq<string>)
    ensures Enumerates(keys, body)
  {
    keys := [];
    var todo := body.Keys;
    while todo != {}
      invariant todo <= body.Keys && Distinct(keys)
      invariant forall k :: k in keys <==> k in body && k !in todo
    {
      var k :| k in todo;
      keys := keys + [k];
      todo := todo - {k};
    }
  }

  // ---- The CRUD layer ----

  datatype Effect = Effect(rows: Rows, failed: bool, panicked: bool)

  /** What a bulk write leaves behind: the fold of its statements, or the old rows. */
  function BulkEffect(allowed: bool, begins: bool, commits: bool, rows: Rows, fold: Result<Rows>): Effect {
    if !allowed || !begins then Effect(rows, true, false)
    else
      match fold
      case Ok(after) => if commits then Effect(after, false, false) else Effect(rows, true, false)
      case Err(_) => Effect(rows, true, false)
      case Panic(_) => Effect(rows, false, true)
  }

  /** What a single write leaves behind. */
  function SingleEffect(allowed: bool, rows: Rows, r: Result<Rows>): Effect {
    if !allowed || !r.Ok? then Effect(rows, true, false) else Effect(r.value, false, false)
  }

  class Impl {
    const env: Env
    const db: Db

    ghost predicate Valid() {
      db.eng == env.eng
    }

    constructor (env: Env, db: Db)
      requires db.eng == env.eng
      ensures Valid() && this.env == env && this.db == db
    {
      this.env, this.db := env, db;
    }

    /** remapBody: the map itself is rewritten, key by key in any order. */
    method RemapBody(body: UntypedDto)
      modifies body
      ensures body.fields == Remap(env, old(body.fields))
      ensures body.fields.Keys == old(body.fields).Keys
      ensures forall c :: c in body.fields ==> Converted(env, c, old(body.fields)[c], body.fields[c])
    {
      forall c | c in body.fields ensures Converted(env, c, body.fields[c], Remap(env, body.fields)[c]) {
        RemapConverts(env, body.fields, c);
      }
      if env.md.None? {
        assert body.fields == Remap(env, body.fields);
        return;
      }
      var todo := body.fields.Keys;
      ghost var was := body.fields;
      while todo != {}
        invariant todo <= was.Keys && body.fields.Keys == was.Keys
        invariant forall c :: c in was ==>
          body.fields[c] == if c in todo then was[c] else Remap(env, was)[c]
      {
        var c :| c in todo;
        if c in env.md.value {
          body.fields := body.fields[c := RemapValue(env.parsers, body.fields[c], env.md.value[c])];
        }
        todo := todo - {c};
      }
      assert body.fields == Remap(env, was);
    }

    method FetchOneItem(entity: string, id: string) returns (r: Result<Option<Row>>)
      requires Valid()
      ensures r == FetchOne(env, db.rows, entity, id)
      ensures Targets(env, entity) && NeverRejects(env.eng) ==> r == Ok(Lookup(env.eng.key, db.rows, id))
    {
      if Targets(env, entity) && NeverRejects(env.eng) {
        FetchMeans(env, db.rows, entity, id);
      }
      var qry := SelectText(entity, IdColumn(env.cfg, entity));
      r := QueryText(db.eng, db.rows, qry, [Str(id)]);
    }

    method Get(entity: string, id: string) returns (r: Result<Option<Row>>)
      requires Valid()
      ensures r == GetResult(env, db.rows, entity, id)
      ensures if env.cfg.read then r == FetchOne(env, db.rows, entity, id) else r.Err?
    {
      if !env.cfg.read {
        return Err("read op is not allowed by configuration");
      }
      r := FetchOneItem(entity, id);
    }

    method Delete(entity: string, id: string) returns (err: bool)
      requires Valid()
      modifies db`rows
      ensures Effect(db.rows, err, false)
           == SingleEffect(env.cfg.delete, old(db.rows), DeleteOneItem(env, old(db.rows), entity, id))
      ensures var after := DeleteOneItem(env, old(db.rows), entity, id);
              (err <==> !env.cfg.delete || !after.Ok?) && db.rows == if err then old(db.rows) else after.value
    {
      if !env.cfg.delete {
        return true;
      }
      err := db.ExecContext(DeleteText(entity, IdColumn(env.cfg, entity)), [Str(id)]);
    }

    method Update(entity: string, id: string, body: UntypedDto) returns (r: Result<Option<Row>>)
      requires Valid()
      modifies db`rows, body
      ensures var after := UpdateOne(env, old(db.rows), entity, id, old(body.fields));
              var e := SingleEffect(env.cfg.update, old(db.rows), after);
              db.rows == e.rows && r == UpdateResult(env, after, entity, id)
      ensures var after := UpdateOne(env, old(db.rows), entity, id, old(body.fields));
              if env.cfg.update && after.Ok? then db.rows == after.value && r == FetchOne(env, db.rows, entity, id)
              else r.Err? && db.rows == old(db.rows)
    {
      if !env.cfg.update {
        return Err("update op is not allowed by configuration");
      }
      RemapBody(body);
      var keys := Keys(body.fields);
      var qry, values := CreateUpdateQuery(entity, IdColumn(env.cfg, entity), body.fields, keys);
      values := values + [Str(id)];
      var err := db.ExecContext(qry, values);
      if err {
        return Err("failed to update entity");
      }
      r := FetchOneItem(entity, id);
    }

    /** `lastId` is what the driver reports as the last insert id; if it fails to, the row stays. */
    method Create(entity: string, body: UntypedDto, lastId: Option<string>) returns (r: Result<Option<Row>>)
      requires Valid()
      modifies db`rows, body
      ensures var after := CreateOne(env, old(db.rows), entity, false, old(body.fields));
              var e := SingleEffect(env.cfg.create, old(db.rows), after);
              db.rows == e.rows && r == CreateResult(env, after, entity, lastId)
      ensures var after := CreateOne(env, old(db.rows), entity, false, old(body.fields));
              if !env.cfg.create || !after.Ok? then r.Err? && db.rows == old(db.rows)
              else db.rows == after.value
                   && if lastId.None? then r.Err? else r == FetchOne(env, db.rows, entity, lastId.value)
    {
      if !env.cfg.create {
        return Err("create op is not allowed by configuration");
      }
      RemapBody(body);
      var keys := Keys(body.fields);
      var qry, values := CreateInsertOrReplaceQuery(false, entity, body.fields, keys);
      var err := db.ExecContext(qry, values);
      if err {
        return Err("insert failed");
      }
      if lastId.None? {
        return Err("failed to retrieve last insert ID");
      }
      r := FetchOneItem(entity, lastId.value);
    }

    method MultiDelete(entity: string, ids: seq<Value>) returns (err: bool)
      requires Valid()
      modifies db`rows
      ensures Effect(db.rows, err, false)
           == SingleEffect(env.cfg.delete, old(db.rows), MultiDeleteRows(env, old(db.rows), entity, ids))
      ensures !env.cfg.delete || ids == [] ==> err && db.rows == old(db.rows)
      ensures var after := MultiDeleteRows(env, old(db.rows), entity, ids);
              (err <==> !env.cfg.delete || !after.Ok?) && db.rows == if err then old(db.rows) else after.value
    {
      if !env.cfg.delete {
        return true;
      }
      if |ids| == 0 {
        return true;
      } else if |ids| == 1 {
        err := Delete(entity, Sprint(ids[0]));
      } else {
        err := db.ExecContext(MultiDeleteText(entity, IdColumn(env.cfg, entity), |ids|), ids);
      }
    }

    /** The body of MultiUpdate's loop. */
    method UpdateIn(tx: Tx, entity: string, obj: UntypedDto) returns (err: bool, panicked: bool)
      requires Valid() && tx.db == db && tx.open
      modifies tx`work, obj
      ensures match UpdateObject(env, old(tx.work), entity, old(obj.fields))
              case Ok(after) => !err && !panicked && tx.work == after
              case Err(_) => err && !panicked
              case Panic(_) => panicked
    {
      var idCol := IdColumn(env.cfg, entity);
      if idCol !in obj.fields || !obj.fields[idCol].Str? {
        return false, true;
      }
      var id := obj.fields[idCol].s;
      RemapBody(obj);
      var keys := Keys(obj.fields);
      var qry, values := CreateUpdateQuery(entity, idCol, obj.fields, keys);
      values := values + [Str(id)];
      ExecNeverPanics(env.eng, tx.work, qry, values);
      err := tx.ExecContext(qry, values);
      panicked := false;
    }

    /** The body of MultiCreate's loop. */
    method CreateIn(tx: Tx, entity: string, replace: bool, obj: UntypedDto) returns (err: bool)
      requires Valid() && tx.db == db && tx.open
      modifies tx`work, obj
      ensures match CreateOne(env, old(tx.work), entity, replace, old(obj.fields))
              case Ok(after) => !err && tx.work == after
              case Err(_) => err
              case Panic(_) => false
    {
      RemapBody(obj);
      var keys := Keys(obj.fields);
      var qry, values := CreateInsertOrReplaceQuery(replace, entity, obj.fields, keys);
      ExecNeverPanics(env.eng, tx.work, qry, values);
      err := tx.ExecContext(qry, values);
    }

    /** MultiUpdate: on any error the transaction is rolled back; a panic leaves it open. */
    method MultiUpdate(entity: string, objs: seq<UntypedDto>) returns (err: bool, panicked: bool)
      requires Valid() && Distinct(objs)
      modifies db`rows, Refs(objs)
      ensures Effect(db.rows, err, panicked) ==
              BulkEffect(env.cfg.update, !db.beginFails, !db.commitFails, old(db.rows),
                         FoldUpdate(env, old(db.rows), entity, old(FieldsOf(objs))))
    {
      hide UpdateObject, CreateOne, FoldUpdate, FoldCreate, FieldsOf;
      FoldStart(env, db.rows, entity, false);
      if !env.cfg.update {
        return true, false;
      }
      var tx := db.BeginTx();
      if tx == null {
        return true, false;
      }
      ghost var bodies := FieldsOf(objs);
      for i := 0 to |objs|
        invariant tx.open && tx.db == db && fresh(tx)
        invariant db.rows == old(db.rows)
        invariant forall j :: i <= j < |objs| ==> objs[j].fields == bodies[j]
        invariant FoldUpdate(env, db.rows, entity, bodies[..i]) == Ok(tx.work)
      {
        FoldStep(env, db.rows, entity, false, bodies, i);
        var e, p := UpdateIn(tx, entity, objs[i]);
        if p {
          return false, true;
        }
        if e {
          tx.Rollback();
          return true, false;
        }
      }
      assert bodies[..|objs|] == bodies;
      var e := tx.Commit();
      return e, false;
    }

    /** MultiCreate, with REPLACE or INSERT statements. */
    method MultiCreate(entity: string, replace: bool, objs: seq<UntypedDto>) returns (err: bool)
      requires Valid() && Distinct(objs)
      modifies db`rows, Refs(objs)
      ensures Effect(db.rows, err, false) ==
              BulkEffect(env.cfg.create, !db.beginFails, !db.commitFails, old(db.rows),
                         FoldCreate(env, old(db.rows), entity, replace, old(FieldsOf(objs))))
    {
      hide UpdateObject, CreateOne, FoldUpdate, FoldCreate, FieldsOf;
      FoldStart(env, db.rows, entity, replace);
      if !env.cfg.create {
        return true;
      }
      var tx := db.BeginTx();
      if tx == null {
        return true;
      }
      ghost var bodies := FieldsOf(objs);
      for i := 0 to |objs|
        invariant tx.open && tx.db == db && fresh(tx)
        invariant db.rows == old(db.rows)
        invariant forall j :: i <= j < |objs| ==> objs[j].fields == bodies[j]
        invariant FoldCreate(env, db.rows, entity, replace, bodies[..i]) == Ok(tx.work)
      {
        FoldStep(env, db.rows, entity, replace, bodies, i);
        var e := CreateIn(tx, entity, replace, objs[i]);
        if e {
          tx.Rollback();
          return true;
        }
      }
      assert bodies[..|objs|] == bodies;
      err := tx.Commit();
    }
  }

  lemma ExecNeverPanics(eng: Engine, rows: Rows, text: string, args: seq<Value>)
    ensures !ExecText(eng, rows, text, args).Panic?
  {
  }
}
