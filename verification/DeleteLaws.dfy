/** Bulk deletion against single deletions, and key uniqueness. */
module DeleteLaws {
  import opened Values
  import opened Texts
  import opened Statements
  import opened Engine
  import opened Crud
  import opened BulkLaws

  /** Deleting the ids one after another, each as the text that `%v` gives for it. */
  function FoldDelete(env: Env, rows: Rows, entity: string, ids: seq<Value>): Result<Rows> {
    if ids == [] then Ok(rows)
    else
      match FoldDelete(env, rows, entity, ids[..|ids| - 1])
      case Ok(before) => DeleteOneItem(env, before, entity, Sprint(ids[|ids| - 1]))
      case r => r
  }

  /** The ids as a single delete passes them on. */
  function AsTexts(ids: seq<Value>): (r: seq<Value>)
    ensures |r| == |ids| && forall i :: 0 <= i < |ids| ==> r[i] == Str(Sprint(ids[i]))
  {
    seq(|ids|, i requires 0 <= i < |ids| => Str(Sprint(ids[i])))
  }

  lemma SameAsEither(row: Row, col: string, a: seq<Value>, b: seq<Value>)
    ensures SameAsAny(row, col, a + b) <==> SameAsAny(row, col, a) || SameAsAny(row, col, b)
  {
    var all := a + b;
    if SameAsAny(row, col, a) {
      var i :| 0 <= i < |a| && Same(row, col, a[i]);
      assert all[i] == a[i];
    }
    if SameAsAny(row, col, b) {
      var i :| 0 <= i < |b| && Same(row, col, b[i]);
      assert all[|a| + i] == b[i];
    }
  }

  lemma {:induction false} WithoutTwice(rows: Rows, col: string, a: seq<Value>, b: seq<Value>)
    ensures RowsWithout(RowsWithout(rows, col, a), col, b) == RowsWithout(rows, col, a + b)
  {
    if rows == [] {
    } else {
      WithoutTwice(rows[1..], col, a, b);
      SameAsEither(rows[0], col, a, b);
      var rest := RowsWithout(rows[1..], col, a);
      if SameAsAny(rows[0], col, a) {
        assert [] + rest == rest;
      } else {
        assert ([rows[0]] + rest)[1..] == rest;
      }
    }
  }

  /** Deleting one by one removes every row that reads like one of the ids. */
  lemma {:induction false} FoldDeleteMeans(env: Env, rows: Rows, entity: string, ids: seq<Value>)
    requires Targets(env, entity) && NeverRejects(env.eng) && UniqueKeys(env.eng.key, rows)
    ensures FoldDelete(env, rows, entity, ids) == Ok(RowsWithout(rows, env.eng.key, AsTexts(ids)))
  {
    hide DeleteOneItem, RowsWithout;
    var key := env.eng.key;
    if ids == [] {
      WithoutNone(rows, key);
      assert AsTexts(ids) == [];
    } else {
      var n := |ids| - 1;
      var before, last := AsTexts(ids[..n]), Str(Sprint(ids[n]));
      FoldDeleteMeans(env, rows, entity, ids[..n]);
      DeleteMeans(env, RowsWithout(rows, key, before), entity, Sprint(ids[n]));
      RowsWithoutUnique(key, rows, key, before);
      DeleteIsWithout(key, RowsWithout(rows, key, before), last);
      WithoutTwice(rows, key, before, [last]);
      assert AsTexts(ids) == before + [last];
    }
  }

  lemma WithoutNone(rows: Rows, col: string)
    ensures RowsWithout(rows, col, []) == rows
  {
    NothingToRemove(rows, col, []);
  }

  lemma MultiDeleteMeans(env: Env, rows: Rows, entity: string, ids: seq<Value>)
    requires Targets(env, entity) && NeverRejects(env.eng) && UniqueKeys(env.eng.key, rows) && ids != []
    ensures MultiDeleteRows(env, rows, entity, ids) ==
            if |ids| > 1 && !Bindable(ids) then Err("unsupported type")
            else Ok(RowsWithout(rows, env.eng.key, if |ids| == 1 then AsTexts(ids) else ids))
  {
    hide DeleteOneItem, RowsWithout, DeleteRow, UniqueKeys;
    var key := env.eng.key;
    if |ids| == 1 {
      DeleteMeans(env, rows, entity, Sprint(ids[0]));
      DeleteIsWithout(key, rows, Str(Sprint(ids[0])));
      assert AsTexts(ids) == [Str(Sprint(ids[0]))];
    } else {
      MultiDeleteParses(entity, key, |ids|);
    }
  }

  /** A row equals an id only if it reads like it. */
  lemma SameReadsSame(row: Row, col: string, ids: seq<Value>)
    ensures SameAsAny(row, col, ids) ==> SameAsAny(row, col, AsTexts(ids))
    ensures (forall i :: 0 <= i < |ids| ==> IsKey(ids[i])) ==>
              (SameAsAny(row, col, ids) <==> SameAsAny(row, col, AsTexts(ids)))
  {
    if SameAsAny(row, col, ids) {
      var i :| 0 <= i < |ids| && Same(row, col, ids[i]);
      assert Same(row, col, AsTexts(ids)[i]);
    }
    if SameAsAny(row, col, AsTexts(ids)) {
      var i :| 0 <= i < |ids| && Same(row, col, AsTexts(ids)[i]);
      assert IsKey(ids[i]) ==> Same(row, col, ids[i]);
    }
  }

  lemma {:induction false} WithoutMore(rows: Rows, col: string, a: seq<Value>, b: seq<Value>)
    requires forall i :: 0 <= i < |rows| ==> (SameAsAny(rows[i], col, a) ==> SameAsAny(rows[i], col, b))
    ensures |RowsWithout(rows, col, b)| <= |RowsWithout(rows, col, a)|
    ensures RowsWithout(rows, col, a) == RowsWithout(rows, col, b) <==>
            forall i :: 0 <= i < |rows| ==> (SameAsAny(rows[i], col, b) ==> SameAsAny(rows[i], col, a))
  {
    if rows == [] {
    } else {
      WithoutMore(rows[1..], col, a, b);
      var ra, rb := RowsWithout(rows[1..], col, a), RowsWithout(rows[1..], col, b);
      assert ([rows[0]] + ra)[1..] == ra && ([rows[0]] + rb)[1..] == rb;
      assert [] + ra == ra && [] + rb == rb;
      assert forall i :: 0 < i < |rows| ==> rows[i] == rows[1..][i - 1];
      assert forall j :: 0 <= j < |rows[1..]| ==> rows[1..][j] == rows[j + 1];
      if SameAsAny(rows[0], col, b) && !SameAsAny(rows[0], col, a) {
        assert |RowsWithout(rows, col, b)| < |RowsWithout(rows, col, a)|;
      }
    }
  }

  /** One bulk delete is the single deletes in order exactly when there is one id, or no id is a list
      or an object (the driver refuses those) and no row reads like an id that is neither a string nor
      a number (`%v` turns null into "<nil>"). */
  lemma MultiDeleteExact(env: Env, rows: Rows, entity: string, ids: seq<Value>)
    requires Targets(env, entity) && NeverRejects(env.eng) && UniqueKeys(env.eng.key, rows) && ids != []
    ensures MultiDeleteRows(env, rows, entity, ids) == FoldDelete(env, rows, entity, ids) <==>
            |ids| == 1 || (Bindable(ids) && forall i :: 0 <= i < |rows| ==>
              (SameAsAny(rows[i], env.eng.key, AsTexts(ids)) ==> SameAsAny(rows[i], env.eng.key, ids)))
  {
    FoldDeleteMeans(env, rows, entity, ids);
    MultiDeleteMeans(env, rows, entity, ids);
    forall i | 0 <= i < |rows|
      ensures SameAsAny(rows[i], env.eng.key, ids) ==> SameAsAny(rows[i], env.eng.key, AsTexts(ids))
    {
      SameReadsSame(rows[i], env.eng.key, ids);
    }
    WithoutMore(rows, env.eng.key, ids, AsTexts(ids));
  }

  function TextSet(ids: seq<Value>): set<string> {
    set i | 0 <= i < |ids| :: Sprint(ids[i])
  }

  /** The texts of the ids that are strings or numbers. */
  function KeyTexts(ids: seq<Value>): set<string> {
    set i | 0 <= i < |ids| && IsKey(ids[i]) :: Sprint(ids[i])
  }

  /** Over the ids alone: the bulk delete is the single deletes on every table with unique keys
      exactly when there is one id, or no id is a list or an object and each reads like a string or a
      number among them. */
  lemma MultiDeleteAlways(env: Env, entity: string, ids: seq<Value>)
    requires Targets(env, entity) && NeverRejects(env.eng) && ids != []
    ensures (forall rows :: UniqueKeys(env.eng.key, rows) ==>
               MultiDeleteRows(env, rows, entity, ids) == FoldDelete(env, rows, entity, ids)) <==>
            |ids| == 1 || (Bindable(ids) && TextSet(ids) == KeyTexts(ids))
  {
    hide MultiDeleteRows, FoldDelete, UniqueKeys, SameAsAny, Sprint;
    var key := env.eng.key;
    forall rows | UniqueKeys(key, rows) && Bindable(ids) && TextSet(ids) == KeyTexts(ids)
      ensures MultiDeleteRows(env, rows, entity, ids) == FoldDelete(env, rows, entity, ids)
    {
      MultiDeleteExact(env, rows, entity, ids);
      forall i | 0 <= i < |rows| && SameAsAny(rows[i], key, AsTexts(ids)) ensures SameAsAny(rows[i], key, ids) {
        ReadsLikeKey(rows[i], key, ids);
      }
    }
    if |ids| == 1 {
      forall rows | UniqueKeys(key, rows)
        ensures MultiDeleteRows(env, rows, entity, ids) == FoldDelete(env, rows, entity, ids)
      {
        MultiDeleteExact(env, rows, entity, ids);
      }
    } else if !(Bindable(ids) && TextSet(ids) == KeyTexts(ids)) {
      MultiDeleteDiffers(env, entity, ids);
    }
  }

  lemma SprintStr(t: string)
    ensures Sprint(Str(t)) == t
  {
  }

  lemma SameByText(row: Row, col: string, v: Value)
    requires IsKey(v)
    ensures Same(row, col, v) <==> KeyText(row, col) == Some(Sprint(v))
  {
  }

  lemma ReadsLikeKey(row: Row, col: string, ids: seq<Value>)
    requires TextSet(ids) == KeyTexts(ids) && SameAsAny(row, col, AsTexts(ids))
    ensures SameAsAny(row, col, ids)
  {
    hide Same, Sprint;
    var i :| 0 <= i < |ids| && Same(row, col, AsTexts(ids)[i]);
    SameByText(row, col, Str(Sprint(ids[i])));
    SprintStr(Sprint(ids[i]));
    assert Sprint(ids[i]) in TextSet(ids);
    var j :| 0 <= j < |ids| && IsKey(ids[j]) && Sprint(ids[j]) == Sprint(ids[i]);
    SameByText(row, col, ids[j]);
    assert Same(row, col, ids[j]);
  }

  /** A table on which they differ: an item called like the id that is no key. */
  lemma MultiDeleteDiffers(env: Env, entity: string, ids: seq<Value>)
    requires Targets(env, entity) && NeverRejects(env.eng)
    requires |ids| > 1 && !(Bindable(ids) && TextSet(ids) == KeyTexts(ids))
    ensures exists rows :: UniqueKeys(env.eng.key, rows)
              && MultiDeleteRows(env, rows, entity, ids) != FoldDelete(env, rows, entity, ids)
  {
    hide MultiDeleteRows, FoldDelete;
    var key := env.eng.key;
    if !Bindable(ids) {
      assert UniqueKeys(key, []);
      MultiDeleteExact(env, [], entity, ids);
    } else {
      var i :| 0 <= i < |ids| && Sprint(ids[i]) !in KeyTexts(ids);
      var row: Row := map[key := Str(Sprint(ids[i]))];
      assert UniqueKeys(key, [row]);
      assert Same(row, key, AsTexts(ids)[i]);
      assert SameAsAny([row][0], key, AsTexts(ids)) && !SameAsAny([row][0], key, ids);
      MultiDeleteExact(env, [row], entity, ids);
    }
  }

  lemma {:induction false} WithoutBySet(rows: Rows, col: string, a: seq<Value>, b: seq<Value>)
    requires TextSet(a) == TextSet(b)
    ensures RowsWithout(rows, col, AsTexts(a)) == RowsWithout(rows, col, AsTexts(b))
  {
    if rows == [] {
    } else {
      WithoutBySet(rows[1..], col, a, b);
      ReadsInSet(rows[0], col, a);
      ReadsInSet(rows[0], col, b);
    }
  }

  lemma ReadsInSet(row: Row, col: string, ids: seq<Value>)
    ensures SameAsAny(row, col, AsTexts(ids)) <==>
            KeyText(row, col).Some? && KeyText(row, col).value in TextSet(ids)
  {
    if KeyText(row, col).Some? && KeyText(row, col).value in TextSet(ids) {
      var i :| 0 <= i < |ids| && Sprint(ids[i]) == KeyText(row, col).value;
      assert Same(row, col, AsTexts(ids)[i]);
    }
  }

  /** Ids that are strings or numbers: the bulk delete is the single deletes, in any order and with
      any repetitions, of the same ids. */
  lemma MultiDeleteAnyOrder(env: Env, rows: Rows, entity: string, ids: seq<Value>, order: seq<Value>)
    requires Targets(env, entity) && NeverRejects(env.eng) && UniqueKeys(env.eng.key, rows) && ids != []
    requires forall i :: 0 <= i < |ids| ==> IsKey(ids[i])
    requires TextSet(ids) == TextSet(order)
    ensures MultiDeleteRows(env, rows, entity, ids) == FoldDelete(env, rows, entity, order)
  {
    forall i | 0 <= i < |rows|
      ensures SameAsAny(rows[i], env.eng.key, AsTexts(ids)) ==> SameAsAny(rows[i], env.eng.key, ids)
    {
      SameReadsSame(rows[i], env.eng.key, ids);
    }
    MultiDeleteExact(env, rows, entity, ids);
    FoldDeleteMeans(env, rows, entity, ids);
    FoldDeleteMeans(env, rows, entity, order);
    WithoutBySet(rows, env.eng.key, ids, order);
  }

  /** LIMIT 1 removes everything that matches exactly when at most one row does. */
  lemma {:induction false} LimitOneExact(rows: Rows, col: string, id: Value)
    ensures DeleteRow(rows, col, id) == RowsWithout(rows, col, [id]) <==>
            forall i, j :: 0 <= i < j < |rows| ==> !(Same(rows[i], col, id) && Same(rows[j], col, id))
  {
    hide Same, SameAsAny, DeleteRow, FindRow;
    if rows == [] {
      NothingToDelete(col, id);
    } else {
      var rest := rows[1..];
      DeleteRowStep(rows, col, id);
      SameAsOne(rows[0], col, id);
      assert forall j :: 0 < j < |rows| ==> rows[j] == rest[j - 1];
      assert forall j :: 0 <= j < |rest| ==> rest[j] == rows[j + 1];
      if Same(rows[0], col, id) {
        RemovesSome(rest, col, id);
        FoundIff(rest, col, id);
        assert RowsWithout(rows, col, [id]) == [] + RowsWithout(rest, col, [id]) == RowsWithout(rest, col, [id]);
      } else {
        LimitOneExact(rest, col, id);
        var d, w := DeleteRow(rest, col, id), RowsWithout(rest, col, [id]);
        assert ([rows[0]] + d)[1..] == d && ([rows[0]] + w)[1..] == w;
      }
    }
  }

  lemma NothingToDelete(col: string, id: Value)
    ensures DeleteRow([], col, id) == [] && RowsWithout([], col, [id]) == []
  {
  }

  lemma FoundIff(rows: Rows, col: string, id: Value)
    ensures FindRow(rows, col, id).None? <==> forall j :: 0 <= j < |rows| ==> !Same(rows[j], col, id)
  {
  }

  lemma {:induction false} RemovesSome(rows: Rows, col: string, id: Value)
    ensures |RowsWithout(rows, col, [id])| <= |rows|
    ensures RowsWithout(rows, col, [id]) == rows <==> FindRow(rows, col, id).None?
  {
    if rows == [] {
    } else {
      RemovesSome(rows[1..], col, id);
      SameAsOne(rows[0], col, id);
      var w := RowsWithout(rows[1..], col, [id]);
      assert ([rows[0]] + w)[1..] == w && rows == [rows[0]] + rows[1..];
    }
  }
}
