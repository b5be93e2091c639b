/**
 * The update operation. Without `OnlyWhere` predicates, the WHERE list is the
 * accumulated `Where` predicates followed by `column = value` for every
 * primary-key column that is not in the `Set` list, and those columns stay out
 * of SET; with `OnlyWhere` predicates, WHERE is exactly those. SET is the
 * `Set` columns when any were given, else every column outside the type's
 * update-ignore set, which `Ignore`d columns join for good.
 */
module UpdateOps {
  import opened Wrappers
  import opened Values
  import opened Handles
  import opened Clauses
  import opened Entity
  import opened OrmCore

  /** What the field loop of `getUpdateBuilder` collects. */
  datatype Parts = Parts(sets: seq<SetGe>, pkWheres: seq<Ge>)

  /** A field becomes a primary-key predicate (and is then skipped for SET). */
  predicate PkPredicate(column: string, pks: set<string>, setMap: set<string>, entityWhere: bool)
  {
    entityWhere && column !in setMap && column in pks
  }

  /** A field that is not a primary-key predicate goes to SET: a `Set` column, or, without any, a non-ignored one. */
  predicate Settable(column: string, setMap: set<string>, ignore: set<string>)
  {
    if |setMap| > 0 then column in setMap else column !in ignore
  }

  /** The field loop over the registered fields and the entity's values of them. */
  function UpdateParts(fields: seq<string>, vals: seq<Value>, fieldColumn: map<string, string>,
                       pks: set<string>, setMap: set<string>, ignore: set<string>, entityWhere: bool): Parts
    requires |vals| == |fields|
  {
    if fields == [] then Parts([], [])
    else
      var n := |fields| - 1;
      var p := UpdateParts(fields[..n], vals[..n], fieldColumn, pks, setMap, ignore, entityWhere);
      Place(p, ColumnFor(fieldColumn, fields[n]), vals[n], pks, setMap, ignore, entityWhere)
  }

  /** Where one field's `column = value` goes. */
  function Place(p: Parts, column: string, v: Value, pks: set<string>, setMap: set<string>, ignore: set<string>, entityWhere: bool): Parts
  {
    if PkPredicate(column, pks, setMap, entityWhere) then Parts(p.sets, p.pkWheres + [Eq(column, v)])
    else if Settable(column, setMap, ignore) then Parts(p.sets + [SetEq(column, v)], p.pkWheres)
    else p
  }

  /** One more field of the loop. */
  lemma UpdatePartsSnoc(fields: seq<string>, vals: seq<Value>, fieldColumn: map<string, string>,
                        pks: set<string>, setMap: set<string>, ignore: set<string>, entityWhere: bool, j: nat)
    requires |vals| == |fields| && j < |fields|
    ensures UpdateParts(fields[..j + 1], vals[..j + 1], fieldColumn, pks, setMap, ignore, entityWhere)
            == Place(UpdateParts(fields[..j], vals[..j], fieldColumn, pks, setMap, ignore, entityWhere),
                     ColumnFor(fieldColumn, fields[j]), vals[j], pks, setMap, ignore, entityWhere)
  {
    assert fields[..j + 1][..j] == fields[..j] && vals[..j + 1][..j] == vals[..j];
  }

  /** The statement `getUpdateBuilder` hands to the builder. */
  function UpdateStatement(m: Meta, values: seq<Field>, setMap: set<string>, ignore: set<string>,
                           wheres: seq<Ge>, onlyWheres: seq<Ge>): Statement
  {
    var entityWhere := |onlyWheres| == 0;
    var p := UpdateParts(m.fields, ValuesOf(values, m.fields), m.fieldColumn, Elems(m.pks), setMap, ignore, entityWhere);
    UpdateStmt(m.table, p.sets, (if entityWhere then wheres else onlyWheres) + p.pkWheres)
  }

  /**
   * Where the k-th field goes: a primary-key predicate `Eq(column, value)`, else a
   * `SetEq(column, value)` when it is settable. The value is the raw field value, so
   * a zero key still yields a predicate.
   */
  lemma {:induction false} UpdatePartsPlacement(fields: seq<string>, vals: seq<Value>, fieldColumn: map<string, string>,
                                                pks: set<string>, setMap: set<string>, ignore: set<string>,
                                                entityWhere: bool, k: nat)
    requires |vals| == |fields| && k < |fields|
    ensures var p := UpdateParts(fields, vals, fieldColumn, pks, setMap, ignore, entityWhere);
      var column := ColumnFor(fieldColumn, fields[k]);
      && (PkPredicate(column, pks, setMap, entityWhere) ==> Eq(column, vals[k]) in p.pkWheres)
      && (!PkPredicate(column, pks, setMap, entityWhere) && Settable(column, setMap, ignore) ==>
            SetEq(column, vals[k]) in p.sets)
  {
    var n := |fields| - 1;
    if k < n {
      UpdatePartsPlacement(fields[..n], vals[..n], fieldColumn, pks, setMap, ignore, entityWhere, k);
      assert fields[..n][k] == fields[k] && vals[..n][k] == vals[k];
    }
  }

  /** Every SET entry comes from a settable field that is not a primary-key predicate. */
  lemma {:induction false} UpdateSetSource(fields: seq<string>, vals: seq<Value>, fieldColumn: map<string, string>,
                                           pks: set<string>, setMap: set<string>, ignore: set<string>,
                                           entityWhere: bool, s: SetGe) returns (k: nat)
    requires |vals| == |fields|
    requires s in UpdateParts(fields, vals, fieldColumn, pks, setMap, ignore, entityWhere).sets
    ensures k < |fields| && s == SetEq(ColumnFor(fieldColumn, fields[k]), vals[k])
    ensures !PkPredicate(s.column, pks, setMap, entityWhere) && Settable(s.column, setMap, ignore)
  {
    var n := |fields| - 1;
    var p := UpdateParts(fields[..n], vals[..n], fieldColumn, pks, setMap, ignore, entityWhere);
    if s in p.sets {
      k := UpdateSetSource(fields[..n], vals[..n], fieldColumn, pks, setMap, ignore, entityWhere, s);
      assert fields[..n][k] == fields[k] && vals[..n][k] == vals[k];
    } else {
      k := n;
    }
  }

  /** Every primary-key predicate comes from a field whose column is a key outside the `Set` list. */
  lemma {:induction false} UpdatePkSource(fields: seq<string>, vals: seq<Value>, fieldColumn: map<string, string>,
                                          pks: set<string>, setMap: set<string>, ignore: set<string>,
                                          entityWhere: bool, w: Ge) returns (k: nat)
    requires |vals| == |fields|
    requires w in UpdateParts(fields, vals, fieldColumn, pks, setMap, ignore, entityWhere).pkWheres
    ensures k < |fields| && w == Eq(ColumnFor(fieldColumn, fields[k]), vals[k])
    ensures entityWhere && w.column in pks && w.column !in setMap
  {
    var n := |fields| - 1;
    var p := UpdateParts(fields[..n], vals[..n], fieldColumn, pks, setMap, ignore, entityWhere);
    if w in p.pkWheres {
      k := UpdatePkSource(fields[..n], vals[..n], fieldColumn, pks, setMap, ignore, entityWhere, w);
      assert fields[..n][k] == fields[k] && vals[..n][k] == vals[k];
    } else {
      k := n;
    }
  }

  /** With `OnlyWhere` predicates the entity contributes no predicate at all. */
  lemma {:induction false} OnlyWheresDropKeys(fields: seq<string>, vals: seq<Value>, fieldColumn: map<string, string>,
                                              pks: set<string>, setMap: set<string>, ignore: set<string>)
    requires |vals| == |fields|
    ensures UpdateParts(fields, vals, fieldColumn, pks, setMap, ignore, false).pkWheres == []
  {
    if fields != [] {
      var n := |fields| - 1;
      OnlyWheresDropKeys(fields[..n], vals[..n], fieldColumn, pks, setMap, ignore);
    }
  }

  /**
   * The WHERE list of an update: exactly the `OnlyWhere` predicates when there are
   * any, else the `Where` predicates followed by key predicates only.
   */
  lemma UpdateWhereShape(m: Meta, values: seq<Field>, setMap: set<string>, ignore: set<string>,
                         wheres: seq<Ge>, onlyWheres: seq<Ge>)
    ensures var st := UpdateStatement(m, values, setMap, ignore, wheres, onlyWheres);
      && st.table == m.table
      && (|onlyWheres| > 0 ==> st.wheres == onlyWheres)
      && (|onlyWheres| == 0 ==> st.wheres[..|wheres|] == wheres
                                && forall i :: |wheres| <= i < |st.wheres| ==> st.wheres[i].Eq? && st.wheres[i].column in Elems(m.pks))
  {
    var vals := ValuesOf(values, m.fields);
    var st := UpdateStatement(m, values, setMap, ignore, wheres, onlyWheres);
    if |onlyWheres| > 0 {
      OnlyWheresDropKeys(m.fields, vals, m.fieldColumn, Elems(m.pks), setMap, ignore);
    } else {
      var p := UpdateParts(m.fields, vals, m.fieldColumn, Elems(m.pks), setMap, ignore, true);
      assert st.wheres == wheres + p.pkWheres;
      forall i | |wheres| <= i < |st.wheres|
        ensures st.wheres[i].Eq? && st.wheres[i].column in Elems(m.pks)
      {
        assert st.wheres[i] == p.pkWheres[i - |wheres|];
        var _ := UpdatePkSource(m.fields, vals, m.fieldColumn, Elems(m.pks), setMap, ignore, true, st.wheres[i]);
      }
    }
  }

  /** The field loop of `getUpdateBuilder`, after the WHERE list was seeded with `whereGes0`. */
  method FieldLoop(values: seq<Field>, fields: seq<string>, fieldColumnMap: map<string, string>, pkMap: set<string>,
                   setMap: set<string>, ignoreMap: set<string>, entityWhere: bool, whereGes0: seq<Ge>)
    returns (setGes: seq<SetGe>, whereGes: seq<Ge>)
    ensures var p := UpdateParts(fields, ValuesOf(values, fields), fieldColumnMap, pkMap, setMap, ignoreMap, entityWhere);
      setGes == p.sets && whereGes == whereGes0 + p.pkWheres
  {
    setGes := [];
    whereGes := whereGes0;
    ghost var vals := ValuesOf(values, fields);
    ghost var parts := Parts([], []);
    var j := 0;
    while j < |fields|
      invariant 0 <= j <= |fields|
      invariant parts == UpdateParts(fields[..j], vals[..j], fieldColumnMap, pkMap, setMap, ignoreMap, entityWhere)
      invariant setGes == parts.sets && whereGes == whereGes0 + parts.pkWheres
    {
      UpdatePartsSnoc(fields, vals, fieldColumnMap, pkMap, setMap, ignoreMap, entityWhere, j);
      var f := fields[j];
      var column := ColumnFor(fieldColumnMap, f);
      var val := ValueOf(values, f);
      assert val == vals[j];
      if entityWhere && column !in setMap && column in pkMap {
        whereGes := whereGes + [Eq(column, val)];
      } else if |setMap| > 0 {
        if column in setMap {
          setGes := setGes + [SetEq(column, val)];
        }
      } else if column !in ignoreMap {
        setGes := setGes + [SetEq(column, val)];
      }
      parts := Place(parts, column, val, pkMap, setMap, ignoreMap, entityWhere);
      j := j + 1;
    }
    assert fields[..j] == fields && vals[..j] == vals;
  }

  /** `updateOperation`: an `Orm` and what the caller accumulated. */
  class UpdateOperation {
    const orm: Orm
    var setColumns: seq<string>
    var ignoreColumns: seq<string>
    var wheres: seq<Ge>
    var onlyWheres: seq<Ge>

    /** `newUpdateOperation(orm)`. */
    constructor(orm: Orm)
      ensures this.orm == orm && setColumns == [] && ignoreColumns == [] && wheres == [] && onlyWheres == []
    {
      this.orm := orm;
      setColumns := [];
      ignoreColumns := [];
      wheres := [];
      onlyWheres := [];
    }

    /** The registry after `getIgnoreMap`: the type's update-ignore set gains the `Ignore`d columns. */
    function Merged(entries: map<string, Meta>): map<string, Meta>
      requires orm.key in entries
      reads this, orm
    {
      var m := entries[orm.key];
      entries[orm.key := m.(updateIgnore := m.updateIgnore + Elems(ignoreColumns))]
    }

    method Ignore(columns: seq<string>)
      modifies this
      ensures ignoreColumns == old(ignoreColumns) + columns
      ensures setColumns == old(setColumns) && wheres == old(wheres) && onlyWheres == old(onlyWheres)
    {
      ignoreColumns := ignoreColumns + columns;
    }

    method Set(columns: seq<string>)
      modifies this
      ensures setColumns == old(setColumns) + columns
      ensures ignoreColumns == old(ignoreColumns) && wheres == old(wheres) && onlyWheres == old(onlyWheres)
    {
      setColumns := setColumns + columns;
    }

    method Where(ges: seq<Ge>)
      modifies this
      ensures wheres == old(wheres) + ges
      ensures setColumns == old(setColumns) && ignoreColumns == old(ignoreColumns) && onlyWheres == old(onlyWheres)
    {
      wheres := wheres + ges;
    }

    method OnlyWhere(ges: seq<Ge>)
      modifies this
      ensures onlyWheres == old(onlyWheres) + ges
      ensures setColumns == old(setColumns) && ignoreColumns == old(ignoreColumns) && wheres == old(wheres)
    {
      onlyWheres := onlyWheres + ges;
    }

    /** `IfWhere(cond, ...)`: `Where` when `cond`, else nothing. */
    method IfWhere(cond: bool, ges: seq<Ge>)
      modifies this
      ensures wheres == (if cond then old(wheres) + ges else old(wheres))
      ensures setColumns == old(setColumns) && ignoreColumns == old(ignoreColumns) && onlyWheres == old(onlyWheres)
    {
      if cond {
        Where(ges);
      }
    }

    /** `IfOnlyWhere(cond, ...)`: `OnlyWhere` when `cond`, else nothing. */
    method IfOnlyWhere(cond: bool, ges: seq<Ge>)
      modifies this
      ensures onlyWheres == (if cond then old(onlyWheres) + ges else old(onlyWheres))
      ensures setColumns == old(setColumns) && ignoreColumns == old(ignoreColumns) && wheres == old(wheres)
    {
      if cond {
        OnlyWhere(ges);
      }
    }

    /** `getIgnoreMap`: writes the `Ignore`d columns into the registry's own set and returns it. */
    method GetIgnoreMap() returns (ignore: set<string>)
      requires orm.key in orm.registry.entries
      modifies orm.registry
      ensures orm.registry.entries == Merged(old(orm.registry.entries))
      ensures ignore == orm.registry.entries[orm.key].updateIgnore
      ensures ignore == old(orm.registry.entries[orm.key].updateIgnore) + Elems(ignoreColumns)
    {
      var registry := orm.registry;
      var key := orm.key;
      ghost var m0 := registry.entries[key];
      assert Elems(ignoreColumns[..0]) == {};
      assert m0.(updateIgnore := m0.updateIgnore + {}) == m0;
      assert registry.entries[key := m0] == registry.entries;
      var i := 0;
      while i < |ignoreColumns|
        invariant 0 <= i <= |ignoreColumns|
        invariant registry.entries == old(registry.entries)[key := m0.(updateIgnore := m0.updateIgnore + Elems(ignoreColumns[..i]))]
      {
        assert Elems(ignoreColumns[..i + 1]) == Elems(ignoreColumns[..i]) + {ignoreColumns[i]} by {
          assert ignoreColumns[..i + 1] == ignoreColumns[..i] + [ignoreColumns[i]];
        }
        var m := registry.entries[key];
        assert m.updateIgnore + {ignoreColumns[i]} == m0.updateIgnore + Elems(ignoreColumns[..i + 1]);
        registry.entries := registry.entries[key := m.(updateIgnore := m.updateIgnore + {ignoreColumns[i]})];
        i := i + 1;
      }
      assert ignoreColumns[..i] == ignoreColumns;
      ignore := registry.entries[key].updateIgnore;
    }

    /** `getSetMap`: the `Set` columns as a set. */
    method GetSetMap() returns (setMap: set<string>)
      ensures setMap == Elems(setColumns)
    {
      setMap := AddEach({}, setColumns);
    }

    /** `getUpdateBuilder(entity)`. */
    method GetUpdateBuilder(e: Record) returns (st: Statement)
      requires orm.key in orm.registry.entries
      modifies orm.registry
      ensures orm.registry.entries == Merged(old(orm.registry.entries))
      ensures st == UpdateStatement(orm.registry.entries[orm.key], e.fields, Elems(setColumns),
                                    orm.registry.entries[orm.key].updateIgnore, wheres, onlyWheres)
    {
      var m0 := orm.registry.entries[orm.key];
      var pkMap := AddEach({}, m0.pks);
      var ignoreMap := GetIgnoreMap();
      var setMap := GetSetMap();
      var m := orm.registry.entries[orm.key];
      var entityWhere := |onlyWheres| <= 0;
      var setGes, whereGes := FieldLoop(e.fields, m.fields, m.fieldColumn, pkMap, setMap, ignoreMap, entityWhere,
                                        if entityWhere then wheres else onlyWheres);
      assert pkMap == Elems(m.pks);
      assert ignoreMap == m.updateIgnore;
      st := UpdateStmt(m.table, setGes, whereGes);
    }

    /**
     * `UpByPK(e)`: runs on the transaction when `openTx`, else on the database; the
     * affected-row count is reported when there is a result (its own error dropped).
     */
    method UpByPK(e: Record, run: Exec, build: Builder) returns (count: int, err: Option<DbError>)
      requires orm.TxBound() && orm.key in orm.registry.entries
      modifies orm.registry
      ensures orm.registry.entries == Merged(old(orm.registry.entries))
      ensures var res := run(orm.Target(), build(UpdateStatement(orm.registry.entries[orm.key], e.fields, Elems(setColumns),
                                                                  orm.registry.entries[orm.key].updateIgnore, wheres, onlyWheres)));
        && (res.ExecFailed? ==> count == 0 && err == Some(res.err))
        && (res.Executed? ==> count == res.rowsAffected && err.None?)
    {
      var st := GetUpdateBuilder(e);
      var res := run(orm.Target(), build(st));
      if res.ExecFailed? {
        return 0, Some(res.err);
      }
      return res.rowsAffected, None;
    }
  }
}
