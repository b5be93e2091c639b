/**
 * The delete operation. With `OnlyWhere` predicates the WHERE list is exactly
 * those and the entity plays no part; otherwise the entity's query-by-example
 * predicates are appended to the operation's own `Where` list, which keeps
 * them, and WHERE is that list.
 */
module DeleteOps {
  import opened Wrappers
  import opened Values
  import opened Handles
  import opened Clauses
  import opened Entity
  import opened OrmCore

  /** The `Where` list after `getDeleteBuilder`: the entity predicates join it unless `OnlyWhere` predicates exist. */
  function WheresAfter(wheres: seq<Ge>, onlyWheres: seq<Ge>, ges: seq<Ge>): seq<Ge>
  {
    if |onlyWheres| > 0 then wheres else wheres + ges
  }

  /** The WHERE list of the statement `getDeleteBuilder` builds. */
  function DeleteWhere(wheres: seq<Ge>, onlyWheres: seq<Ge>, ges: seq<Ge>): seq<Ge>
  {
    if |onlyWheres| > 0 then onlyWheres else WheresAfter(wheres, onlyWheres, ges)
  }

  /**
   * Without `OnlyWhere` predicates, WHERE is the accumulated predicates followed by exactly the
   * entity's set fields: each field predicate in WHERE comes from a set field, and each set field
   * has its predicate there. With them, WHERE is those predicates whatever the entity holds.
   */
  lemma DeleteWhereMembers(wheres: seq<Ge>, onlyWheres: seq<Ge>, fields: seq<Field>, fieldColumn: map<string, string>)
    ensures var w := DeleteWhere(wheres, onlyWheres, WhereGesOf(fields, fieldColumn));
      && (|onlyWheres| > 0 ==> w == onlyWheres)
      && (|onlyWheres| == 0 ==>
            && w[..|wheres|] == wheres
            && (forall g :: g in w[|wheres|..] ==>
                  exists i :: 0 <= i < |fields| && RealVal(fields[i].value).Some?
                              && g == Eq(ColumnFor(fieldColumn, fields[i].name), RealVal(fields[i].value).value))
            && (forall i :: 0 <= i < |fields| && RealVal(fields[i].value).Some? ==>
                  Eq(ColumnFor(fieldColumn, fields[i].name), RealVal(fields[i].value).value) in w[|wheres|..]))
  {
    var ges := WhereGesOf(fields, fieldColumn);
    WhereGesMembers(fields, fieldColumn);
    if |onlyWheres| == 0 {
      var w := DeleteWhere(wheres, onlyWheres, ges);
      assert w == wheres + ges;
      assert w[|wheres|..] == ges;
    }
  }

  /**
   * Two `Del` calls on one operation without `OnlyWhere` predicates: the second WHERE holds the
   * first entity's predicates as well as the second's, so with the same entity every predicate
   * it derives appears twice as often as before.
   */
  lemma SecondDelRepeats(wheres: seq<Ge>, ges1: seq<Ge>, ges2: seq<Ge>)
    ensures var after := WheresAfter(wheres, [], ges1);
      && DeleteWhere(after, [], ges2) == wheres + ges1 + ges2
      && (ges1 == ges2 ==> forall g :: multiset(DeleteWhere(after, [], ges2))[g]
                                       == multiset(wheres)[g] + 2 * multiset(ges1)[g])
  {
    var after := WheresAfter(wheres, [], ges1);
    assert after == wheres + ges1;
    assert DeleteWhere(after, [], ges2) == (wheres + ges1) + ges2;
    assert multiset((wheres + ges1) + ges2) == multiset(wheres) + multiset(ges1) + multiset(ges2);
  }

  /** `deleteOperation`: an `Orm`, the accumulated `Where` predicates and the `OnlyWhere` ones. */
  class DeleteOperation {
    const orm: Orm
    var wheres: seq<Ge>
    var onlyWheres: seq<Ge>

    /** `newsDeleteOperation(orm)`. */
    constructor(orm: Orm)
      ensures this.orm == orm && wheres == [] && onlyWheres == []
    {
      this.orm := orm;
      wheres := [];
      onlyWheres := [];
    }

    method Where(ges: seq<Ge>)
      modifies this
      ensures wheres == old(wheres) + ges && onlyWheres == old(onlyWheres)
    {
      wheres := wheres + ges;
    }

    method OnlyWhere(ges: seq<Ge>)
      modifies this
      ensures onlyWheres == old(onlyWheres) + ges && wheres == old(wheres)
    {
      onlyWheres := onlyWheres + ges;
    }

    /** `IfWhere(cond, ...)`: `Where` when `cond`, else nothing. */
    method IfWhere(cond: bool, ges: seq<Ge>)
      modifies this
      ensures wheres == (if cond then old(wheres) + ges else old(wheres)) && onlyWheres == old(onlyWheres)
    {
      if cond {
        Where(ges);
      }
    }

    /** `IfOnlyWhere(cond, ...)`: `OnlyWhere` when `cond`, else nothing. */
    method IfOnlyWhere(cond: bool, ges: seq<Ge>)
      modifies this
      ensures onlyWheres == (if cond then old(onlyWheres) + ges else old(onlyWheres)) && wheres == old(wheres)
    {
      if cond {
        OnlyWhere(ges);
      }
    }

    /** `appendWhereGes(entity)`: the entity's predicates join the operation's own list. */
    method AppendWhereGes(e: Record?)
      modifies this
      ensures wheres == old(wheres) + EntityGes(e, orm.registry.entries) && onlyWheres == old(onlyWheres)
    {
      var ges := GetWhereGes(e, orm.registry.entries);
      wheres := wheres + ges;
    }

    /** `getDeleteBuilder(entity)`: DELETE FROM the type's table with the WHERE list above. */
    method GetDeleteBuilder(e: Record?) returns (st: Statement)
      requires orm.key in orm.registry.entries
      modifies this
      ensures wheres == WheresAfter(old(wheres), onlyWheres, EntityGes(e, orm.registry.entries))
      ensures onlyWheres == old(onlyWheres)
      ensures st == DeleteStmt(orm.MetaOf().table, DeleteWhere(old(wheres), onlyWheres, EntityGes(e, orm.registry.entries)))
    {
      var table := orm.registry.entries[orm.key].table;
      if |onlyWheres| > 0 {
        st := DeleteStmt(table, onlyWheres);
      } else {
        AppendWhereGes(e);
        st := DeleteStmt(table, wheres);
      }
    }

    /**
     * `Del(e)`: runs on the transaction when `openTx`, else on the database. A failed `Exec`
     * reports (0, its error); otherwise the affected-row count and `RowsAffected`'s own error.
     */
    method Del(e: Record?, run: Exec, build: Builder) returns (count: int, err: Option<DbError>)
      requires orm.TxBound() && orm.key in orm.registry.entries
      modifies this
      ensures wheres == WheresAfter(old(wheres), onlyWheres, EntityGes(e, orm.registry.entries))
      ensures onlyWheres == old(onlyWheres)
      ensures var res := run(orm.Target(), build(DeleteStmt(orm.MetaOf().table,
                                                 DeleteWhere(old(wheres), onlyWheres, EntityGes(e, orm.registry.entries)))));
        && (res.ExecFailed? ==> count == 0 && err == Some(res.err))
        && (res.Executed? ==> count == res.rowsAffected && err == res.rowsAffectedErr)
    {
      var st := GetDeleteBuilder(e);
      var res := run(orm.Target(), build(st));
      if res.ExecFailed? {
        return 0, Some(res.err);
      }
      return res.rowsAffected, res.rowsAffectedErr;
    }
  }
}
