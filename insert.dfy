/**
 * The insert operation: the columns of an insert are the registered fields of
 * the entity's type, in registration order, minus those whose column is
 * ignored; each entity contributes one argument row in that order. `Ignore`d
 * columns are written into the registry's shared insert-ignore set, where
 * they stay for every later insert of the type. After a single-row insert
 * the generated id is written back into the entity's only primary-key field
 * when that field is exported and of an integer kind.
 */
module InsertOps {
  import opened Wrappers
  import opened Values
  import opened Handles
  import opened Clauses
  import opened Entity
  import opened OrmCore

  /** The registered fields an insert writes: those whose column is not ignored, in field order. */
  function KeptFields(fields: seq<string>, fieldColumn: map<string, string>, ignore: set<string>): (r: seq<string>)
    ensures |r| <= |fields|
  {
    if fields == [] then []
    else
      var init := KeptFields(fields[..|fields| - 1], fieldColumn, ignore);
      var f := fields[|fields| - 1];
      if ColumnFor(fieldColumn, f) in ignore then init else init + [f]
  }

  /** The columns of some fields, position by position. */
  function ColumnsOf(kept: seq<string>, fieldColumn: map<string, string>): (r: seq<string>)
    ensures |r| == |kept|
    ensures forall k :: 0 <= k < |kept| ==> r[k] == ColumnFor(fieldColumn, kept[k])
  {
    if kept == [] then [] else ColumnsOf(kept[..|kept| - 1], fieldColumn) + [ColumnFor(fieldColumn, kept[|kept| - 1])]
  }

  /** The argument rows of several entities, one per entity. */
  function RowsOf(rows: seq<seq<Field>>, kept: seq<string>): (r: seq<seq<Value>>)
    ensures |r| == |rows|
    ensures forall i :: 0 <= i < |rows| ==> r[i] == ValuesOf(rows[i], kept)
  {
    if rows == [] then [] else RowsOf(rows[..|rows| - 1], kept) + [ValuesOf(rows[|rows| - 1], kept)]
  }

  /** The statement `getInsertBuilder` hands to the builder; the column list comes from the first entity. */
  function InsertStatement(m: Meta, rows: seq<seq<Field>>): (st: Statement)
  {
    var kept := KeptFields(m.fields, m.fieldColumn, m.insertIgnore);
    InsertStmt(m.table, if rows == [] then [] else ColumnsOf(kept, m.fieldColumn), RowsOf(rows, kept))
  }

  /** One more field of the walk: kept unless its column is ignored. */
  lemma KeptSnoc(fields: seq<string>, j: nat, fieldColumn: map<string, string>, ignore: set<string>)
    requires j < |fields|
    ensures KeptFields(fields[..j + 1], fieldColumn, ignore)
            == if ColumnFor(fieldColumn, fields[j]) in ignore then KeptFields(fields[..j], fieldColumn, ignore)
               else KeptFields(fields[..j], fieldColumn, ignore) + [fields[j]]
  {
    assert fields[..j + 1][..j] == fields[..j];
  }

  /** One more inserted field adds its column and its value at the end. */
  lemma ArgsSnoc(values: seq<Field>, kept: seq<string>, f: string, fieldColumn: map<string, string>)
    ensures ValuesOf(values, kept + [f]) == ValuesOf(values, kept) + [ValueOf(values, f)]
    ensures ColumnsOf(kept + [f], fieldColumn) == ColumnsOf(kept, fieldColumn) + [ColumnFor(fieldColumn, f)]
  {
    assert (kept + [f])[..|kept|] == kept;
  }

  /** One more entity adds its argument row at the end. */
  lemma RowsSnoc(rows: seq<seq<Field>>, i: nat, kept: seq<string>)
    requires i < |rows|
    ensures RowsOf(rows[..i + 1], kept) == RowsOf(rows[..i], kept) + [ValuesOf(rows[i], kept)]
  {
    assert rows[..i + 1][..i] == rows[..i];
  }

  /** The current field values of several entities. */
  function Snapshot(es: seq<Record>): (r: seq<seq<Field>>)
    reads es
    ensures |r| == |es|
    ensures forall i :: 0 <= i < |es| ==> r[i] == es[i].fields
  {
    if es == [] then [] else Snapshot(es[..|es| - 1]) + [es[|es| - 1].fields]
  }

  /** A field is settable through reflection only when it is exported (its name starts with an upper-case letter). */
  predicate Exported(name: string)
  {
    name != [] && 'A' <= name[0] <= 'Z'
  }

  /** The field `FieldByName` would find for the only primary-key column of a type, or "" when there is none. */
  function PkField(m: Meta): string
  {
    if |m.pks| == 1 && m.pks[0] in m.columnField then m.columnField[m.pks[0]] else ""
  }

  /** Writing a new value into one field keeps the entity's field names. */
  lemma SetValueKeepsNames(values: seq<Field>, i: nat, v: Value)
    requires i < |values|
    ensures FieldNames(values[i := Field(values[i].name, v)]) == FieldNames(values)
  {
    var r := values[i := Field(values[i].name, v)];
    assert forall k :: 0 <= k < |values| ==> FieldNames(r)[k] == FieldNames(values)[k];
  }

  /**
   * The entity after `One`'s back-fill of the generated id `id`: only when the id is
   * positive, the type has exactly one primary-key column, that column maps to an
   * exported field, and the field has a signed (`SetInt`) or unsigned (`SetUint`)
   * integer kind.
   */
  function BackFill(values: seq<Field>, typeName: string, entries: map<string, Meta>, id: int): (r: seq<Field>)
    ensures FieldNames(r) == FieldNames(values)
    ensures id <= 0 || typeName !in entries || |entries[typeName].pks| != 1 ==> r == values
  {
    if id <= 0 || typeName !in entries || |entries[typeName].pks| != 1 then values
    else
      var pkField := PkField(entries[typeName]);
      var i := IndexOf(values, pkField);
      if pkField == "" || !Exported(pkField) || i < 0 then values
      else if values[i].value.IntV? then
        SetValueKeepsNames(values, i, IntV(id));
        values[i := Field(pkField, IntV(id))]
      else if values[i].value.UintV? then
        SetValueKeepsNames(values, i, UintV(id));
        values[i := Field(pkField, UintV(id))]
      else values
  }

  /**
   * `KeptFields` keeps exactly the registered fields whose column is not ignored,
   * and keeps them all when no registered column is ignored.
   */
  lemma {:induction false} KeptFieldsMembers(fields: seq<string>, fieldColumn: map<string, string>, ignore: set<string>)
    ensures forall f :: f in KeptFields(fields, fieldColumn, ignore) <==> f in fields && ColumnFor(fieldColumn, f) !in ignore
  {
    if fields != [] {
      var init := fields[..|fields| - 1];
      KeptFieldsMembers(init, fieldColumn, ignore);
      assert fields == init + [fields[|fields| - 1]];
    }
  }

  /** With no registered column ignored, every registered field is inserted, in order. */
  lemma {:induction false} KeptFieldsAll(fields: seq<string>, fieldColumn: map<string, string>, ignore: set<string>)
    requires forall k :: 0 <= k < |fields| ==> ColumnFor(fieldColumn, fields[k]) !in ignore
    ensures KeptFields(fields, fieldColumn, ignore) == fields
  {
    if fields != [] {
      var init := fields[..|fields| - 1];
      KeptFieldsAll(init, fieldColumn, ignore);
      assert fields == init + [fields[|fields| - 1]];
    }
  }

  /** Adding ignored columns can only drop fields from an insert. */
  lemma {:induction false} KeptFieldsShrink(fields: seq<string>, fieldColumn: map<string, string>, ignore: set<string>, more: set<string>)
    ensures |KeptFields(fields, fieldColumn, ignore + more)| <= |KeptFields(fields, fieldColumn, ignore)|
  {
    if fields != [] {
      KeptFieldsShrink(fields[..|fields| - 1], fieldColumn, ignore, more);
    }
  }

  /**
   * The statement's columns are the non-ignored registered columns, none of them
   * ignored, and every row has one argument per column: the entity's value of the
   * field behind that column.
   */
  lemma InsertStatementShape(m: Meta, rows: seq<seq<Field>>)
    requires rows != []
    ensures var st := InsertStatement(m, rows);
      var kept := KeptFields(m.fields, m.fieldColumn, m.insertIgnore);
      && st.table == m.table
      && |st.columns| == |kept| && |st.rows| == |rows|
      && (forall k :: 0 <= k < |st.columns| ==> st.columns[k] !in m.insertIgnore && kept[k] in m.fields)
      && (forall i, k :: 0 <= i < |rows| && 0 <= k < |kept| ==>
            |st.rows[i]| == |kept| && st.rows[i][k] == ValueOf(rows[i], kept[k])
            && st.columns[k] == ColumnFor(m.fieldColumn, kept[k]))
  {
    var kept := KeptFields(m.fields, m.fieldColumn, m.insertIgnore);
    KeptFieldsMembers(m.fields, m.fieldColumn, m.insertIgnore);
    var st := InsertStatement(m, rows);
    forall k | 0 <= k < |st.columns|
      ensures st.columns[k] !in m.insertIgnore && kept[k] in m.fields
    {
      assert kept[k] in kept;
    }
  }

  /**
   * Back-filling writes the id into the first field named by the only primary key
   * when it is an exported integer field, and touches no other field.
   */
  lemma BackFillSetsKey(values: seq<Field>, typeName: string, entries: map<string, Meta>, id: int, i: nat)
    requires id > 0 && typeName in entries && |entries[typeName].pks| == 1
    requires Exported(PkField(entries[typeName]))
    requires i < |values| && values[i].name == PkField(entries[typeName])
    requires forall k :: 0 <= k < i ==> values[k].name != values[i].name
    ensures var r := BackFill(values, typeName, entries, id);
      && (values[i].value.IntV? ==> r == values[i := Field(values[i].name, IntV(id))])
      && (values[i].value.UintV? ==> r == values[i := Field(values[i].name, UintV(id))])
      && (!values[i].value.IntV? && !values[i].value.UintV? ==> r == values)
  {
    assert IndexOf(values, values[i].name) == i;
  }

  /** Without an exported field behind a single primary key, nothing is written back. */
  lemma BackFillNeedsExportedKey(values: seq<Field>, typeName: string, entries: map<string, Meta>, id: int)
    requires typeName in entries && !Exported(PkField(entries[typeName]))
    ensures BackFill(values, typeName, entries, id) == values
  {
  }

  /** The columns and arguments of one entity (the inner loop of `getInsertBuilder`). */
  method EntityRow(values: seq<Field>, fields: seq<string>, fieldColumn: map<string, string>, ignore: set<string>)
    returns (columns: seq<string>, args: seq<Value>)
    ensures columns == ColumnsOf(KeptFields(fields, fieldColumn, ignore), fieldColumn)
    ensures args == ValuesOf(values, KeptFields(fields, fieldColumn, ignore))
  {
    KeptFieldsMembers(fields, fieldColumn, ignore);
    columns, args := [], [];
    ghost var kept: seq<string> := [];
    var j := 0;
    while j < |fields|
      invariant 0 <= j <= |fields|
      invariant kept == KeptFields(fields[..j], fieldColumn, ignore)
      invariant columns == ColumnsOf(kept, fieldColumn)
      invariant args == ValuesOf(values, kept)
    {
      KeptSnoc(fields, j, fieldColumn, ignore);
      var f := fields[j];
      var column := ColumnFor(fieldColumn, f);
      if column !in ignore {
        var v := ValueOf(values, f);
        ArgsSnoc(values, kept, f, fieldColumn);
        kept := kept + [f];
        columns := columns + [column];
        args := args + [v];
      }
      j := j + 1;
    }
    assert fields[..j] == fields;
  }

  /** The loop of `getInsertBuilder` over the entities: the columns of the first, the arguments of each. */
  method EntityRows(values: seq<seq<Field>>, fields: seq<string>, fieldColumn: map<string, string>, ignore: set<string>)
    returns (columns: seq<string>, rows: seq<seq<Value>>)
    ensures columns == (if values == [] then [] else ColumnsOf(KeptFields(fields, fieldColumn, ignore), fieldColumn))
    ensures rows == RowsOf(values, KeptFields(fields, fieldColumn, ignore))
  {
    columns := [];
    rows := [];
    ghost var kept := KeptFields(fields, fieldColumn, ignore);
    var i := 0;
    while i < |values|
      invariant 0 <= i <= |values|
      invariant columns == (if i == 0 then [] else ColumnsOf(kept, fieldColumn))
      invariant rows == RowsOf(values[..i], kept)
    {
      RowsSnoc(values, i, kept);
      var cs, args := EntityRow(values[i], fields, fieldColumn, ignore);
      if i == 0 {
        columns := cs;
      }
      rows := rows + [args];
      i := i + 1;
    }
    assert values[..i] == values;
  }

  /** No record occurs twice in `es`. */
  predicate Distinct(es: seq<Record>)
  {
    es == [] || (es[0] !in es[1..] && Distinct(es[1..]))
  }

  /** Two positions of a distinct sequence hold different records. */
  lemma {:induction false} DistinctAt(es: seq<Record>, j: nat, k: nat)
    requires Distinct(es) && j < |es| && k < |es| && j != k
    ensures es[j] != es[k]
  {
    if j > 0 && k > 0 {
      DistinctAt(es[1..], j - 1, k - 1);
    } else if j == 0 {
      assert es[k] == es[1..][k - 1];
    } else {
      assert es[j] == es[1..][j - 1];
    }
  }

  /** `insertOperation`: an `Orm` and the columns the caller asked to ignore. */
  class InsertOperation {
    const orm: Orm
    var ignoreColumns: seq<string>

    /** `newInsertOperation(orm)`. */
    constructor(orm: Orm)
      ensures this.orm == orm && ignoreColumns == []
    {
      this.orm := orm;
      ignoreColumns := [];
    }

    /** The registry after `getIgnoreMap`: the type's insert-ignore set gains the `Ignore`d columns. */
    function Merged(entries: map<string, Meta>): map<string, Meta>
      requires orm.key in entries
      reads this, orm
    {
      var m := entries[orm.key];
      entries[orm.key := m.(insertIgnore := m.insertIgnore + Elems(ignoreColumns))]
    }

    /** `Ignore(columns...)`: appends. */
    method Ignore(columns: seq<string>)
      modifies this
      ensures ignoreColumns == old(ignoreColumns) + columns
    {
      ignoreColumns := ignoreColumns + columns;
    }

    /** Merging the same columns a second time changes nothing. */
    lemma MergedTwice(entries: map<string, Meta>)
      requires orm.key in entries
      ensures Merged(Merged(entries)) == Merged(entries)
    {
      var m := entries[orm.key];
      var e := Elems(ignoreColumns);
      assert m.insertIgnore + e + e == m.insertIgnore + e;
    }

    /** `getIgnoreMap`: writes the `Ignore`d columns into the registry's own set and returns it. */
    method GetIgnoreMap() returns (ignore: set<string>)
      requires orm.key in orm.registry.entries
      modifies orm.registry
      ensures orm.registry.entries == Merged(old(orm.registry.entries))
      ensures ignore == orm.registry.entries[orm.key].insertIgnore
      ensures ignore == old(orm.registry.entries[orm.key].insertIgnore) + Elems(ignoreColumns)
    {
      var registry := orm.registry;
      var key := orm.key;
      ghost var m0 := registry.entries[key];
      assert Elems(ignoreColumns[..0]) == {};
      assert m0.(insertIgnore := m0.insertIgnore + {}) == m0;
      assert registry.entries[key := m0] == registry.entries;
      var i := 0;
      while i < |ignoreColumns|
        invariant 0 <= i <= |ignoreColumns|
        invariant registry.entries == old(registry.entries)[key := m0.(insertIgnore := m0.insertIgnore + Elems(ignoreColumns[..i]))]
      {
        assert Elems(ignoreColumns[..i + 1]) == Elems(ignoreColumns[..i]) + {ignoreColumns[i]} by {
          assert ignoreColumns[..i + 1] == ignoreColumns[..i] + [ignoreColumns[i]];
        }
        var m := registry.entries[key];
        assert m.insertIgnore + {ignoreColumns[i]} == m0.insertIgnore + Elems(ignoreColumns[..i + 1]);
        registry.entries := registry.entries[key := m.(insertIgnore := m.insertIgnore + {ignoreColumns[i]})];
        i := i + 1;
      }
      assert ignoreColumns[..i] == ignoreColumns;
      ignore := registry.entries[key].insertIgnore;
    }

    /** `getInsertBuilder(entities...)`: the registry first gains the ignored columns. */
    method GetInsertBuilder(es: seq<Record>) returns (st: Statement)
      requires orm.key in orm.registry.entries
      modifies orm.registry
      ensures orm.registry.entries == Merged(old(orm.registry.entries))
      ensures st == InsertStatement(orm.registry.entries[orm.key], Snapshot(es))
    {
      var ignore := GetIgnoreMap();
      var m := orm.registry.entries[orm.key];
      var columns, rows := EntityRows(Snapshot(es), m.fields, m.fieldColumn, ignore);
      st := InsertStmt(m.table, columns, rows);
    }

    /**
     * `One(e)`: inserts on the transaction when `openTx`, else on the database; an
     * error is returned as is and leaves the entity alone, otherwise the generated id
     * is written back.
     */
    method One(e: Record, run: Exec, build: Builder) returns (err: Option<DbError>)
      requires orm.TxBound() && orm.key in orm.registry.entries
      modifies orm.registry, e
      ensures orm.registry.entries == Merged(old(orm.registry.entries))
      ensures var res := run(orm.Target(), build(InsertStatement(orm.registry.entries[orm.key], [old(e.fields)])));
        && (res.ExecFailed? ==> err == Some(res.err) && e.fields == old(e.fields))
        && (res.Executed? ==> err.None? && e.fields == BackFill(old(e.fields), e.typeName, orm.registry.entries, res.lastInsertId))
    {
      ghost var row := e.fields;
      var st := GetInsertBuilder([e]);
      assert Snapshot([e]) == [row];
      assert st == InsertStatement(orm.registry.entries[orm.key], [row]);
      var res := run(orm.Target(), build(st));
      if res.ExecFailed? {
        return Some(res.err);
      }
      var lastInsertId := res.lastInsertId;
      e.fields := BackFill(e.fields, e.typeName, orm.registry.entries, lastInsertId);
      return None;
    }

    /** What `One` sends to `run` for an entity holding `fields`, once the registry holds `entries`. */
    function OneResult(fields: seq<Field>, entries: map<string, Meta>, run: Exec, build: Builder): ExecResult
      requires orm.TxBound() && orm.key in entries
      reads orm
    {
      run(orm.Target(), build(InsertStatement(entries[orm.key], [fields])))
    }

    /**
     * `e` and `err` are as `One` leaves them when `run` answered `res` for `e` holding
     * `fields`: an error leaves the fields alone, success back-fills them.
     */
    predicate Settled(e: Record, fields: seq<Field>, err: Option<DbError>, res: ExecResult, entries: map<string, Meta>)
      reads e
    {
      if res.ExecFailed? then err == Some(res.err) && e.fields == fields
      else err.None? && e.fields == BackFill(fields, e.typeName, entries, res.lastInsertId)
    }

    /** The first `|errs|` entities are as `One` left them, each called on its fields in `rows`. */
    predicate SettledUpTo(es: seq<Record>, rows: seq<seq<Field>>, errs: seq<Option<DbError>>,
                          entries: map<string, Meta>, run: Exec, build: Builder)
      requires orm.TxBound() && orm.key in entries
      requires |errs| <= |es| && |errs| <= |rows|
      reads orm, set k | 0 <= k < |errs| :: es[k]
      decreases |errs|
    {
      var n := |errs|;
      n == 0 ||
      (SettledUpTo(es, rows, errs[..n - 1], entries, run, build)
       && Settled(es[n - 1], rows[n - 1], errs[n - 1], OneResult(rows[n - 1], entries, run, build), entries))
    }

    /** `SettledUpTo` entity by entity. */
    lemma {:induction false} SettledAt(es: seq<Record>, rows: seq<seq<Field>>, errs: seq<Option<DbError>>,
                                       entries: map<string, Meta>, run: Exec, build: Builder, k: nat)
      requires orm.TxBound() && orm.key in entries
      requires |errs| <= |es| && |errs| <= |rows| && k < |errs|
      requires SettledUpTo(es, rows, errs, entries, run, build)
      ensures Settled(es[k], rows[k], errs[k], OneResult(rows[k], entries, run, build), entries)
      decreases |errs|
    {
      if k < |errs| - 1 {
        SettledAt(es, rows, errs[..|errs| - 1], entries, run, build, k);
      }
    }

    /**
     * The body of `List`'s loop: `One` on `es[i]`. For distinct records, the first `i`
     * entities stay settled and `es[i]` becomes settled too.
     */
    method ListStep(es: seq<Record>, i: nat, run: Exec, build: Builder, ghost rows: seq<seq<Field>>,
                    ghost errs: seq<Option<DbError>>, ghost merged: map<string, Meta>)
      returns (err: Option<DbError>)
      requires i < |es| && |errs| == i && |rows| == |es|
      requires orm.TxBound() && orm.key in orm.registry.entries
      requires merged == Merged(orm.registry.entries)
      requires Distinct(es) ==> SettledUpTo(es, rows, errs, merged, run, build) && es[i].fields == rows[i]
      modifies orm.registry, es[i]
      ensures orm.registry.entries == merged
      ensures Distinct(es) ==> SettledUpTo(es, rows, errs + [err], merged, run, build)
      ensures Distinct(es) ==> forall k :: i < k < |es| ==> es[k].fields == old(es[k].fields)
    {
      err := One(es[i], run, build);
      if Distinct(es) {
        forall k | 0 <= k < |es| && k != i
          ensures unchanged(es[k])
        {
          DistinctAt(es, k, i);
        }
        assert SettledUpTo(es, rows, errs, merged, run, build);
        assert (errs + [err])[..i] == errs;
      }
    }

    /**
     * `List(ignoreError, es...)`: `One` per entity in order. Without `ignoreError` the
     * first failure stops the loop and is returned; with it every entity is tried and
     * the last call's result is returned. `errs` are the results of the calls made.
     * When the entities are distinct records, the k-th call is made on the entity's
     * original fields: its error is the k-th result, and the entity ends back-filled
     * on success and untouched on failure; entities after the last call are untouched.
     */
    method List(ignoreError: bool, es: seq<Record>, run: Exec, build: Builder)
      returns (err: Option<DbError>, ghost errs: seq<Option<DbError>>)
      requires orm.TxBound() && orm.key in orm.registry.entries
      modifies orm.registry, es
      ensures |errs| <= |es|
      ensures err == (if errs == [] then None else errs[|errs| - 1])
      ensures ignoreError ==> |errs| == |es|
      ensures !ignoreError ==> (forall k :: 0 <= k < |errs| - 1 ==> errs[k].None?)
                               && (|errs| < |es| ==> err.Some?) && (err.Some? || |errs| == |es|)
      ensures orm.key in orm.registry.entries
      ensures es != [] ==> orm.registry.entries == Merged(old(orm.registry.entries))
      ensures Distinct(es) ==>
                SettledUpTo(es, old(Snapshot(es)), errs, orm.registry.entries, run, build)
                && (forall k :: |errs| <= k < |es| ==> es[k].fields == old(es[k].fields))
    {
      err := None;
      errs := [];
      ghost var merged := Merged(orm.registry.entries);
      ghost var rows := Snapshot(es);
      var i := 0;
      while i < |es|
        invariant 0 <= i <= |es| && |errs| == i
        invariant err == (if errs == [] then None else errs[|errs| - 1])
        invariant !ignoreError ==> forall k :: 0 <= k < |errs| ==> errs[k].None?
        invariant orm.key in orm.registry.entries
        invariant i == 0 ==> orm.registry.entries == old(orm.registry.entries)
        invariant i > 0 ==> orm.registry.entries == merged
        invariant rows == old(Snapshot(es))
        invariant Distinct(es) ==> SettledUpTo(es, rows, errs, merged, run, build)
        invariant Distinct(es) ==> forall k :: i <= k < |es| ==> es[k].fields == old(es[k].fields)
      {
        MergedTwice(old(orm.registry.entries));
        err := ListStep(es, i, run, build, rows, errs, merged);
        errs := errs + [err];
        i := i + 1;
        if !ignoreError && err.Some? {
          return;
        }
      }
    }

    /**
     * `Batch(es...)`: nothing to do for no entities; otherwise one multi-row insert
     * whose affected-row count is returned, 0 with the error on failure. No id is
     * written back.
     */
    method Batch(es: seq<Record>, run: Exec, build: Builder) returns (count: int, err: Option<DbError>)
      requires orm.TxBound() && orm.key in orm.registry.entries
      modifies orm.registry
      ensures es == [] ==> count == 0 && err.None? && orm.registry.entries == old(orm.registry.entries)
      ensures es != [] ==> orm.registry.entries == Merged(old(orm.registry.entries))
                           && var res := run(orm.Target(), build(InsertStatement(orm.registry.entries[orm.key], Snapshot(es))));
                           && (res.ExecFailed? ==> count == 0 && err == Some(res.err))
                           && (res.Executed? ==> count == res.rowsAffected && err.None?)
    {
      if |es| == 0 {
        return 0, None;
      }
      var st := GetInsertBuilder(es);
      var res := run(orm.Target(), build(st));
      if res.ExecFailed? {
        return 0, Some(res.err);
      }
      return res.rowsAffected, None;
    }
  }
}
