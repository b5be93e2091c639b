/**
 * The select operation. The projection is every registered column whose
 * field is not a join reference, as `t.<column> AS <field>`, followed (with
 * `Join`) by one column per join reference read through the alias of its
 * related table: each distinct related table gets one alias `relN`, numbered
 * from 1 in the order the tables are first met, and one JOIN clause. `List`
 * appends the entity's predicates to the operation's own list; `Page` counts
 * with them but fetches rows with the accumulated predicates only.
 */
module SelectOps {
  import opened Wrappers
  import opened Values
  import opened Handles
  import opened Clauses
  import opened Entity
  import opened Text
  import opened OrmCore
  import opened SelectCountOps

  /** A column is projected when it maps to a field that is not a join reference. */
  predicate Projected(c: string, columnField: map<string, string>, joinRefs: map<string, JoinRef>)
  {
    c in columnField && columnField[c] !in joinRefs
  }

  /** The projected columns, in registration order. */
  function SelectedColumns(columns: seq<string>, columnField: map<string, string>, joinRefs: map<string, JoinRef>): seq<string>
  {
    if columns == [] then []
    else
      var n := |columns| - 1;
      var init := SelectedColumns(columns[..n], columnField, joinRefs);
      if Projected(columns[n], columnField, joinRefs) then init + [columns[n]] else init
  }

  /** `t.<column> AS <field>`, wrapped in the field's null function when it has one. */
  function ColumnProjection(c: string, field: string, nulls: map<string, NullField>): Projection
  {
    if field in nulls then
      Alias(NullFunc(nulls[field].funcName, "t." + c, nulls[field].defaultArg, nulls[field].defaultVal), field)
    else Alias(Col("t." + c), field)
  }

  /** One projection per selected column. */
  function ColumnProjections(selected: seq<string>, columnField: map<string, string>, nulls: map<string, NullField>)
    : (r: seq<Projection>)
    ensures |r| == |selected|
    ensures forall k :: 0 <= k < |selected| ==> r[k] == ColumnProjection(selected[k], ColumnFor(columnField, selected[k]), nulls)
  {
    if selected == [] then []
    else
      var n := |selected| - 1;
      ColumnProjections(selected[..n], columnField, nulls) + [ColumnProjection(selected[n], ColumnFor(columnField, selected[n]), nulls)]
  }

  /** A column is selected exactly when it is registered and projected; nothing is invented. */
  lemma {:induction false} SelectedColumnsMembers(columns: seq<string>, columnField: map<string, string>, joinRefs: map<string, JoinRef>)
    ensures |SelectedColumns(columns, columnField, joinRefs)| <= |columns|
    ensures forall c :: c in SelectedColumns(columns, columnField, joinRefs) <==> c in columns && Projected(c, columnField, joinRefs)
  {
    if columns != [] {
      var n := |columns| - 1;
      SelectedColumnsMembers(columns[..n], columnField, joinRefs);
      assert columns == columns[..n] + [columns[n]];
    }
  }

  /** With no join references every registered column that maps to a field is projected, in order. */
  lemma {:induction false} SelectedWithoutJoins(columns: seq<string>, columnField: map<string, string>)
    requires forall c :: c in columns ==> c in columnField
    ensures SelectedColumns(columns, columnField, map[]) == columns
  {
    if columns != [] {
      var n := |columns| - 1;
      SelectedWithoutJoins(columns[..n], columnField);
      assert columns == columns[..n] + [columns[n]];
    }
  }

  lemma SelectedSnoc(columns: seq<string>, i: nat, columnField: map<string, string>, joinRefs: map<string, JoinRef>)
    requires i < |columns|
    ensures SelectedColumns(columns[..i + 1], columnField, joinRefs)
            == SelectedColumns(columns[..i], columnField, joinRefs)
               + (if Projected(columns[i], columnField, joinRefs) then [columns[i]] else [])
  {
    assert columns[..i + 1][..i] == columns[..i];
  }

  lemma ProjectionsSnoc(selected: seq<string>, c: string, columnField: map<string, string>, nulls: map<string, NullField>)
    ensures ColumnProjections(selected + [c], columnField, nulls)
            == ColumnProjections(selected, columnField, nulls) + [ColumnProjection(c, ColumnFor(columnField, c), nulls)]
  {
    assert (selected + [c])[..|selected|] == selected;
  }

  /** The projection `getColumns` builds for a registry record. */
  function SelectColumns(m: Meta, nulls: map<string, NullField>): seq<Projection>
  {
    ColumnProjections(SelectedColumns(m.columns, m.columnField, m.joinRefs), m.columnField, nulls)
  }

  /** The alias of the n-th related table: `fmt.Sprintf("rel%d", n)`. */
  function RelAlias(n: nat): string
  {
    "rel" + NatToString(n)
  }

  /** Different table numbers give different aliases. */
  lemma RelAliasInjective(a: nat, b: nat)
    requires RelAlias(a) == RelAlias(b)
    ensures a == b
  {
    assert NatToString(a) == RelAlias(a)[3..];
    assert NatToString(b) == RelAlias(b)[3..];
    NatToStringInjective(a, b);
  }

  /** The column of a join reference, read through its table's alias and wrapped like `ColumnProjection`. */
  function RefProjection(k: string, alias: string, v: JoinRef, nulls: map<string, NullField>): (r: Projection)
    ensures r.alias == k
  {
    if k in nulls then
      Alias(NullFunc(nulls[k].funcName, alias + "." + v.relName, nulls[k].defaultArg, nulls[k].defaultVal), k)
    else Alias(Col(alias + "." + v.relName), k)
  }

  /**
   * What the loop of `getJoinRef` has built: the number each related table met so far was
   * given (`refTableMap`, its alias being `rel<number>`), the columns and the joins.
   */
  datatype JoinParts = JoinParts(numbers: map<string, nat>, columns: seq<Projection>, joins: seq<JoinClause>)

  /** One join reference: a known table reuses its alias; a new one takes the next number and adds a JOIN clause. */
  function JoinStep(p: JoinParts, k: string, v: JoinRef, nulls: map<string, NullField>): JoinParts
  {
    if v.relTable in p.numbers then
      JoinParts(p.numbers, p.columns + [RefProjection(k, RelAlias(p.numbers[v.relTable]), v, nulls)], p.joins)
    else
      var n := |p.joins| + 1;
      JoinParts(p.numbers[v.relTable := n], p.columns + [RefProjection(k, RelAlias(n), v, nulls)],
                p.joins + [JoinClause(v.joinType, v.relTable, RelAlias(n), v.relId, v.selfColumn)])
  }

  /** The walk over the join references in the order the map happens to yield them. */
  function JoinWalk(order: seq<string>, refs: map<string, JoinRef>, nulls: map<string, NullField>): JoinParts
    requires forall i :: 0 <= i < |order| ==> order[i] in refs
  {
    if order == [] then JoinParts(map[], [], [])
    else
      var n := |order| - 1;
      JoinStep(JoinWalk(order[..n], refs, nulls), order[n], refs[order[n]], nulls)
  }

  /** An enumeration of a map's keys: every key exactly once, in any order. */
  ghost predicate Enumerates(order: seq<string>, keys: set<string>)
  {
    (forall k :: k in order <==> k in keys) && (forall a, b :: 0 <= a < b < |order| ==> order[a] != order[b])
  }

  /** Clause j joins a numbered table, the one numbered j + 1, as `rel<j + 1>`. */
  ghost predicate ClausesNumbered(numbers: map<string, nat>, joins: seq<JoinClause>)
  {
    forall j :: 0 <= j < |joins| ==>
      joins[j].relTable in numbers && numbers[joins[j].relTable] == j + 1 && joins[j].alias == RelAlias(j + 1)
  }

  /** Every numbered table is joined by the clause at its number. */
  ghost predicate TablesNumbered(numbers: map<string, nat>, joins: seq<JoinClause>)
  {
    forall t :: t in numbers ==> 1 <= numbers[t] <= |joins| && joins[numbers[t] - 1].relTable == t
  }

  /** A new table numbered after the last clause, joined by a clause appended at the end. */
  lemma ClausesNumberedSnoc(numbers: map<string, nat>, joins: seq<JoinClause>, c: JoinClause)
    requires ClausesNumbered(numbers, joins) && c.relTable !in numbers && c.alias == RelAlias(|joins| + 1)
    ensures ClausesNumbered(numbers[c.relTable := |joins| + 1], joins + [c])
  {
    var numbers' := numbers[c.relTable := |joins| + 1];
    forall j | 0 <= j < |joins| + 1
      ensures (joins + [c])[j].relTable in numbers' && numbers'[(joins + [c])[j].relTable] == j + 1
              && (joins + [c])[j].alias == RelAlias(j + 1)
    {
      if j < |joins| {
        assert (joins + [c])[j] == joins[j];
      }
    }
  }

  lemma TablesNumberedSnoc(numbers: map<string, nat>, joins: seq<JoinClause>, c: JoinClause)
    requires TablesNumbered(numbers, joins) && c.relTable !in numbers
    ensures TablesNumbered(numbers[c.relTable := |joins| + 1], joins + [c])
  {
    var numbers' := numbers[c.relTable := |joins| + 1];
    forall u | u in numbers'
      ensures 1 <= numbers'[u] <= |joins| + 1 && (joins + [c])[numbers'[u] - 1].relTable == u
    {
      if u != c.relTable {
        assert (joins + [c])[numbers[u] - 1] == joins[numbers[u] - 1];
      }
    }
  }

  /** The walk yields one projection per reference, in order, each aliased by its field name. */
  lemma {:induction false} JoinWalkAliases(order: seq<string>, refs: map<string, JoinRef>, nulls: map<string, NullField>)
    requires forall i :: 0 <= i < |order| ==> order[i] in refs
    ensures var p := JoinWalk(order, refs, nulls);
      && |p.columns| == |order|
      && (forall k :: 0 <= k < |order| ==> p.columns[k].alias == order[k])
  {
    if order != [] {
      var n := |order| - 1;
      JoinWalkAliases(order[..n], refs, nulls);
    }
  }

  /** Clause j of the walk joins the table numbered j + 1, as `rel<j + 1>`. */
  lemma {:induction false} JoinWalkClauses(order: seq<string>, refs: map<string, JoinRef>, nulls: map<string, NullField>)
    requires forall i :: 0 <= i < |order| ==> order[i] in refs
    ensures var p := JoinWalk(order, refs, nulls);
      ClausesNumbered(p.numbers, p.joins)
  {
    if order != [] {
      var n := |order| - 1;
      JoinWalkClauses(order[..n], refs, nulls);
      var p0 := JoinWalk(order[..n], refs, nulls);
      var v := refs[order[n]];
      if v.relTable !in p0.numbers {
        ClausesNumberedSnoc(p0.numbers, p0.joins, JoinClause(v.joinType, v.relTable, RelAlias(|p0.joins| + 1), v.relId, v.selfColumn));
      }
    }
  }

  /** Every table the walk numbers is joined by the clause at its number. */
  lemma {:induction false} JoinWalkNumbers(order: seq<string>, refs: map<string, JoinRef>, nulls: map<string, NullField>)
    requires forall i :: 0 <= i < |order| ==> order[i] in refs
    ensures var p := JoinWalk(order, refs, nulls);
      TablesNumbered(p.numbers, p.joins)
  {
    if order != [] {
      var n := |order| - 1;
      JoinWalkNumbers(order[..n], refs, nulls);
      var p0 := JoinWalk(order[..n], refs, nulls);
      var v := refs[order[n]];
      if v.relTable !in p0.numbers {
        TablesNumberedSnoc(p0.numbers, p0.joins, JoinClause(v.joinType, v.relTable, RelAlias(|p0.joins| + 1), v.relId, v.selfColumn));
      }
    }
  }

  /** The numbered tables are exactly the related tables of the references walked. */
  lemma {:induction false} JoinWalkTables(order: seq<string>, refs: map<string, JoinRef>, nulls: map<string, NullField>)
    requires forall i :: 0 <= i < |order| ==> order[i] in refs
    ensures var numbers := JoinWalk(order, refs, nulls).numbers;
      && (forall k :: 0 <= k < |order| ==> refs[order[k]].relTable in numbers)
      && (forall t :: t in numbers ==> exists k :: 0 <= k < |order| && refs[order[k]].relTable == t)
  {
    if order != [] {
      var n := |order| - 1;
      var init := order[..n];
      JoinWalkTables(init, refs, nulls);
      var p0 := JoinWalk(init, refs, nulls);
      var numbers := JoinWalk(order, refs, nulls).numbers;
      assert p0.numbers.Keys <= numbers.Keys;
      forall k | 0 <= k < |order|
        ensures refs[order[k]].relTable in numbers
      {
        if k < n {
          assert order[k] == init[k];
        }
      }
      forall t | t in numbers
        ensures exists k :: 0 <= k < |order| && refs[order[k]].relTable == t
      {
        if t in p0.numbers {
          var k :| 0 <= k < |init| && refs[init[k]].relTable == t;
          assert order[k] == init[k];
        } else {
          assert refs[order[n]].relTable == t;
        }
      }
    }
  }

  /** Reference k is read through the alias of the number its related table ends up with. */
  lemma {:induction false} JoinWalkColumns(order: seq<string>, refs: map<string, JoinRef>, nulls: map<string, NullField>)
    requires forall i :: 0 <= i < |order| ==> order[i] in refs
    ensures var p := JoinWalk(order, refs, nulls);
      && |p.columns| == |order|
      && forall k :: 0 <= k < |order| ==>
           refs[order[k]].relTable in p.numbers
           && p.columns[k] == RefProjection(order[k], RelAlias(p.numbers[refs[order[k]].relTable]), refs[order[k]], nulls)
  {
    JoinWalkAliases(order, refs, nulls);
    if order != [] {
      var n := |order| - 1;
      var init := order[..n];
      JoinWalkColumns(init, refs, nulls);
      var p0 := JoinWalk(init, refs, nulls);
      var p := JoinWalk(order, refs, nulls);
      forall k | 0 <= k < |order|
        ensures refs[order[k]].relTable in p.numbers
        ensures p.columns[k] == RefProjection(order[k], RelAlias(p.numbers[refs[order[k]].relTable]), refs[order[k]], nulls)
      {
        if k < n {
          assert order[k] == init[k];
          assert p.columns[k] == p0.columns[k];
        }
      }
    }
  }

  /** Each related table is joined once, under its own alias. */
  lemma JoinClausesDistinct(order: seq<string>, refs: map<string, JoinRef>, nulls: map<string, NullField>)
    requires forall i :: 0 <= i < |order| ==> order[i] in refs
    ensures var joins := JoinWalk(order, refs, nulls).joins;
      forall a, b :: 0 <= a < b < |joins| ==> joins[a].relTable != joins[b].relTable && joins[a].alias != joins[b].alias
  {
    JoinWalkClauses(order, refs, nulls);
    var joins := JoinWalk(order, refs, nulls).joins;
    forall a, b | 0 <= a < b < |joins|
      ensures joins[a].relTable != joins[b].relTable && joins[a].alias != joins[b].alias
    {
      if joins[a].alias == joins[b].alias {
        RelAliasInjective(a + 1, b + 1);
      }
    }
  }

  /** An alias the loop has handed out is never the empty string. */
  lemma RelAliasNonEmpty(n: nat)
    ensures RelAlias(n) != ""
  {
    assert RelAlias(n)[0] == 'r';
  }

  /** The loop of `getJoinRef` over the references in `order`, keeping `refTableMap` and `refCount`. */
  method JoinLoop(order: seq<string>, refs: map<string, JoinRef>, nulls: map<string, NullField>)
    returns (columns: seq<Projection>, joins: seq<JoinClause>)
    requires forall i :: 0 <= i < |order| ==> order[i] in refs
    ensures columns == JoinWalk(order, refs, nulls).columns && joins == JoinWalk(order, refs, nulls).joins
  {
    columns, joins := [], [];
    var refCount := 1;
    var refTableMap: map<string, string> := map[];
    ghost var p := JoinParts(map[], [], []);
    var i := 0;
    while i < |order|
      invariant 0 <= i <= |order|
      invariant p == JoinWalk(order[..i], refs, nulls)
      invariant columns == p.columns && joins == p.joins
      invariant refCount == |p.joins| + 1
      invariant refTableMap.Keys == p.numbers.Keys
      invariant forall t :: t in refTableMap ==> refTableMap[t] == RelAlias(p.numbers[t])
    {
      assert order[..i + 1][..i] == order[..i];
      var k := order[i];
      var v := refs[k];
      var joined := v.relTable in refTableMap;
      var relAlias := if joined then refTableMap[v.relTable] else "";
      if joined {
        RelAliasNonEmpty(p.numbers[v.relTable]);
      }
      if relAlias == "" {
        relAlias := RelAlias(refCount);
        refTableMap := refTableMap[v.relTable := relAlias];
        refCount := refCount + 1;
      }
      columns := columns + [RefProjection(k, relAlias, v, nulls)];
      if !joined {
        joins := joins + [JoinClause(v.joinType, v.relTable, relAlias, v.relId, v.selfColumn)];
      }
      p := JoinStep(p, k, v, nulls);
      i := i + 1;
    }
    assert order[..i] == order;
  }

  /** The loop of `getColumns` over the registered columns. */
  method ColumnLoop(columns: seq<string>, columnField: map<string, string>, joinRefs: map<string, JoinRef>,
                    nulls: map<string, NullField>)
    returns (columnGes: seq<Projection>)
    ensures columnGes == ColumnProjections(SelectedColumns(columns, columnField, joinRefs), columnField, nulls)
  {
    columnGes := [];
    ghost var selected: seq<string> := [];
    var i := 0;
    while i < |columns|
      invariant 0 <= i <= |columns|
      invariant selected == SelectedColumns(columns[..i], columnField, joinRefs)
      invariant columnGes == ColumnProjections(selected, columnField, nulls)
    {
      SelectedSnoc(columns, i, columnField, joinRefs);
      var c := columns[i];
      if c in columnField {
        var fieldName := columnField[c];
        if fieldName !in joinRefs {
          ProjectionsSnoc(selected, c, columnField, nulls);
          selected := selected + [c];
          columnGes := columnGes + [ColumnProjection(c, fieldName, nulls)];
        }
      }
      i := i + 1;
    }
    assert columns[..i] == columns;
  }

  datatype SelectError = Db(err: DbError) | ErrSelectTooManyResult

  /** `selectOperation`: an `Orm`, the join flags, the accumulated predicates and ORDER BY terms. */
  class SelectOperation {
    const orm: Orm
    /** The type's null-function settings for a plain select and for a join select. */
    const nullFields: map<string, NullField>
    const joinNullFields: map<string, NullField>
    var countJoin: bool
    var join: bool
    var wheres: seq<Ge>
    var orderBys: seq<Ge>

    /** `newSelectOperation(orm)`. */
    constructor(orm: Orm, nullFields: map<string, NullField>, joinNullFields: map<string, NullField>)
      ensures this.orm == orm && this.nullFields == nullFields && this.joinNullFields == joinNullFields
      ensures !countJoin && !join && wheres == [] && orderBys == []
    {
      this.orm := orm;
      this.nullFields := nullFields;
      this.joinNullFields := joinNullFields;
      countJoin, join := false, false;
      wheres, orderBys := [], [];
    }

    method CountJoin()
      modifies this
      ensures countJoin && join == old(join) && wheres == old(wheres) && orderBys == old(orderBys)
    {
      countJoin := true;
    }

    method Join()
      modifies this
      ensures join && countJoin == old(countJoin) && wheres == old(wheres) && orderBys == old(orderBys)
    {
      join := true;
    }

    method Where(ges: seq<Ge>)
      modifies this
      ensures wheres == old(wheres) + ges
      ensures join == old(join) && countJoin == old(countJoin) && orderBys == old(orderBys)
    {
      wheres := wheres + ges;
    }

    /** `IfWhere(cond, ...)`: `Where` when `cond`, else nothing. */
    method IfWhere(cond: bool, ges: seq<Ge>)
      modifies this
      ensures wheres == (if cond then old(wheres) + ges else old(wheres))
      ensures join == old(join) && countJoin == old(countJoin) && orderBys == old(orderBys)
    {
      if cond {
        Where(ges);
      }
    }

    method OrderBy(ges: seq<Ge>)
      modifies this
      ensures orderBys == old(orderBys) + ges
      ensures join == old(join) && countJoin == old(countJoin) && wheres == old(wheres)
    {
      orderBys := orderBys + ges;
    }

    /** The null-function settings `getColumns` consults: the join ones when `Join` was called. */
    function Nulls(): map<string, NullField>
      reads this
    {
      if join then joinNullFields else nullFields
    }

    /**
     * `getColumns()`: one projection per registered column whose field is not a join
     * reference, in registration order.
     */
    method GetColumns() returns (columnGes: seq<Projection>)
      requires orm.key in orm.registry.entries
      ensures columnGes == SelectColumns(orm.MetaOf(), Nulls())
    {
      var m := orm.registry.entries[orm.key];
      var nulls := if join then joinNullFields else nullFields;
      columnGes := ColumnLoop(m.columns, m.columnField, m.joinRefs, nulls);
    }

    /** The join columns and clauses `getJoinRef` builds when the map yields the references in `order`. */
    function JoinRefOf(order: seq<string>): JoinParts
      requires orm.key in orm.registry.entries
      requires Enumerates(order, orm.MetaOf().joinRefs.Keys)
      reads this, orm, orm.registry
    {
      if join then JoinWalk(order, orm.MetaOf().joinRefs, joinNullFields) else JoinParts(map[], [], [])
    }

    /** `getJoinRef()`: nothing unless `Join` was called; else the walk over the references in `order`. */
    method GetJoinRef(order: seq<string>) returns (columnGes: seq<Projection>, joinGs: seq<JoinClause>)
      requires orm.key in orm.registry.entries
      requires Enumerates(order, orm.MetaOf().joinRefs.Keys)
      ensures !join ==> columnGes == [] && joinGs == []
      ensures columnGes == JoinRefOf(order).columns && joinGs == JoinRefOf(order).joins
    {
      columnGes, joinGs := [], [];
      var joinRefMap := orm.registry.entries[orm.key].joinRefs;
      if join {
        columnGes, joinGs := JoinLoop(order, joinRefMap, joinNullFields);
      }
    }

    /** The SELECT statement over the given predicates, with the join columns and clauses for `order`. */
    function SelectStatement(whereGes: seq<Ge>, order: seq<string>): Statement
      requires orm.key in orm.registry.entries
      requires Enumerates(order, orm.MetaOf().joinRefs.Keys)
      reads this, orm, orm.registry
    {
      var refs := JoinRefOf(order);
      SelectStmt(SelectColumns(orm.MetaOf(), Nulls()) + refs.columns, orm.MetaOf().table, whereGes, orderBys, refs.joins)
    }

    /**
     * `List(e)`: the entity's predicates join the operation's list for good; the statement goes
     * to the database handle even while a transaction is open.
     */
    method List(e: Record?, order: seq<string>, query: Query, build: Builder) returns (es: seq<Row>, err: Option<DbError>)
      requires orm.key in orm.registry.entries
      requires Enumerates(order, orm.MetaOf().joinRefs.Keys)
      modifies this
      ensures wheres == old(wheres) + EntityGes(e, orm.registry.entries)
      ensures join == old(join) && countJoin == old(countJoin) && orderBys == old(orderBys)
      ensures var r := query(OnDb(orm.db), build(SelectStatement(wheres, order)));
        && (r.Err? ==> es == [] && err == Some(r.error))
        && (r.Ok? ==> es == r.value && err.None?)
    {
      var ges := GetWhereGes(e, orm.registry.entries);
      wheres := wheres + ges;
      var columns := GetColumns();
      var refColumns, refJoins := GetJoinRef(order);
      var st := SelectStmt(columns + refColumns, orm.registry.entries[orm.key].table, wheres, orderBys, refJoins);
      var r := query(OnDb(orm.db), build(st));
      if r.Err? {
        return [], Some(r.error);
      }
      return r.value, None;
    }

    /**
     * `One(e)`: `List`'s error is passed on; more than one row is `ErrSelectTooManyResult`;
     * one row is the result; no row is the nil entity and no error.
     */
    method One(e: Record?, order: seq<string>, query: Query, build: Builder) returns (oe: Option<Row>, err: Option<SelectError>)
      requires orm.key in orm.registry.entries
      requires Enumerates(order, orm.MetaOf().joinRefs.Keys)
      modifies this
      ensures wheres == old(wheres) + EntityGes(e, orm.registry.entries)
      ensures join == old(join) && countJoin == old(countJoin) && orderBys == old(orderBys)
      ensures var r := query(OnDb(orm.db), build(SelectStatement(wheres, order)));
        && (r.Err? ==> oe.None? && err == Some(Db(r.error)))
        && (r.Ok? && |r.value| > 1 ==> oe.None? && err == Some(ErrSelectTooManyResult))
        && (r.Ok? && |r.value| == 1 ==> oe == Some(r.value[0]) && err.None?)
        && (r.Ok? && |r.value| == 0 ==> oe.None? && err.None?)
    {
      oe, err := None, None;
      var es, err2 := List(e, order, query, build);
      if err2.Some? {
        err := Some(Db(err2.value));
      } else if |es| > 1 {
        err := Some(ErrSelectTooManyResult);
      } else if |es| == 1 {
        oe := Some(es[0]);
      }
    }

    /** The count statement `Page` runs: the accumulated and the entity's predicates, the joins only with `CountJoin`. */
    function PageCount(e: Record?, order: seq<string>): Statement
      requires orm.key in orm.registry.entries
      requires Enumerates(order, orm.MetaOf().joinRefs.Keys)
      reads this, orm, orm.registry, e
    {
      var joins := JoinRefOf(order).joins;
      CountStmt(orm.MetaOf().table, wheres + EntityGes(e, orm.registry.entries),
                if countJoin && |joins| > 0 then [JoinGroup(joins)] else [])
    }

    /** The count half of `Page`: a fresh count operation over the accumulated predicates, joined only with `CountJoin`. */
    method PageTotal(e: Record?, refJoins: seq<JoinClause>, queryRow: QueryRow, build: Builder)
      returns (total: int, err: Option<DbError>)
      requires orm.key in orm.registry.entries
      ensures (total, err) == CountOutcome(queryRow(OnDb(orm.db), build(CountStmt(orm.MetaOf().table,
                wheres + EntityGes(e, orm.registry.entries), if countJoin && |refJoins| > 0 then [JoinGroup(refJoins)] else []))))
    {
      var sc := new SelectCountOperation(orm);
      sc.Where(wheres);
      if countJoin && |refJoins| > 0 {
        sc.Join([JoinGroup(refJoins)]);
      }
      assert sc.wheres == wheres && sc.joins == (if countJoin && |refJoins| > 0 then [JoinGroup(refJoins)] else []);
      total, err := sc.Count(e, queryRow, build);
      assert sc.wheres == wheres + EntityGes(e, orm.registry.entries);
    }

    /**
     * `Page(e, pager, offset, size)`: a failed count is returned as is; a total of zero or less
     * gives no rows and total 0 without the row query; otherwise the row query uses only the
     * accumulated predicates, its arguments are the builder's followed by the pager's, and it
     * goes to the database handle. The operation itself is left as it was.
     */
    method Page(e: Record?, order: seq<string>, pager: Pager, offset: int, size: int,
                queryRow: QueryRow, query: Query, build: Builder)
      returns (es: seq<Row>, total: int, err: Option<DbError>)
      requires orm.key in orm.registry.entries
      requires Enumerates(order, orm.MetaOf().joinRefs.Keys)
      ensures var count := CountOutcome(queryRow(OnDb(orm.db), build(PageCount(e, order))));
        && (count.1.Some? ==> es == [] && total == count.0 && err == count.1)
        && (count.1.None? && count.0 <= 0 ==> es == [] && total == 0 && err.None?)
        && (count.1.None? && count.0 > 0 ==>
              var built := build(SelectStatement(wheres, order));
              var paged := pager(built.sql, offset, size);
              var r := query(OnDb(orm.db), Built(paged.sql, built.params + paged.params));
              total == count.0
              && (r.Err? ==> es == [] && err == Some(r.error))
              && (r.Ok? ==> es == r.value && err.None?))
    {
      var refColumns, refJoins := GetJoinRef(order);
      es := [];
      total, err := PageTotal(e, refJoins, queryRow, build);
      if err.Some? {
        return;
      }
      if total <= 0 {
        return [], 0, None;
      }
      var columns := GetColumns();
      var built := build(SelectStmt(columns + refColumns, orm.registry.entries[orm.key].table, wheres, orderBys, refJoins));
      var paged := pager(built.sql, offset, size);
      var ps := built.params + paged.params;
      var r := query(OnDb(orm.db), Built(paged.sql, ps));
      if r.Err? {
        return [], total, Some(r.error);
      }
      es := r.value;
    }
  }
}
