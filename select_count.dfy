/**
 * The count operation: SELECT count(0) over the type's table with the
 * accumulated predicates, the entity's query-by-example predicates appended to
 * them for good, and the accumulated joins. It always asks the database
 * handle, even while the `Orm` holds a transaction.
 */
module SelectCountOps {
  import opened Wrappers
  import opened Values
  import opened Handles
  import opened Clauses
  import opened Entity
  import opened OrmCore

  /** What `Count` reports: a row error before the scan, else the scan's own outcome. */
  function CountOutcome(r: RowResult): (out: (int, Option<DbError>))
    ensures out.1.None? <==> r.Scanned? && r.count.Ok?
    ensures out.1.Some? ==> out.0 == 0
  {
    match r
    case RowFailed(err) => (0, Some(err))
    case Scanned(Ok(c)) => (c, None)
    case Scanned(Err(err)) => (0, Some(err))
  }

  /** `selectCountOperation`: an `Orm`, the accumulated predicates and joins. */
  class SelectCountOperation {
    const orm: Orm
    var wheres: seq<Ge>
    var joins: seq<Ge>

    /** `newSelectCountOperation(orm)`. */
    constructor(orm: Orm)
      ensures this.orm == orm && wheres == [] && joins == []
    {
      this.orm := orm;
      wheres := [];
      joins := [];
    }

    method Where(ges: seq<Ge>)
      modifies this
      ensures wheres == old(wheres) + ges && joins == old(joins)
    {
      wheres := wheres + ges;
    }

    /** `IfWhere(cond, ...)`: `Where` when `cond`, else nothing. */
    method IfWhere(cond: bool, ges: seq<Ge>)
      modifies this
      ensures wheres == (if cond then old(wheres) + ges else old(wheres)) && joins == old(joins)
    {
      if cond {
        Where(ges);
      }
    }

    method Join(ges: seq<Ge>)
      modifies this
      ensures joins == old(joins) + ges && wheres == old(wheres)
    {
      joins := joins + ges;
    }

    /** `appendWhereGes(entity)`: the entity's predicates join the operation's own list. */
    method AppendWhereGes(e: Record?)
      modifies this
      ensures wheres == old(wheres) + EntityGes(e, orm.registry.entries) && joins == old(joins)
    {
      var ges := GetWhereGes(e, orm.registry.entries);
      wheres := wheres + ges;
    }

    /**
     * `Count(e)`: the entity's predicates are appended to the operation's list, the statement
     * goes to the database handle (never the transaction), and the outcome is `CountOutcome`.
     */
    method Count(e: Record?, queryRow: QueryRow, build: Builder) returns (count: int, err: Option<DbError>)
      requires orm.key in orm.registry.entries
      modifies this
      ensures wheres == old(wheres) + EntityGes(e, orm.registry.entries) && joins == old(joins)
      ensures (count, err) == CountOutcome(queryRow(OnDb(orm.db), build(CountStmt(orm.MetaOf().table, wheres, joins))))
    {
      AppendWhereGes(e);
      var table := orm.registry.entries[orm.key].table;
      var row := queryRow(OnDb(orm.db), build(CountStmt(table, wheres, joins)));
      if row.RowFailed? {
        return 0, Some(row.err);
      }
      match row.count
      case Ok(c) =>
        count, err := c, None;
      case Err(scanErr) =>
        count, err := 0, Some(scanErr);
    }
  }
}
