/**
 * Paged select handles of the XML query package: the same SQL override as
 * select handles, a count over the active SQL first, then the page through
 * the pager with the caller's arguments ahead of the pager's.
 */
module XmlSelectPage {
  import opened Wrappers
  import opened Values
  import opened Handles
  import opened Clauses
  import opened XmlQuery

  /** `pageSelectableImpl`. */
  class PageSelectable {
    const ds: string
    const db: Option<DB>
    const sqlStr: string
    var tSqlStr: string

    /** `PageSelect(namespace, id)`, from the datasource name, database and SQL of the node. */
    constructor(ds: string, db: Option<DB>, sqlStr: string)
      ensures this.ds == ds && this.db == db && this.sqlStr == sqlStr && tSqlStr == ""
    {
      this.ds := ds;
      this.db := db;
      this.sqlStr := sqlStr;
      tSqlStr := "";
    }

    /** `List(entity, pager, offset, size, ps...)`: one page of the active SQL. */
    method List(queryRow: QueryRow, fetch: Fetch, pager: Pager, offset: int, size: int, ps: seq<Value>)
      returns (es: seq<Row>, count: int, err: Option<XmlError>)
      ensures (es, count, err) == PageOver(db, ActiveSql(sqlStr, tSqlStr), queryRow, fetch, pager, offset, size, ps)
    {
      var sql := tSqlStr;
      if sql == "" {
        sql := sqlStr;
      }
      var counted := queryRow(OnDb(db), Built(CountSql(sql), []));
      if counted.RowFailed? {
        return [], 0, Some(Db(counted.err));
      }
      if counted.count.Err? {
        return [], 0, Some(Db(counted.count.error));
      }
      var c := counted.count.value;
      if c <= 0 {
        return [], c, None;
      }
      var paged := pager(sql, offset, size);
      var newPs := ps + paged.params;
      var f := fetch(OnDb(db), Built(paged.sql, newPs));
      match f
      case QueryFailed(e) =>
        return [], 0, Some(Db(e));
      case ScanFailed(e) =>
        return [], c, Some(Db(e));
      case Fetched(rows) =>
        return rows, c, None;
    }

    /**
     * `ListTemplate(entity, pager, offset, size, data)`: the node's SQL is rendered; a failure is
     * reported with count 0 and the stored text kept; otherwise the rendering is stored and
     * `List` runs without arguments.
     */
    method ListTemplate(render: Render, queryRow: QueryRow, fetch: Fetch, pager: Pager, offset: int, size: int)
      returns (es: seq<Row>, count: int, err: Option<XmlError>)
      modifies this
      ensures render(sqlStr).Err? ==>
                tSqlStr == old(tSqlStr) && (es, count, err) == ([], 0, Some(Template(render(sqlStr).error)))
      ensures render(sqlStr).Ok? ==>
                && tSqlStr == render(sqlStr).value
                && (es, count, err) == PageOver(db, ActiveSql(sqlStr, tSqlStr), queryRow, fetch, pager, offset, size, [])
    {
      var rendered := render(sqlStr);
      if rendered.Err? {
        return [], 0, Some(Template(rendered.error));
      }
      tSqlStr := rendered.value;
      es, count, err := List(queryRow, fetch, pager, offset, size, []);
    }
  }
}
