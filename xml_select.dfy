/**
 * Select handles of the XML query package. A handle keeps the node's SQL and
 * the text its template last rendered to; queries run the rendered text when
 * there is one, else the node's SQL. Rendering always starts from the node's
 * SQL, and a rendering failure leaves the stored text as it was.
 */
module XmlSelect {
  import opened Wrappers
  import opened Values
  import opened Handles
  import opened Clauses
  import opened XmlQuery

  /** `selectableImpl`. */
  class Selectable {
    const ds: string
    const db: Option<DB>
    const sqlStr: string
    var tSqlStr: string

    /** `Select(namespace, id)`, from the datasource name, database and SQL of the node. */
    constructor(ds: string, db: Option<DB>, sqlStr: string)
      ensures this.ds == ds && this.db == db && this.sqlStr == sqlStr && tSqlStr == ""
    {
      this.ds := ds;
      this.db := db;
      this.sqlStr := sqlStr;
      tSqlStr := "";
    }

    /** `List(e, ps...)`: the active SQL with the caller's arguments; no rows on an error. */
    method List(fetch: Fetch, ps: seq<Value>) returns (rows: seq<Row>, err: Option<XmlError>)
      ensures (rows, err) == Listed(fetch(OnDb(db), Built(ActiveSql(sqlStr, tSqlStr), ps)))
    {
      var sql := tSqlStr;
      if sql == "" {
        sql := sqlStr;
      }
      var f := fetch(OnDb(db), Built(sql, ps));
      if !f.Fetched? {
        return [], Some(Db(f.err));
      }
      return f.rows, None;
    }

    /** `One(e, ps...)`: the single-result rule over `List`. */
    method One(fetch: Fetch, ps: seq<Value>) returns (oe: Option<Row>, err: Option<XmlError>)
      ensures (oe, err) == OneOf(Listed(fetch(OnDb(db), Built(ActiveSql(sqlStr, tSqlStr), ps))), ErrSelectTooManyResult)
    {
      var es, err2 := List(fetch, ps);
      oe, err := None, None;
      if err2.Some? {
        err := err2;
      } else if |es| > 1 {
        err := Some(ErrSelectTooManyResult);
      } else if |es| == 1 {
        oe := Some(es[0]);
      }
    }

    /**
     * `ListTemplate(e, data)`: the node's SQL is rendered; a failure is reported with no rows
     * and the stored text kept; otherwise the rendering is stored and `List` runs without arguments.
     */
    method ListTemplate(render: Render, fetch: Fetch) returns (rows: seq<Row>, err: Option<XmlError>)
      modifies this
      ensures render(sqlStr).Err? ==>
                tSqlStr == old(tSqlStr) && rows == [] && err == Some(Template(render(sqlStr).error))
      ensures render(sqlStr).Ok? ==>
                && tSqlStr == render(sqlStr).value
                && (rows, err) == Listed(fetch(OnDb(db), Built(ActiveSql(sqlStr, render(sqlStr).value), [])))
    {
      var rendered := render(sqlStr);
      if rendered.Err? {
        return [], Some(Template(rendered.error));
      }
      tSqlStr := rendered.value;
      rows, err := List(fetch, []);
    }

    /** `OneTemplate(e, data)`: the single-result rule over `ListTemplate`. */
    method OneTemplate(render: Render, fetch: Fetch) returns (oe: Option<Row>, err: Option<XmlError>)
      modifies this
      ensures render(sqlStr).Err? ==>
                tSqlStr == old(tSqlStr) && oe == None && err == Some(Template(render(sqlStr).error))
      ensures render(sqlStr).Ok? ==>
                && tSqlStr == render(sqlStr).value
                && (oe, err) == OneOf(Listed(fetch(OnDb(db), Built(ActiveSql(sqlStr, render(sqlStr).value), []))),
                                      ErrSelectTooManyResult)
    {
      var es, err2 := ListTemplate(render, fetch);
      oe, err := None, None;
      if err2.Some? {
        err := err2;
      } else if |es| > 1 {
        err := Some(ErrSelectTooManyResult);
      } else if |es| == 1 {
        oe := Some(es[0]);
      }
    }
  }

  /**
   * A successful `ListTemplate` makes later `List` and `One` calls on the handle run the
   * rendered text, unless it rendered to nothing, when they fall back to the node's SQL; a
   * failed one leaves what they run unchanged.
   */
  method TemplateSticks(s: Selectable, render: Render, fetch: Fetch, ps: seq<Value>)
    returns (rows: seq<Row>, err: Option<XmlError>)
    modifies s
    ensures render(s.sqlStr).Ok? ==>
      (rows, err) == Listed(fetch(OnDb(s.db), Built(if render(s.sqlStr).value == "" then s.sqlStr else render(s.sqlStr).value, ps)))
    ensures render(s.sqlStr).Err? ==>
      (rows, err) == Listed(fetch(OnDb(s.db), Built(ActiveSql(s.sqlStr, old(s.tSqlStr)), ps)))
  {
    var _, _ := s.ListTemplate(render, fetch);
    rows, err := s.List(fetch, ps);
  }
}
