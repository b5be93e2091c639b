/**
 * Query handles of the XML query package. A handle is opened from a bound
 * select node: its datasource is the node's, else the root's, else `_`, and
 * its SQL is the node's text. Queries run on the handle's database;
 * templates render the node's SQL with caller data. The template engine, the
 * driver and the struct scan are function-valued parameters.
 */
module XmlQuery {
  import opened Wrappers
  import opened Values
  import opened Handles
  import opened Clauses
  import opened Text
  import opened DataSource
  import opened XmlNodes
  import opened XmlBind

  datatype TemplateError = ParseFailed(code: nat) | ExecuteFailed(code: nat)

  datatype XmlError =
    | Db(err: DbError)
    | Template(terr: TemplateError)
    | ErrQueryTooManyResult
    | ErrSelectTooManyResult

  /** What a driver query followed by the struct scan reports. */
  datatype Fetched = QueryFailed(err: DbError) | ScanFailed(err: DbError) | Fetched(rows: seq<Row>)

  /** `db.Query(sql, ps...)` followed by `anorm.ScanStruct`. */
  type Fetch = (Conn, Built) -> Fetched

  /** Parsing and executing a template over the caller's data: the rendered text, or the failure. */
  type Render = string -> Result<string, TemplateError>

  /** `queryableImpl`, `pageQueryableImpl`: the datasource name, its database and the node's SQL. */
  datatype Handle = Handle(ds: string, db: Option<DB>, sqlStr: string)

  datatype OpenError = Unbound(bindErr: BindError) | NoDataSource(poolErr: PoolError)

  /** `getDS(rn, nd)`: the node's datasource takes precedence over the root's; neither gives "". */
  function GetDS(rn: RootNode, nd: Node): (ds: string)
    ensures ds == "" <==> nd.datasource == "" && rn.datasource == ""
    ensures ds != "" ==> ds == (if nd.datasource != "" then nd.datasource else rn.datasource)
  {
    if nd.datasource != "" then nd.datasource
    else if rn.datasource != "" then rn.datasource
    else ""
  }

  /** The empty datasource name stands for the default one, `_`. */
  function DefaultDS(ds: string): (r: string)
    ensures r != ""
    ensures ds != "" ==> r == ds
  {
    if ds == "" then "_" else ds
  }

  /**
   * `Query`, `RawQuery`, `PageQuery(namespace, id)`: the select node is looked up, the datasource
   * chosen and resolved in the pool; a missing node or datasource is reported.
   */
  function OpenHandle(nodeMap: map<string, RootNode>, dbM: map<string, Option<DB>>, namespace: string, id: string)
    : (r: Result<Handle, OpenError>)
    ensures FindNode(nodeMap, namespace, id, SelectType).Err? ==>
              r == Err(Unbound(FindNode(nodeMap, namespace, id, SelectType).error))
    ensures r.Ok? ==>
      var found := FindNode(nodeMap, namespace, id, SelectType);
      && found.Ok?
      && r.value.ds != ""
      && r.value.ds == (if found.value.1.datasource != "" then found.value.1.datasource
                        else if found.value.0.datasource != "" then found.value.0.datasource
                        else "_")
      && r.value.ds in dbM && r.value.db == dbM[r.value.ds]
      && r.value.sqlStr == found.value.1.innerXml
    ensures FindNode(nodeMap, namespace, id, SelectType).Ok? ==>
      (r.Ok? <==> DefaultDS(GetDS(FindNode(nodeMap, namespace, id, SelectType).value.0,
                                  FindNode(nodeMap, namespace, id, SelectType).value.1)) in dbM)
  {
    match FindNode(nodeMap, namespace, id, SelectType)
    case Err(e) => Err(Unbound(e))
    case Ok((rn, nd)) =>
      var ds := DefaultDS(GetDS(rn, nd));
      match Resolve(dbM, ds)
      case Err(pe) => Err(NoDataSource(pe))
      case Ok(db) => Ok(Handle(ds, db, nd.innerXml))
  }

  /** The SQL a select handle runs: its last rendered template text when that is not empty, else the node's SQL. */
  function ActiveSql(sqlStr: string, tSqlStr: string): (r: string)
    ensures r == sqlStr || r == tSqlStr
    ensures r == "" ==> sqlStr == "" && tSqlStr == ""
    ensures tSqlStr != "" ==> r == tSqlStr
  {
    if tSqlStr == "" then sqlStr else tSqlStr
  }

  /** A query's rows or its error; on an error no rows. */
  function Listed(f: Fetched): (r: (seq<Row>, Option<XmlError>))
    ensures r.1.None? <==> f.Fetched?
    ensures f.Fetched? ==> r.0 == f.rows
    ensures r.1.Some? ==> r.0 == [] && r.1 == Some(Db(f.err))
  {
    match f
    case QueryFailed(e) => ([], Some(Db(e)))
    case ScanFailed(e) => ([], Some(Db(e)))
    case Fetched(rows) => (rows, None)
  }

  /**
   * The single-result rule of `QueryOne`, `One` and their template forms: an error passes
   * through, more than one row is `tooMany`, one row is the result, no row is no result and
   * no error.
   */
  function OneOf(l: (seq<Row>, Option<XmlError>), tooMany: XmlError): (r: (Option<Row>, Option<XmlError>))
    ensures r.1.None? <==> l.1.None? && |l.0| <= 1
    ensures r.0.Some? <==> l.1.None? && |l.0| == 1
    ensures r.0.Some? ==> l.0 == [r.0.value]
    ensures l.1.Some? ==> r.1 == l.1
    ensures l.1.None? && |l.0| > 1 ==> r.1 == Some(tooMany)
  {
    if l.1.Some? then (None, l.1)
    else if |l.0| > 1 then (None, Some(tooMany))
    else if |l.0| == 1 then (Some(l.0[0]), None)
    else (None, None)
  }

  /** `queryableImpl.Query(entity, ps...)`: the node's SQL with the caller's arguments. */
  function QueryList(h: Handle, fetch: Fetch, ps: seq<Value>): (r: (seq<Row>, Option<XmlError>))
    ensures r == Listed(fetch(OnDb(h.db), Built(h.sqlStr, ps)))
  {
    Listed(fetch(OnDb(h.db), Built(h.sqlStr, ps)))
  }

  /** `QueryOne(entity, ps...)` as written: it passes the SQL text and the argument slice as two arguments. */
  function QueryOneAsWritten(h: Handle, fetch: Fetch, ps: seq<Value>): (r: (Option<Row>, Option<XmlError>))
    ensures r == QueryOne(h, fetch, [StrV(h.sqlStr), ListV(ps)])
  {
    OneOf(QueryList(h, fetch, [StrV(h.sqlStr), ListV(ps)]), ErrQueryTooManyResult)
  }

  /** `QueryOne(entity, ps...)` with the caller's arguments forwarded. */
  function QueryOne(h: Handle, fetch: Fetch, ps: seq<Value>): (r: (Option<Row>, Option<XmlError>))
    ensures r == OneOf(Listed(fetch(OnDb(h.db), Built(h.sqlStr, ps))), ErrQueryTooManyResult)
  {
    OneOf(QueryList(h, fetch, ps), ErrQueryTooManyResult)
  }

  /**
   * With a driver that returns one row exactly for the caller's arguments, `QueryOne` returns
   * that row while the code as written never sends those arguments and reports the driver's error.
   */
  lemma QueryOneArguments(h: Handle, ps: seq<Value>)
    ensures var fetch: Fetch := (c: Conn, b: Built) => if b.params == ps then Fetched([Row(0)]) else QueryFailed(DriverError(1));
      && QueryOne(h, fetch, ps) == (Some(Row(0)), None)
      && QueryOneAsWritten(h, fetch, ps) == (None, Some(Db(DriverError(1))))
  {
    if |ps| == 2 {
      assert ps[1] in ps;
      assert ps[1] != ListV(ps);
    }
  }

  /** `QueryTemplate(entity, data)` as written: the node's SQL runs with the rendered text as its one argument. */
  function QueryTemplateAsWritten(h: Handle, render: Render, fetch: Fetch): (r: (seq<Row>, Option<XmlError>))
    ensures render(h.sqlStr).Err? ==> r == ([], Some(Template(render(h.sqlStr).error)))
    ensures render(h.sqlStr).Ok? ==> r == Listed(fetch(OnDb(h.db), Built(h.sqlStr, [StrV(render(h.sqlStr).value)])))
  {
    match render(h.sqlStr)
    case Err(e) => ([], Some(Template(e)))
    case Ok(text) => QueryList(h, fetch, [StrV(text)])
  }

  /** `QueryTemplate(entity, data)` running the rendered SQL, without arguments. */
  function QueryTemplate(h: Handle, render: Render, fetch: Fetch): (r: (seq<Row>, Option<XmlError>))
    ensures render(h.sqlStr).Err? ==> r == ([], Some(Template(render(h.sqlStr).error)))
    ensures render(h.sqlStr).Ok? ==> r == Listed(fetch(OnDb(h.db), Built(render(h.sqlStr).value, [])))
  {
    match render(h.sqlStr)
    case Err(e) => ([], Some(Template(e)))
    case Ok(text) => Listed(fetch(OnDb(h.db), Built(text, [])))
  }

  /**
   * When the template renders to text other than itself and the driver knows only that text,
   * `QueryTemplate` returns its rows while the code as written runs the template text and fails.
   */
  lemma QueryTemplateRunsRendered(h: Handle, text: string)
    requires text != h.sqlStr
    ensures var render: Render := (s: string) => Ok(text);
      var fetch: Fetch := (c: Conn, b: Built) => if b.sql == text then Fetched([Row(0)]) else QueryFailed(DriverError(1));
      && QueryTemplate(h, render, fetch) == ([Row(0)], None)
      && QueryTemplateAsWritten(h, render, fetch) == ([], Some(Db(DriverError(1))))
  {
  }

  /** The single-result rule as `QueryOneTemplate` writes it: the error of the list call is never looked at. */
  function OneOfAsWritten(l: (seq<Row>, Option<XmlError>), tooMany: XmlError): (r: (Option<Row>, Option<XmlError>))
    ensures r == OneOf((l.0, None), tooMany)
  {
    if |l.0| > 1 then (None, Some(tooMany))
    else if |l.0| == 1 then (Some(l.0[0]), None)
    else (None, None)
  }

  /** `QueryOneTemplate(entity, data)` as written. */
  function QueryOneTemplateAsWritten(h: Handle, render: Render, fetch: Fetch): (r: (Option<Row>, Option<XmlError>))
    ensures r.1.None? || r.1 == Some(ErrQueryTooManyResult)
  {
    OneOfAsWritten(QueryTemplateAsWritten(h, render, fetch), ErrQueryTooManyResult)
  }

  /** `QueryOneTemplate(entity, data)` reporting the failures of the template and the query. */
  function QueryOneTemplate(h: Handle, render: Render, fetch: Fetch): (r: (Option<Row>, Option<XmlError>))
    ensures render(h.sqlStr).Err? ==> r == (None, Some(Template(render(h.sqlStr).error)))
    ensures render(h.sqlStr).Ok? ==> r == OneOf(Listed(fetch(OnDb(h.db), Built(render(h.sqlStr).value, []))), ErrQueryTooManyResult)
  {
    OneOf(QueryTemplate(h, render, fetch), ErrQueryTooManyResult)
  }

  /**
   * Whatever the template failure, the code as written reports no entity and no error, while
   * `QueryOneTemplate` reports the failure; the same holds for every failing query.
   */
  lemma QueryOneTemplateSwallowsErrors(h: Handle, render: Render, fetch: Fetch)
    requires render(h.sqlStr).Err? || !fetch(OnDb(h.db), Built(h.sqlStr, [StrV(render(h.sqlStr).value)])).Fetched?
    ensures QueryOneTemplateAsWritten(h, render, fetch) == (None, None)
    ensures render(h.sqlStr).Err? ==> QueryOneTemplate(h, render, fetch).1 == Some(Template(render(h.sqlStr).error))
  {
  }

  /** `select count(0) from (<sql>) as _t`. */
  function CountSql(sql: string): string
  {
    "select count(0) from (" + sql + ") as _t"
  }

  /** The counted query can be read back from the count SQL, so distinct queries have distinct counts. */
  lemma CountSqlInverse(sql: string)
    ensures |CountSql(sql)| == |sql| + 29
    ensures CountSql(sql)[22..|CountSql(sql)| - 7] == sql
    ensures OccursAt(sql, CountSql(sql), 22)
  {
    OccursInMiddle("select count(0) from (", sql, ") as _t");
  }

  lemma CountSqlInjective(a: string, b: string)
    requires CountSql(a) == CountSql(b)
    ensures a == b
  {
    CountSqlInverse(a);
    CountSqlInverse(b);
  }

  /** The paged statement: the pager's SQL with the caller's arguments, then the pager's. */
  function PageStatement(sql: string, pager: Pager, offset: int, size: int, ps: seq<Value>): (b: Built)
    ensures b.sql == pager(sql, offset, size).sql
    ensures |b.params| == |ps| + |pager(sql, offset, size).params|
    ensures b.params[..|ps|] == ps && b.params[|ps|..] == pager(sql, offset, size).params
  {
    var paged := pager(sql, offset, size);
    Built(paged.sql, ps + paged.params)
  }

  /**
   * One page of `sql`: the count query runs without arguments; a count failure reports no rows
   * and count 0; a count of at most 0 reports no rows and that count; otherwise the paged query
   * runs, a query failure reports no rows and count 0, a scan failure no rows and the count.
   */
  function PageOver(db: Option<DB>, sql: string, queryRow: QueryRow, fetch: Fetch, pager: Pager,
                    offset: int, size: int, ps: seq<Value>): (r: (seq<Row>, int, Option<XmlError>))
    ensures var counted := queryRow(OnDb(db), Built(CountSql(sql), []));
      && (counted.RowFailed? ==> r == ([], 0, Some(Db(counted.err))))
      && (counted.Scanned? && counted.count.Err? ==> r == ([], 0, Some(Db(counted.count.error))))
      && (counted.Scanned? && counted.count.Ok? && counted.count.value <= 0 ==> r == ([], counted.count.value, None))
      && (counted.Scanned? && counted.count.Ok? && counted.count.value > 0 ==>
            var f := fetch(OnDb(db), PageStatement(sql, pager, offset, size, ps));
            && r.0 == (if f.Fetched? then f.rows else [])
            && r.1 == (if f.QueryFailed? then 0 else counted.count.value)
            && (r.2.None? <==> f.Fetched?))
  {
    match queryRow(OnDb(db), Built(CountSql(sql), []))
    case RowFailed(e) => ([], 0, Some(Db(e)))
    case Scanned(Err(e)) => ([], 0, Some(Db(e)))
    case Scanned(Ok(c)) =>
      if c <= 0 then ([], c, None)
      else
        match fetch(OnDb(db), PageStatement(sql, pager, offset, size, ps))
        case QueryFailed(e) => ([], 0, Some(Db(e)))
        case ScanFailed(e) => ([], c, Some(Db(e)))
        case Fetched(rows) => (rows, c, None)
  }

  /** A count of at most 0 decides the page without the paged query: the result is the same for every driver. */
  lemma PageShortCircuit(db: Option<DB>, sql: string, queryRow: QueryRow, fetch1: Fetch, fetch2: Fetch,
                         pager1: Pager, pager2: Pager, offset: int, size: int, ps: seq<Value>)
    requires var counted := queryRow(OnDb(db), Built(CountSql(sql), []));
      counted.Scanned? && counted.count.Ok? && counted.count.value <= 0
    ensures PageOver(db, sql, queryRow, fetch1, pager1, offset, size, ps)
            == PageOver(db, sql, queryRow, fetch2, pager2, offset, size, ps)
            == ([], queryRow(OnDb(db), Built(CountSql(sql), [])).count.value, None)
  {
  }

  /** `PageQuery.Query(entity, pager, offset, size, ps...)` as written: the pager's arguments replace the caller's. */
  function PageQueryAsWritten(h: Handle, queryRow: QueryRow, fetch: Fetch, pager: Pager,
                              offset: int, size: int, ps: seq<Value>): (r: (seq<Row>, int, Option<XmlError>))
    ensures r == PageOver(h.db, h.sqlStr, queryRow, fetch, pager, offset, size, [])
  {
    var paged := pager(h.sqlStr, offset, size);
    assert PageStatement(h.sqlStr, pager, offset, size, []) == Built(paged.sql, paged.params);
    match queryRow(OnDb(h.db), Built(CountSql(h.sqlStr), []))
    case RowFailed(e) => ([], 0, Some(Db(e)))
    case Scanned(Err(e)) => ([], 0, Some(Db(e)))
    case Scanned(Ok(c)) =>
      if c <= 0 then ([], c, None)
      else
        match fetch(OnDb(h.db), Built(paged.sql, paged.params))
        case QueryFailed(e) => ([], 0, Some(Db(e)))
        case ScanFailed(e) => ([], c, Some(Db(e)))
        case Fetched(rows) => (rows, c, None)
  }

  /** `PageQuery.Query(entity, pager, offset, size, ps...)` passing the caller's arguments before the pager's. */
  function PageQuery(h: Handle, queryRow: QueryRow, fetch: Fetch, pager: Pager,
                     offset: int, size: int, ps: seq<Value>): (r: (seq<Row>, int, Option<XmlError>))
    ensures r == PageOver(h.db, h.sqlStr, queryRow, fetch, pager, offset, size, ps)
  {
    PageOver(h.db, h.sqlStr, queryRow, fetch, pager, offset, size, ps)
  }

  /**
   * The code as written behaves as if no arguments were given, whatever the caller passes; with
   * a positive count and a driver that answers only the caller's arguments followed by the
   * pager's, `PageQuery` returns the page while the code as written reports the driver's error.
   */
  lemma PageQueryArguments(h: Handle, queryRow: QueryRow, fetch: Fetch, pager: Pager, offset: int, size: int, ps: seq<Value>)
    ensures PageQueryAsWritten(h, queryRow, fetch, pager, offset, size, ps)
            == PageOver(h.db, h.sqlStr, queryRow, fetch, pager, offset, size, [])
    ensures ps != [] ==>
      var one: QueryRow := (c: Conn, b: Built) => Scanned(Ok(1));
      var want := ps + pager(h.sqlStr, offset, size).params;
      var known: Fetch := (c: Conn, b: Built) => if b.params == want then Fetched([Row(0)]) else QueryFailed(DriverError(1));
      && PageQuery(h, one, known, pager, offset, size, ps) == ([Row(0)], 1, None)
      && PageQueryAsWritten(h, one, known, pager, offset, size, ps) == ([], 0, Some(Db(DriverError(1))))
  {
    var paged := pager(h.sqlStr, offset, size);
    assert PageStatement(h.sqlStr, pager, offset, size, []) == Built(paged.sql, paged.params);
    if ps != [] {
      assert |paged.params| < |ps + paged.params|;
    }
  }

  /** `PageQuery.QueryTemplate(entity, pager, offset, size, data)` as written: the rendered text is discarded. */
  function PageQueryTemplateAsWritten(h: Handle, render: Render, queryRow: QueryRow, fetch: Fetch, pager: Pager,
                                      offset: int, size: int): (r: (seq<Row>, int, Option<XmlError>))
    ensures render(h.sqlStr).Err? ==> r == ([], 0, Some(Template(render(h.sqlStr).error)))
    ensures render(h.sqlStr).Ok? ==> r == PageOver(h.db, h.sqlStr, queryRow, fetch, pager, offset, size, [])
  {
    match render(h.sqlStr)
    case Err(e) => ([], 0, Some(Template(e)))
    case Ok(_) => PageQueryAsWritten(h, queryRow, fetch, pager, offset, size, [])
  }

  /** `PageQuery.QueryTemplate(entity, pager, offset, size, data)` paging the rendered SQL. */
  function PageQueryTemplate(h: Handle, render: Render, queryRow: QueryRow, fetch: Fetch, pager: Pager,
                             offset: int, size: int): (r: (seq<Row>, int, Option<XmlError>))
    ensures render(h.sqlStr).Err? ==> r == ([], 0, Some(Template(render(h.sqlStr).error)))
    ensures render(h.sqlStr).Ok? ==> r == PageOver(h.db, render(h.sqlStr).value, queryRow, fetch, pager, offset, size, [])
  {
    match render(h.sqlStr)
    case Err(e) => ([], 0, Some(Template(e)))
    case Ok(text) => PageOver(h.db, text, queryRow, fetch, pager, offset, size, [])
  }

  /**
   * When the template renders to other text and only that text can be counted, `PageQueryTemplate`
   * counts and pages it while the code as written counts the template text and fails.
   */
  lemma PageQueryTemplateRendered(h: Handle, text: string, fetch: Fetch, pager: Pager, offset: int, size: int)
    requires text != h.sqlStr
    ensures var render: Render := (s: string) => Ok(text);
      var counts: QueryRow := (c: Conn, b: Built) => if b.sql == CountSql(text) then Scanned(Ok(1)) else RowFailed(DriverError(1));
      && PageQueryTemplate(h, render, counts, fetch, pager, offset, size).1
         == (if fetch(OnDb(h.db), PageStatement(text, pager, offset, size, [])).QueryFailed? then 0 else 1)
      && PageQueryTemplateAsWritten(h, render, counts, fetch, pager, offset, size) == ([], 0, Some(Db(DriverError(1))))
  {
    if CountSql(h.sqlStr) == CountSql(text) {
      CountSqlInjective(h.sqlStr, text);
    }
  }
}
