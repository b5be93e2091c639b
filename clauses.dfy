/**
 * Statements as the library hands them to the `sg` SQL builder, kept as
 * abstract clause lists; SQL text, the builder, the pager and the driver are
 * function-valued parameters.
 */
module Clauses {
  import opened Wrappers
  import opened Values
  import opened Handles

  /** A join the select operation derives from a join reference. */
  datatype JoinClause = JoinClause(joinType: string, relTable: string, alias: string, relId: string, selfColumn: string)

  /** An `sg.Ge` condition or fragment. */
  datatype Ge =
    | Eq(column: string, value: Value)        // sg.Eq(sg.C(column), value)
    | Column(text: string)                    // sg.C(text)
    | JoinGroup(joins: seq<JoinClause>)       // sg.NewJoiner over JOIN clauses
    | Custom(id: nat)                         // any other condition a caller builds

  /** `sg.SetEq(sg.C(column), value)`. */
  datatype SetGe = SetEq(column: string, value: Value)

  /** The IFNULL-style wrapping configured for a projected field. */
  datatype NullField = NullField(funcName: string, defaultArg: bool, defaultVal: Value)

  /** A projected expression: a column, or `FuncName(column, default)`. */
  datatype Expr = Col(text: string) | NullFunc(funcName: string, arg: string, defaultArg: bool, defaultVal: Value)

  /** `sg.Alias(expr, alias)` in a select list. */
  datatype Projection = Alias(expr: Expr, alias: string)

  datatype Statement =
    | InsertStmt(table: string, columns: seq<string>, rows: seq<seq<Value>>)
    | UpdateStmt(table: string, sets: seq<SetGe>, wheres: seq<Ge>)
    | DeleteStmt(table: string, wheres: seq<Ge>)
    | SelectStmt(projections: seq<Projection>, table: string, wheres: seq<Ge>, orderBys: seq<Ge>, joins: seq<JoinClause>)
    | CountStmt(table: string, wheres: seq<Ge>, joinGes: seq<Ge>)

  /** SQL text with its arguments. */
  datatype Built = Built(sql: string, params: seq<Value>)

  /** A scanned result row (an entity pointer the scan allocates). */
  datatype Row = Row(id: nat)

  /** What `Exec` reports: an error, or a result whose accessors may fail on their own. */
  datatype ExecResult =
    | ExecFailed(err: DbError)
    | Executed(rowsAffected: int, rowsAffectedErr: Option<DbError>, lastInsertId: int, lastInsertIdErr: Option<DbError>)

  /** What `QueryRow` reports: a row error, or the outcome of scanning one integer. */
  datatype RowResult = RowFailed(err: DbError) | Scanned(count: Result<int, DbError>)

  /** `builder.Build()` of the `sg` library. */
  type Builder = Statement -> Built
  /** `Exec` on a connection. */
  type Exec = (Conn, Built) -> ExecResult
  /** `Query` on a connection followed by the struct scan. */
  type Query = (Conn, Built) -> Result<seq<Row>, DbError>
  /** `QueryRow` on a connection followed by `Scan` of one integer. */
  type QueryRow = (Conn, Built) -> RowResult
  /** `Pager.Page(sql, offset, size)`: the paged SQL and its extra arguments. */
  type Pager = (string, int, int) -> Built
}
