/**
 * The SQL Server pager: it wraps the query in a ROW_NUMBER() window ordered by
 * its configured ORDER BY text and selects the rows numbered offset + 1
 * through offset + size, both bounds passed as arguments. Go's `int` is 64
 * bits wide and its addition wraps.
 */
module SqlServerPager {
  import opened Values
  import opened Clauses
  import opened Text

  const TwoTo63: int := 0x8000_0000_0000_0000

  /** `a + b` on Go's 64-bit `int`: the sum wrapped into the signed 64-bit range. */
  function AddInt(a: Int64, b: Int64): (r: Int64)
    ensures -TwoTo63 <= a + b < TwoTo63 ==> r == a + b
    ensures a + b >= TwoTo63 ==> r == a + b - 2 * TwoTo63
    ensures a + b < -TwoTo63 ==> r == a + b + 2 * TwoTo63
  {
    var s := a + b;
    if s >= TwoTo63 then s - 2 * TwoTo63 else if s < -TwoTo63 then s + 2 * TwoTo63 else s
  }

  /** The text around the two clauses the pager fills in. */
  const WindowHead: string := "SELECT t.* FROM (SELECT _t.*, row_number() over ("
  const RowNumber: string := " as rn "
  const WindowTail: string := ") WHERE t.rn between ? and ?"

  /** `order by <orderBy>)`: the window's ordering. */
  function OrderClause(orderBy: string): string
  {
    "order by " + orderBy + ")"
  }

  /** `FROM (<sql>) as _t`: the query as a derived table. */
  function FromClause(sql: string): string
  {
    "FROM (" + sql + ") as _t"
  }

  /** `sqlServer{orderBy}.Page(sql, offset, size)`. */
  function Page(orderBy: string, sql: string, offset: Int64, size: Int64): (r: Built)
    ensures |r.params| == 2
  {
    Built(WindowHead + OrderClause(orderBy) + RowNumber + FromClause(sql) + WindowTail,
          [IntV(AddInt(offset, 1)), IntV(AddInt(offset, size))])
  }

  /**
   * Without overflow the arguments are the window's inclusive bounds offset + 1 and
   * offset + size, so the window holds exactly `size` row numbers.
   */
  lemma PageWindow(orderBy: string, sql: string, offset: Int64, size: Int64)
    requires offset + size < TwoTo63 && offset + 1 < TwoTo63 && -TwoTo63 <= offset + size
    ensures var r := Page(orderBy, sql, offset, size);
      && r.params[0] == IntV(offset + 1) && r.params[1] == IntV(offset + size)
      && r.params[1].i - r.params[0].i + 1 == size
  {
  }

  /** The query appears verbatim inside the window, as the derived table `FROM (<sql>) as _t`. */
  lemma PageEmbedsQuery(orderBy: string, sql: string, offset: Int64, size: Int64) returns (i: nat)
    ensures OccursAt(FromClause(sql), Page(orderBy, sql, offset, size).sql, i)
  {
    var head := WindowHead + OrderClause(orderBy) + RowNumber;
    OccursInMiddle(head, FromClause(sql), WindowTail);
    i := |head|;
  }

  /** The configured ORDER BY text orders the row numbering, as `order by <orderBy>)`. */
  lemma PageEmbedsOrder(orderBy: string, sql: string, offset: Int64, size: Int64) returns (j: nat)
    ensures OccursAt(OrderClause(orderBy), Page(orderBy, sql, offset, size).sql, j)
  {
    OccursInMiddle(WindowHead, OrderClause(orderBy), RowNumber);
    var s := WindowHead + OrderClause(orderBy) + RowNumber;
    OccursExtended(OrderClause(orderBy), s, |WindowHead|, FromClause(sql));
    OccursExtended(OrderClause(orderBy), s + FromClause(sql), |WindowHead|, WindowTail);
    j := |WindowHead|;
  }

  const ExampleHead: string := "SELECT t.* FROM (SELECT _t.*, row_number() over (order by id asc) as rn "
  const ExampleSql: string := "SELECT t.* FROM (SELECT _t.*, row_number() over (order by id asc) as rn FROM (haha) as _t) WHERE t.rn between ? and ?"

  lemma ExampleHeadText()
    ensures WindowHead + OrderClause("id asc") + RowNumber == ExampleHead
  {
    assert WindowHead + OrderClause("id asc") == "SELECT t.* FROM (SELECT _t.*, row_number() over (order by id asc)";
  }

  const ExampleFrom: string := "SELECT t.* FROM (SELECT _t.*, row_number() over (order by id asc) as rn FROM (haha) as _t"

  lemma ExampleFromText()
    ensures ExampleHead + FromClause("haha") == ExampleFrom
  {
  }

  lemma ExampleText()
    ensures ExampleFrom + WindowTail == ExampleSql
  {
  }

  /** The pager's own test: ORDER BY "id asc" over "haha", offset 0 and size 10. */
  lemma PageExample()
    ensures Page("id asc", "haha", 0, 10) == Built(ExampleSql, [IntV(1), IntV(10)])
  {
    ExampleHeadText();
    ExampleFromText();
    ExampleText();
  }
}
