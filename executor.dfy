/**
 * The legacy statement executor: it holds a database, an optional
 * transaction and two flags, sends statements to the transaction when there
 * is one and to the database otherwise, and with auto-commit commits the
 * transaction after each `exec`.
 */
module Executor {
  import opened Wrappers
  import opened Handles
  import opened Clauses

  /** Where a statement goes: the transaction when there is one, else the database. */
  function Route(tx: Option<Tx>, db: Option<DB>): (c: Conn)
    ensures c.OnTx? <==> tx.Some?
    ensures c.OnTx? ==> c.tx == tx.value
    ensures c.OnDb? ==> c.db == db
  {
    if tx.Some? then OnTx(tx.value) else OnDb(db)
  }

  /** The transaction `Begin` leaves: a new one when it may begin, nil if beginning failed. */
  function BeganTx(openTX: bool, db: Option<DB>, tx: Option<Tx>, begin: Result<Tx, DbError>): (r: Option<Tx>)
    ensures !(openTX && db.Some?) ==> r == tx
    ensures openTX && db.Some? ==> (r.Some? <==> begin.Ok?) && (begin.Ok? ==> r == Some(begin.value))
  {
    if openTX && db.Some? then (if begin.Ok? then Some(begin.value) else None) else tx
  }

  class Executor {
    var db: Option<DB>
    var tx: Option<Tx>
    const openTX: bool
    const autoCommit: bool

    /** `newExecutor(db, openTX, autoCommit)`: begins a transaction iff `openTX`; `begin` is what `db.Begin()` answers. */
    constructor(db: Option<DB>, openTX: bool, autoCommit: bool, begin: Result<Tx, DbError>)
      ensures this.db == db && this.openTX == openTX && this.autoCommit == autoCommit
      ensures tx == BeganTx(openTX, db, None, begin)
    {
      this.db := db;
      this.openTX := openTX;
      this.autoCommit := autoCommit;
      tx := None;
      new;
      if openTX {
        Begin(begin);
      }
    }

    /** `Begin()`: the begin error is dropped, leaving a nil transaction. */
    method Begin(begin: Result<Tx, DbError>)
      modifies this
      ensures db == old(db)
      ensures tx == BeganTx(openTX, db, old(tx), begin)
    {
      if openTX && db.Some? {
        if begin.Ok? {
          tx := Some(begin.value);
        } else {
          tx := None;
        }
      }
    }

    /** `Commit()`: nil without a transaction, else the transaction's answer; the field is kept. */
    method Commit(driver: Driver) returns (err: Option<DbError>)
      modifies driver
      ensures tx.None? ==> err.None? && driver.done == old(driver.done) && driver.committed == old(driver.committed)
      ensures tx.Some? ==> (err, driver.done, driver.committed) ==
                           Finish(tx.value, old(driver.done), old(driver.committed), driver.failing, true)
    {
      if tx.Some? {
        err := driver.Commit(tx.value);
      } else {
        err := None;
      }
    }

    /** `Rollback()`: nil without a transaction, else the transaction's answer; the field is kept. */
    method Rollback(driver: Driver) returns (err: Option<DbError>)
      modifies driver
      ensures tx.None? ==> err.None? && driver.done == old(driver.done) && driver.committed == old(driver.committed)
      ensures tx.Some? ==> (err, driver.done, driver.committed) ==
                           Finish(tx.value, old(driver.done), old(driver.committed), driver.failing, false)
    {
      if tx.Some? {
        err := driver.Rollback(tx.value);
      } else {
        err := None;
      }
    }

    /** `exec`: routed; with a transaction and auto-commit, a commit follows whose error is dropped. */
    method Exec(stmt: Built, run: Exec, driver: Driver) returns (result: ExecResult)
      modifies driver
      ensures result == run(Route(tx, db), stmt)
      ensures tx.Some? && autoCommit ==>
                var f := Finish(tx.value, old(driver.done), old(driver.committed), driver.failing, true);
                driver.done == f.1 && driver.committed == f.2
      ensures !(tx.Some? && autoCommit) ==> driver.done == old(driver.done) && driver.committed == old(driver.committed)
    {
      if tx.Some? {
        result := run(OnTx(tx.value), stmt);
        if autoCommit {
          var _ := Commit(driver);
        }
        return;
      }
      result := run(OnDb(db), stmt);
    }

    /** `query`: routed, never commits. */
    method Query(stmt: Built, run: Query) returns (result: Result<seq<Row>, DbError>)
      ensures result == run(Route(tx, db), stmt)
    {
      if tx.Some? {
        return run(OnTx(tx.value), stmt);
      }
      return run(OnDb(db), stmt);
    }

    /** `queryRow`: routed, never commits. */
    method QueryRow(stmt: Built, run: QueryRow) returns (result: RowResult)
      ensures result == run(Route(tx, db), stmt)
    {
      if tx.Some? {
        return run(OnTx(tx.value), stmt);
      }
      return run(OnDb(db), stmt);
    }
  }
}
