/**
 * Handles of `database/sql`: databases, transactions and their errors, and
 * the driver-side life cycle of a transaction (a transaction finishes once,
 * by commit or rollback; finishing it again fails with `sql.ErrTxDone`).
 */
module Handles {
  import opened Wrappers

  /** A `*sql.DB`. */
  datatype DB = DB(id: nat)

  /** A `*sql.Tx`. */
  datatype Tx = Tx(id: nat)

  datatype DbError = DriverError(code: nat) | ErrTxDone

  /** Where a statement runs: on a transaction, or on a (possibly nil) database. */
  datatype Conn = OnTx(tx: Tx) | OnDb(db: Option<DB>)

  /**
   * Finishing `t` (commit if `commit`, else rollback) from the sets of finished
   * and committed transactions; `failing` are those whose driver call fails.
   */
  function Finish(t: Tx, done: set<Tx>, committed: set<Tx>, failing: set<Tx>, commit: bool)
    : (r: (Option<DbError>, set<Tx>, set<Tx>))
    ensures t in done ==> r == (Some(ErrTxDone), done, committed)
    ensures t !in done ==> r.1 == done + {t}
    ensures r.0.None? <==> t !in done && t !in failing
    ensures r.2 == (if commit && r.0.None? then committed + {t} else committed)
  {
    if t in done then (Some(ErrTxDone), done, committed)
    else if t in failing then (Some(DriverError(t.id)), done + {t}, committed)
    else (None, done + {t}, if commit then committed + {t} else committed)
  }

  /** The driver's view of the transactions it has handed out. */
  class Driver {
    var done: set<Tx>
    var committed: set<Tx>
    const failing: set<Tx>

    constructor(failing: set<Tx>)
      ensures done == {} && committed == {} && this.failing == failing
    {
      done := {};
      committed := {};
      this.failing := failing;
    }

    /** `tx.Commit()`. */
    method Commit(t: Tx) returns (err: Option<DbError>)
      modifies this
      ensures (err, done, committed) == Finish(t, old(done), old(committed), failing, true)
    {
      var r := Finish(t, done, committed, failing, true);
      err, done, committed := r.0, r.1, r.2;
    }

    /** `tx.Rollback()`. */
    method Rollback(t: Tx) returns (err: Option<DbError>)
      modifies this
      ensures (err, done, committed) == Finish(t, old(done), old(committed), failing, false)
    {
      var r := Finish(t, done, committed, failing, false);
      err, done, committed := r.0, r.1, r.2;
    }
  }
}
