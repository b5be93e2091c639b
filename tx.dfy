/**
 * The transaction aggregator: a list of joined transactions that `Commit`
 * and `Rollback` finish one after another in join order, stopping at the
 * first transaction whose driver call fails.
 */
module Transactions {
  import opened Wrappers
  import opened Handles

  function TxSet(txs: seq<Tx>): set<Tx>
  {
    set t | t in txs
  }

  /**
   * Finishing `txs` in order from the driver state (`done`, `committed`): the
   * first error stops the walk, and the state it reached is kept.
   */
  function FinishAll(txs: seq<Tx>, done: set<Tx>, committed: set<Tx>, failing: set<Tx>, commit: bool)
    : (Option<DbError>, set<Tx>, set<Tx>)
  {
    if txs == [] then (None, done, committed)
    else
      var r := Finish(txs[0], done, committed, failing, commit);
      if r.0.Some? then r else FinishAll(txs[1..], r.1, r.2, failing, commit)
  }

  /** `TxManager`: the joined transactions, in join order. */
  class TxManager {
    var txs: seq<Tx>

    /** `NewTxManager()`. */
    constructor()
      ensures txs == []
    {
      txs := [];
    }

    /** `Join(tx)`: appends at the end. */
    method Join(t: Tx)
      modifies this
      ensures txs == old(txs) + [t]
    {
      txs := txs + [t];
    }

    /** `Commit()`: commits every member in join order and returns the first error. */
    method Commit(driver: Driver) returns (err: Option<DbError>)
      modifies driver
      ensures (err, driver.done, driver.committed) ==
              FinishAll(txs, old(driver.done), old(driver.committed), driver.failing, true)
    {
      err := FinishEach(driver, true);
    }

    /** `Rollback()`: rolls back every member in join order and returns the first error. */
    method Rollback(driver: Driver) returns (err: Option<DbError>)
      modifies driver
      ensures (err, driver.done, driver.committed) ==
              FinishAll(txs, old(driver.done), old(driver.committed), driver.failing, false)
    {
      err := FinishEach(driver, false);
    }

    /** The loop shared by `Commit` and `Rollback`. */
    method FinishEach(driver: Driver, commit: bool) returns (err: Option<DbError>)
      modifies driver
      ensures (err, driver.done, driver.committed) ==
              FinishAll(txs, old(driver.done), old(driver.committed), driver.failing, commit)
    {
      var i := 0;
      while i < |txs|
        invariant 0 <= i <= |txs|
        invariant FinishAll(txs[i..], driver.done, driver.committed, driver.failing, commit) ==
                  FinishAll(txs, old(driver.done), old(driver.committed), driver.failing, commit)
      {
        assert txs[i..][1..] == txs[i + 1..];
        var e: Option<DbError>;
        if commit {
          e := driver.Commit(txs[i]);
        } else {
          e := driver.Rollback(txs[i]);
        }
        if e.Some? {
          return e;
        }
        i := i + 1;
      }
      return None;
    }
  }

  /** Finishing never undoes anything: the finished and committed sets only grow. */
  lemma {:induction false} FinishAllKeeps(txs: seq<Tx>, done: set<Tx>, committed: set<Tx>, failing: set<Tx>, commit: bool)
    ensures var r := FinishAll(txs, done, committed, failing, commit);
      done <= r.1 && committed <= r.2 && r.1 <= done + TxSet(txs)
  {
    if txs != [] {
      var r := Finish(txs[0], done, committed, failing, commit);
      if r.0.None? {
        FinishAllKeeps(txs[1..], r.1, r.2, failing, commit);
      }
    }
  }

  /** A member already finished before the call makes both `Commit` and `Rollback` fail. */
  lemma {:induction false} FinishedMemberFails(txs: seq<Tx>, i: nat, done: set<Tx>, committed: set<Tx>, failing: set<Tx>, commit: bool)
    requires i < |txs| && txs[i] in done
    ensures FinishAll(txs, done, committed, failing, commit).0.Some?
  {
    if i > 0 {
      var r := Finish(txs[0], done, committed, failing, commit);
      if r.0.None? {
        assert txs[1..][i - 1] == txs[i];
        FinishedMemberFails(txs[1..], i - 1, r.1, r.2, failing, commit);
      }
    }
  }

  /**
   * The walk succeeds iff the members are distinct, unfinished and not failing;
   * it then finishes all of them, and a commit commits all of them.
   */
  lemma {:induction false} FinishAllSucceeds(txs: seq<Tx>, done: set<Tx>, committed: set<Tx>, failing: set<Tx>, commit: bool)
    ensures var r := FinishAll(txs, done, committed, failing, commit);
      && (r.0.None? <==>
            (forall i :: 0 <= i < |txs| ==> txs[i] !in done && txs[i] !in failing)
            && (forall i, j :: 0 <= i < j < |txs| ==> txs[i] != txs[j]))
      && (r.0.None? ==> r.1 == done + TxSet(txs) && r.2 == (if commit then committed + TxSet(txs) else committed))
  {
    if txs != [] {
      var t := txs[0];
      var rest := txs[1..];
      var r := Finish(t, done, committed, failing, commit);
      var all := FinishAll(txs, done, committed, failing, commit);
      assert TxSet(txs) == {t} + TxSet(rest) by {
        assert txs == [t] + rest;
      }
      if r.0.None? {
        FinishAllSucceeds(rest, r.1, r.2, failing, commit);
        if all.0.None? {
          forall i, j | 0 <= i < j < |txs| ensures txs[i] != txs[j] {
            if i > 0 {
              assert rest[i - 1] == txs[i] && rest[j - 1] == txs[j];
            }
          }
          forall i | 0 <= i < |txs| ensures txs[i] !in done && txs[i] !in failing {
            if i > 0 {
              assert rest[i - 1] == txs[i];
            }
          }
        }
      }
    }
  }

  /**
   * A failing walk stops at member `k`: the members before it finished normally,
   * `k` failed (already finished, or its driver call failed), and the members after
   * it were not attempted.
   */
  lemma {:induction false} FirstFailureStops(txs: seq<Tx>, done: set<Tx>, committed: set<Tx>, failing: set<Tx>, commit: bool)
    returns (k: nat)
    requires FinishAll(txs, done, committed, failing, commit).0.Some?
    ensures var r := FinishAll(txs, done, committed, failing, commit);
      && k < |txs|
      && (forall i :: 0 <= i < k ==> txs[i] !in done && txs[i] !in failing)
      && (txs[k] in done + TxSet(txs[..k]) || txs[k] in failing)
      && r.1 == done + TxSet(txs[..k + 1])
      && r.2 == (if commit then committed + TxSet(txs[..k]) else committed)
  {
    var t := txs[0];
    var r := Finish(t, done, committed, failing, commit);
    if r.0.Some? {
      k := 0;
      assert txs[..1] == [t];
    } else {
      var j := FirstFailureStops(txs[1..], r.1, r.2, failing, commit);
      k := j + 1;
      assert txs[..k + 1] == [t] + txs[1..][..j + 1];
      assert txs[..k] == [t] + txs[1..][..j];
      assert TxSet(txs[..k + 1]) == {t} + TxSet(txs[1..][..j + 1]);
      assert TxSet(txs[..k]) == {t} + TxSet(txs[1..][..j]);
      forall i | 0 <= i < k ensures txs[i] !in done && txs[i] !in failing {
        if i > 0 {
          assert txs[1..][i - 1] == txs[i];
        }
      }
    }
  }
}
