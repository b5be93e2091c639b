/**
 * The datasource pool: named `*sql.DB` handles. `Push` binds one handle under
 * the two default names, `PushDB` binds one name, and `Required` returns
 * whatever is bound to a name, a nil handle included, and refuses only a name
 * that was never bound.
 */
module DataSource {
  import opened Wrappers
  import opened Handles

  datatype PoolError = ErrRequiredDataSource(name: string)

  /** `Required(name)` on a given map: present names resolve, even to nil. */
  function Resolve(dbM: map<string, Option<DB>>, name: string): (r: Result<Option<DB>, PoolError>)
    ensures r.Ok? <==> name in dbM
    ensures r.Ok? ==> r.value == dbM[name]
    ensures r.Err? ==> r.error == ErrRequiredDataSource(name)
  {
    if name in dbM then Ok(dbM[name]) else Err(ErrRequiredDataSource(name))
  }

  /** `dataSourcePool`. */
  class Pool {
    var dbM: map<string, Option<DB>>

    constructor()
      ensures dbM == map[]
    {
      dbM := map[];
    }

    /** `Push(db)`: the same handle under `_` and `master`. */
    method Push(db: Option<DB>)
      modifies this
      ensures dbM == old(dbM)["_" := db]["master" := db]
    {
      PushDB("_", db);
      PushDB("master", db);
    }

    /** `PushDB(name, db)`: binds or rebinds one name. */
    method PushDB(name: string, db: Option<DB>)
      modifies this
      ensures dbM == old(dbM)[name := db]
    {
      dbM := dbM[name := db];
    }

    /** `Required(name)`. */
    method Required(name: string) returns (r: Result<Option<DB>, PoolError>)
      ensures r == Resolve(dbM, name)
    {
      if name !in dbM {
        return Err(ErrRequiredDataSource(name));
      }
      return Ok(dbM[name]);
    }
  }

  /** After a push, both default names resolve to the pushed handle and no other name changes. */
  lemma PushResolves(dbM: map<string, Option<DB>>, db: Option<DB>, other: string)
    requires other != "_" && other != "master"
    ensures var m := dbM["_" := db]["master" := db];
      && Resolve(m, "_") == Ok(db) && Resolve(m, "master") == Ok(db)
      && Resolve(m, other) == Resolve(dbM, other)
  {
  }

  /** Binding one name leaves every other name's resolution unchanged. */
  lemma PushDBIsolated(dbM: map<string, Option<DB>>, name: string, db: Option<DB>, other: string)
    requires other != name
    ensures Resolve(dbM[name := db], name) == Ok(db)
    ensures Resolve(dbM[name := db], other) == Resolve(dbM, other)
  {
  }
}
