/**
 * The legacy datasource map: named `*sql.DB` handles, where a name may be
 * bound to a nil handle. `DS` binds one handle under both default names,
 * `DSWithName` binds one name, and `required` refuses a missing or nil one.
 */
module LegacyDs {
  import opened Wrappers
  import opened Handles

  datatype DsError = ErrDSIsNil | ErrRequiredNamedDS(name: string)

  /** The handle bound to `name`; a missing key reads as nil, as in a Go map. */
  function Get(handles: map<string, Option<DB>>, name: string): Option<DB>
  {
    if name in handles then handles[name] else None
  }

  /** `dsMap.required(name)` on a given map. */
  function Required(handles: map<string, Option<DB>>, name: string): (r: Result<DB, DsError>)
    ensures r.Ok? <==> name in handles && handles[name].Some?
    ensures r.Ok? ==> handles[name] == Some(r.value)
    ensures r.Err? ==> r.error == ErrRequiredNamedDS(name)
  {
    match Get(handles, name)
    case Some(db) => Ok(db)
    case None => Err(ErrRequiredNamedDS(name))
  }

  /** The package-level `dsMap`. */
  class DsMap {
    var handles: map<string, Option<DB>>

    constructor()
      ensures handles == map[]
    {
      handles := map[];
    }

    /** `DS(db)`: a nil handle is refused and nothing is stored. */
    method DS(db: Option<DB>) returns (err: Option<DsError>)
      modifies this
      ensures db.None? ==> err == Some(ErrDSIsNil) && handles == old(handles)
      ensures db.Some? ==> err.None? && handles == old(handles)["_" := db]["master" := db]
    {
      if db.None? {
        return Some(ErrDSIsNil);
      }
      DSWithName("_", db);
      DSWithName("master", db);
      return None;
    }

    /** `DSWithName(name, db)`: binds one name, nil included. */
    method DSWithName(name: string, db: Option<DB>)
      modifies this
      ensures handles == old(handles)[name := db]
    {
      handles := handles[name := db];
    }

    /** `required(name)`. */
    method RequiredDS(name: string) returns (r: Result<DB, DsError>)
      ensures r == Required(handles, name)
    {
      var db := Get(handles, name);
      if db.None? {
        return Err(ErrRequiredNamedDS(name));
      }
      return Ok(db.value);
    }
  }

  /** After `DS(db)` both default names resolve to `db`, and every other name is as before. */
  lemma DefaultNamesResolve(handles: map<string, Option<DB>>, db: DB, other: string)
    requires other != "_" && other != "master"
    ensures var h := handles["_" := Some(db)]["master" := Some(db)];
      && Required(h, "_") == Ok(db) && Required(h, "master") == Ok(db)
      && Required(h, other) == Required(handles, other)
  {
  }

  /** A name bound to nil is refused exactly like a missing one. */
  lemma NilBindingRefused(handles: map<string, Option<DB>>, name: string)
    ensures Required(handles[name := None], name) == Required(map k | k in handles && k != name :: handles[k], name)
  {
  }
}
