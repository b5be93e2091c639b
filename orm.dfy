/**
 * The per-entity handle `Orm` and the query-by-example rule: a field of an
 * entity becomes an equality predicate on its column only when its value is
 * "set" (positive numbers, non-empty strings, times after the zero time, any
 * `sql.NullX` wrapper, a valid `sql.NullTime` after the zero time), looking
 * through pointers.
 */
module OrmCore {
  import opened Wrappers
  import opened Values
  import opened Handles
  import opened Clauses
  import opened Entity
  import opened DataSource
  import opened Transactions

  datatype OrmError =
    | ErrEntityNil
    | ErrUnknownEntity(key: string)
    | ErrNoDataSource(cause: PoolError)
    | ErrTxManagerNil
    | ErrAlreadyBindTxManager
    | DbFailure(err: DbError)

  /** What a chain of pointers leads to: None for a nil pointer on the way. */
  function Deref(v: Value): (r: Option<Value>)
    ensures r.Some? ==> !r.value.PtrV?
    ensures !v.PtrV? ==> r == Some(v)
  {
    match v
    case PtrV(target) => if target.None? then None else Deref(target.value)
    case _ => Some(v)
  }

  /** `getRealVal`: the value to compare with, or None when the field is left out. */
  function RealVal(v: Value): (r: Option<Value>)
    ensures r.Some? ==> r == Deref(v)
  {
    match v
    case PtrV(target) => if target.None? then None else RealVal(target.value)
    case IntV(i) => if i > 0 then Some(v) else None
    case UintV(u) => if u > 0 then Some(v) else None
    case FloatV(f) => if f > 0.0 then Some(v) else None
    case StrV(s) => if s != "" then Some(v) else None
    case NullV(_) => Some(v)
    case TimeV(t) => if t > 0 then Some(v) else None
    case NullTimeV(nt) => if nt.valid && nt.value > 0 then Some(v) else None
    case BoolV(_) => None
    case ListV(_) => None
    case OtherV(_) => None
  }

  /**
   * Which dereferenced values are kept: numbers only when strictly positive, strings
   * only when non-empty, null wrappers always (valid or not), a time only after the
   * zero time, a null time only when valid and after the zero time, nothing else.
   */
  lemma {:induction false} RealValKinds(v: Value)
    ensures var d := Deref(v);
      && (d.None? ==> RealVal(v).None?)
      && (d.Some? ==> match d.value
            case IntV(i) => RealVal(v).Some? <==> i > 0
            case UintV(u) => RealVal(v).Some? <==> u > 0
            case FloatV(f) => RealVal(v).Some? <==> f > 0.0
            case StrV(s) => RealVal(v).Some? <==> s != ""
            case NullV(_) => RealVal(v).Some?
            case TimeV(t) => RealVal(v).Some? <==> t > 0
            case NullTimeV(nt) => RealVal(v).Some? <==> nt.valid && nt.value > 0
            case _ => RealVal(v).None?)
  {
    if v.PtrV? && v.target.Some? {
      RealValKinds(v.target.value);
    }
  }

  /** A valid `sql.NullTime` holding the zero time is still left out. */
  lemma ZeroNullTimeSkipped()
    ensures Nullable(0, true).valid
    ensures RealVal(NullTimeV(Nullable(0, true))).None?
  {
  }

  /** The column a field name maps to; a field missing from the map reads as "". */
  function ColumnFor(fieldColumn: map<string, string>, name: string): string
  {
    if name in fieldColumn then fieldColumn[name] else ""
  }

  /** The field-to-column map of a type key; an unregistered key reads as the empty map. */
  function FieldColumnsOf(entries: map<string, Meta>, key: string): map<string, string>
  {
    if key in entries then entries[key].fieldColumn else map[]
  }

  /** One `Eq(column, value)` per kept field, in field order. */
  function WhereGesOf(fields: seq<Field>, fieldColumn: map<string, string>): seq<Ge>
  {
    if fields == [] then []
    else
      var init := WhereGesOf(fields[..|fields| - 1], fieldColumn);
      var f := fields[|fields| - 1];
      var val := RealVal(f.value);
      if val.Some? then init + [Eq(ColumnFor(fieldColumn, f.name), val.value)] else init
  }

  /**
   * The predicates are exactly the kept fields: each is `Eq(column of the field, its
   * real value)` for some field whose real value exists, and each such field has one.
   */
  lemma {:induction false} WhereGesMembers(fields: seq<Field>, fieldColumn: map<string, string>)
    ensures var ges := WhereGesOf(fields, fieldColumn);
      && |ges| <= |fields|
      && (forall g :: g in ges ==>
            exists i :: 0 <= i < |fields| && RealVal(fields[i].value).Some?
                        && g == Eq(ColumnFor(fieldColumn, fields[i].name), RealVal(fields[i].value).value))
      && (forall i :: 0 <= i < |fields| && RealVal(fields[i].value).Some? ==>
            Eq(ColumnFor(fieldColumn, fields[i].name), RealVal(fields[i].value).value) in ges)
  {
    if fields != [] {
      var n := |fields| - 1;
      var init := fields[..n];
      WhereGesMembers(init, fieldColumn);
      var ges := WhereGesOf(fields, fieldColumn);
      forall g | g in ges
        ensures exists i :: 0 <= i < |fields| && RealVal(fields[i].value).Some?
                            && g == Eq(ColumnFor(fieldColumn, fields[i].name), RealVal(fields[i].value).value)
      {
        if g in WhereGesOf(init, fieldColumn) {
          var i :| 0 <= i < |init| && RealVal(init[i].value).Some?
                   && g == Eq(ColumnFor(fieldColumn, init[i].name), RealVal(init[i].value).value);
          assert init[i] == fields[i];
        } else {
          assert RealVal(fields[n].value).Some?;
        }
      }
      forall i | 0 <= i < |fields| && RealVal(fields[i].value).Some?
        ensures Eq(ColumnFor(fieldColumn, fields[i].name), RealVal(fields[i].value).value) in ges
      {
        if i < n {
          assert init[i] == fields[i];
        }
      }
    }
  }

  /** An entity none of whose fields is set yields no predicate. */
  lemma {:induction false} WhereGesEmpty(fields: seq<Field>, fieldColumn: map<string, string>)
    requires forall i :: 0 <= i < |fields| ==> RealVal(fields[i].value).None?
    ensures WhereGesOf(fields, fieldColumn) == []
  {
    if fields != [] {
      WhereGesEmpty(fields[..|fields| - 1], fieldColumn);
    }
  }

  /** `getWhereGes(entity)` as a value: nothing for a nil entity, else one predicate per set field. */
  function EntityGes(e: Record?, entries: map<string, Meta>): (ges: seq<Ge>)
    reads e
    ensures e == null ==> ges == []
    ensures e != null ==> |ges| <= |e.fields|
  {
    if e == null then [] else
      WhereGesMembers(e.fields, FieldColumnsOf(entries, e.typeName));
      WhereGesOf(e.fields, FieldColumnsOf(entries, e.typeName))
  }

  /** `getWhereGes(entity)`: nothing for a nil entity, else one predicate per set field. */
  method GetWhereGes(entity: Record?, entries: map<string, Meta>) returns (ges: seq<Ge>)
    ensures ges == EntityGes(entity, entries)
  {
    ges := [];
    if entity != null {
      var fieldColumnMap := FieldColumnsOf(entries, entity.typeName);
      var fields := entity.fields;
      var i := 0;
      while i < |fields|
        invariant 0 <= i <= |fields|
        invariant ges == WhereGesOf(fields[..i], fieldColumnMap)
      {
        assert fields[..i + 1][..i] == fields[..i];
        var val := RealVal(fields[i].value);
        if val.Some? {
          ges := ges + [Eq(ColumnFor(fieldColumnMap, fields[i].name), val.value)];
        }
        i := i + 1;
      }
      assert fields[..i] == fields;
    }
  }

  /** The datasource name `NewWithDS` uses: the given one, else the one registered for the type. */
  function DsName(entries: map<string, Meta>, key: string, ds: string): string
  {
    if ds != "" then ds else if key in entries then entries[key].ds else ""
  }

  /**
   * The checks of `NewWithDS` in their order: nil entity, then the datasource lookup,
   * then the registration; on success, the resolved database handle.
   */
  function NewCheck(isNil: bool, key: string, ds: string, entries: map<string, Meta>, dbM: map<string, Option<DB>>)
    : (r: Result<Option<DB>, OrmError>)
    ensures isNil ==> r == Err(ErrEntityNil)
    ensures !isNil && Resolve(dbM, DsName(entries, key, ds)).Err? ==>
              r == Err(ErrNoDataSource(ErrRequiredDataSource(DsName(entries, key, ds))))
    ensures r.Ok? <==> !isNil && DsName(entries, key, ds) in dbM && key in entries
    ensures r.Ok? ==> r.value == dbM[DsName(entries, key, ds)]
  {
    if isNil then Err(ErrEntityNil)
    else
      var name := DsName(entries, key, ds);
      match Resolve(dbM, name)
      case Err(e) => Err(ErrNoDataSource(e))
      case Ok(db) => if key !in entries then Err(ErrUnknownEntity(key)) else Ok(db)
  }

  /** An unregistered type with an empty datasource argument is reported as a missing datasource "", not as unknown. */
  lemma UnregisteredReportsDataSourceFirst(key: string, entries: map<string, Meta>, dbM: map<string, Option<DB>>)
    requires key !in entries && "" !in dbM
    ensures NewCheck(false, key, "", entries, dbM) == Err(ErrNoDataSource(ErrRequiredDataSource("")))
  {
  }

  /** `Orm`: a type key bound to a registry, a database, and possibly a transaction and its manager. */
  class Orm {
    const key: string
    const registry: EntityRegistry
    var db: Option<DB>
    var tx: Option<Tx>
    var openTx: bool
    var txm: TxManager?

    /** A transaction is bound exactly when `openTx` is set. */
    predicate TxBound()
      reads this
    {
      openTx <==> tx.Some?
    }

    /** Where the write operations send a statement: the transaction when `openTx`, else the database. */
    function Target(): (c: Conn)
      requires TxBound()
      reads this
      ensures c.OnTx? <==> openTx
      ensures openTx ==> c.tx == tx.value
      ensures !openTx ==> c.db == db
    {
      if openTx then OnTx(tx.value) else OnDb(db)
    }

    /** The registry record of the entity's type. */
    function MetaOf(): Meta
      requires key in registry.entries
      reads this, registry
    {
      registry.entries[key]
    }

    constructor(key: string, registry: EntityRegistry, db: Option<DB>)
      ensures this.key == key && this.registry == registry && this.db == db
      ensures tx.None? && !openTx && txm == null
      ensures TxBound()
    {
      this.key := key;
      this.registry := registry;
      this.db := db;
      tx := None;
      openTx := false;
      txm := null;
    }

    /** `BeginTx(txm)`: refuses a nil or second manager; a failed begin changes nothing. */
    method BeginTx(m: TxManager?, begin: Result<Tx, DbError>) returns (err: Option<OrmError>)
      requires TxBound()
      modifies this, m
      ensures TxBound()
      ensures m == null ==> err == Some(ErrTxManagerNil) && unchanged(this)
      ensures m != null && old(txm) != null ==> err == Some(ErrAlreadyBindTxManager) && unchanged(this, m)
      ensures m != null && old(txm) == null && begin.Err? ==>
                err == Some(DbFailure(begin.error)) && unchanged(this, m)
      ensures m != null && old(txm) == null && begin.Ok? ==>
                err.None? && openTx && tx == Some(begin.value) && txm == m && db == old(db)
                && m.txs == old(m.txs) + [begin.value]
    {
      if m == null {
        return Some(ErrTxManagerNil);
      }
      if txm != null {
        return Some(ErrAlreadyBindTxManager);
      }
      if begin.Err? {
        return Some(DbFailure(begin.error));
      }
      openTx := true;
      tx := Some(begin.value);
      m.Join(begin.value);
      txm := m;
      return None;
    }
  }

  /** `NewWithDS(entity, ds)` (and `New(entity)` with ds = ""). */
  method NewWithDS(entity: Record?, ds: string, registry: EntityRegistry, pool: Pool) returns (r: Result<Orm, OrmError>)
    ensures var check := NewCheck(entity == null, if entity == null then "" else entity.typeName, ds, registry.entries, pool.dbM);
      && (r.Err? <==> check.Err?)
      && (r.Err? ==> r.error == check.error)
      && (r.Ok? ==> fresh(r.value) && r.value.key == entity.typeName && r.value.registry == registry
                    && r.value.db == check.value && r.value.tx.None? && !r.value.openTx && r.value.txm == null
                    && r.value.TxBound() && r.value.key in registry.entries)
  {
    if entity == null {
      return Err(ErrEntityNil);
    }
    var key := entity.typeName;
    var name := ds;
    if name == "" {
      name := if key in registry.entries then registry.entries[key].ds else "";
    }
    var db := pool.Required(name);
    if db.Err? {
      return Err(ErrNoDataSource(db.error));
    }
    if key !in registry.entries {
      return Err(ErrUnknownEntity(key));
    }
    var o := new Orm(key, registry, db.value);
    return Ok(o);
  }
}
