/**
 * The legacy model registry (`Register(model Model)`): the same field walk
 * as the entity registry, but the column strategy is the global one OR-ed
 * bitwise with the model's, the checks for a nil model and nil metadata come
 * first, and a migration runs on the `master` datasource (else `_`) when the
 * global or the model's flag asks for it.
 */
module LegacyModel {
  import opened Wrappers
  import opened Naming
  import opened Handles
  import opened Clauses
  import opened Entity
  import opened LegacyDs

  /** What a model's `MetaData()` returns. */
  datatype ModelMeta = ModelMeta(
    migrate: bool, table: string, comment: string, columnNameStrategy: Strategy, ds: string,
    primaryKeyColumns: seq<string>, columnDefinitions: seq<Ge>, indexDefinitions: seq<Ge>,
    insertIgnores: seq<string>, updateIgnores: seq<string>)

  /** A non-nil model: its type key, its fields with their tags, its metadata (None is nil) and its table name. */
  datatype ModelDecl = ModelDecl(key: string, fields: seq<FieldDecl>, meta: Option<ModelMeta>, table: string)

  /** The global `Configuration` as far as `Register` reads it. */
  datatype Settings = Settings(migrate: bool, columnNameStrategy: Strategy, hasLogger: bool, debug: bool)

  /** What the registry keeps for one model. */
  datatype ModelRecord = ModelRecord(
    table: string, fields: seq<string>, columns: seq<string>,
    fieldColumn: map<string, string>, columnField: map<string, string>,
    pks: seq<string>, insertIgnore: set<string>, updateIgnore: set<string>)

  /** The CREATE TABLE run: the database, the request, the driver's answer and whether `handleErr` exits. */
  datatype MigrationRun = MigrationRun(db: DB, request: Migration, failure: Option<DbError>, fatal: bool)

  datatype ModelOutcome =
    | ErrCannotRegisterNilModel
    | ErrModelMetadataNil
    | ErrDuplicateRegisterModel
    | ErrRequiredDS
    | ErrRequiredMasterDS
    | ModelRegistered(run: Option<MigrationRun>)

  function Pow2(n: nat): (r: nat)
    ensures r >= 1
  {
    if n == 0 then 1 else 2 * Pow2(n - 1)
  }

  const Word: nat := 0x1_0000_0000_0000_0000

  lemma {:induction false} Pow2Add(a: nat, b: nat)
    ensures Pow2(a + b) == Pow2(a) * Pow2(b)
  {
    if b > 0 {
      Pow2Add(a, b - 1);
      assert Pow2(a + b) == 2 * Pow2(a + b - 1);
    }
  }

  lemma Pow2Word()
    ensures Pow2(64) == Word
  {
    assert Pow2(4) == 16;
    Pow2Add(4, 4);
    Pow2Add(8, 8);
    Pow2Add(16, 16);
    Pow2Add(32, 32);
  }

  /** A Go `int` as an unsigned 64-bit pattern, two's complement. */
  function Unsigned(i: Strategy): (u: nat)
    ensures u < Word
  {
    if i < 0 then i + Word else i
  }

  function Signed(u: nat): Strategy
    requires u < Word
  {
    if u < 0x8000_0000_0000_0000 then u else u - Word
  }

  /** Bitwise OR of the low `n` bits of two naturals, least significant bit first. */
  function OrBits(a: nat, b: nat, n: nat): (r: nat)
    requires a < Pow2(n) && b < Pow2(n)
    ensures r < Pow2(n)
  {
    if n == 0 then 0
    else 2 * OrBits(a / 2, b / 2, n - 1) + (if a % 2 == 1 || b % 2 == 1 then 1 else 0)
  }

  /** `a | b` on two Go `int` strategies. */
  function StrategyOr(a: Strategy, b: Strategy): Strategy
  {
    Pow2Word();
    Signed(OrBits(Unsigned(a), Unsigned(b), 64))
  }

  /** OR with zero bits keeps the other operand, on either side. */
  lemma {:induction false} OrBitsZero(a: nat, n: nat)
    requires a < Pow2(n)
    ensures OrBits(a, 0, n) == a && OrBits(0, a, n) == a
  {
    if n > 0 {
      OrBitsZero(a / 2, n - 1);
    }
  }

  /** Underline | CamelCase is 3, a value no branch names, so the name is only ID-rewritten. */
  lemma UnderlineOrCamelCaseIsUnchanged(s: string)
    ensures StrategyOr(Underline, CamelCase) == 3
    ensures StrategyName(s, StrategyOr(Underline, CamelCase)) == ReplaceID(s)
  {
    Pow2Word();
    OrBitsZero(0, 62);
    assert OrBits(0, 1, 63) == 1;
    assert OrBits(1, 2, 64) == 3;
  }

  /** OR-ing with Default keeps the other strategy. */
  lemma OrDefaultKeeps(a: Strategy)
    ensures StrategyOr(a, Default) == a && StrategyOr(Default, a) == a
  {
    Pow2Word();
    OrBitsZero(Unsigned(a), 64);
  }

  /** OR-ing a strategy with itself keeps it. */
  lemma {:induction false} OrBitsSelf(a: nat, n: nat)
    requires a < Pow2(n)
    ensures OrBits(a, a, n) == a
  {
    if n > 0 {
      OrBitsSelf(a / 2, n - 1);
    }
  }

  /** The same strategy globally and on the model is that strategy. */
  lemma OrSelfKeeps(a: Strategy)
    ensures StrategyOr(a, a) == a
  {
    Pow2Word();
    OrBitsSelf(Unsigned(a), 64);
  }

  /** The strategy the field walk uses. */
  function ColumnStrategy(settings: Settings, meta: ModelMeta): Strategy
  {
    StrategyOr(settings.columnNameStrategy, meta.columnNameStrategy)
  }

  /** The record stored for a model. */
  function RecordOf(d: ModelDecl, settings: Settings, meta: ModelMeta): ModelRecord
    requires Named(d.fields)
  {
    var p := Walk(d.fields, ColumnStrategy(settings, meta));
    ModelRecord(d.table, p.fields, p.columns, p.fieldColumn, p.columnField,
                p.pks + meta.primaryKeyColumns,
                p.insertIgnore + Elems(meta.insertIgnores), p.updateIgnore + Elems(meta.updateIgnores))
  }

  /** The master database: `master` if bound to a non-nil handle, else `_`; an empty map is refused first. */
  function MasterDB(handles: map<string, Option<DB>>): (r: Result<(string, DB), ModelOutcome>)
    ensures |handles| == 0 ==> r == Err(ErrRequiredDS)
    ensures |handles| > 0 && Get(handles, "master").Some? ==> r == Ok(("master", Get(handles, "master").value))
    ensures |handles| > 0 && Get(handles, "master").None? && Get(handles, "_").Some? ==> r == Ok(("_", Get(handles, "_").value))
    ensures |handles| > 0 && Get(handles, "master").None? && Get(handles, "_").None? ==> r == Err(ErrRequiredMasterDS)
  {
    if |handles| == 0 then Err(ErrRequiredDS)
    else match Get(handles, "master")
      case Some(db) => Ok(("master", db))
      case None =>
        match Get(handles, "_")
        case Some(db) => Ok(("_", db))
        case None => Err(ErrRequiredMasterDS)
  }

  /** `handleErr`: a failure terminates the program only with a logger and debug on. */
  function Fatal(settings: Settings, failure: Option<DbError>): (fatal: bool)
    ensures fatal <==> failure.Some? && settings.hasLogger && settings.debug
  {
    settings.hasLogger && settings.debug && failure.Some?
  }

  /** The outcome of a registration that passed the nil and duplicate checks. */
  function MigrateOutcome(d: ModelDecl, settings: Settings, meta: ModelMeta,
                          handles: map<string, Option<DB>>, createFailure: Option<DbError>): ModelOutcome
    requires Named(d.fields)
  {
    if !(settings.migrate || meta.migrate) then ModelRegistered(None)
    else match MasterDB(handles)
      case Err(e) => e
      case Ok((name, db)) =>
        var p := Walk(d.fields, ColumnStrategy(settings, meta));
        var request := Migration(d.table, meta.comment, true, p.pks + meta.primaryKeyColumns,
                                 p.columnGes + meta.columnDefinitions, meta.indexDefinitions, name);
        ModelRegistered(Some(MigrationRun(db, request, createFailure, Fatal(settings, createFailure))))
  }

  /** The legacy `model*Map` registries, one record per model key. */
  class ModelRegistry {
    var entries: map<string, ModelRecord>

    constructor()
      ensures entries == map[]
    {
      entries := map[];
    }

    /**
     * `Register(model)`: nil model, nil metadata and duplicate key are refused in
     * that order and change nothing; otherwise the record is stored before the
     * datasource checks, so a missing datasource still leaves the model registered.
     * `createFailure` is what the driver answers to the CREATE TABLE.
     */
    method Register(model: Option<ModelDecl>, settings: Settings, dss: DsMap, createFailure: Option<DbError>)
      returns (outcome: ModelOutcome)
      requires model.Some? ==> Named(model.value.fields)
      modifies this
      ensures model.None? ==> outcome == ErrCannotRegisterNilModel && entries == old(entries)
      ensures model.Some? && model.value.meta.None? ==> outcome == ErrModelMetadataNil && entries == old(entries)
      ensures model.Some? && model.value.meta.Some? && model.value.key in old(entries) ==>
                outcome == ErrDuplicateRegisterModel && entries == old(entries)
      ensures model.Some? && model.value.meta.Some? && model.value.key !in old(entries) ==>
                entries == old(entries)[model.value.key := RecordOf(model.value, settings, model.value.meta.value)]
                && outcome == MigrateOutcome(model.value, settings, model.value.meta.value, dss.handles, createFailure)
    {
      if model.None? {
        return ErrCannotRegisterNilModel;
      }
      var d := model.value;
      if d.meta.None? {
        return ErrModelMetadataNil;
      }
      var meta := d.meta.value;
      if d.key in entries {
        return ErrDuplicateRegisterModel;
      }
      var sty := StrategyOr(settings.columnNameStrategy, meta.columnNameStrategy);
      var walked := CollectFields(d.fields, sty);
      var pks := AppendEach(walked.pks, meta.primaryKeyColumns);
      var columnGes := AppendEach(walked.columnGes, meta.columnDefinitions);
      var insertIgnoreMap := AddEach(walked.insertIgnore, meta.insertIgnores);
      var updateIgnoreMap := AddEach(walked.updateIgnore, meta.updateIgnores);
      entries := entries[d.key := ModelRecord(d.table, walked.fields, walked.columns, walked.fieldColumn,
                                              walked.columnField, pks, insertIgnoreMap, updateIgnoreMap)];
      if !(settings.migrate || meta.migrate) {
        return ModelRegistered(None);
      }
      if |dss.handles| <= 0 {
        return ErrRequiredDS;
      }
      var name := "master";
      var masterDB := Get(dss.handles, "master");
      if masterDB.None? {
        name := "_";
        masterDB := Get(dss.handles, "_");
        if masterDB.None? {
          return ErrRequiredMasterDS;
        }
      }
      var request := Migration(d.table, meta.comment, true, pks, columnGes, meta.indexDefinitions, name);
      var fatal := false;
      if createFailure.Some? {
        fatal := settings.hasLogger && settings.debug;
      }
      return ModelRegistered(Some(MigrationRun(masterDB.value, request, createFailure, fatal)));
    }
  }

  /** A migration happens iff the global or the model's flag is set and a master database resolves. */
  lemma MigrationIffFlag(d: ModelDecl, settings: Settings, meta: ModelMeta,
                         handles: map<string, Option<DB>>, createFailure: Option<DbError>)
    requires Named(d.fields)
    ensures var o := MigrateOutcome(d, settings, meta, handles, createFailure);
      && (o.ModelRegistered? && o.run.Some? <==> (settings.migrate || meta.migrate) && MasterDB(handles).Ok?)
      && (!(settings.migrate || meta.migrate) ==> o == ModelRegistered(None))
      && (o.ModelRegistered? && o.run.Some? ==>
            o.run.value.db == MasterDB(handles).value.1 && o.run.value.request.ds == MasterDB(handles).value.0
            && o.run.value.request.table == d.table && o.run.value.request.ifNotExists)
  {
  }

  /** The stored record: tag primary keys then the metadata's, and ignore sets as tag flags plus metadata lists. */
  lemma RecordProperties(d: ModelDecl, settings: Settings, meta: ModelMeta)
    requires Named(d.fields)
    ensures var r := RecordOf(d, settings, meta);
      && r.pks == TagPks(d.fields) + meta.primaryKeyColumns
      && |r.fields| == |d.fields| && |r.columns| == |d.fields|
      && (forall i :: 0 <= i < |d.fields| ==>
            r.fields[i] == d.fields[i].name && r.columns[i] == ColumnOf(d.fields[i], ColumnStrategy(settings, meta)))
      && (forall col :: col in r.insertIgnore <==>
            col in meta.insertIgnores || exists i :: 0 <= i < |d.fields| && Flagged(d.fields[i], true) && r.columns[i] == col)
      && (forall col :: col in r.updateIgnore <==>
            col in meta.updateIgnores || exists i :: 0 <= i < |d.fields| && Flagged(d.fields[i], false) && r.columns[i] == col)
  {
    var sty := ColumnStrategy(settings, meta);
    var p := Walk(d.fields, sty);
    assert RecordOf(d, settings, meta).insertIgnore == IgnoredBy(p, true) + Elems(meta.insertIgnores);
    assert RecordOf(d, settings, meta).updateIgnore == IgnoredBy(p, false) + Elems(meta.updateIgnores);
    WalkShape(d.fields, sty);
    WalkPks(d.fields, sty);
    WalkIgnores(d.fields, sty, true);
    WalkIgnores(d.fields, sty, false);
  }
}
