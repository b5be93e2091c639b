/**
 * The entity registry: `Register` walks a struct's fields in declaration
 * order, with the tags the tag parser found, and records per type key the
 * table, the field and column lists, the field/column maps, the primary
 * keys, the insert/update ignore sets, the join references and the
 * datasource name. Reflection and tag parsing are outside the model: the
 * field list with its parsed tags is an input.
 */
module Entity {
  import opened Wrappers
  import opened Text
  import opened Naming
  import opened Clauses

  /** A parsed `orm:"pk{T} c{col} ig{T} ug{T} def{…} join{…}"` tag. */
  datatype Tag = Tag(pk: bool, column: string, insertIgnore: bool, updateIgnore: bool, definition: string, join: string)

  /** The zero tag: what an untagged field contributes. */
  const NoTag := Tag(false, "", false, false, "", "")

  /** A struct field, with the tag the parser found for it, if any. */
  datatype FieldDecl = FieldDecl(name: string, tag: Option<Tag>)

  /** How a field is filled from a related table. */
  datatype JoinRef = JoinRef(field: string, joinType: string, selfColumn: string, relTable: string, relId: string, relName: string)

  /** What an entity's `Configure` sets on its `EntityConfiguration`. */
  datatype Config = Config(
    migrate: bool, table: string, ifNotExists: bool, commented: bool, comment: string,
    columnNameStrategy: Strategy, ds: string,
    primaryKeyColumns: seq<string>, columnDefinitions: seq<Ge>, indexDefinitions: seq<Ge>,
    insertIgnores: seq<string>, updateIgnores: seq<string>, joinRefMap: map<string, JoinRef>)

  /** What the registry stores for one type key. */
  datatype Meta = Meta(
    table: string, fields: seq<string>, columns: seq<string>,
    fieldColumn: map<string, string>, columnField: map<string, string>,
    pks: seq<string>, insertIgnore: set<string>, updateIgnore: set<string>,
    joinRefs: map<string, JoinRef>, ds: string)

  /** The CREATE TABLE request handed to the migration. */
  datatype Migration = Migration(
    table: string, comment: string, ifNotExists: bool, primaryKey: seq<string>,
    columnDefinitions: seq<Ge>, indexDefinitions: seq<Ge>, ds: string)

  datatype RegisterOutcome = ErrDuplicateRegisterEntity | Registered(migration: Option<Migration>)

  /** Go struct fields always have a name. */
  predicate Named(fs: seq<FieldDecl>)
  {
    forall i :: 0 <= i < |fs| ==> fs[i].name != ""
  }

  function TagOf(f: FieldDecl): Tag
  {
    if f.tag.Some? then f.tag.value else NoTag
  }

  /** The column of a field: its tag column, else its name under the entity's strategy. */
  function ColumnOf(f: FieldDecl, sty: Strategy): (column: string)
    requires f.name != ""
    ensures TagOf(f).column != "" ==> column == TagOf(f).column
    ensures TagOf(f).column == "" ==> column == StrategyName(f.name, sty)
  {
    var t := TagOf(f);
    if t.column == "" then StrategyName(f.name, sty) else t.column
  }

  /** `setJoinMap`: `join{type,self_column,rel_table,rel_id,rel_name}`, split on commas and trimmed. */
  function ParseJoin(field: string, join: string): (r: Option<JoinRef>)
    ensures join == "" ==> r.None?
    ensures r.Some? ==> r.value.field == field
  {
    if join == "" then None
    else
      var ps := Split(join, ',');
      if |ps| != 5 then None
      else Some(JoinRef(field, ToUpper(TrimSpace(ps[0])), TrimSpace(ps[1]), TrimSpace(ps[2]),
                        TrimSpace(ps[3]), TrimSpace(ps[4])))
  }

  /** A join tag is accepted iff it is non-empty and has exactly four commas (five parts). */
  lemma ParseJoinAccepts(field: string, join: string)
    ensures ParseJoin(field, join).Some? <==> join != "" && Count(join, ',') == 4
  {
    SplitCount(join, ',');
  }

  /** Upper-casing keeps a comma-free string comma-free. */
  lemma ToUpperKeepsNoComma(s: string)
    requires ',' !in s
    ensures ',' !in ToUpper(s)
  {
    forall i | 0 <= i < |s| ensures ToUpper(s)[i] != ',' {
      assert s[i] != ',';
    }
  }

  /** The parts of an accepted join tag carry no comma, and its type has no lower-case letter. */
  lemma ParsedJoinIsClean(field: string, join: string)
    requires ParseJoin(field, join).Some?
    ensures var j := ParseJoin(field, join).value;
      ',' !in j.joinType && ',' !in j.selfColumn && ',' !in j.relTable && ',' !in j.relId && ',' !in j.relName
      && (forall k :: 0 <= k < |j.joinType| ==> !IsLower(j.joinType[k]))
  {
    var ps := Split(join, ',');
    SplitPartsFree(join, ',');
    assert ps[0] in ps && ps[1] in ps && ps[2] in ps && ps[3] in ps && ps[4] in ps;
    TrimSpaceKeeps(ps[0], ',');
    TrimSpaceKeeps(ps[1], ',');
    TrimSpaceKeeps(ps[2], ',');
    TrimSpaceKeeps(ps[3], ',');
    TrimSpaceKeeps(ps[4], ',');
    ToUpperKeepsNoComma(TrimSpace(ps[0]));
  }

  /**
   * A join tag of five comma-free parts yields the reference keyed by the field whose type is
   * the first part trimmed and upper-cased and whose other members are the other parts trimmed.
   */
  lemma ParseJoinParts(field: string, p0: string, p1: string, p2: string, p3: string, p4: string)
    requires ',' !in p0 && ',' !in p1 && ',' !in p2 && ',' !in p3 && ',' !in p4
    ensures ParseJoin(field, p0 + "," + p1 + "," + p2 + "," + p3 + "," + p4)
      == Some(JoinRef(field, ToUpper(TrimSpace(p0)), TrimSpace(p1), TrimSpace(p2), TrimSpace(p3), TrimSpace(p4)))
  {
    var join := p0 + "," + p1 + "," + p2 + "," + p3 + "," + p4;
    SplitFive(p0, p1, p2, p3, p4, ',');
    assert join == p0 + [','] + (p1 + [','] + (p2 + [','] + (p3 + [','] + p4)));
    var ps := Split(join, ',');
    assert ps == [p0, p1, p2, p3, p4];
    assert join != "" by {
      assert |join| >= 4;
    }
  }

  /** A join tag of four comma-separated parts, like `join{left,join_2_id,join,id}`, is rejected. */
  lemma FourPartJoinRejected(field: string, p0: string, p1: string, p2: string, p3: string)
    requires ',' !in p0 && ',' !in p1 && ',' !in p2 && ',' !in p3
    ensures ParseJoin(field, p0 + "," + p1 + "," + p2 + "," + p3).None?
  {
    NoSepCount(p0, ',');
    NoSepCount(p1, ',');
    NoSepCount(p2, ',');
    NoSepCount(p3, ',');
    NoSepCount([], ',');
    assert Count(",", ',') == 1;
    CountAppend(p0, ",", ',');
    CountAppend(p0 + ",", p1, ',');
    CountAppend(p0 + "," + p1, ",", ',');
    CountAppend(p0 + "," + p1 + ",", p2, ',');
    CountAppend(p0 + "," + p1 + "," + p2, ",", ',');
    CountAppend(p0 + "," + p1 + "," + p2 + ",", p3, ',');
    ParseJoinAccepts(field, p0 + "," + p1 + "," + p2 + "," + p3);
  }

  /** The locals `Register` fills while it walks the fields. */
  datatype Pass = Pass(
    fields: seq<string>, columns: seq<string>,
    fieldColumn: map<string, string>, columnField: map<string, string>,
    pks: seq<string>, columnGes: seq<Ge>,
    insertIgnore: set<string>, updateIgnore: set<string>, joinRefs: map<string, JoinRef>)

  const EmptyPass := Pass([], [], map[], map[], [], [], {}, {}, map[])

  function JoinOf(f: FieldDecl): Option<JoinRef>
  {
    ParseJoin(f.name, TagOf(f).join)
  }

  /** One iteration of the field loop. */
  function Step(p: Pass, f: FieldDecl, sty: Strategy): Pass
    requires f.name != ""
  {
    var t := TagOf(f);
    var column := ColumnOf(f, sty);
    Pass(
      p.fields + [f.name], p.columns + [column],
      p.fieldColumn[f.name := column], p.columnField[column := f.name],
      if t.pk then p.pks + [t.column] else p.pks,
      if t.definition != "" then p.columnGes + [Column(t.definition)] else p.columnGes,
      if t.insertIgnore then p.insertIgnore + {column} else p.insertIgnore,
      if t.updateIgnore then p.updateIgnore + {column} else p.updateIgnore,
      if JoinOf(f).Some? then p.joinRefs[f.name := JoinOf(f).value] else p.joinRefs)
  }

  /** The field loop over `fs`. */
  function Walk(fs: seq<FieldDecl>, sty: Strategy): Pass
    requires Named(fs)
  {
    if fs == [] then EmptyPass else Step(Walk(fs[..|fs| - 1], sty), fs[|fs| - 1], sty)
  }

  lemma WalkSnoc(fs: seq<FieldDecl>, i: nat, sty: Strategy)
    requires Named(fs) && i < |fs|
    ensures Walk(fs[..i + 1], sty) == Step(Walk(fs[..i], sty), fs[i], sty)
  {
    assert fs[..i + 1][..i] == fs[..i];
  }

  function Elems(s: seq<string>): set<string>
  {
    set x | x in s
  }

  /** The table name: the configured one, else the type's name after its last dot. */
  function TableName(typeName: string, c: Config): string
  {
    if c.table != "" then c.table else LastPart(typeName, '.')
  }

  /** The record `Register` stores for a type. */
  function Describe(typeName: string, fs: seq<FieldDecl>, c: Config): Meta
    requires Named(fs)
  {
    var p := Walk(fs, c.columnNameStrategy);
    Meta(
      TableName(typeName, c), p.fields, p.columns, p.fieldColumn, p.columnField,
      p.pks + c.primaryKeyColumns,
      p.insertIgnore + Elems(c.insertIgnores), p.updateIgnore + Elems(c.updateIgnores),
      p.joinRefs + c.joinRefMap,
      if c.ds == "" then "_" else c.ds)
  }

  /** The migration `Register` asks for, if the configuration wants one. */
  function MigrationOf(typeName: string, fs: seq<FieldDecl>, c: Config): Option<Migration>
    requires Named(fs)
  {
    var m := Describe(typeName, fs, c);
    if c.migrate then
      Some(Migration(m.table, c.comment, c.ifNotExists, m.pks,
                     Walk(fs, c.columnNameStrategy).columnGes + c.columnDefinitions,
                     c.indexDefinitions, m.ds))
    else None
  }

  /** The field loop of `Register`: one field and one column per struct field, in order. */
  method CollectFields(fs: seq<FieldDecl>, sty: Strategy) returns (p: Pass)
    requires Named(fs)
    ensures p == Walk(fs, sty)
  {
    var insertIgnoreMap: set<string> := {};
    var updateIgnoreMap: set<string> := {};
    var joinRefMap: map<string, JoinRef> := map[];
    var fields: seq<string> := [];
    var columns: seq<string> := [];
    var columnFieldMap: map<string, string> := map[];
    var fieldColumnMap: map<string, string> := map[];
    var pks: seq<string> := [];
    var columnGes: seq<Ge> := [];

    var i := 0;
    while i < |fs|
      invariant 0 <= i <= |fs|
      invariant Pass(fields, columns, fieldColumnMap, columnFieldMap, pks, columnGes,
                     insertIgnoreMap, updateIgnoreMap, joinRefMap) == Walk(fs[..i], sty)
    {
      ghost var prev := Pass(fields, columns, fieldColumnMap, columnFieldMap, pks, columnGes,
                             insertIgnoreMap, updateIgnoreMap, joinRefMap);
      var fieldName := fs[i].name;
      var column, columnDefinition, insertIgnore, updateIgnore, pk, join := "", "", false, false, false, "";
      if fs[i].tag.Some? {
        var curTag := fs[i].tag.value;
        column := curTag.column;
        columnDefinition := curTag.definition;
        insertIgnore := curTag.insertIgnore;
        updateIgnore := curTag.updateIgnore;
        pk := curTag.pk;
        join := curTag.join;
      }
      if pk {
        pks := pks + [column];
      }
      if column == "" {
        column := GetStrategyName(fieldName, sty);
      }
      if columnDefinition != "" {
        columnGes := columnGes + [Column(columnDefinition)];
      }
      if insertIgnore {
        insertIgnoreMap := insertIgnoreMap + {column};
      }
      if updateIgnore {
        updateIgnoreMap := updateIgnoreMap + {column};
      }
      var jr := ParseJoin(fieldName, join);
      if jr.Some? {
        joinRefMap := joinRefMap[fieldName := jr.value];
      }
      fields := fields + [fieldName];
      columns := columns + [column];
      columnFieldMap := columnFieldMap[column := fieldName];
      fieldColumnMap := fieldColumnMap[fieldName := column];
      assert column == ColumnOf(fs[i], sty);
      assert Pass(fields, columns, fieldColumnMap, columnFieldMap, pks, columnGes,
                  insertIgnoreMap, updateIgnoreMap, joinRefMap) == Step(prev, fs[i], sty);
      WalkSnoc(fs, i, sty);
      i := i + 1;
    }
    assert fs[..i] == fs;
    return Pass(fields, columns, fieldColumnMap, columnFieldMap, pks, columnGes,
                insertIgnoreMap, updateIgnoreMap, joinRefMap);
  }

  /** `for _, v := range vs { acc = append(acc, v) }`. */
  method AppendEach<T>(acc: seq<T>, vs: seq<T>) returns (r: seq<T>)
    ensures r == acc + vs
  {
    r := acc;
    var j := 0;
    while j < |vs|
      invariant 0 <= j <= |vs|
      invariant r == acc + vs[..j]
    {
      r := r + [vs[j]];
      assert vs[..j + 1] == vs[..j] + [vs[j]];
      j := j + 1;
    }
    assert vs[..j] == vs;
  }

  /** `for _, v := range vs { m[v] = struct{}{} }` on a set-valued map. */
  method AddEach(acc: set<string>, vs: seq<string>) returns (r: set<string>)
    ensures r == acc + Elems(vs)
  {
    r := acc;
    var j := 0;
    while j < |vs|
      invariant 0 <= j <= |vs|
      invariant r == acc + Elems(vs[..j])
    {
      r := r + {vs[j]};
      assert vs[..j + 1] == vs[..j] + [vs[j]];
      j := j + 1;
    }
    assert vs[..j] == vs;
  }

  /** Copies the configured join references over the tag-derived ones, in Go's unspecified map order. */
  method MergeJoinRefs(joinRefMap: map<string, JoinRef>, configured: map<string, JoinRef>)
    returns (merged: map<string, JoinRef>)
    ensures forall k :: k in merged <==> k in joinRefMap || k in configured
    ensures forall k :: k in configured ==> merged[k] == configured[k]
    ensures forall k :: k in joinRefMap && k !in configured ==> merged[k] == joinRefMap[k]
  {
    merged := joinRefMap;
    var todo := configured.Keys;
    while todo != {}
      invariant todo <= configured.Keys
      invariant forall k :: k in merged <==> k in joinRefMap || k in configured.Keys - todo
      invariant forall k :: k in configured.Keys - todo ==> merged[k] == configured[k]
      invariant forall k :: k in joinRefMap && k !in configured.Keys - todo ==> merged[k] == joinRefMap[k]
      decreases todo
    {
      var k :| k in todo;
      merged := merged[k := configured[k]];
      todo := todo - {k};
    }
  }

  /** The registry of entity types, keyed by the type's name. */
  class EntityRegistry {
    var entries: map<string, Meta>

    constructor()
      ensures entries == map[]
    {
      entries := map[];
    }

    /** `Register`: a second registration of the same key is refused and changes nothing. */
    method Register(typeName: string, fs: seq<FieldDecl>, c: Config) returns (outcome: RegisterOutcome)
      requires Named(fs)
      modifies this
      ensures typeName in old(entries) ==> outcome == ErrDuplicateRegisterEntity && entries == old(entries)
      ensures typeName !in old(entries) ==>
                entries == old(entries)[typeName := Describe(typeName, fs, c)]
                && outcome == Registered(MigrationOf(typeName, fs, c))
    {
      if typeName in entries {
        return ErrDuplicateRegisterEntity;
      }
      var sty := c.columnNameStrategy;
      var walked := CollectFields(fs, sty);
      var fields, columns, fieldColumnMap, columnFieldMap := walked.fields, walked.columns, walked.fieldColumn, walked.columnField;
      var pks, columnGes, insertIgnoreMap, updateIgnoreMap, joinRefMap :=
        walked.pks, walked.columnGes, walked.insertIgnore, walked.updateIgnore, walked.joinRefs;

      pks := AppendEach(pks, c.primaryKeyColumns);
      columnGes := AppendEach(columnGes, c.columnDefinitions);
      insertIgnoreMap := AddEach(insertIgnoreMap, c.insertIgnores);
      updateIgnoreMap := AddEach(updateIgnoreMap, c.updateIgnores);
      joinRefMap := MergeJoinRefs(joinRefMap, c.joinRefMap);

      var pss := Split(typeName, '.');
      var tableName := pss[|pss| - 1];
      if c.table != "" {
        tableName := c.table;
      }
      var ds := c.ds;
      if ds == "" {
        ds := "_";
      }
      assert tableName == TableName(typeName, c);
      assert joinRefMap == walked.joinRefs + c.joinRefMap;
      assert Meta(tableName, fields, columns, fieldColumnMap, columnFieldMap, pks,
                  insertIgnoreMap, updateIgnoreMap, joinRefMap, ds) == Describe(typeName, fs, c);
      entries := entries[typeName := Meta(tableName, fields, columns, fieldColumnMap, columnFieldMap, pks,
                                          insertIgnoreMap, updateIgnoreMap, joinRefMap, ds)];
      if !c.migrate {
        return Registered(None);
      }
      return Registered(Some(Migration(tableName, c.comment, c.ifNotExists, pks, columnGes, c.indexDefinitions, ds)));
    }
  }

  /** Every field contributes exactly one field and one column, in declaration order. */
  lemma {:induction false} WalkShape(fs: seq<FieldDecl>, sty: Strategy)
    requires Named(fs)
    ensures var p := Walk(fs, sty);
      |p.fields| == |fs| && |p.columns| == |fs|
      && forall i :: 0 <= i < |fs| ==> p.fields[i] == fs[i].name && p.columns[i] == ColumnOf(fs[i], sty)
  {
    if fs != [] {
      WalkShape(fs[..|fs| - 1], sty);
    }
  }

  /** The walk yields one field and one column per struct field. */
  lemma {:induction false} WalkLength(fs: seq<FieldDecl>, sty: Strategy)
    requires Named(fs)
    ensures |Walk(fs, sty).fields| == |fs| && |Walk(fs, sty).columns| == |fs|
  {
    if fs != [] {
      WalkLength(fs[..|fs| - 1], sty);
    }
  }

  /** What one loop step does to the lists, the maps and the ignore sets. */
  lemma WalkStep(fs: seq<FieldDecl>, sty: Strategy)
    requires Named(fs) && fs != []
    ensures var n := |fs| - 1; var q := Walk(fs[..n], sty); var p := Walk(fs, sty);
      var column := ColumnOf(fs[n], sty);
      && p.fields == q.fields + [fs[n].name] && p.columns == q.columns + [column]
      && p.fieldColumn == q.fieldColumn[fs[n].name := column]
      && p.columnField == q.columnField[column := fs[n].name]
      && p.insertIgnore == (if TagOf(fs[n]).insertIgnore then q.insertIgnore + {column} else q.insertIgnore)
      && p.updateIgnore == (if TagOf(fs[n]).updateIgnore then q.updateIgnore + {column} else q.updateIgnore)
      && p.joinRefs == (if JoinOf(fs[n]).Some? then q.joinRefs[fs[n].name := JoinOf(fs[n]).value] else q.joinRefs)
  {
  }

  /** The field-to-column map pairs each field with its column; a later field of the same name wins. */
  lemma {:induction false} WalkFieldColumn(fs: seq<FieldDecl>, sty: Strategy)
    requires Named(fs)
    ensures var p := Walk(fs, sty);
      |p.fields| == |p.columns|
      && (forall k :: k in p.fieldColumn <==> k in p.fields)
      && (forall i :: 0 <= i < |p.fields| && (forall j :: i < j < |p.fields| ==> p.fields[j] != p.fields[i]) ==>
            p.fieldColumn[p.fields[i]] == p.columns[i])
  {
    if fs != [] {
      var n := |fs| - 1;
      WalkFieldColumn(fs[..n], sty);
      WalkStep(fs, sty);
      var q := Walk(fs[..n], sty);
      var p := Walk(fs, sty);
      forall i | 0 <= i < |p.fields| && (forall j :: i < j < |p.fields| ==> p.fields[j] != p.fields[i])
        ensures p.fieldColumn[p.fields[i]] == p.columns[i]
      {
        if i < |q.fields| {
          assert p.fields[i] == q.fields[i] && p.columns[i] == q.columns[i];
          assert p.fields[|q.fields|] != p.fields[i];
          forall j | i < j < |q.fields| ensures q.fields[j] != q.fields[i] { assert p.fields[j] == q.fields[j]; }
        }
      }
    }
  }

  /** The column-to-field map pairs each column with its field; a later field with the same column wins. */
  lemma {:induction false} WalkColumnField(fs: seq<FieldDecl>, sty: Strategy)
    requires Named(fs)
    ensures var p := Walk(fs, sty);
      |p.fields| == |p.columns|
      && (forall k :: k in p.columnField <==> k in p.columns)
      && (forall i :: 0 <= i < |p.columns| && (forall j :: i < j < |p.columns| ==> p.columns[j] != p.columns[i]) ==>
            p.columnField[p.columns[i]] == p.fields[i])
  {
    if fs != [] {
      var n := |fs| - 1;
      WalkColumnField(fs[..n], sty);
      WalkStep(fs, sty);
      var q := Walk(fs[..n], sty);
      var p := Walk(fs, sty);
      forall i | 0 <= i < |p.columns| && (forall j :: i < j < |p.columns| ==> p.columns[j] != p.columns[i])
        ensures p.columnField[p.columns[i]] == p.fields[i]
      {
        if i < |q.columns| {
          assert p.fields[i] == q.fields[i] && p.columns[i] == q.columns[i];
          assert p.columns[|q.columns|] != p.columns[i];
          forall j | i < j < |q.columns| ensures q.columns[j] != q.columns[i] { assert p.columns[j] == q.columns[j]; }
        }
      }
    }
  }

  /** The tag primary keys in field order: the tag's column, even when it is empty. */
  function TagPks(fs: seq<FieldDecl>): seq<string>
  {
    if fs == [] then []
    else (if TagOf(fs[0]).pk then [TagOf(fs[0]).column] else []) + TagPks(fs[1..])
  }

  lemma {:induction false} TagPksSnoc(fs: seq<FieldDecl>, f: FieldDecl)
    ensures TagPks(fs + [f]) == TagPks(fs) + (if TagOf(f).pk then [TagOf(f).column] else [])
  {
    if fs == [] {
      assert fs + [f] == [f];
    } else {
      assert (fs + [f])[1..] == fs[1..] + [f];
      TagPksSnoc(fs[1..], f);
    }
  }

  /** The field loop collects exactly the tag primary keys, in field order. */
  lemma {:induction false} WalkPks(fs: seq<FieldDecl>, sty: Strategy)
    requires Named(fs)
    ensures Walk(fs, sty).pks == TagPks(fs)
  {
    if fs != [] {
      WalkPks(fs[..|fs| - 1], sty);
      TagPksSnoc(fs[..|fs| - 1], fs[|fs| - 1]);
      assert fs[..|fs| - 1] + [fs[|fs| - 1]] == fs;
    }
  }

  /** The `ig` (insert) or `ug` (update) flag of a field's tag. */
  function Flagged(f: FieldDecl, insert: bool): bool
  {
    if insert then TagOf(f).insertIgnore else TagOf(f).updateIgnore
  }

  function IgnoredBy(p: Pass, insert: bool): set<string>
  {
    if insert then p.insertIgnore else p.updateIgnore
  }

  /** Every column in a tag-derived ignore set comes from a flagged field: `i` is that field. */
  lemma {:induction false} WalkIgnoredSource(fs: seq<FieldDecl>, sty: Strategy, insert: bool, col: string)
    returns (i: nat)
    requires Named(fs) && col in IgnoredBy(Walk(fs, sty), insert)
    ensures i < |fs| && i < |Walk(fs, sty).columns| && Flagged(fs[i], insert) && Walk(fs, sty).columns[i] == col
  {
    var n := |fs| - 1;
    WalkStep(fs, sty);
    WalkLength(fs[..n], sty);
    var q := Walk(fs[..n], sty);
    if col in IgnoredBy(q, insert) {
      i := WalkIgnoredSource(fs[..n], sty, insert, col);
      assert fs[..n][i] == fs[i];
    } else {
      i := n;
    }
  }

  /** The final column of every flagged field is in the tag-derived ignore set. */
  lemma {:induction false} WalkIgnoredHas(fs: seq<FieldDecl>, sty: Strategy, insert: bool, i: nat)
    requires Named(fs) && i < |fs| && Flagged(fs[i], insert)
    ensures i < |Walk(fs, sty).columns| && Walk(fs, sty).columns[i] in IgnoredBy(Walk(fs, sty), insert)
  {
    var n := |fs| - 1;
    WalkStep(fs, sty);
    WalkLength(fs[..n], sty);
    if i < n {
      assert fs[..n][i] == fs[i];
      WalkIgnoredHas(fs[..n], sty, insert, i);
    }
  }

  /** A column is insert/update-ignored by the tags iff some field flagged `ig`/`ug` has it as its final column. */
  lemma WalkIgnores(fs: seq<FieldDecl>, sty: Strategy, insert: bool)
    requires Named(fs)
    ensures var p := Walk(fs, sty);
      |p.columns| == |fs|
      && forall col :: col in IgnoredBy(p, insert) <==> exists i :: 0 <= i < |fs| && Flagged(fs[i], insert) && p.columns[i] == col
  {
    WalkLength(fs, sty);
    var p := Walk(fs, sty);
    forall col ensures col in IgnoredBy(p, insert) <==> exists i :: 0 <= i < |fs| && Flagged(fs[i], insert) && p.columns[i] == col {
      if col in IgnoredBy(p, insert) {
        var i := WalkIgnoredSource(fs, sty, insert, col);
      }
      if exists i :: 0 <= i < |fs| && Flagged(fs[i], insert) && p.columns[i] == col {
        var i :| 0 <= i < |fs| && Flagged(fs[i], insert) && p.columns[i] == col;
        WalkIgnoredHas(fs, sty, insert, i);
      }
    }
  }

  /** Join references are never dropped by later fields. */
  lemma {:induction false} WalkJoinKeysGrow(fs: seq<FieldDecl>, m: nat, sty: Strategy)
    requires Named(fs) && m <= |fs|
    ensures Walk(fs[..m], sty).joinRefs.Keys <= Walk(fs, sty).joinRefs.Keys
  {
    if m < |fs| {
      var n := |fs| - 1;
      WalkStep(fs, sty);
      assert fs[..n][..m] == fs[..m];
      WalkJoinKeysGrow(fs[..n], m, sty);
    } else {
      assert fs[..m] == fs;
    }
  }

  /** Every field whose join tag parses has a join reference under its name. */
  lemma WalkJoinKey(fs: seq<FieldDecl>, i: nat, sty: Strategy)
    requires Named(fs) && i < |fs| && JoinOf(fs[i]).Some?
    ensures fs[i].name in Walk(fs, sty).joinRefs
  {
    WalkSnoc(fs, i, sty);
    WalkJoinKeysGrow(fs, i + 1, sty);
  }

  /** Each join reference is the parse of the join tag of a field of that name: `i` is that field. */
  lemma {:induction false} WalkJoinSource(fs: seq<FieldDecl>, sty: Strategy, k: string) returns (i: nat)
    requires Named(fs) && k in Walk(fs, sty).joinRefs
    ensures i < |fs| && fs[i].name == k && JoinOf(fs[i]) == Some(Walk(fs, sty).joinRefs[k])
  {
    var n := |fs| - 1;
    WalkStep(fs, sty);
    if k == fs[n].name && JoinOf(fs[n]).Some? {
      i := n;
    } else {
      i := WalkJoinSource(fs[..n], sty, k);
      assert fs[..n][i] == fs[i];
    }
  }

  /**
   * The stored record: tag primary keys then configured ones; ignore sets are the
   * tag flags plus the configured lists; configured join references win over
   * tag-derived ones; the table is the configured name or the type's last dotted
   * segment; the datasource defaults to "_".
   */
  lemma DescribeProperties(typeName: string, fs: seq<FieldDecl>, c: Config)
    requires Named(fs)
    ensures var m := Describe(typeName, fs, c);
      && m.pks == TagPks(fs) + c.primaryKeyColumns
      && |m.columns| == |fs|
      && (forall col :: col in m.insertIgnore <==>
            col in c.insertIgnores || exists i :: 0 <= i < |fs| && Flagged(fs[i], true) && m.columns[i] == col)
      && (forall col :: col in m.updateIgnore <==>
            col in c.updateIgnores || exists i :: 0 <= i < |fs| && Flagged(fs[i], false) && m.columns[i] == col)
      && (forall k :: k in c.joinRefMap ==> m.joinRefs[k] == c.joinRefMap[k])
      && (forall k :: k in m.joinRefs && k !in c.joinRefMap ==>
            exists i :: 0 <= i < |fs| && fs[i].name == k && JoinOf(fs[i]) == Some(m.joinRefs[k]))
      && (c.table != "" ==> m.table == c.table)
      && (c.table == "" ==> '.' !in m.table && |m.table| <= |typeName| && m.table == typeName[|typeName| - |m.table|..])
      && (c.table == "" ==> |m.table| == |typeName| || typeName[|typeName| - |m.table| - 1] == '.')
      && m.ds != ""
      && (c.ds != "" ==> m.ds == c.ds)
      && (c.ds == "" ==> m.ds == "_")
  {
    var p := Walk(fs, c.columnNameStrategy);
    var m := Describe(typeName, fs, c);
    assert Describe(typeName, fs, c).insertIgnore == IgnoredBy(p, true) + Elems(c.insertIgnores);
    assert Describe(typeName, fs, c).updateIgnore == IgnoredBy(p, false) + Elems(c.updateIgnores);
    WalkPks(fs, c.columnNameStrategy);
    WalkIgnores(fs, c.columnNameStrategy, true);
    WalkIgnores(fs, c.columnNameStrategy, false);
    forall k | k in m.joinRefs && k !in c.joinRefMap
      ensures exists i :: 0 <= i < |fs| && fs[i].name == k && JoinOf(fs[i]) == Some(m.joinRefs[k])
    {
      var i := WalkJoinSource(fs, c.columnNameStrategy, k);
    }
    LastPartIsSuffix(typeName, '.');
    LastPartMaximal(typeName, '.');
  }

  /** A type string without a package qualifier is its own table name. */
  lemma UnqualifiedTableName(typeName: string, c: Config)
    requires c.table == "" && '.' !in typeName
    ensures TableName(typeName, c) == typeName
  {
    LastPartIsSuffix(typeName, '.');
  }
}
