# anorm in Dafny

A model of the core of **anorm**, a small Go ORM over `database/sql`, with
proofs about it. The model covers:

- entity registration: struct fields, `orm` tags and the `EntityConfiguration` become a table
  name, field and column lists, maps, primary keys, ignore sets and join references;
- the legacy `Model` registration;
- the naming strategies;
- the datasource pools, old and new;
- the `Orm` handle with its transaction binding;
- the transaction manager;
- the legacy executor state machine;
- the insert, update, delete, select and count operations, with the statements they hand to the SQL builder;
- the null-value constructors;
- the logger's level logic and line assembly;
- the SQL Server pager;
- the XML query package: namespace binding, node lookup, datasource choice, and the query,
  select and paged-select handles.

Everything outside Go's own logic is a parameter of the model:

- the SQL builder (`sg`);
- the driver's `Exec`/`Query`/`QueryRow` and struct scanning;
- the pager;
- the template engine;
- the XML decoder;
- reflection.

Go panics are modelled as returned errors. Objects whose fields the Go code updates
(operations, registries, pools, managers, the executor, the logger, select handles) are Dafny
classes. Loops are methods with invariants, proved against specification functions.

Modules follow the Go files:

| Dafny module | Go file |
|---|---|
| `Naming` | util.go, strategy.go |
| `Entity` | entity.go |
| `LegacyModel` | model.go |
| `OrmCore` | orm.go |
| `InsertOps` | insert.go |
| `UpdateOps` | update.go |
| `DeleteOps` | delete.go |
| `SelectOps` | select.go |
| `SelectCountOps` | select_count.go |
| `Transactions` | tx.go |
| `DataSource` | datasource.go |
| `LegacyDs` | ds.go |
| `Executor` | executor.go |
| `NullTypes` | null_types.go |
| `Logging` | logger.go |
| `SqlServerPager` | pagination/sqlserver.go |
| `XmlNodes`, `XmlBind`, `XmlQuery`, `XmlSelect`, `XmlSelectPage` | xmlquery/ |

`Wrappers`, `Values`, `Handles`, `Clauses` and `Text` hold shared types and string helpers.

## Model

| member | source | states |
|---|---|---|
| Naming.ReplaceID | util.go:27 | the "ID" → "Id" rewrite keeps the length and the first character, and a character that changes is a 'D' that becomes 'd' |
| Naming.ReplaceIDChanges | util.go:27 | a character changes exactly when it is a 'D' right after an 'I' (matches never overlap, so "IDD" gives "IdD") |
| Naming.ReplaceIDLeavesNone | util.go:27 | after the rewrite no "ID" remains |
| Naming.ReplaceIDKeepsClean | util.go:27 | a name without "ID" is unchanged |
| Naming.ReplaceIDIdempotent | util.go:27 | rewriting twice is rewriting once |
| Naming.Piece | util.go:37-41 | a later upper-case rune contributes "_" plus its lower case, any other rune itself; no piece holds an upper-case letter |
| Naming.GetStrategyName | util.go:25-55 | the rune loop computes the strategy name: Default and unknown strategies return the rewritten name, Underline the snake_case form, CamelCase the name with its first character lower-cased (ASCII case mapping, see Left out) |
| Naming.SnakeLength | util.go:34-42 | the Underline result is as long as the input plus the number of upper-case letters after the first rune |
| Naming.SnakeHasNoUpper | util.go:34-42 | the Underline result holds no upper-case ASCII letter |
| Naming.SnakeKeepsLower | util.go:34-42 | a name without upper-case letters is its own Underline form |
| Naming.SnakeIdempotent | util.go:34-42 | applying Underline twice is applying it once |
| Naming.CamelOnlyFirst | util.go:46-51 | CamelCase lower-cases (ASCII) the first character only, and is idempotent; Go's byte indexing is read as character indexing (see Left out) |
| Naming.UnderlineExamples | util_test.go:19-24 | "ABC" → "a_b_c" and "ABC_" → "a_b_c_" under Underline |
| Naming.CamelExamples | util_test.go:25-33 | "ABC" → "aBC" and "A" → "a" under CamelCase; strategy -1 leaves "A" unchanged |
| Naming.IdFieldExample | util.go:27-43 | the field "UserID" gets the column "user_id" under Underline |
| Entity.ColumnOf | entity.go:155-170 | a field's column is its tag column when non-empty, else its name under the entity's own strategy |
| Entity.ParseJoin | entity.go:249-271 | an empty join tag yields no reference, and a reference is keyed by the field the tag sits on |
| Entity.ParseJoinParts | entity.go:256-269 | the tag `type,self,table,id,name` of five comma-free parts yields the reference holding the type trimmed and upper-cased and the other four parts trimmed, keyed by the field |
| Entity.ParseJoinAccepts | entity.go:250-253 | a join tag is accepted iff it is non-empty and holds exactly four commas |
| Entity.ParsedJoinIsClean | entity.go:256-260 | the parts of an accepted join hold no comma, and its type no lower-case letter |
| Entity.FourPartJoinRejected | entity_test.go:33 | a four-part join tag such as `join{left,join_2_id,join,id}` adds no reference |
| Entity.WalkSnoc | entity.go:138-186 | the field loop over one more field is one more loop step |
| Entity.CollectFields | entity.go:138-186 | the field loop computes the walk over the struct fields |
| Entity.AppendEach | entity.go:188-199 | appending each configured value keeps the list and adds the values in order |
| Entity.AddEach | entity.go:201-211 | adding each configured column gives the union of the set and the columns |
| Entity.MergeJoinRefs | entity.go:213-217 | copying the configured join references over the tag-derived ones yields their override union, in any iteration order |
| Entity.EntityRegistry.Register | entity.go:109-247 | a key already registered is refused with errDuplicateRegisterEntity and changes nothing; otherwise the described record is stored, and a migration is requested exactly when the configuration sets Migrate |
| Entity.WalkShape | entity.go:138-186 | every struct field, tagged or not, contributes exactly one field and one column, in declaration order |
| Entity.WalkLength | entity.go:182-183 | the field and column lists have the length of the struct's field list |
| Entity.WalkStep | entity.go:164-185 | one loop step appends the field and its column, updates both maps and adds the column to a flagged ignore set |
| Entity.WalkFieldColumn | entity.go:185 | the field-to-column map pairs each field with its column; among fields of one name the last wins |
| Entity.WalkColumnField | entity.go:184 | the column-to-field map pairs each column with its field; among fields sharing a column the last wins |
| Entity.TagPksSnoc | entity.go:164-167 | a `pk` field appends its tag column, possibly empty, after the earlier ones |
| Entity.WalkPks | entity.go:164-167 | the loop collects exactly the tag primary keys in field order, before any fallback name is computed |
| Entity.WalkIgnoredSource | entity.go:174-179 | every tag-ignored column is the final column of a field flagged `ig`/`ug` |
| Entity.WalkIgnoredHas | entity.go:174-179 | the final column of every flagged field is tag-ignored |
| Entity.WalkIgnores | entity.go:174-179 | a column is tag-ignored iff some flagged field has it as its final column |
| Entity.WalkJoinKeysGrow | entity.go:180 | later fields never remove a join reference |
| Entity.WalkJoinKey | entity.go:249-271 | every field whose join tag parses has a join reference under its name |
| Entity.WalkJoinSource | entity.go:249-271 | each join reference is the parse of the join tag of a field of that name |
| Entity.DescribeProperties | entity.go:188-239 | the stored record holds the tag primary keys then the configured ones; the ignore sets are tag flags plus configured lists; configured join references win; the table is the configured name, else the longest dot-free suffix of the type (the whole type, or the text after its last '.'); the datasource is the configured one, and "_" when none is configured |
| Text.LastPartMaximal | entity.go:220-221 | the last element of the split on '.' is either the whole type string or preceded by a '.', so it is the longest dot-free suffix |
| Entity.UnqualifiedTableName | entity.go:219-224 | a type name without a dot is its own table name |
| LegacyModel.OrBits | model.go:159 | the bitwise OR of two 64-bit strategy patterns stays within 64 bits |
| LegacyModel.UnderlineOrCamelCaseIsUnchanged | model.go:159 | Underline OR CamelCase is 3, which no strategy branch names, so the column is only ID-rewritten |
| LegacyModel.OrDefaultKeeps | model.go:159 | OR with Default, on either side, keeps the other strategy |
| LegacyModel.OrSelfKeeps | model.go:159 | the same strategy globally and on the model is that strategy |
| LegacyModel.MasterDB | model.go:215-225 | an empty handle map is refused with errRequiredDS; otherwise `master` if bound to a non-nil handle, else `_`, else errRequiredMasterDS |
| LegacyModel.Fatal | log.go:43-49 | a migration failure terminates the program iff a logger is configured and debug is on |
| LegacyModel.ModelRegistry.Register | model.go:96-245 | a nil model, nil metadata and a duplicate key are refused in that order, changing nothing; otherwise the record is stored and the migration outcome follows |
| LegacyModel.MigrationIffFlag | model.go:211-241 | a CREATE TABLE runs iff the global or the model's Migrate flag is set and a master database resolves; it runs on that database, for the model's table, with IF NOT EXISTS |
| LegacyModel.RecordProperties | model.go:131-198 | the record holds tag primary keys then the metadata's, one field and column per struct field under the OR-ed strategy, and ignore sets made of tag flags plus metadata lists |
| OrmCore.Deref | orm.go:104-106 | following pointers ends at a non-pointer value, or at nothing for a nil pointer; a non-pointer is its own target |
| OrmCore.RealValKinds | orm.go:103-206 | a dereferenced value is kept exactly when it is a positive signed, unsigned or float number, a non-empty string, any null wrapper, a time after the zero time, or a valid null time after the zero time; every other kind and a nil pointer are dropped |
| OrmCore.ZeroNullTimeSkipped | orm.go:103-206 | a valid `sql.NullTime` holding the zero time is still dropped |
| OrmCore.WhereGesMembers | orm.go:86-101 | the predicates are exactly `Eq(column, real value)` for the fields whose real value exists, in both directions |
| OrmCore.WhereGesEmpty | orm.go:86-101 | an entity with no set field yields no predicate |
| OrmCore.EntityGes | orm.go:86-101 | a nil entity yields no predicate; otherwise at most one per field |
| OrmCore.GetWhereGes | orm.go:86-101 | the loop over the fields yields the predicate list described above |
| OrmCore.NewCheck | orm.go:55-79 | a nil entity fails first, then an unresolvable datasource (the given name, else the type's), then an unregistered type; success iff the datasource is pooled and the type registered, returning its handle |
| OrmCore.UnregisteredReportsDataSourceFirst | orm.go:59-74 | an unregistered type with no datasource argument is reported as a missing datasource "", not as an unknown entity |
| OrmCore.NewWithDS | orm.go:55-79 | fails exactly as `NewCheck` does; on success a fresh handle on the resolved database with no transaction |
| OrmCore.Orm.Target | insert.go:117-121 | writes go to the transaction exactly when one is open, else to the database |
| OrmCore.Orm.constructor | orm.go:64-68 | a new handle has no transaction and no manager |
| OrmCore.Orm.BeginTx | orm.go:248-266 | a nil manager, then an already bound one, then a failed begin are refused and change nothing; otherwise the transaction is open, stored, joined to the manager's list, and the manager bound |
| InsertOps.KeptFieldsMembers | insert.go:73-76 | a registered field is inserted iff its column is not in the ignore set |
| InsertOps.KeptFieldsAll | insert.go:73-76 | with no registered column ignored, every registered field is inserted, in registration order |
| InsertOps.KeptFieldsShrink | insert.go:57-63 | ignoring more columns never adds a column to an insert |
| InsertOps.ColumnsOf | insert.go:77-79 | one column per kept field, position by position, through the field-to-column map |
| InsertOps.RowsOf | insert.go:70-96 | one argument row per entity, the i-th row holding the i-th entity's values of the kept fields |
| InsertOps.InsertStatementShape | insert.go:65-98 | the statement targets the type's table; its columns are registered, none ignored; every row has one argument per column, the entity's value of the field behind that column |
| InsertOps.EntityRow | insert.go:72-82 | the inner loop yields exactly the kept columns and the entity's values for them |
| InsertOps.EntityRows | insert.go:70-96 | the outer loop takes the columns from the first entity only and one argument row from each |
| InsertOps.Snapshot | insert.go:70-71 | the current field values of each entity, position by position |
| InsertOps.SetValueKeepsNames | insert.go:135-141 | writing the id into a field keeps the entity's field names |
| InsertOps.BackFill | insert.go:126-145 | back-filling never renames a field; a non-positive id, an unregistered type or a type without exactly one key column leaves the entity as it was |
| InsertOps.BackFillSetsKey | insert.go:130-145 | with a positive id and one key column behind an exported field, a signed field gets the id, an unsigned field gets it too, any other kind is left alone, and no other field changes |
| InsertOps.BackFillNeedsExportedKey | insert.go:134-136 | when the key's field is missing or unexported nothing is written back |
| InsertOps.InsertOperation.constructor | insert.go:43-45 | a new operation has no ignored columns |
| InsertOps.InsertOperation.Ignore | insert.go:52-55 | appends the columns to the operation's ignore list |
| InsertOps.InsertOperation.MergedTwice | insert.go:57-63 | writing the same ignored columns into the shared set twice is the same as once |
| InsertOps.InsertOperation.GetIgnoreMap | insert.go:57-63 | the type's shared insert-ignore set gains the operation's columns and stays changed in the registry; the returned set is that set |
| InsertOps.InsertOperation.GetInsertBuilder | insert.go:65-98 | the registry is merged first, then the statement is the one specified for the entities' current values |
| InsertOps.InsertOperation.One | insert.go:110-147 | the insert goes to the transaction when open, else the database; an error is returned and the entity is left alone; otherwise the generated id is back-filled |
| InsertOps.InsertOperation.List | insert.go:161-170 | `One` per entity in order; without ignoreError the first failure stops and is returned, with it every entity is tried and the last result is returned; for distinct records each entity called is settled as `One` leaves it, on its original fields, and the rest are untouched |
| InsertOps.InsertOperation.ListStep | insert.go:163-164 | one pass of the loop: `One` on the next entity settles it and leaves the entities already settled, and those still to come, as they were |
| InsertOps.InsertOperation.SettledAt | insert.go:163-164 | each of the entities `List` called carries the error `run` gave for its original fields, and is back-filled on success and untouched on failure |
| InsertOps.DistinctAt | insert.go:161-170 | two positions of a list of distinct records hold different records, so `One` on one entity leaves the others alone |
| InsertOps.InsertOperation.Batch | insert.go:184-205 | no entities: 0 and no error, registry untouched; otherwise one multi-row insert whose affected count is returned, or 0 and the error |
| UpdateOps.UpdatePartsPlacement | update.go:130-150 | each field becomes a key predicate `Eq(column, raw value)` when WHERE is entity-driven, its column a key and not a `Set` column; otherwise a `SetEq(column, raw value)` when it is settable (a `Set` column, or, with none given, any non-ignored column) |
| UpdateOps.UpdateSetSource | update.go:130-150 | every SET entry is `SetEq` of some field's column and value, settable and not a key predicate |
| UpdateOps.UpdatePkSource | update.go:133-139 | every key predicate is `Eq` of some field's column and value, whose column is a key outside the `Set` list, and only when no `OnlyWhere` predicate was given |
| UpdateOps.OnlyWheresDropKeys | update.go:123-140 | with `OnlyWhere` predicates the entity contributes no key predicate |
| UpdateOps.UpdateWhereShape | update.go:123-151 | the statement targets the type's table; WHERE is exactly the `OnlyWhere` predicates when there are any, else the `Where` predicates followed by key equalities only |
| UpdateOps.FieldLoop | update.go:130-150 | the loop yields the SET list and the seeded WHERE list extended by the key predicates, as specified |
| UpdateOps.UpdateOperation.constructor | update.go:46-48 | a new operation has nothing accumulated |
| UpdateOps.UpdateOperation.Ignore | update.go:55-58 | appends to the ignored columns and changes nothing else |
| UpdateOps.UpdateOperation.Set | update.go:61-64 | appends to the `Set` columns and changes nothing else |
| UpdateOps.UpdateOperation.Where | update.go:99-102 | appends to the `Where` predicates and changes nothing else |
| UpdateOps.UpdateOperation.OnlyWhere | update.go:105-108 | appends to the `OnlyWhere` predicates and changes nothing else |
| UpdateOps.UpdateOperation.IfWhere | update.go:83-88 | `Where` when the condition holds, otherwise nothing changes |
| UpdateOps.UpdateOperation.IfOnlyWhere | update.go:91-96 | `OnlyWhere` when the condition holds, otherwise nothing changes |
| UpdateOps.UpdateOperation.GetIgnoreMap | update.go:66-72 | the type's shared update-ignore set gains the operation's columns and stays changed; the returned set is that set |
| UpdateOps.UpdateOperation.GetSetMap | update.go:74-80 | the `Set` columns as a set |
| UpdateOps.UpdateOperation.GetUpdateBuilder | update.go:110-152 | the registry is merged first, then the statement is the one specified for the entity's current values |
| UpdateOps.UpdateOperation.UpByPK | update.go:166-180 | the update goes to the transaction when open, else the database; the affected count is returned, or 0 and the error |
| DeleteOps.DeleteWhereMembers | delete.go:82-91 | with `OnlyWhere` predicates WHERE is exactly those; otherwise it is the accumulated predicates followed by exactly the entity's set-field equalities, in both directions |
| DeleteOps.SecondDelRepeats | delete.go:78-88 | the entity's predicates stay in the operation, so a second `Del` repeats the first entity's predicates before its own |
| DeleteOps.DeleteOperation.constructor | delete.go:42-44 | a new operation has no predicates |
| DeleteOps.DeleteOperation.Where | delete.go:67-70 | appends to the `Where` predicates only |
| DeleteOps.DeleteOperation.OnlyWhere | delete.go:73-76 | appends to the `OnlyWhere` predicates only |
| DeleteOps.DeleteOperation.IfWhere | delete.go:51-56 | `Where` when the condition holds, otherwise nothing changes |
| DeleteOps.DeleteOperation.IfOnlyWhere | delete.go:59-64 | `OnlyWhere` when the condition holds, otherwise nothing changes |
| DeleteOps.DeleteOperation.AppendWhereGes | delete.go:78-80 | the entity's query-by-example predicates join the `Where` list |
| DeleteOps.DeleteOperation.GetDeleteBuilder | delete.go:82-91 | DELETE FROM the type's table with the WHERE list above; the `Where` list keeps the entity predicates only when no `OnlyWhere` predicate exists |
| DeleteOps.DeleteOperation.Del | delete.go:105-124 | the delete goes to the transaction when open, else the database; a failed exec gives 0 and its error, otherwise the affected count and that count's own error |
| SelectOps.ColumnProjections | select.go:83-100 | one projection per selected column, position by position, each `t.<column> AS <field>` or its null function |
| SelectOps.SelectedColumnsMembers | select.go:82-85 | a column is projected iff it is registered, maps to a field, and that field is not a join reference; never more columns than registered |
| SelectOps.SelectedWithoutJoins | select.go:82-85 | without join references every registered column is projected, in registration order |
| SelectOps.RelAliasInjective | select.go:130 | different table numbers give different `rel<n>` aliases |
| SelectOps.RefProjection | select.go:136-147 | a join column is always aliased by its field name |
| SelectOps.JoinWalkAliases | select.go:127-147 | one join column per reference, in map order, each aliased by its field name |
| SelectOps.JoinWalkClauses | select.go:128-161 | the j-th JOIN clause joins the table numbered j + 1 under alias `rel<j + 1>` |
| SelectOps.JoinWalkNumbers | select.go:128-133 | every numbered table is joined by the clause at its number |
| SelectOps.JoinWalkTables | select.go:127-133 | the numbered tables are exactly the related tables of the references |
| SelectOps.JoinWalkColumns | select.go:128-147 | each reference's column reads through the alias of its related table's number |
| SelectOps.JoinClausesDistinct | select.go:149-161 | each related table is joined once, and no two clauses share an alias |
| SelectOps.RelAliasNonEmpty | select.go:128-133 | an alias handed out is never empty, so a table seen before reuses its alias |
| SelectOps.JoinLoop | select.go:127-162 | the loop with its alias map and counter yields exactly the walk's columns and clauses |
| SelectOps.ColumnLoop | select.go:82-101 | the loop yields exactly the projections of the selected columns |
| SelectOps.SelectOperation.constructor | select.go:49-51 | a new operation has no flags, predicates or ordering |
| SelectOps.SelectOperation.CountJoin | select.go:58-61 | sets the count-join flag only |
| SelectOps.SelectOperation.Join | select.go:64-67 | sets the join flag only |
| SelectOps.SelectOperation.Where | select.go:180-183 | appends predicates only |
| SelectOps.SelectOperation.IfWhere | select.go:172-177 | `Where` when the condition holds, otherwise nothing changes |
| SelectOps.SelectOperation.OrderBy | select.go:186-189 | appends ordering terms only |
| SelectOps.SelectOperation.GetColumns | select.go:69-103 | the projection of the registered non-reference columns, using the join null settings when `Join` was called |
| SelectOps.SelectOperation.GetJoinRef | select.go:119-165 | no columns and no joins unless `Join` was called; otherwise the walk over the references in the map's order |
| SelectOps.SelectOperation.List | select.go:234-256 | the entity's predicates join the operation's list for good; the SELECT over that list goes to the database handle; an error gives no rows |
| SelectOps.SelectOperation.One | select.go:211-220 | `List`'s error is passed on; more than one row is ErrSelectTooManyResult; one row is the result; no row is no result and no error |
| SelectOps.SelectOperation.PageTotal | select.go:279-285 | the count runs over the accumulated and the entity's predicates, joined only with `CountJoin` and at least one join |
| SelectOps.SelectOperation.Page | select.go:278-314 | a failed count is returned as is; a total of 0 or less gives no rows and total 0 without a row query; otherwise the row query uses only the accumulated predicates, with the builder's then the pager's arguments, and an error keeps the total |
| SelectCountOps.CountOutcome | select_count.go:96-102 | no error exactly when the row came back and its scan succeeded; on any error the count is 0 |
| SelectCountOps.SelectCountOperation.constructor | select_count.go:41-43 | a new operation has no predicates and no joins |
| SelectCountOps.SelectCountOperation.Where | select_count.go:57-60 | appends predicates only |
| SelectCountOps.SelectCountOperation.IfWhere | select_count.go:50-55 | `Where` when the condition holds, otherwise nothing changes |
| SelectCountOps.SelectCountOperation.Join | select_count.go:62-65 | appends joins only |
| SelectCountOps.SelectCountOperation.AppendWhereGes | select_count.go:71-73 | the entity's query-by-example predicates join the list |
| SelectCountOps.SelectCountOperation.Count | select_count.go:87-103 | the entity's predicates join the list for good; the count over the table, predicates and joins always goes to the database handle; the outcome is as above |
| Transactions.TxManager.constructor | tx.go:25-27 | a new manager holds no transaction |
| Transactions.TxManager.Join | tx.go:30-34 | appends the transaction at the end |
| Transactions.TxManager.Commit | tx.go:37-46 | commits the members in join order, stopping at and returning the first error; the driver state is what that walk reaches |
| Transactions.TxManager.Rollback | tx.go:49-58 | rolls back the members in join order, stopping at and returning the first error |
| Transactions.TxManager.FinishEach | tx.go:37-58 | the loop shared by both reaches exactly the state and error of the specified walk |
| Transactions.FinishAllKeeps | tx.go:37-58 | finishing never undoes anything, and only members of the list become finished |
| Transactions.FinishedMemberFails | tx.go:40-44 | a member already committed or rolled back makes the whole call fail |
| Transactions.FinishAllSucceeds | tx.go:37-58 | success iff the members are distinct, unfinished and not failing; then all are finished, and a commit commits all of them |
| Transactions.FirstFailureStops | tx.go:37-58 | a failure stops at some member k: those before it finished normally, k was finished already or its call failed, and those after it were not touched |
| Handles.Finish | tx.go:41 | finishing an already finished transaction fails with ErrTxDone and changes nothing; otherwise it becomes finished, fails iff the driver fails it, and is committed iff a commit succeeded |
| Handles.Driver.Commit | tx.go:41 | one driver commit, as `Finish` with commit set |
| Handles.Driver.Rollback | tx.go:53 | one driver rollback, as `Finish` without commit |
| Values.Lookup | insert.go:80 | a field is found iff some field has the name, and its value is that field's |
| Values.IndexOf | insert.go:135 | the index of the first field with the name, -1 iff there is none |
| Values.ValuesOf | insert.go:80-81 | one value per name, position by position |
| DataSource.Resolve | datasource.go:63-69 | a name resolves iff it was ever bound, to exactly the handle bound (nil included); otherwise the error names it |
| DataSource.Pool.constructor | datasource.go:29 | the pool starts empty |
| DataSource.Pool.Push | datasource.go:50-53 | binds the handle under `_` and `master` |
| DataSource.Pool.PushDB | datasource.go:56-60 | binds or rebinds one name |
| DataSource.Pool.Required | datasource.go:63-69 | resolves the name as `Resolve` does |
| DataSource.PushResolves | datasource.go:50-53 | after a push both default names resolve to the handle and every other name resolves as before |
| DataSource.PushDBIsolated | datasource.go:56-60 | binding one name leaves every other name's resolution unchanged |
| LegacyDs.Required | ds.go:41-47 | a name resolves iff it is bound to a non-nil handle, to that handle; otherwise the error names it |
| LegacyDs.DsMap.constructor | ds.go:26 | the map starts empty |
| LegacyDs.DsMap.DS | ds.go:29-35 | a nil handle is refused and nothing is stored; otherwise the handle is bound under `_` and `master` |
| LegacyDs.DsMap.DSWithName | ds.go:37-39 | binds one name, nil included |
| LegacyDs.DsMap.RequiredDS | ds.go:41-47 | resolves the name as `Required` does |
| LegacyDs.DefaultNamesResolve | ds.go:29-35 | after `DS` both default names resolve to the handle and every other name as before |
| LegacyDs.NilBindingRefused | ds.go:41-46 | a name bound to nil is refused exactly like a missing one |
| Executor.Route | executor.go:62-84 | a statement goes to the transaction exactly when there is one, else to the database |
| Executor.BeganTx | executor.go:39-46 | with the flag set and a database, the transaction is the begun one, or nil when beginning failed; otherwise it is unchanged |
| Executor.Executor.constructor | executor.go:31-37 | stores the database and flags, and begins a transaction iff the flag is set |
| Executor.Executor.Begin | executor.go:39-46 | sets the transaction as `BeganTx` says, dropping the begin error |
| Executor.Executor.Commit | executor.go:48-53 | nothing happens and no error without a transaction; otherwise one commit of it |
| Executor.Executor.Rollback | executor.go:55-60 | nothing happens and no error without a transaction; otherwise one rollback of it |
| Executor.Executor.Exec | executor.go:62-70 | the statement is routed; with a transaction and auto-commit it is then committed, that error dropped; otherwise the driver state is unchanged |
| Executor.Executor.Query | executor.go:72-77 | the query is routed and commits nothing |
| Executor.Executor.QueryRow | executor.go:79-84 | the row query is routed and commits nothing |
| NullTypes.NullString | null_types.go:20-22 | a valid wrapper carrying exactly the argument |
| NullTypes.NullStringPtr | null_types.go:25-27 | a newly allocated wrapper equal to `NullString` of the argument |
| NullTypes.NullBool | null_types.go:30-32 | a valid wrapper carrying exactly the argument |
| NullTypes.NullBoolPtr | null_types.go:35-37 | a newly allocated wrapper equal to `NullBool` of the argument |
| NullTypes.NullByte | null_types.go:40-42 | a valid wrapper carrying exactly the argument |
| NullTypes.NullBytePtr | null_types.go:45-47 | a newly allocated wrapper equal to `NullByte` of the argument |
| NullTypes.NullInt16 | null_types.go:50-52 | a valid wrapper carrying exactly the argument |
| NullTypes.NullInt16Ptr | null_types.go:55-57 | a newly allocated wrapper equal to `NullInt16` of the argument |
| NullTypes.NullInt32 | null_types.go:60-62 | a valid wrapper carrying exactly the argument |
| NullTypes.NullInt32Ptr | null_types.go:65-67 | a newly allocated wrapper equal to `NullInt32` of the argument |
| NullTypes.NullInt64 | null_types.go:70-72 | a valid wrapper carrying exactly the argument |
| NullTypes.NullInt64Ptr | null_types.go:75-77 | a newly allocated wrapper equal to `NullInt64` of the argument |
| NullTypes.NullFloat64 | null_types.go:80-82 | a valid wrapper carrying exactly the argument |
| NullTypes.NullFloat64Ptr | null_types.go:85-87 | a newly allocated wrapper equal to `NullFloat64` of the argument |
| NullTypes.NullTime | null_types.go:90-92 | a valid wrapper carrying exactly the argument |
| NullTypes.NullTimePtr | null_types.go:95-97 | a newly allocated wrapper equal to `NullTime` of the argument |
| Logging.ValidLevel | logger.go:72-80 | the result is always Info..Fatal; an in-range level is kept, a lower one becomes Info, a higher one Fatal |
| Logging.LogName | logger.go:82-85 | the name of the clamped level: INFO, DEBUG, ERROR or FATAL |
| Logging.FieldTexts | logger.go:136-141 | one `k{v}` word per field, in order |
| Logging.Logger.constructor | logger.go:48-54 | the logger starts at Error with the RFC 3339 layout and no output |
| Logging.Logger.SetLogLevel | logger.go:88-92 | stores the clamped level, so the threshold stays valid |
| Logging.Logger.SetTimeLayout | logger.go:95-99 | stores the layout only |
| Logging.Logger.Log | logger.go:128-146 | writes exactly one prefixed line iff the clamped level reaches the threshold, otherwise nothing |
| Logging.Logger.Info | logger.go:109-111 | a line at Info exactly when the threshold is Info |
| Logging.Logger.Debug | logger.go:114-116 | a line at Debug exactly when the threshold is at most Debug |
| Logging.Logger.Error | logger.go:119-121 | a line at Error exactly when the threshold is at most Error |
| Logging.Logger.Fatal | logger.go:124-126 | a valid threshold always lets a Fatal line through; the program goes on |
| Logging.ValidLevelIdempotent | logger.go:72-80 | clamping twice is clamping once |
| Logging.InfoShowsEverything | logger_test.go:72 | at the Info threshold every level is shown; at Error exactly Error and above |
| Logging.LogLineShape | logger.go:133-143 | a line is the bracketed time, the level name, a dash, then the fields and the message, single-spaced |
| Logging.TestLineNoFields | logger_test.go:82 | at Info with no fields the line is `[time] INFO - hello world` |
| Logging.TestLineFields | logger_test.go:89 | at Debug with two fields the line is `[time] DEBUG - ID{1000} NAME{Apple} hello world` |
| SqlServerPager.AddInt | pagination/sqlserver.go:20 | 64-bit signed addition with two's-complement wrap-around: the exact sum when it fits, else the sum shifted by 2^64 into range |
| SqlServerPager.Page | pagination/sqlserver.go:19-21 | two arguments, the wrapped offset + 1 and offset + size |
| SqlServerPager.PageWindow | pagination/sqlserver.go:19-21 | without overflow the window is rows offset + 1 to offset + size, size rows in all |
| SqlServerPager.PageEmbedsQuery | pagination/sqlserver.go:20 | the paged statement contains the original query inside a FROM clause |
| SqlServerPager.PageEmbedsOrder | pagination/sqlserver.go:20 | the paged statement contains the ORDER BY clause inside ROW_NUMBER() OVER |
| SqlServerPager.PageExample | pagination/pager_test.go:28-31 | paging `haha` by `id asc` from 0 for 10 gives the expected text with arguments 1 and 10 |
| XmlNodes.AllNodes | xmlquery/bind.go:100-120 | every node of every type is in the list and every listed node belongs to some type; the length is the sum of the four lists |
| XmlBind.FirstFailure | xmlquery/bind.go:121-129 | the only complaints are an empty id and empty SQL |
| XmlBind.FirstFailureSpec | xmlquery/bind.go:121-129 | validation passes iff every node has an id and SQL; otherwise it names the first failing node, all before it pass, and an empty id is reported before empty SQL |
| XmlBind.CheckNode | xmlquery/bind.go:99-130 | the loop over the nodes in type order reports exactly that first failure |
| XmlBind.LastMatchSpec | xmlquery/bind.go:42-75 | a match exists iff some node has the id; it is then a node with that id after which no node has it |
| XmlBind.FindNode | xmlquery/bind.go:37-83 | an unbound namespace is ErrUnbindNamespace; else the last node of the type with the id, or ErrUnbindNode |
| XmlBind.FindNodeSpec | xmlquery/bind.go:37-83 | success iff the namespace is bound and a node of the requested type has the id; the result is the bound root and such a node, a node of another type never counts |
| XmlBind.BindIsolated | xmlquery/bind.go:142 | binding a namespace leaves the lookups of every other namespace unchanged |
| XmlBind.NodeRegistry.constructor | xmlquery/bind.go:22 | no namespace is bound at first |
| XmlBind.NodeRegistry.BindRaw | xmlquery/bind.go:133-146 | an unmarshal failure, an empty namespace and a bound one are refused in that order and change nothing; otherwise the root is bound first and then validated, so a failing root stays bound |
| XmlBind.NodeRegistry.GetNode | xmlquery/bind.go:37-83 | the loop yields exactly `FindNode` on the current map |
| XmlQuery.GetDS | xmlquery/query.go:62-70 | the node's datasource wins over the root's; the result is empty iff both are |
| XmlQuery.DefaultDS | xmlquery/query.go:75-77 | an empty name becomes `_`, any other is kept |
| XmlQuery.OpenHandle | xmlquery/query.go:72-79 | a missing namespace or select node is reported first, then an unbound datasource; otherwise the handle holds the chosen datasource, its database and the node's SQL |
| XmlQuery.ActiveSql | xmlquery/select.go:46-49 | the rendered text when it is non-empty, else the node's SQL; never anything else |
| XmlQuery.Listed | xmlquery/query.go:83-88 | no error exactly when the query and the scan succeeded, with their rows; on any error no rows |
| XmlQuery.OneOf | xmlquery/query.go:93-99 | no error iff the list succeeded with at most one row; a result iff exactly one row, which is it; a list error passes through; more rows give the too-many error |
| XmlQuery.QueryList | xmlquery/query.go:81-89 | the node's SQL runs on the handle's database with the caller's arguments |
| XmlQuery.QueryOne | xmlquery/query.go:91-100 | the single-result rule over the node's SQL with the caller's arguments |
| XmlQuery.QueryOneAsWritten | xmlquery/query.go:91-100 | `QueryOne` as written: the corrected single-result query run with the two arguments `[sqlStr, ps]` instead of the caller's; `QueryOneArguments` shows the difference |
| XmlQuery.QueryOneArguments | xmlquery/query.go:92 | with a driver that answers only the caller's arguments, `QueryOne` returns the row while the code as written reports the driver's error |
| XmlQuery.QueryTemplate | xmlquery/query.go:102-112 | a template failure is reported with no rows; otherwise the rendered SQL runs without arguments |
| XmlQuery.QueryTemplateAsWritten | xmlquery/query.go:102-112 | `QueryTemplate` as written: a template failure is reported with no rows; otherwise the node's own SQL runs with the rendered text as its only argument; `QueryTemplateRunsRendered` shows the difference |
| XmlQuery.QueryTemplateRunsRendered | xmlquery/query.go:110 | when the rendered text differs from the template and only it is known to the driver, `QueryTemplate` returns rows while the code as written fails |
| XmlQuery.QueryOneTemplate | xmlquery/query.go:114-123 | a template failure is reported; otherwise the single-result rule over the rendered SQL |
| XmlQuery.OneOfAsWritten | xmlquery/query.go:115-121 | the single-result rule of `QueryOneTemplate` as written: the rule applied to the rows with the list error dropped |
| XmlQuery.QueryOneTemplateAsWritten | xmlquery/query.go:114-123 | `QueryOneTemplate` as written never reports a template or driver failure: its only error is too-many-results; `QueryOneTemplateSwallowsErrors` shows the difference |
| XmlQuery.QueryOneTemplateSwallowsErrors | xmlquery/query.go:115 | for any failing template or query the code as written reports no entity and no error, while `QueryOneTemplate` reports the template failure |
| XmlQuery.CountSqlInverse | xmlquery/query.go:179 | the count SQL is 29 characters longer than the query and holds it at position 22 |
| XmlQuery.CountSqlInjective | xmlquery/query.go:179 | distinct queries give distinct count statements |
| XmlQuery.PageStatement | xmlquery/select_page.go:56-59 | the pager's SQL with the caller's arguments first, then the pager's |
| XmlQuery.PageOver | xmlquery/select_page.go:40-68 | the count runs without arguments; a count failure gives no rows and 0; a count of at most 0 gives no rows and that count; otherwise the paged query runs: its rows when it succeeds, 0 after a query failure, the count after a scan failure |
| XmlQuery.PageShortCircuit | xmlquery/query.go:187-189 | a count of at most 0 decides the page whatever the pager and the driver's row query |
| XmlQuery.PageQuery | xmlquery/query.go:178-201 | one page of the node's SQL with the caller's arguments before the pager's |
| XmlQuery.PageQueryAsWritten | xmlquery/query.go:178-201 | `PageQuery.Query` as written is one page of the node's SQL with no caller arguments, only the pager's; `PageQueryArguments` shows the difference |
| XmlQuery.PageQueryArguments | xmlquery/query.go:190-193 | the code as written behaves as if no arguments were given; with non-empty arguments and a driver that answers only them followed by the pager's, `PageQuery` returns the page while the code as written fails |
| XmlQuery.PageQueryTemplate | xmlquery/query.go:203-213 | a template failure gives no rows, 0 and the failure; otherwise one page of the rendered SQL |
| XmlQuery.PageQueryTemplateAsWritten | xmlquery/query.go:203-213 | `PageQuery.QueryTemplate` as written: a template failure gives no rows, 0 and the failure; otherwise one page of the template text itself, not the rendered text; `PageQueryTemplateRendered` shows the difference |
| XmlQuery.PageQueryTemplateRendered | xmlquery/query.go:211 | when only the rendered text can be counted, `PageQueryTemplate` pages it while the code as written counts the template text and fails |
| XmlSelect.Selectable.constructor | xmlquery/select.go:40-43 | a new handle has no rendered text |
| XmlSelect.Selectable.List | xmlquery/select.go:45-57 | the active SQL, the last rendered text or else the node's, runs with the caller's arguments |
| XmlSelect.Selectable.One | xmlquery/select.go:59-68 | the single-result rule over `List`, with ErrSelectTooManyResult |
| XmlSelect.Selectable.ListTemplate | xmlquery/select.go:70-82 | a template failure leaves the stored text as it was and reports it with no rows; otherwise the rendered text is stored and runs without arguments |
| XmlSelect.Selectable.OneTemplate | xmlquery/select.go:84-93 | the single-result rule over `ListTemplate`, a template failure passing through |
| XmlSelect.TemplateSticks | xmlquery/select.go:45-81 | after a successful `ListTemplate`, a later `List` runs the rendered text, or the node's SQL when it rendered to nothing; after a failed one it runs what it ran before |
| XmlSelectPage.PageSelectable.constructor | xmlquery/select_page.go:35-38 | a new handle has no rendered text |
| XmlSelectPage.PageSelectable.List | xmlquery/select_page.go:40-68 | one page of the active SQL with the caller's arguments before the pager's |
| XmlSelectPage.PageSelectable.ListTemplate | xmlquery/select_page.go:70-81 | a template failure gives no rows, 0 and the failure with the stored text kept; otherwise the rendered text is stored and paged without arguments |
| Entity.EntityRegistry.constructor | entity.go:29-39 | no type is registered at first |
| LegacyModel.ModelRegistry.constructor | model.go:30-46 | no model is registered at first |
| OrmCore.RealVal | orm.go:103-206 | a kept value is always the dereferenced one |
| InsertOps.KeptFields | insert.go:73-76 | never more inserted fields than registered ones |
| Values.ValueOf | insert.go:80 | the value of the named field when there is one |

## Where the description and the code differ

The model follows the Go code wherever the library's own description of it says otherwise:

- `select.go` `List` and `Page` query `o.orm.db` even while the `Orm` holds an open transaction
  (select.go:251, select.go:308), and so does `One`, which calls `List`.
- `getRealVal` (orm.go:108-115) emits a signed integer only when it is strictly positive, so
  negative integers are skipped as well as zero.
- `getRealVal` (orm.go:127-154) emits every `sql.NullX` wrapper other than `sql.NullTime`,
  whether or not `Valid` is set.
- The comment on `SqlServer` (pagination/pager.go:38-41) shows the outer derived table aliased
  `) as t WHERE t.rn BETWEEN ? AND ?`; the text `Page` emits (pagination/sqlserver.go:20) gives
  the outer derived table no alias, `...) as _t) WHERE t.rn between ? and ?`, and
  `SqlServerPager.Page` reproduces the emitted text.

## Left out

- SQL text: the `sg` builder, `Build` and the joiner are a function-valued parameter; statements
  are kept as clause lists (columns, SET terms, WHERE terms, joins, aliases).
- Reflection and tag parsing (`reflectx.ParseTagWithRe`, `reflect.Value`, `FieldByName`): the
  per-field list with its parsed tag is an input, and an entity is a sequence of named values.
- `getEntityPkgName` and `getModelTableName` are not computed: the type key and the model's
  type string are inputs.
- Struct scanning (`ScanStruct`, `NewColumnPtr`, util.go:57-87): rows come from a fetch parameter.
- The driver (`Exec`, `Query`, `QueryRow`, `Begin`, `RowsAffected`, `LastInsertId`, `Scan`): its
  outcomes are parameters; only the transaction life cycle (finish once) is modelled.
- DDL migration (`migrate`, entity.go:273-297, model.go:227-244): an opaque call after the maps are
  stored; the model records whether and on which datasource it runs and whether a CREATE failure
  terminates.
- `pingDB` (datasource.go:33-47): a background goroutine that sleeps forever; concurrency only.
- Mutexes in orm.go, tx.go, logger.go, datasource.go and executor.go: every operation is single-threaded.
- The clock, `fmt` formatting and the `log.Logger` sink: the formatted time, field texts and message
  are inputs, and the output is a sequence of lines; `SetOutput` is not modelled because it only
  swaps the sink.
- Floating point: floats are `real`, and only their sign matters to the model; `time.Time` is its
  signed distance from the zero time.
- The template and XML engines (`html/template`, `text/template`, `xml.Unmarshal`): uninterpreted
  functions that may fail; the two template packages are not told apart.
- `Bind(fs)` and `BindXml` (xmlquery/bind.go:86-97): file reading is I/O; `BindRaw` takes the
  unmarshal outcome.
- `getNodeParams` (xmlquery/select.go) is not part of this model: the `Select` and `PageSelect`
  constructors take its results (datasource name, database, SQL).
- xmlquery/exec.go, select_rows.go, select_single.go and the `RawQuery` handle's methods
  (xmlquery/query.go:134-167) pass statements straight to the driver; only `RawQuery`'s datasource
  defaulting is modelled.
- config.go hook dispatch and `SetConfig`: the global configuration is an input to `LegacyModel`.
- The null-field settings `select.go` reads (`entityNullFieldMap`, `entityJoinNullFieldMap`) are
  not defined in entity.go; they are an input of the select operation.
- Go map iteration order in `getJoinRef`: the order of the join-reference keys is an input, and the
  properties hold for every order.
- The unused `columns` field of the select operation.
- The count query of a paged select runs without the caller's arguments, as written
  (xmlquery/select_page.go:45-48, and `PageQuery`'s count at xmlquery/query.go:179-182).
- Panics (duplicate registration, unknown datasource, unbound namespace or node, nil entity) are
  returned errors, and the state a panic leaves is the state at the point of the panic.
- Logging calls made by the operations are not modelled, only the logger itself: `Logger.Debug` in
  `NewWithDS` (orm.go:70) and in the XML binding (xmlquery/bind.go:127, xmlquery/bind.go:144), and the
  `queryLog`/`queryErrorLog` hooks in insert.go, update.go, delete.go, select.go, select_count.go and
  xmlquery (for example insert.go:190-196 and xmlquery/query.go:180-184); they only write lines.
- OrmCore.Orm.BeginTx: an `Orm` without a database handle (`db` is `None`) takes the `begin`
  outcome as given; Go's `beginTx` would call `Begin` on a nil `*sql.DB` and panic (orm.go:257).
- Naming.GetStrategyName: case mapping is ASCII-only. Go lower-cases the first rune with the
  Unicode tables of `strings.ToLower` (util.go:36, util.go:50), so a non-ASCII capital such as
  'É' is lowered in Go and kept in the model; later runes use Go's own ASCII test (util.go:37).
  The same holds for Naming.StrategyName.
- Naming.CamelOnlyFirst: a string is a sequence of characters, so CamelCase's `len(str)`,
  `str[0]` and `str[1:]` (util.go:47-50), which count bytes, are read as counting characters.
  Both agree when the first character is ASCII; for a multi-byte first character Go lowers the
  first byte read as a Latin-1 character and leaves invalid UTF-8, which the model does not reproduce.
- Entity.ParseJoinParts: `strings.ToUpper` on the join type is ASCII-only, like the rest of the case mapping.
- Entity.ParseJoin: the `Logger.Error` call `setJoinMap` makes for a join tag without five
  parts (entity.go:254) is not modelled; only the absence of a reference is.
- InsertOps.BackFill: `SetInt`/`SetUint` store the id unbounded; the truncation to the field's bit
  width is not modelled.
- InsertOps.BackFill: `Exported` tests the first character as an ASCII upper-case letter, not a
  Unicode one.
- Values.ValueOf: a field the entity does not have reads as `OtherV(0)`, which no predicate is
  derived from; Go would panic in `FieldByName(...).Interface()`. The panic on an unexported
  field is not modelled either: Go's `reflect.Value.Interface()` panics on a value read through
  an unexported field, and the model reads it like any other.
- InsertOps.EntityRow: a kept field that is not exported is read as an ordinary value; `Interface()` on an unexported field panics in Go (insert.go:80).
- InsertOps.EntityRows: the same unexported-field panic as `EntityRow` (insert.go:80) is not modelled.
- InsertOps.InsertOperation.GetInsertBuilder: builds the statement even when a kept field is unexported, where Go panics at insert.go:80.
- InsertOps.InsertOperation.One: runs the insert even when a kept field is unexported, where Go panics at insert.go:80 before any statement is run.
- InsertOps.InsertOperation.List: the unexported-field panic of insert.go:80 is not modelled; each entity is inserted as if all its kept fields were exported.
- InsertOps.InsertOperation.Batch: the unexported-field panic of insert.go:80 is not modelled.
- UpdateOps.FieldLoop: every field is read, unexported ones included; `Interface()` on an unexported field panics in Go (update.go:132), before the set/primary-key tests.
- UpdateOps.UpdateOperation.GetUpdateBuilder: the unexported-field panic of update.go:132 is not modelled.
- UpdateOps.UpdateOperation.UpByPK: runs the update even when the entity has an unexported field, where Go panics at update.go:132.
- OrmCore.WhereGesOf: a field's value is taken as given; for a struct-kind field (or a pointer to one) that is unexported, `getRealVal` calls `Interface()` (orm.go:125) and Go panics, while the model yields its predicate.
- OrmCore.EntityGes: the same unexported struct-kind field panic (orm.go:125) is not modelled: the model yields a predicate where Go panics.
- OrmCore.GetWhereGes: the unexported struct-kind field panic of orm.go:125 is not modelled.
- DeleteOps.DeleteOperation.Del: reaches `getWhereGes`, so the unexported struct-kind field panic of orm.go:125 is not modelled here either.
- SelectOps.SelectOperation.List: the unexported struct-kind field panic of orm.go:125, reached through `getWhereGes`, is not modelled.
- SelectOps.SelectOperation.One: the unexported struct-kind field panic of orm.go:125 is not modelled.
- SelectOps.SelectOperation.Page: the unexported struct-kind field panic of orm.go:125 is not modelled.
- SelectCountOps.SelectCountOperation.Count: the unexported struct-kind field panic of orm.go:125, reached through `getWhereGes`, is not modelled.
- InsertOps.InsertOperation.List: the per-entity results are a ghost out-parameter, so the
  statement that every call before the last succeeded is not counted as a contract on real results.
  What each entity becomes is stated only when no record occurs twice in the list; a record passed
  twice is inserted twice by Go, the second time with the fields the first call left.

## Findings

| source | as written | input that shows it | evidently intended | confidence | as-written member | corrected member |
|---|---|---|---|---|---|---|
| xmlquery/query.go:92 | `QueryOne` calls `q.Query(entity, q.sqlStr, ps)`, so the variadic arguments are the SQL text and the argument slice | any call, e.g. `QueryOne(e, 1)` runs with arguments `[sqlStr, [1]]` | run with the caller's arguments `ps...` | not executed | XmlQuery.QueryOneAsWritten, XmlQuery.QueryOneArguments | XmlQuery.QueryOne |
| xmlquery/query.go:110 | `QueryTemplate` calls `q.Query(entity, buf.String())`: the node's SQL runs with the rendered text as its only argument | a template that renders to `select 1` runs the template text with argument `"select 1"` | run the rendered text with no arguments | not executed | XmlQuery.QueryTemplateAsWritten, XmlQuery.QueryTemplateRunsRendered | XmlQuery.QueryTemplate |
| xmlquery/query.go:115 | `QueryOneTemplate` tests the outer `err`, always nil there, instead of `err2` | a template that fails to parse gives a zero entity and a nil error | report `err2` | not executed | XmlQuery.QueryOneTemplateAsWritten, XmlQuery.QueryOneTemplateSwallowsErrors | XmlQuery.QueryOneTemplate |
| xmlquery/query.go:190 | `sqlStr, ps := pager.Page(...)` reassigns the parameter `ps` with the pager's arguments, so the caller's arguments never reach the page query | a query with one placeholder and arguments `[7]` pages with the pager's two arguments only | the caller's arguments followed by the pager's, as xmlquery/select_page.go:56-59 does | not executed | XmlQuery.PageQueryAsWritten, XmlQuery.PageQueryArguments | XmlQuery.PageQuery |
| xmlquery/query.go:211 | `QueryTemplate` renders the template, drops the result and calls `q.Query`, which counts and pages the template text | a template whose text cannot run but renders to valid SQL fails | count and page the rendered text | not executed | XmlQuery.PageQueryTemplateAsWritten, XmlQuery.PageQueryTemplateRendered | XmlQuery.PageQueryTemplate |
