# warehousd: a verified model

warehousd publishes collections described in `warehousd.yml` out of one Postgres database. This project
models the parts of it where a mistake loses data or lets somebody in, and proves what they are for:

- **Planning and applying a config.** Two environments hold tables with typed columns, generated columns, an
  identity index, other indexes and rows; beside them stand the views with the columns they read, the registry
  of applied collections and the ACL rows. One DDL statement is one step (`Catalog`); a query string runs whole
  or not at all. `planFromSchema` and `planFromConfigs` report changes, `applyConfig` refuses, rebuilds or
  extends, `renderMigrationSql` writes the reviewed statements. Proved: over every history live rows survive every
  intermediate state, apply converges and settles, the two planners agree, and plan, migration and apply fit
  together from any database the system can reach.
- **Reading XLSX.** The ZIP directory byte by byte, column names, and the dense grid built from sparse cells.
- **Two timed machines.** The account lockout and the fixed-window limiter, each against its event history.
- **ACLs and group membership.** The SQL clause, the in-process check and the declared rule; SSO logins and
  console edits over whole runs.
- **Smaller algorithms.** Canonical JSON comparison, markdown unwrapping, slugs and terms, migration names.

Code that is a loop over state in the source is a method here, proved against a function; what that function
means is then proved as lemmas. Classes stand for objects and tables whose contents change: `Apply.Connection`,
`Acl.AclStore`, `Sso.Directory`, `Lockout.Attempts`, `RateLimit.Limiter`, `Taxonomy.TermStore`.

## What the proofs found

Each of these is a theorem below, stated for every input; the code is modelled as it is. Where a config or a
database is needed to show that the case arises, a witness has one the modelled code reaches: by applies from an
empty database, by documents written, and, where the item is about them, by the statements a migration offers.

1. `PkMoveStaysRefused`: uncommenting the one statement a `pk_change` migration offers, dropping the identity
   index, does not unblock apply on any database a history reaches (`PkMoveWitness`). The planner then falls back to
   the primary key `_rev`, and still sees a move.
2. `UpgradeRuns`, `NewFieldIndexFails`: declared indexes are created before the columns an existing table still
   lacks, so a new field and an index over it in one edit make apply throw (`NewFieldIndexWitness`).
   `docs/configuration.md:271` says an added index is picked up.
3. `FreshRuns`: a dataset that marks no field `pk` and stores none named `id` can never be created, because the
   identity index falls back to `id` (`UnkeyedWitness`); `config/collection.ts` calls a missing pk no error. Nor can
   one with a searchable joined field, since `ddl.ts:303-307` adds a search column for every searchable field, also
   for one with no column to compute it from (`JoinedSearchWitness`), unless a text bookkeeping column has the name;
   nor one with a searchable multi-valued vocabulary, a stored field called `workspace_id` or like a revision column,
   a multi-valued vocabulary called `workspace_id`, or a single-valued one called like a search column, as Postgres
   builds no GIN index over text. Parsing accepts them all.
4. `SearchReadded`, `WidenedNeverApplies`: the migration drops a retyped field's search column for apply to recreate,
   which works exactly when the column is text afterwards. A searchable vocabulary that becomes multi-valued is
   retyped without review, and then no apply of that config finishes (`WidenedWitness`); `migration-sql.ts:27-30`
   says the dependants are recreated immediately.
5. `MigratedDropStaysBehind`: dropping a populated collection with the statements its migration offers takes its
   registry row too, after which no apply sees it. Its ACL rows in both environments and its other tables stay, for
   whatever collection is next given that name (`DroppedAclWitness`); `apply.ts:84-88` says they must not.
6. `MigratedDropOrphans`, `OrphansAreDropped`: of a file collection those statements take the live files table alone.
   Its live documents stay without a file to refer to (`OrphanWitness`), also once the collection is configured
   again (`ReaddedWitness`), and the next apply that goes through with a destructive change of the new, empty files
   table drops them, populated as they are (`ChunksLostWitness`).
7. `MigrationKeepsRows`: retyping `f` drops a column named `f_tsv` uncommented, even one the config declares, with
   what live documents have in it (`DeclaredSearchNameWitness`).
8. `Converges`: a vocabulary bound under the name of a relation gets a column that the very next plan wants dropped
   (`UnstoredBindingWitness`); so does a searchable field joined under the name of a bookkeeping column, for its
   search column (`LoggedSearchWitness`). Without such columns apply converges, and only then; and with one, once the
   live table holds a document, every further apply of the unchanged config is refused (`StrayRefuses`).
9. `PlannersAgreeOn`: planning against the database looks past a declared column that goes but has a structural
   name, such as a file's `content_type`, and sees besides what no declaration named: a search column whose field is
   no longer stored, an unstored binding's column, and a name newly declared over a column of the DDL's own.
10. `LandsWhereLookedUp`, `RefusesWhereSeen`, `PlannersAgreeOn`: a collection name may hold capitals, the DDL names
    a dataset's table without quoting, and Postgres folds such a name, but `plan.ts:272` looks the table up as it is
    written. A dataset with a capital in its name is never planned for: a column taken out of its config stays in
    the populated live table, apply returns instead of refusing, and comparing the configs reports what planning
    against the database does not (`CapitalWitness`). When it leaves the config its ACL rows stay (`CapitalKeepsAcl`),
    and a dataset named like it in lower case has the same table (`CapitalMeetsFolded`).
11. `StructuralDropPlanned`: `plan.ts:222-229` says the planner can never propose to drop a structural index. It does
    exactly when the name the index is built from, a dataset's or with it a searchable field's or a multi-valued
    vocabulary's, holds `_ix_` before the index's own ending (`StructuralIndexWitness`).
12. `SetDocumentAcl`: the row is written before the audit, so a request refused for want of an audit record has
    already changed who may read.
13. `SecondProviderOverrides`: the role is written once per user and provider, so a first login through a second
    provider undoes a promotion made in the console.
14. `OthersDoNotMatter`, `DisturbedDiffers`: an account's counts are those it would get alone if and only if no other
    account's sweep falls between its own sweep and count on a clock that puts its last failure outside the window.
15. `SpanBound`: the sliding bound of the limiter is 2 * max - 1, one better than two full windows, and reached.
16. `WholeFileRuns`, `SearchColumnFirst`: with every comment of a migration file taken up, it runs through exactly when
    nothing is in the way of a column at its place in the plan, and then nothing destructive but a moved primary key is
    left to plan. A searchable field that is removed leaves two columns to drop, in whatever order Postgres lists them:
    with the field first the file fails, since its search column is computed from it (`SearchRemovedWitness`).
17. `Rewrite`: the unwrapper's check of its own words refuses a text exactly when a line folded into a quote has a second
    `>` right behind the first or stands where the check sees code, or a quote line is folded into a list item where it
    sees none (`NestedQuoteWitness`). In all other texts no word changes.
18. `FoldsAllTheWay`, `TwiceWitness`: no line that would go on with a block is left behind it, but for a list marker with
    nothing but a space behind it, which comes out without the space: a second run takes it for text and joins it.

## Files

| files | content |
|---|---|
| Config, Rules, Catalog, Ddl, DdlFacts, DdlBuild, TableNames | configs and what parsing ensures of them, the database and its statements, declared tables and DDL |
| Plan, PlannersAgree, IndexNames | the two planners, their agreement, and which indexes they take for declared ones |
| Views, TablesLeft | what views read, and which columns and indexes there are, once collections have been applied |
| Apply, ApplySafety, Convergence, Idempotence, Forgetting | apply as a run, and what it keeps |
| Fresh, Upgrade | exactly when a dataset's statements run to the end |
| Migration, MigrationProofs, Pipeline, SearchAfter | the rendered migration, the pipeline from any history, and search columns after a retype |
| Lowering, WholeFile | lists of statements that drop and cast, and the migration file with its comments taken up |
| References | deployments: the reference from chunks to files, live data safety, convergence, and tables the planner does not find |
| SmallRuns, Witnesses, RetypeWitnesses, FileWitnesses, WholeWitness | small configs and databases on which the reported cases arise |
| Zip, ZipLayout, ZipPack, Columns, Sheet | the XLSX reader |
| Lockout, LockoutSafety, RateLimit, RateLimitBounds | the timed machines |
| Principals, Acl, AclRule, Sso | ACLs and membership |
| Unwrap, UnwrapProofs, UnwrapWords, UnwrapDrift, UnwrapChecked, UnwrapJoined, UnwrapWitnesses | markdown unwrapping, the words it keeps, and its own check of them |
| Json, ApplyStatus, Slugs, Taxonomy, MigrationNames | the smaller algorithms |

`dafny verify dfyconfig.toml` checks everything.

## Model

| member | source | states |
|---|---|---|
| Plan.PlanFromSchema | packages/broker/src/apply/plan.ts:250-390 | the list built by the nested loops holds exactly the changes `Planned` describes: per existing declared table the added, retyped and stray columns, a moved pk, index differences, and tables of registered collections gone from the config |
| Plan.PlanFromConfigs | packages/broker/src/apply/plan.ts:397-459 | without a database, exactly the differences between the two declarations of shared collections, plus moved pks and removed collections |
| Plan.ColumnChanges | packages/broker/src/apply/plan.ts:275-287 | one table's column changes: missing, differently typed, and neither declared nor structural |
| Plan.IdentityChanges | packages/broker/src/apply/plan.ts:289-348 | pk and index differences, only on the collection's own table |
| Plan.IndexChanges | packages/broker/src/apply/plan.ts:230-243 | an index is wanted and not there, or there, marked by the infix and not wanted; unmarked indexes are never reported |
| Plan.DroppedChanges | packages/broker/src/apply/plan.ts:360-387 | every existing main or files table of a registered collection that left the config, and nothing else |
| DdlBuild.DatasetDeclaredTables | packages/broker/src/apply/ddl.ts:104-132 | the pushed columns and structural names are those of the dataset's declared table |
| DdlBuild.FileDeclaredTables | packages/broker/src/apply/ddl.ts:58-101 | vocabulary columns, then metadata columns, over the fixed structural names; the documents table declares none |
| DdlBuild.DatasetTableDdl | packages/broker/src/apply/ddl.ts:253-384 | create, workspace, identity, history, declared indexes, field, vocabulary and search alters, in that order |
| DdlBuild.FileTableDdl | packages/broker/src/apply/ddl.ts:162-250 | the files table, its vocabulary and metadata alters, later columns, then the documents table |
| DdlBuild.TableDdl | packages/broker/src/apply/ddl.ts:149-159 | an external collection has no live table; otherwise the kind decides |
| DdlBuild.DatasetViewDdl | packages/broker/src/apply/ddl.ts:504-579 | the loop collects the columns the recreated view selects, joins on and filters by, which `DatasetViewHolds` names |
| Views.DatasetViewHolds | packages/broker/src/apply/ddl.ts:524-579 | after a finished apply a dataset's view reads each stored field's column, each searchable one's search column, `workspace_id`, `_current`, `_rev_op` and what its joins name, and nothing else; dropping any of them is an error |
| Views.FileViewHolds | packages/broker/src/apply/ddl.ts:452-501 | the same for a file collection's view: its documents' columns, seven of the file's own, its vocabularies and its metadata |
| TablesLeft.DatasetColumns | packages/broker/src/apply/ddl.ts:253-350 | after a first apply a dataset's table has exactly the ten bookkeeping columns, its stored fields, its vocabularies and its search columns, each of its type |
| TablesLeft.FileColumns | packages/broker/src/apply/ddl.ts:162-250 | and a file collection's two tables the twelve and seven columns of their own, with its vocabularies and metadata among the files' |
| TablesLeft.IndexesLeft | packages/broker/src/apply/ddl.ts:349-382 | after any apply every index was there before or is one the collection asks for, over just these columns: workspace first, the pk behind if not named, and the two of the predicate |
| DdlFacts.DeclaredOnce | packages/broker/src/apply/ddl.ts:51-132 | no declared table gives one column two types |
| TableNames.TextIsInjective | packages/broker/src/config/schema.ts:760-766 | for collection names without a double underscore, distinct tables are looked up under distinct names |
| TableNames.LandsWhereLookedUp | packages/broker/src/apply/ddl.ts:284-345 | a table's statements land on the name it is looked up under if and only if it is a file collection's or the collection's name holds no capital |
| TableNames.LandingsMeet | packages/broker/src/apply/ddl.ts:284-345 | statements of two tables land on one if and only if both are datasets' and their names differ in case alone |
| TableNames.CapitalMeetsFolded | packages/broker/src/config/schema.ts:760-773 | for every name with a capital there is another, plain one, its folded form, whose dataset has the same table |
| TableNames.DropsByNameExactly | packages/broker/src/apply/apply.ts:22-24 | dropping by name drops the modelled tables if and only if no collection's own name ends in `__files` |
| Apply.Connection.Query | packages/broker/src/apply/apply.ts:107-118 | one query string on the one connection: all its statements or none, every state passed recorded |
| Apply.Connection.Sort | packages/broker/src/apply/apply.ts:44-57 | the loop that sorts changes into blocked ones and tables to drop |
| Apply.Connection.ResolveDestructive | packages/broker/src/apply/apply.ts:40-92 | refuses with every blocked change, or drops the rest and forgets collections that left |
| Apply.Connection.BuildTables | packages/broker/src/apply/apply.ts:216-254 | revision check in both environments, then the dev and live statements, then the shape check |
| Apply.Connection.BuildViews | packages/broker/src/apply/apply.ts:266-293 | both views recreated, then the registry row |
| Apply.Connection.ApplyOn | packages/broker/src/apply/apply.ts:125-295 | the issued statements are the run `ApplyRun` of a plan that lists exactly the planned changes |
| References.LiveDataSafe | packages/broker/src/apply/apply.ts:27-36 | on every database a deployment of applies, migrations and writes reaches, whatever its fields are called, at every intermediate state of an apply, whether it returns or throws, each live table that held rows is still there with every column, type and row unchanged; columns are only added |
| References.DeploymentKeepsReferences | packages/broker/src/apply/ddl.ts:238-238 | over every such deployment each chunk's file exists, though applies drop and rebuild tables and migrations cast columns |
| ApplySafety.SafeWhileReferenced | packages/broker/src/apply/apply.ts:19-24 | one apply loses nothing live as long as each chunk's file exists at its start |
| ApplySafety.DropsSpareLive | packages/broker/src/apply/apply.ts:40-57 | no populated live table is ever on the drop list; for the documents of an empty files table this rests on the foreign key |
| ApplySafety.RefusesExactly | packages/broker/src/apply/apply.ts:47-71 | apply refuses if and only if some destructive planned change sits on a populated live table, lists all of those, and has touched nothing |
| ApplySafety.UnplannedStays | packages/broker/src/apply/apply.ts:38-57 | in either environment, a table with no planned retype, dropped column, moved pk or dropped collection, for documents none for their files, is there with its columns and rows in every state of an apply |
| Forgetting.AclRowsForgotten | packages/broker/src/apply/apply.ts:79-91 | an apply that is not refused deletes exactly the ACL rows of the collections that left, in both environments |
| Forgetting.UnknownIsUntouched | packages/broker/src/apply/apply.ts:79-91 | tables and ACL rows of a name neither registered nor configured are left as they are, but for its own table where a configured dataset's name folds to it |
| Forgetting.MigratedDropStaysBehind | packages/broker/src/apply/migration-sql.ts:68-77 | running the statements offered for a dropped collection leaves its ACL rows and all its other tables, in both environments, through the next apply, unless a configured dataset's name folds to the dropped one's |
| References.MigratedDropOrphans | packages/broker/src/apply/migration-sql.ts:68-77 | of a file collection they leave the populated live documents without their files, through the next apply |
| References.ReaddedStaysOrphaned | packages/broker/src/apply/ddl.ts:210-240 | configured again, the collection gets an empty files table beside the old documents |
| References.OrphansAreDropped | packages/broker/src/apply/apply.ts:19-57 | any destructive change of that empty files table has apply drop the populated live documents |
| References.RefusesWhereSeen | packages/broker/src/apply/plan.ts:266-274 | on every database a deployment reaches apply refuses if and only if a populated live table differs destructively from its declaration, or its collection left, and the table's statements land on the name it is looked up under |
| References.CapitalKeepsAcl | packages/broker/src/apply/apply.ts:79-91 | the ACL rows of a dataset whose name holds a capital stay through every apply, also one of a config it has left |
| References.ConvergesAnywhere | packages/broker/src/apply/plan.ts:6-14 | from every database a deployment reaches, a finished apply leaves nothing to plan but indexes to drop if and only if no dataset the planner finds has a stray |
| Convergence.BatchNoOp | packages/broker/src/apply/ddl.ts:210-249 | statements that have been carried out change nothing when sent again |
| Convergence.ResolvedTables | packages/broker/src/apply/apply.ts:73-91 | what is left once destructive changes are settled: the tables not dropped, the registry without what left |
| Idempotence.FinishedSettles | packages/broker/src/apply/apply.ts:189-293 | after apply returns, every collection's statements are carried out, its views read existing columns and it is registered |
| Idempotence.WhatRemains | packages/broker/src/apply/plan.ts:6-14 | a change still planned after apply returns is an index to drop, or a stray: the column of an unstored binding or a search column that is neither declared nor structural |
| Idempotence.StrayRemains | packages/broker/src/apply/ddl.ts:287-307 | such a column is there after the apply, and the plan does want it dropped |
| Idempotence.StrayRefuses | packages/broker/src/apply/apply.ts:47-71 | so once the live table holds a document, every further apply of the unchanged config is refused |
| Idempotence.Converges | packages/broker/src/apply/plan.ts:6-14 | planning after apply finds nothing but indexes to drop if and only if every search column and every bound vocabulary of a dataset the planner finds is declared or carries a structural name |
| Idempotence.SecondApplyChangesNothing | packages/broker/src/apply/apply.ts:125-295 | then a second apply succeeds, and every state it passes is the one it started from up to views being recreated |
| Fresh.FreshRuns | packages/broker/src/apply/ddl.ts:301-384 | with no table yet, a dataset's statements finish if and only if no stored field is called like a bookkeeping column, its identity field has a column, no multi-valued vocabulary is called `workspace_id`, and every searchable field has text to search and a search column that can be indexed |
| Fresh.HeadRuns | packages/broker/src/apply/ddl.ts:319-359 | creating the table and its structural indexes works exactly when no name is listed twice and the identity field has a column |
| Upgrade.IndexesRun | packages/broker/src/apply/ddl.ts:374-378 | the index statements finish exactly when each index exists or its columns do |
| Upgrade.UpgradeRuns | packages/broker/src/apply/ddl.ts:301-384 | on an existing table the statements finish if and only if every declared index can be built over the columns from before, every term index is there or its column can be indexed, and every searchable field has an indexable search column or lands on text |
| Upgrade.TailRuns | packages/broker/src/apply/ddl.ts:264-307 | the column alters finish exactly when every term index and every searchable field lands |
| Upgrade.NewFieldIndexFails | packages/broker/src/apply/ddl.ts:374-382 | on what an earlier apply left, an index over a field added in the same edit makes apply throw |
| PlannersAgree.PlannersAgreeOn | packages/broker/src/apply/plan.ts:392-396 | on the schema a first apply of `prev` leaves, both planners report the same live destructive changes by collection, kind and field, except dropped columns of structural names, and plus exactly the columns no declaration named and a pk declared for the first time; all of this only where the table lies under the collection's own name, and otherwise planning against the database reports none |
| PlannersAgree.ColumnShape | packages/broker/src/apply/ddl.ts:162-384 | the columns a first apply leaves are exactly the declared ones and those laid down beside them, each with its type |
| PlannersAgree.IdentityShape | packages/broker/src/apply/plan.ts:193-219 | the identity a first apply leaves is the declared pk, or `id` |
| IndexNames.StructuralDropPlanned | packages/broker/src/apply/plan.ts:222-229 | the plan wants a structural index dropped if and only if the name before its ending holds the infix, underscore included, and no declared index is called so |
| Migration.RenderMigration | packages/broker/src/apply/migration-sql.ts:31-136 | view drops once per touched collection, then each live change's lines, ready or commented; what they say is in `FileSays`, and what running them does in `MigrationRuns` and `WholeFileRuns` |
| WholeFile.FileSays | packages/broker/src/apply/migration-sql.ts:47-133 | which statements the file holds, comments included, read off the plan change by change |
| WholeFile.WholeFileRuns | packages/broker/src/apply/migration-sql.ts:47-133 | over every database a history reaches: run whole, comments included, the file gets through if and only if no view still up and no generated column still there reads a column where it is dropped or cast; then exactly what the plan takes is gone and exactly what it retypes is cast, and of all planned changes but additions only moves of the pk away from `_rev` are left |
| WholeFile.SearchColumnFirst | packages/broker/src/apply/migration-sql.ts:90-100 | so a removed field goes only after its search column |
| Lowering.LoweringRuns | packages/broker/src/apply/migration-sql.ts:17-30 | a list of drops and casts runs through if and only if each of its statements does after those before it, and leaves the database it describes: columns, generated columns, identity, indexes, rows, views and registry |
| MigrationProofs.MigrationRuns | packages/broker/src/apply/migration-sql.ts:17-30 | the uncommented statements run if and only if no view left standing after the file's view drops reads a search column that goes or a column that is cast, and no other generated column stands in a cast's way; and their effect is the stated one |
| MigrationProofs.PlanAfterMigration | packages/broker/src/apply/migration-sql.ts:102-133 | of the destructive changes planned before, exactly the lossless live retypes are gone afterwards, and no new one has come |
| MigrationProofs.MigrationUnblocks | packages/broker/src/apply/migration-sql.ts:3-10 | the next apply refuses if and only if a populated live table had a change that needs review |
| MigrationProofs.MigrationKeepsRows | packages/broker/src/apply/migration-sql.ts:102-116 | rows keep their number; a column is lost exactly if it is named as a retyped field's search column, its values are wrapped exactly if it is retyped from text to text[], and every other value stays |
| MigrationProofs.ReviewedExactly | packages/broker/src/apply/plan.ts:49-84 | a retype needs no review exactly when a type a field can declare becomes text, an integer a number, a date a timestamp, or a text a list of one |
| Pipeline.HistoryTidy | packages/broker/src/apply/ddl.ts:301-307 | over any history of applies, migrations and row writes, search columns are the only generated ones in a field's way |
| Pipeline.PipelineFromAnyHistory | packages/broker/src/apply/migration-sql.ts:3-10 | from any database such a history reaches, the rendered migration runs exactly when nothing left standing is in its way, and then the next apply refuses exactly over what needs review |
| Pipeline.PkMoveStaysRefused | packages/broker/src/apply/migration-sql.ts:79-88 | on any database a history reaches, dropping the identity index, as the migration offers, leaves a blocked pk move blocked unless the key asked for is `_rev` |
| SearchAfter.SearchReadded | packages/broker/src/apply/migration-sql.ts:27-30 | after the migration a retyped field's search column can be added again if and only if the column is text |
| SearchAfter.WidenedNeverApplies | packages/broker/src/apply/migration-sql.ts:27-30 | a searchable field retyped without review to anything but text leaves a database on which no apply of the config finishes |
| SmallRuns.OneDatasetFinishes | packages/broker/src/apply/apply.ts:125-295 | a config of one dataset that meets the condition of `FreshRuns` and joins nothing but its own table is applied to an empty database |
| Witnesses.NewFieldIndexWitness | packages/broker/src/apply/ddl.ts:374-382 | on what such an apply leaves, a field and an index over it added in one edit throw |
| Witnesses.UnkeyedWitness | packages/broker/src/apply/ddl.ts:319-353 | a config of one dataset without a pk and without `id` is never applied |
| Witnesses.JoinedSearchWitness | packages/broker/src/apply/ddl.ts:303-307 | nor is one with a searchable joined field |
| Witnesses.UnstoredBindingWitness | packages/broker/src/apply/ddl.ts:287-299 | a relation named like a bound vocabulary: apply finishes, the next plan wants its column dropped, and with a live document every further apply is refused |
| Witnesses.LoggedSearchWitness | packages/broker/src/apply/ddl.ts:303-307 | the same for the search column of a field joined under the name `workspace_id` |
| Witnesses.DroppedAclWitness | packages/broker/src/apply/migration-sql.ts:68-77 | on a reached database the offered statements and the next apply leave an ACL row of the dropped collection |
| Witnesses.StructuralIndexWitness | packages/broker/src/apply/plan.ts:222-229 | after the first apply of a dataset named `a_ix_b` its identity's unique index is planned for dropping |
| Witnesses.CapitalWitness | packages/broker/src/apply/plan.ts:266-274 | a dataset `Docs` with a live document loses a field in the config: the configs' comparison reports it, the database's plan is empty, and apply returns with the table as it was |
| RetypeWitnesses.PkMoveWitness | packages/broker/src/apply/migration-sql.ts:79-88 | a moved pk over a live document: with the offered statement run, every plan is still refused |
| RetypeWitnesses.WidenedWitness | packages/broker/src/apply/migration-sql.ts:27-30 | a searchable vocabulary becomes multi-valued over a live document: every plan's migration runs, the search column cannot be added again, and no apply goes through |
| RetypeWitnesses.DeclaredSearchNameWitness | packages/broker/src/apply/migration-sql.ts:102-116 | `note` is retyped beside a declared `note_tsv`: every plan's migration runs and drops the latter with the live document's value |
| WholeWitness.SearchRemovedWitness | packages/broker/src/apply/migration-sql.ts:90-100 | a searchable vocabulary is removed over a live document: both its columns are planned to go, and no list of the plan with the field first gives a file that runs through |
| FileWitnesses.OrphanWitness | packages/broker/src/apply/migration-sql.ts:68-77 | one file with one chunk, reached by an apply and a write: the offered statements and the next apply leave the chunk without its file |
| FileWitnesses.ReaddedWitness | packages/broker/src/apply/ddl.ts:210-240 | the collection applied again has an empty files table beside that chunk |
| FileWitnesses.ChunksLostWitness | packages/broker/src/apply/apply.ts:19-57 | when it then loses its metadata field, every plan goes through and drops the populated live chunks |
| Zip.FindEnd | packages/providers/src/sheet.ts:32-38 | the backward scan finds the last position in its range with the signature, or reports that there is none |
| Zip.ReadDirectory | packages/providers/src/sheet.ts:41-71 | the loop over central headers reads the specified entries, stopping at the first error |
| Zip.ReadZip | packages/providers/src/sheet.ts:29-73 | no signature in range is the missing-directory error; otherwise the answer is that of the last one |
| Zip.OnlyTwoMethods | packages/providers/src/sheet.ts:64-70 | entries of methods 0 and 8 are read, and the first entry of another method is the reader's answer |
| ZipLayout.LaidOutReads | packages/providers/src/sheet.ts:41-71 | an archive whose headers lie anywhere, with any extra fields, comments and local lengths, reads back as its entries |
| ZipLayout.ListedExactly | packages/providers/src/sheet.ts:43-66 | for distinct names the result maps each name to its content and holds nothing else |
| ZipPack.ScanReaches | packages/providers/src/sheet.ts:33-33 | the scan reaches the end record exactly for comments of at most 65534 bytes |
| ZipPack.RoundTrip | packages/providers/src/sheet.ts:29-73 | what a writer following the format packs, within its limits and with no later signature, is read back name for name and byte for byte |
| ZipPack.ReadPacked | packages/providers/src/sheet.ts:29-73 | the same through the reader's own scan |
| Columns.ColumnIndex | packages/providers/src/sheet.ts:110-118 | the loop gives the zero-based number of the longest run of capital letters the reference starts with |
| Columns.ValueOfName | packages/providers/src/sheet.ts:109-118 | every number has a name that reads back as it |
| Columns.NameOfValue | packages/providers/src/sheet.ts:109-118 | every name is the one name of its number |
| Columns.OrderKept | packages/providers/src/sheet.ts:109-118 | names order by length and then alphabet exactly as their numbers do |
| Sheet.ReadRow | packages/providers/src/sheet.ts:163-200 | a row is as wide as its rightmost address, each column holds the last value addressed to it, gaps are empty strings |
| Sheet.ReadSheet | packages/providers/src/sheet.ts:159-205 | the grid is hole-free, each row is the last row element addressed to it, gaps are empty rows, and a row numbered 0 lands nowhere |
| Sheet.WidthIsTight | packages/providers/src/sheet.ts:168-199 | the width is one past the rightmost column addressed, and a cell without a reference follows the current end |
| Sheet.GridDetermined | packages/providers/src/sheet.ts:159-205 | that description leaves one grid only |
| Sheet.ValueReadsBack | packages/providers/src/sheet.ts:169-193 | inline text, shared text, booleans, errors, numbers, dates, formula results and blanks each read back as the text of the value they were written for |
| Sheet.WrittenReadsBack | packages/providers/src/sheet.ts:159-205 | a grid of such values, written with any references or none on rows and cells, has one reading: each value's text in its place |
| Lockout.Attempts.Before | apps/web/lib/lockout.ts:29-45 | refuses exactly while the row's lock lies in the future, and changes no row |
| Lockout.Attempts.AfterHook | apps/web/lib/lockout.ts:47-103 | a success deletes the row; a failure sweeps and then counts |
| Lockout.Attempts.Collect | apps/web/lib/lockout.ts:80-85 | the sweep takes exactly the stale rows, whichever account they belong to |
| Lockout.RowsAreRuns | apps/web/lib/lockout.ts:61-101 | under any interleaving of queries a row exists exactly when the last failure is neither cleared nor collected, and its count is the length of the run ending there |
| Lockout.RunIsLongest | apps/web/lib/lockout.ts:7-9 | no chain of failures, each carrying on from the one before, is longer than the run |
| Lockout.RunIsReached | apps/web/lib/lockout.ts:7-9 | and some chain is as long |
| LockoutSafety.RefusedExactly | apps/web/lib/lockout.ts:35-42 | sign-in is refused exactly when the last uncleared failure ended a run of at least five less than fifteen minutes ago |
| LockoutSafety.LockNotExtended | apps/web/lib/lockout.ts:87-90 | while a lock lasts, attempts on any account leave its row as it is |
| LockoutSafety.OthersDoNotMatter | apps/web/lib/lockout.ts:76-85 | erasing every other account's attempts changes none of an account's counts if and only if no foreign sweep between its own sweep and count finds its last failure outside the window |
| LockoutSafety.RefusedAlone | apps/web/lib/lockout.ts:76-79 | then it changes none of its refusals either |
| LockoutSafety.CountsAreStreaks | apps/web/lib/lockout.ts:35-101 | then a failure's count is the length of the streak of the account's own attempts it ends, and sign-in is refused exactly while the last streak has five failures and ended under fifteen minutes ago |
| LockoutSafety.StreakIsLongest | apps/web/lib/lockout.ts:7-9 | the streak is the longest run of failures at the end of the list, each swept at most fifteen minutes after the one before was counted |
| LockoutSafety.DisturbedDiffers | apps/web/lib/lockout.ts:80-101 | a history in which such a foreign sweep changes the count |
| RateLimit.Limiter.RateLimit | apps/web/lib/rate-limit.ts:31-51 | each call's answer and the next map are those of the history |
| RateLimit.Limiter.Sweep | apps/web/lib/rate-limit.ts:21-27 | the loop drops expired windows, and all of them if too many remain |
| RateLimit.SizeBounded | apps/web/lib/rate-limit.ts:16-19 | on every run the map holds at most one key more than the limit |
| RateLimitBounds.SweepRefines | apps/web/lib/rate-limit.ts:16-27 | while live windows stay within the limit, every answer is that of a limiter that never deletes |
| RateLimitBounds.SpanBound | apps/web/lib/rate-limit.ts:31-51 | every half-open span of one window's length admits at most 2 * max - 1 calls of a key |
| RateLimitBounds.SpanBoundIsTight | apps/web/lib/rate-limit.ts:31-51 | for every max and window of at least two milliseconds a run reaches that bound |
| RateLimitBounds.WindowBound | apps/web/lib/rate-limit.ts:38-50 | a window has admitted exactly its count, at most max |
| RateLimitBounds.RetryIsLeast | apps/web/lib/rate-limit.ts:43-48 | the stated seconds are the fewest that will do |
| RateLimitBounds.WaitingIsEnough | apps/web/lib/rate-limit.ts:43-48 | a refused caller whose key is next used after the stated seconds is admitted, whatever sweeps or clears came between |
| Principals.PrincipalForms | packages/broker/src/acl/principals.ts:31-36 | well-formed principals are exactly the two namespaces over non-empty names |
| Principals.PrincipalsKeptApart | packages/broker/src/acl/principals.ts:6-9 | no user principal is a group principal, and each carries one name |
| Acl.DedupeIsTheSet | packages/broker/src/acl/manage.ts:168-168 | deduplication keeps exactly the elements, each once |
| Acl.GateLetsThrough | packages/broker/src/acl/manage.ts:58-101 | past the gate come an admin or a manager of the workspace from the console and a client with its flag there, on a collection with ACLs and a key; everybody else gets `acl_denied` there, and no other collection answers so |
| Acl.AclStore.SetDocumentAcl | packages/broker/src/acl/manage.ts:150-223 | the refusals in order, each leaving the rows alone, for anybody not let through among them; otherwise the row is replaced, or deleted for an empty list, before the audit decides the answer |
| Acl.AclStore.GetDocumentAcl | packages/broker/src/acl/manage.ts:103-148 | the same gate, then the stored principals or none, for nobody else |
| Acl.AclStore.SetUserGroups | packages/broker/src/acl/manage.ts:255-281 | one source's groups for one user are replaced by the non-empty names; every other row stays |
| AclRule.ReachedRowsAreWellFormed | packages/broker/src/acl/manage.ts:162-203 | after any run of writes stored lists are non-empty, duplicate-free and well-formed |
| AclRule.RowsAreLatest | packages/broker/src/acl/manage.ts:150-203 | over any run of requests a document's ACL is what the last request in order set, under its caller, who was let through; a document without one has no row |
| AclRule.JoinIsSubquery | packages/broker/src/acl/sql.ts:62-67 | the scalar subquery and the view's left join see the same row, and at most one |
| AclRule.ClauseIsCheck | packages/broker/src/acl/sql.ts:30-33 | under three-valued logic the clause keeps a row exactly when the in-process check admits, NULL and empty array included |
| AclRule.FormsAgree | packages/broker/src/acl/principals.ts:53-65 | on every reachable state both forms admit a caller exactly when there is no row, or it names the user or one of the user's groups from either source |
| AclRule.SetDecidesAccess | packages/broker/src/acl/manage.ts:173-203 | after an ACL is set exactly the listed callers may read the document, and no other document changes |
| AclRule.NamespacesHold | packages/broker/src/acl/principals.ts:6-9 | an ACL naming one user admits that user alone, whatever groups carry that name |
| Sso.RoleForSsoUser | apps/web/lib/sso.ts:45-87 | without a map, member; otherwise the highest of the default and the asserted groups' roles |
| Sso.BestIsHighest | apps/web/lib/sso.ts:73-78 | the loop's result is one of the candidates: admin if any is, else manager if any is, else member |
| Sso.OrderIsIrrelevant | apps/web/lib/sso.ts:36-40 | asserting the same groups in another order or repeatedly gives the same role |
| Sso.Directory.FirstProvision | apps/web/lib/sso.ts:126-133 | true exactly for a user and provider not seen before |
| Sso.Directory.ProvisionUser | apps/web/lib/sso.ts:151-180 | one login: role on the first, groups when the claim arrived |
| Sso.MembershipIsLatest | apps/web/lib/sso.ts:89-102 | over any run, a user's groups from each source are those of the last event that set that source |
| Sso.RoleIsLatest | apps/web/lib/sso.ts:117-125 | over any run, the role is the one written by the last console change or first login through a provider |
| Sso.RoleReachesMembership | apps/web/lib/sso.ts:162-168 | a role that is written reaches the account and the workspace membership alike |
| Sso.FirstLoginWritesHighest | apps/web/lib/sso.ts:158-169 | what such a login writes is the highest candidate |
| Sso.LaterLoginsKeepRole | apps/web/lib/sso.ts:141-146 | logging in again through a provider never changes role or membership role |
| Sso.SecondProviderOverrides | apps/web/lib/sso.ts:126-133 | a first login through a second provider undoes a console promotion |
| Json.PrintUnambiguous | apps/web/lib/apply-status.ts:24-26 | the printed form of a value determines the value and where it ends |
| ApplyStatus.KeysDetermineOrder | apps/web/lib/apply-status.ts:9-13 | members in increasing key order are determined by their keys |
| ApplyStatus.CanonicalMeansSame | apps/web/lib/apply-status.ts:6-16 | equal canonical forms mean equality up to key order at every depth |
| ApplyStatus.SameMeansCanonical | apps/web/lib/apply-status.ts:6-16 | and such equality means equal canonical forms |
| ApplyStatus.StatusIsExact | apps/web/lib/apply-status.ts:22-27 | a config is reported applied if and only if one was and it equals the one on disk up to key order at every depth |
| Unwrap.UnwrapLines | scripts/agent/unwrap-md.py:33-120 | the nested loops end and emit the specified blocks, whose words, structure and order the rows below state |
| Unwrap.FrontMatter | scripts/agent/unwrap-md.py:39-45 | frontmatter up to its first closing line passes through |
| Unwrap.CopyFence | scripts/agent/unwrap-md.py:50-60 | a fence is copied up to its first closing line, or to the end |
| Unwrap.Fold | scripts/agent/unwrap-md.py:80-118 | the inner loops collect the first part and the following lines up to one that does not go on |
| UnwrapProofs.UnwrapConserves | scripts/agent/unwrap-md.py:2-7 | for every input the text survives, white space and quote markers aside, in no more lines |
| UnwrapProofs.VerbatimInPlace | scripts/agent/unwrap-md.py:2-7 | frontmatter and each fenced block come out line for line between the output of what precedes and of what follows |
| UnwrapProofs.SplitsAt | scripts/agent/unwrap-md.py:47-118 | lines are consumed once, in order: at each block's start the output so far stands for the lines so far |
| UnwrapProofs.UnwrapText | scripts/agent/unwrap-md.py:33-34 | the same from text to text; for its words see `Rewrite` |
| UnwrapWords.TextWords | scripts/agent/unwrap-md.py:123-138 | the loop of the check: quote markers go outside fenced code, and the rest is split at white space |
| UnwrapWords.WordsUnsplit | scripts/agent/unwrap-md.py:138-138 | the words of a text are those of its lines, one after the other |
| UnwrapChecked.OutputReadsBack | scripts/agent/unwrap-md.py:34-120 | splitting the output gives the lines that were put out |
| UnwrapChecked.LinesDecide | scripts/agent/unwrap-md.py:123-138 | for every text, the words before and after are the same if and only if no line is folded whose quote markers the fold and the check count differently |
| UnwrapChecked.Rewrite | scripts/agent/unwrap-md.py:141-153 | the script rewrites a text, words kept, exactly when that is so, and refuses it otherwise |
| UnwrapJoined.FoldsAllTheWay | scripts/agent/unwrap-md.py:2-7 | each paragraph, item and quote comes out as one line in its place, and the line behind it is none that would go on with it, unless it is a bare list marker that has lost its space |
| UnwrapJoined.StructureStays | scripts/agent/unwrap-md.py:4-6 | fences, headings, rules, tables, HTML, link references and blank lines are never folded, nor are bare `>` and alert markers; they come out alone |
| UnwrapWitnesses.NestedQuoteWitness | scripts/agent/unwrap-md.py:97-104 | a quote with a line that starts with `>>` is refused |
| UnwrapWitnesses.TwiceWitness | scripts/agent/unwrap-md.py:87-106 | a paragraph before a bare list marker: the second run joins what the first left |
| Slugs.SlugifyIsIdempotent | packages/broker/src/taxonomy.ts:162-168 | the result holds only a-z, 0-9 and single inner dashes, and slugs are exactly the texts left alone |
| Slugs.LettersAreKept | packages/broker/src/taxonomy.ts:162-168 | a text of ASCII letters and digits keeps each of them, letters in lower case |
| Taxonomy.TermStore.SyncRows | packages/broker/src/taxonomy.ts:80-101 | goes through exactly when every value has a slug and distinct values have distinct ones; otherwise stops at the first offending row, says which fault it has, and has written the earlier ones |
| Taxonomy.TermStore.SyncDatasetTerms | packages/broker/src/taxonomy.ts:40-104 | goes through exactly when every synced vocabulary has safe identifiers and faithful rows; otherwise it has stored the vocabularies before the first failing one whole and of that one the rows before the offending row |
| Taxonomy.TermsAreFaithful | packages/broker/src/taxonomy.ts:75-79 | then distinct values map to distinct non-empty slugs, each with a stored term, and no earlier term is gone |
| MigrationNames.HighestOf | packages/broker/src/apply/migration-sql.ts:140-143 | the reduce finds the highest leading number |
| MigrationNames.NextSortsLast | packages/broker/src/apply/migration-sql.ts:139-150 | over names with exactly four digits, the generated name sorts after all of them if and only if the highest is below 9999 |
| MigrationNames.SeriesListsInOrder | packages/cli/src/migrate.ts:34-40 | any series of generations is listed in the order generated |
| MigrationNames.DecimalReadsBack | packages/broker/src/apply/migration-sql.ts:149-149 | a number's decimal form reads back as it |

## Left out

- The embedding-width rebuild: the derived `embedding` column is dropped and recreated for a new width; the model keeps one width.
- Extensions, search path, roles, grants, row-level security and check constraints. The foreign key from documents to files is no statement here: that writes keep it is part of what a deployment is, that applies and migrations keep it is proved.
- Foreign tables: an external collection has no live table here, and whether the remote shape matches is a parameter.
- Statement text, log lines and details: statements are values. Names longer than Postgres keeps are not modelled. Index names belong to a table here and to a schema in Postgres, and views share no names with tables here.
- A view's own column names: a select list that names one column twice, as a searchable field beside a stored vocabulary called like its search column gives, would be refused by Postgres and is not here.
- Vocabulary and term upserts during apply, and the ACL join inside views: neither changes a planned column.
- Concurrent writers during apply: one connection runs alone.
- What parsing ensures is assumed as `Rules.SchemaRules` by Converges, WhatRemains, SecondApplyChangesNothing, PlannersAgreeOn, SearchAfter and the migrations of a history or deployment: distinct names, and of bound vocabularies, relations, searchable and indexed fields what the rules in `config/rules` refuse otherwise.
- Two datasets of one config whose names differ in case alone share a table (`LandingsMeet`); what applies of such a config come to is not described: `Finished`, and with it Converges, WhatRemains, SecondApplyChangesNothing, FinishedSettles, ReaddedStaysOrphaned and WidenedNeverApplies, is about configs without them.
- Idempotence.Converges: assumes that no registered collection's name differs from a configured one's in case alone, and that each table lies where statements land and holds `workspace_id`, which `ConvergesAnywhere` proves of every deployment; so do WhatRemains and SecondApplyChangesNothing.
- PlannersAgree.PlannersAgreeOn: says nothing of a collection under whose name another dataset's table lies, because the two names differ in case alone.
- Pipeline.PipelineFromAnyHistory: assumes that no field or vocabulary of the configs involved ends in `_tsv`; so do histories, PkMoveStaysRefused, WholeFileRuns and SearchAfter, while deployments in `References` do not.
- WholeFile.WholeFileRuns: the statements run one after the other, outside a transaction, which dropping an index concurrently asks for.
- TablesLeft.DatasetColumns, and FileColumns: about a first apply; on later ones `WhatRemains` says what may differ.
- Casts in place: the model keeps the value as it is, so that a listed cast loses nothing is not examined; whether the values of a cast that needs review convert is not modelled, nor does a failing one stop the file in `WholeFile`.
- Fresh.FreshRuns: about one dataset's table statements; that the views over it find every joined sibling column is not part of it.
- Cutting XML into tokens, entity decoding, text decoding, dates as ISO text and inflation: parameters of the reader. Column numbers are unbounded, not doubles.
- The clock: times are inputs. `LockoutSafety` assumes it never goes back and that attempts on one account do not overlap.
- Lower-casing is a parameter, constrained to leave slugs alone and, for LettersAreKept, to lower ASCII letters.
- Sso.Directory.ProvisionUser: does not model a failure between its queries, nor the warnings.
- Acl.AclStore.SetDocumentAcl: does not model timestamps, audit contents or driver errors.
- Heading, rule, link reference and alert patterns of the unwrapper are parameters, as is what `\d` takes beyond ASCII: they only decide where blocks end.
- Numbers in `Json` are carried as the text they print as; undefined inside a value is not modelled, since parsed YAML holds none.
- MigrationNames.NextSortsLast: leading numbers are unbounded, not doubles; with at most four digits they agree.
- Broker verbs, grants, revisions, OAuth, CLI commands, React components and deployment wrappers.
