/**
 A file collection that is applied, given a file with one chunk, dropped through its migration, configured again
 and changed: its populated chunks go. Every state is one the modelled code reaches.
 */
module FileWitnesses {
  import opened Wrappers
  import opened Config
  import opened Catalog
  import opened Ddl
  import opened DdlFacts
  import opened Rules
  import opened Plan
  import opened Apply
  import opened ApplySafety
  import opened Convergence
  import opened Idempotence
  import opened PlannersAgree
  import opened Migration
  import opened Pipeline
  import opened Forgetting
  import opened References
  import opened SmallRuns
  import Fresh

  /** A file collection with this metadata. */
  function Filed(fields: seq<FieldEntry>): Collection {
    Collection(File, fields, [], [], false)
  }

  const TOPIC: FieldEntry := StoredField("topic", FText, false)

  const NOTES: Config := Single("notes", Filed([TOPIC]), {})

  /** The same collection without its metadata field. */
  const BARE: Config := Single("notes", Filed([]), {})

  function FilesOf(env: Env): TableKey {
    TableKey(env, Files("notes"))
  }

  function ChunksOf(env: Env): TableKey {
    TableKey(env, Documents("notes"))
  }

  lemma NotesRules()
    ensures SchemaRules(NOTES) && Apart(NOTES) && SchemaRules(BARE)
  {}

  // ----- the statements run

  /** Every table but this one is as it was, and none is gone. */
  ghost predicate OnlyIn(db: Db, after: Db, key: TableKey) {
    && key in after.tables
    && (forall k :: k in after.tables && k != key ==> k in db.tables && after.tables[k] == db.tables[k])
    && forall k :: k in db.tables ==> k in after.tables
  }

  /** A plain column added to this table. */
  predicate Plainly(s: Statement, key: TableKey) {
    s.AddColumn? && s.key == key && s.column.generator.None?
  }

  predicate Adding(ss: seq<Statement>, c: string, t: PgType) {
    exists i :: 0 <= i < |ss| && ss[i].AddColumn? && ss[i].column.name == c && ss[i].column.pgType == t
  }

  /** Adding plain columns always works, and gives each column the type of a statement that names it. */
  lemma {:induction false} PlainlyRuns(ss: seq<Statement>, key: TableKey, db: Db)
    requires key in db.tables && forall i :: 0 <= i < |ss| ==> Plainly(ss[i], key)
    ensures var r := ExecAll(ss, db);
      && r.Some? && OnlyIn(db, r.value, key)
      && (forall i :: 0 <= i < |ss| ==> ss[i].AddColumn? && ss[i].column.name in r.value.tables[key].columns)
      && (forall c :: c in r.value.tables[key].columns ==>
            c in db.tables[key].columns || Adding(ss, c, r.value.tables[key].columns[c]))
  {
    if ss != [] {
      var front, last := ss[..|ss| - 1], ss[|ss| - 1];
      PlainlyRuns(front, key, db);
      var mid, after := ExecAll(front, db).value, ExecAll(ss, db).value;
      assert after == Exec(last, mid).value;
      forall c | c in after.tables[key].columns && c !in db.tables[key].columns
        ensures Adding(ss, c, after.tables[key].columns[c])
      {
        if c in mid.tables[key].columns {
          var i :| 0 <= i < |front| && front[i].AddColumn? && front[i].column.name == c
                   && front[i].column.pgType == mid.tables[key].columns[c];
          assert ss[i] == front[i];
        } else {
          assert last.column.name == c;
        }
      }
      forall i | 0 <= i < |ss| ensures ss[i].AddColumn? && ss[i].column.name in after.tables[key].columns {
        assert i < |front| ==> ss[i] == front[i];
      }
    }
  }

  /** The files table's statements up to the one that needs another column. */
  function PlainPart(key: TableKey): seq<Statement> {
    [AddColumn(key, WORKSPACE), AddColumn(key, Bare("topic", Text)), AddColumn(key, FILES_LATER[0]),
     AddColumn(key, FILES_LATER[1]), AddColumn(key, FILES_LATER[2]), AddColumn(key, FILES_LATER[3])]
  }

  function ChecksumPart(key: TableKey): seq<Statement> {
    [AddColumn(key, FILES_LATER[4]),
     CreateIndex(key, "notes" + "__files_blob_checksum_idx", ["blob_checksum"], false)]
  }

  lemma NotesBatch(env: Env)
    ensures var key := FilesOf(env);
      TableBatch(env, "notes", Filed([TOPIC]), {})
      == [FilesCreate(key, Filed([TOPIC]), {})] + PlainPart(key) + ChecksumPart(key)
          + DocumentsBatch(ChunksOf(env), "notes")
  {
    var key, fields := FilesOf(env), [TOPIC];
    assert fields[..0] == [];
    assert MetadataAlters(key, fields[..0], []) == [];
    assert MetadataAlters(key, fields, []) == [AddColumn(key, Bare("topic", Text))];
    assert VocabAlters(key, "notes" + "__files", [], {}) == [];
  }

  function NotesColumns(): seq<Column> {
    FilesCreate(FilesOf(Dev), Filed([TOPIC]), {}).columns
  }

  lemma NotesColumnsAre()
    ensures NotesColumns() == FILES_HEAD + [Bare("topic", Text)] + FILES_TAIL
    ensures Distinct(Names(NotesColumns()))
    ensures forall i :: 0 <= i < |NotesColumns()| ==> NotesColumns()[i].name != "blob"
  {
    hide MetadataColumns;
    NotesMetadata();
    assert TermColumns([], {}) == [];
    assert DataColumns([MetadataColumn(TOPIC)]) == [Bare("topic", Text)];
    var all := NotesColumns();
    assert all == FILES_HEAD + [Bare("topic", Text)] + FILES_TAIL;
    assert all[0].name == "id" && all[1].name == "workspace_id" && all[2].name == "title" && all[3].name == "path"
        && all[4].name == "topic" && all[5].name == "owner" && all[6].name == "checksum"
        && all[7].name == "updated_at" && all[8].name == "origin" && |all| == 9;
  }

  lemma ChecksumRuns(db: Db, key: TableKey)
    requires key in db.tables && "blob" in db.tables[key].columns && db.tables[key].columns["blob"] == Bytea
    ensures ExecAll(ChecksumPart(key), db).Some? && OnlyIn(db, ExecAll(ChecksumPart(key), db).value, key)
  {
    var ss := ChecksumPart(key);
    ExecTwo(ss[0], ss[1], db);
    var mid := Exec(ss[0], db).value;
    assert "blob_checksum" in mid.tables[key].columns;
    assert ["blob_checksum"][0] == "blob_checksum";
  }

  lemma CreateRuns(db: Db, key: TableKey)
    requires key !in db.tables
    ensures var r := ExecAll([FilesCreate(key, Filed([TOPIC]), {})], db);
      r.Some? && OnlyIn(db, r.value, key) && "blob" !in r.value.tables[key].columns
  {
    var create := FilesCreate(key, Filed([TOPIC]), {});
    NotesColumnsAre();
    assert create.columns == NotesColumns();
    TypesFrom(create.columns);
    ExecSingle(create, db);
  }

  lemma PlainPartRuns(db: Db, key: TableKey)
    requires key in db.tables && "blob" !in db.tables[key].columns
    ensures var r := ExecAll(PlainPart(key), db);
      && r.Some? && OnlyIn(db, r.value, key)
      && "blob" in r.value.tables[key].columns && r.value.tables[key].columns["blob"] == Bytea
  {
    var plain := PlainPart(key);
    PlainlyRuns(plain, key, db);
    assert plain[4] == AddColumn(key, FILES_LATER[2]);
    var after := ExecAll(plain, db).value;
    OnlyBytea(key, after.tables[key].columns["blob"]);
  }

  lemma OnlyBytea(key: TableKey, t: PgType)
    requires Adding(PlainPart(key), "blob", t)
    ensures t == Bytea
  {}

  lemma OnlyInTwice(a: Db, b: Db, c: Db, key: TableKey)
    requires OnlyIn(a, b, key) && OnlyIn(b, c, key)
    ensures OnlyIn(a, c, key)
  {}

  lemma FilesRun(db: Db, env: Env)
    requires FilesOf(env) !in db.tables
    ensures var key := FilesOf(env);
      var r := ExecAll([FilesCreate(key, Filed([TOPIC]), {})] + PlainPart(key) + ChecksumPart(key), db);
      r.Some? && OnlyIn(db, r.value, key)
  {
    hide OnlyIn;
    hide FilesCreate;
    hide PlainPart;
    hide ChecksumPart;
    var key := FilesOf(env);
    var create, plain := [FilesCreate(key, Filed([TOPIC]), {})], PlainPart(key);
    CreateRuns(db, key);
    var made := ExecAll(create, db).value;
    MadeThere(db, made, key);
    PlainPartRuns(made, key);
    ExecAppend(create, plain, db);
    var mid := ExecAll(plain, made).value;
    OnlyInTwice(db, made, mid, key);
    MadeThere(made, mid, key);
    ChecksumRuns(mid, key);
    ExecAppend(create + plain, ChecksumPart(key), db);
    OnlyInTwice(db, mid, ExecAll(ChecksumPart(key), mid).value, key);
  }

  lemma MadeThere(db: Db, after: Db, key: TableKey)
    requires OnlyIn(db, after, key)
    ensures key in after.tables
  {}

  lemma ChunksTypes()
    ensures var t := Types(DOCUMENTS_DDL);
      "workspace_id" in t && "tsv" in t && t["tsv"] == Tsvector && "embedding" in t && Distinct(Names(DOCUMENTS_DDL))
  {
    DocumentsOwnNames();
    TypesFrom(DOCUMENTS_DDL);
    assert DOCUMENTS_DDL[1].name == "workspace_id" && DOCUMENTS_DDL[5].name == "tsv"
        && DOCUMENTS_DDL[5].pgType == Tsvector && DOCUMENTS_DDL[6].name == "embedding";
  }

  lemma ChunksRun(db: Db, env: Env)
    requires ChunksOf(env) !in db.tables
    ensures ExecAll(DocumentsBatch(ChunksOf(env), "notes"), db).Some?
  {
    hide Types;
    hide GeneratedColumns;
    hide Names;
    var docs := ChunksOf(env);
    var ss := DocumentsBatch(docs, "notes");
    ChunksTypes();
    Fresh.FourRun(ss[0], ss[1], ss[2], ss[3], db);
    var made := Exec(ss[0], db).value;
    assert made.tables[docs := made.tables[docs]] == made.tables;
    assert Exec(ss[1], made) == Some(made);
    assert ["tsv"][0] == "tsv" && ["embedding"][0] == "embedding";
  }

  /** Without a files table the statements run, whether the chunks' table is missing or complete. */
  lemma NotesRun(db: Db, env: Env)
    requires FilesOf(env) !in db.tables
    requires ChunksOf(env) !in db.tables || AllSatisfied(DocumentsBatch(ChunksOf(env), "notes"), db)
    ensures ExecAll(TableBatch(env, "notes", Filed([TOPIC]), {}), db).Some?
  {
    var key, docs := FilesOf(env), DocumentsBatch(ChunksOf(env), "notes");
    var files := [FilesCreate(key, Filed([TOPIC]), {})] + PlainPart(key) + ChecksumPart(key);
    NotesBatch(env);
    FilesRun(db, env);
    ExecAppend(files, docs, db);
    var mid := ExecAll(files, db).value;
    if ChunksOf(env) in db.tables {
      forall s | s in docs ensures Builds(s) && Satisfied(s, mid) {
        assert Satisfied(s, db);
        assert s.key == ChunksOf(env);
      }
      BatchNoOp(docs, mid);
    } else {
      ChunksRun(mid, env);
    }
  }

  // ----- the view finds its columns

  /** Both tables are there with their own columns, and the files have the metadata column. */
  ghost predicate Furnished(db: Db, env: Env) {
    && FilesOf(env) in db.tables && ChunksOf(env) in db.tables
    && FILES_STRUCTURAL + {"topic"} <= db.tables[FilesOf(env)].columns.Keys
    && DOCUMENTS_STRUCTURAL <= db.tables[ChunksOf(env)].columns.Keys
  }

  lemma TopicUse(key: TableKey, columns: seq<DeclaredColumn>)
    requires |columns| == 1 && columns[0].name == "topic"
    ensures DeclaredUses(key, columns) == {ColumnRef(key, "topic")}
  {
    assert forall ref :: ref in DeclaredUses(key, columns) <==> ref == ColumnRef(key, columns[0].name);
  }

  lemma FurnishedIsReadable(db: Db, env: Env)
    requires Furnished(db, env)
    ensures Readable(db, ViewUses(env, "notes", Filed([TOPIC]), {}))
  {
    hide MetadataColumns;
    hide DeclaredUses;
    NotesMetadata();
    assert TermColumns([], {}) == [];
    NoUse(FilesOf(env));
    TopicUse(FilesOf(env), [MetadataColumn(TOPIC)]);
  }

  lemma NotesMetadata()
    ensures MetadataColumns([TOPIC], []) == [MetadataColumn(TOPIC)]
  {
    var fields := [TOPIC];
    assert fields[..0] == [];
    assert MetadataColumns(fields[..0], []) == [];
  }

  lemma NoUse(key: TableKey)
    ensures DeclaredUses(key, []) == {}
  {}

  /** A table that was there keeps its own columns, and one that was not gets them. */
  lemma OwnColumnsThere(base: Db, after: Db, env: Env, d: DeclaredTable)
    requires d in DeclaredTables("notes", Filed([TOPIC]), {})
    requires Sourced(NOTES, base, after) && Grown(base, after) && Built(NOTES, "notes", after)
    requires Landed(env, d.table) in base.tables ==> OwnNames(d.table) <= base.tables[Landed(env, d.table)].columns.Keys
    ensures Landed(env, d.table) in after.tables
    ensures OwnNames(d.table) <= after.tables[Landed(env, d.table)].columns.Keys
  {
    hide Built;
    hide Introduced;
    var key := Landed(env, d.table);
    DeclaredTableExists(NOTES, after, "notes", env, d);
    if key !in base.tables {
      NewIsMade(base, after, env, d);
      forall f | f in OwnNames(d.table) ensures f in after.tables[key].columns {
        OwnPresent(NOTES, after, "notes", env, d, f);
      }
    } else {
      assert Extends(base.tables[key], after.tables[key]);
    }
  }

  lemma NewIsMade(base: Db, after: Db, env: Env, d: DeclaredTable)
    requires d in DeclaredTables("notes", Filed([TOPIC]), {}) && Landed(env, d.table) in after.tables
    requires Sourced(NOTES, base, after) && Built(NOTES, "notes", after) && Landed(env, d.table) !in base.tables
    ensures Made(NOTES, after, "notes", env, d)
  {
    hide Introduced;
    hide HasListed;
    hide Creates;
    hide Built;
    hide Apart;
    hide SchemaRules;
    NotesRules();
    assert SourcedTable(NOTES, base, Landed(env, d.table), after.tables[Landed(env, d.table)]);
  }

  lemma BuiltIsFurnished(base: Db, after: Db, env: Env)
    requires Sourced(NOTES, base, after) && Grown(base, after) && Built(NOTES, "notes", after)
    requires FilesOf(env) in base.tables ==> FILES_STRUCTURAL <= base.tables[FilesOf(env)].columns.Keys
    requires ChunksOf(env) in base.tables ==> DOCUMENTS_STRUCTURAL <= base.tables[ChunksOf(env)].columns.Keys
    ensures Furnished(after, env)
  {
    hide Sourced;
    hide Built;
    hide Grown;
    var c := Filed([TOPIC]);
    OwnColumnsThere(base, after, env, FilesTable("notes", c, {}));
    OwnColumnsThere(base, after, env, DocumentsTable("notes"));
    TopicThere(after, env);
  }

  lemma TopicThere(after: Db, env: Env)
    requires Built(NOTES, "notes", after)
    ensures FilesOf(env) in after.tables && "topic" in after.tables[FilesOf(env)].columns
  {
    NotesBatch(env);
    var s := AddColumn(FilesOf(env), Bare("topic", Text));
    assert s == PlainPart(FilesOf(env))[1];
    BuiltSatisfies(NOTES, "notes", env, s, after);
  }

  // ----- applying it

  /** What an apply of the notes starts from: the database whose tables the collection has, or lacks. */
  ghost predicate Starting(db: Db) {
    && FilesOf(Live) !in db.tables
    && (if FilesOf(Dev) in db.tables then AllSatisfied(TableBatch(Dev, "notes", Filed([TOPIC]), {}), db)
        else ChunksOf(Dev) !in db.tables)
    && (ChunksOf(Live) in db.tables ==> AllSatisfied(DocumentsBatch(ChunksOf(Live), "notes"), db))
    && forall env ::
         && (FilesOf(env) in db.tables ==> FILES_STRUCTURAL <= db.tables[FilesOf(env)].columns.Keys)
         && (ChunksOf(env) in db.tables ==> DOCUMENTS_STRUCTURAL <= db.tables[ChunksOf(env)].columns.Keys)
  }

  lemma NotesTablesRun(db: Db)
    requires Starting(db)
    ensures TablesOf(Start(db), NOTES, "notes", {}).failure.None?
  {
    hide FileBatch;
    hide DocumentsBatch;
    hide AllSatisfied;
    DevRuns(db);
    var mid := ExecAll(TableBatch(Dev, "notes", Filed([TOPIC]), {}), db).value;
    NotesRun(mid, Live);
  }

  /** The dev statements run, or have nothing to do, and leave live tables alone. */
  lemma DevRuns(db: Db)
    requires Starting(db)
    ensures var r := ExecAll(TableBatch(Dev, "notes", Filed([TOPIC]), {}), db);
      && r.Some? && FilesOf(Live) !in r.value.tables
      && (ChunksOf(Live) in r.value.tables ==> AllSatisfied(DocumentsBatch(ChunksOf(Live), "notes"), r.value))
  {
    hide FileBatch;
    hide DocumentsBatch;
    hide AllSatisfied;
    var batch := TableBatch(Dev, "notes", Filed([TOPIC]), {});
    if FilesOf(Dev) in db.tables {
      BatchNoOp(batch, db);
    } else {
      NotesRun(db, Dev);
    }
    var mid := ExecAll(batch, db).value;
    TableBatchBuilds(Dev, "notes", Filed([TOPIC]), {});
    BatchMakesOwn(batch, Dev, "notes", db);
    TableBatchGrows(Dev, "notes", Filed([TOPIC]), {});
    ExecAllGrows(batch, db);
    if ChunksOf(Live) in db.tables {
      AllSatisfiedStable(DocumentsBatch(ChunksOf(Live), "notes"), db, mid);
    }
  }

  lemma NotesFinish(db: Db)
    requires Starting(db) && Lists([], db, NOTES)
    ensures Finished(db, NOTES, [], {}) && FilesOf(Live) in Applied(db, NOTES, [], {}).db.tables
    ensures var after := Applied(db, NOTES, [], {}).db; forall env :: Furnished(after, env)
  {
    hide TablesOf;
    hide ViewsOf;
    hide ViewUses;
    hide Applied;
    hide Furnished;
    NotesRules();
    SourcedSelf(NOTES, db);
    NotesTablesRun(db);
    TableStep(NOTES, db, Start(db), "notes", {});
    var tabled := TablesOf(Start(db), NOTES, "notes", {});
    forall env ensures Furnished(tabled.db, env) && Readable(tabled.db, ViewUses(env, "notes", Filed([TOPIC]), {})) {
      BuiltIsFurnished(db, tabled.db, env);
      FurnishedIsReadable(tabled.db, env);
    }
    NotesViews(db);
  }

  lemma NotesViews(db: Db)
    requires var tabled := TablesOf(Start(db), NOTES, "notes", {});
      && tabled.failure.None?
      && forall env :: Furnished(tabled.db, env) && Readable(tabled.db, ViewUses(env, "notes", Filed([TOPIC]), {}))
    ensures Applied(db, NOTES, [], {}).failure.None?
    ensures var after := Applied(db, NOTES, [], {}).db; forall env :: Furnished(after, env)
    ensures FilesOf(Live) in Applied(db, NOTES, [], {}).db.tables
  {
    var tabled, c := TablesOf(Start(db), NOTES, "notes", {}), Filed([TOPIC]);
    ViewsRun(NOTES, "notes", tabled);
    SingleRun(db, "notes", c, {}, {});
    ThreeKeepTables(tabled, ViewBatch(Dev, "notes", c, {}), ViewBatch(Live, "notes", c, {}), "notes", c);
    forall env ensures Furnished(Applied(db, NOTES, [], {}).db, env) {
      assert Furnished(tabled.db, env);
    }
    assert Furnished(tabled.db, Live);
  }

  // ----- a file with a chunk, dropped through the migration

  /** One file with one chunk. */
  function WithChunk(db: Db): Db {
    if FilesOf(Live) in db.tables && ChunksOf(Live) in db.tables
    then db.(tables := db.tables[FilesOf(Live) := db.tables[FilesOf(Live)].(rows := [map["id" := Scalar("1")]])]
                                [ChunksOf(Live) := db.tables[ChunksOf(Live)].(rows := [map["file_id" := Scalar("1")]])])
    else db
  }

  lemma ChunkReferences(db: Db)
    requires ForeignKeys(db)
    ensures ForeignKeys(WithChunk(db))
  {
    var b := WithChunk(db);
    forall env, n, i | TableKey(env, Documents(n)) in b.tables && 0 <= i < |b.tables[TableKey(env, Documents(n))].rows|
      ensures ReferencesFile(b, env, n, b.tables[TableKey(env, Documents(n))].rows[i])
    {
      if FilesOf(Live) in db.tables && ChunksOf(Live) in db.tables && TableKey(env, Documents(n)) == ChunksOf(Live) {
        var f := b.tables[FilesOf(Live)].rows[0];
        assert Cell(f, "id") == Cell(b.tables[ChunksOf(Live)].rows[i], "file_id");
      } else {
        assert ReferencesFile(db, env, n, db.tables[TableKey(env, Documents(n))].rows[i]);
      }
    }
  }

  lemma ChunkStep(db: Db)
    ensures WrittenStep(db, WithChunk(db))
  {
    if ForeignKeys(db) {
      ChunkReferences(db);
    }
  }

  /** An apply of the notes to an empty database, and a file with its chunk. */
  ghost predicate NotesKept(states: seq<Db>) {
    && |states| == 3 && states[0] == EMPTY && FirstApply(NOTES, {}, states[1]) && states[2] == WithChunk(states[1])
    && forall env :: Furnished(states[1], env)
  }

  lemma KeepNotes() returns (states: seq<Db>)
    ensures NotesKept(states) && Deployment(states)
  {
    hide Applied;
    hide Finished;
    hide Furnished;
    hide WrittenStep;
    hide Deployed;
    hide Step;
    NothingOnEmpty(NOTES);
    NotesFinish(EMPTY);
    var first := Applied(EMPTY, NOTES, [], {}).db;
    ChunkStep(first);
    FirstOfNotes(first);
    TwoSteps(EMPTY, first, WithChunk(first));
    states := [EMPTY, first, WithChunk(first)];
  }

  lemma FirstOfNotes(first: Db)
    requires Finished(EMPTY, NOTES, [], {}) && first == Applied(EMPTY, NOTES, [], {}).db
    ensures FirstApply(NOTES, {}, first) && Deployed(EMPTY, first)
  {
    hide Applied;
    hide Finished;
    FirstStep(NOTES, first);
  }

  /** What the migration offers for the dropped collection, and the database without its live files table. */
  ghost predicate NotesDropped(db: Db, ch: SchemaChange, after: Db) {
    && ch == SchemaChange("notes", Live, Files("notes"), DropCollection)
    && ExecAll([DropTable(TableKey(Live, ch.table)), Unregister(ch.collection)], db) == Some(after)
    && after.tables == db.tables - {FilesOf(Live)} && after.registry == map[]
  }

  lemma DropNotes(states: seq<Db>) returns (ch: SchemaChange, after: Db)
    requires NotesKept(states)
    ensures NotesDropped(states[2], ch, after)
    ensures Planned(states[2], NOTHING, ch) && Blocks(states[2], ch)
    ensures Keyed(NOTHING) && Lists([], after, NOTHING)
  {
    hide FirstApply;
    hide Sourced;
    hide Settled;
    FirstFacts(NOTES, {}, states[1]);
    assert Furnished(states[1], Live);
    var db := states[2];
    ch := SchemaChange("notes", Live, Files("notes"), DropCollection);
    assert "notes" in db.registry.Keys;
    assert Dropped(db, NOTHING, ch);
    after := CollectionDropped(db, Files("notes"));
    DropAndUnregister(db, FilesOf(Live), "notes", after);
    assert after.registry.Keys == {};
  }

  /** On a database a deployment reaches, the offered statements leave the chunk without its file. */
  lemma OrphanWitness() returns (states: seq<Db>, ch: SchemaChange, after: Db)
    ensures Deployment(states) && NotesKept(states) && NotesDropped(states[2], ch, after)
    ensures Planned(states[2], NOTHING, ch) && Blocks(states[2], ch)
    ensures Keyed(NOTHING) && Lists([], after, NOTHING)
    ensures Orphaned(Applied(after, NOTHING, [], {}).db, "notes")
  {
    hide Applied;
    hide Deployment;
    hide NotesDropped;
    hide FirstApply;
    states := KeepNotes();
    ch, after := DropNotes(states);
    ChunkThere(states);
    OrphansFollow(states[2], ch, after);
  }

  lemma ChunkThere(states: seq<Db>)
    requires NotesKept(states)
    ensures Populated(states[2], ChunksOf(Live)) && Populated(states[2], FilesOf(Live))
  {
    assert Furnished(states[1], Live);
  }

  lemma OrphansFollow(db: Db, ch: SchemaChange, after: Db)
    requires NotesDropped(db, ch, after) && Planned(db, NOTHING, ch) && Populated(db, ChunksOf(Live))
    requires Keyed(NOTHING) && Lists([], after, NOTHING)
    ensures Orphaned(Applied(after, NOTHING, [], {}).db, "notes") && Orphaned(after, "notes")
  {
    hide Applied;
    hide Lists;
    hide Planned;
    MigratedDropOrphans(db, NOTHING, ch, after, [], {});
  }

  // ----- configured again

  /** Nothing differs from the notes in any table a first apply left. */
  lemma NothingDiffers(first: Db, env: Env, d: DeclaredTable, kind: ChangeKind)
    requires FirstApply(NOTES, {}, first) && Compared(first, NOTES, "notes", env, d)
    ensures !TableDiff(first.tables[TableKey(env, d.table)], "notes", Filed([TOPIC]), d, kind)
  {
    hide FirstApply;
    hide Finished;
    var ch := SchemaChange("notes", env, d.table, kind);
    NotesRules();
    if TableDiff(first.tables[TableKey(env, d.table)], "notes", Filed([TOPIC]), d, kind) {
      assert Drifted(first, NOTES, ch);
      FirstRemains(first, ch);
    }
  }

  lemma FirstRemains(first: Db, ch: SchemaChange)
    requires FirstApply(NOTES, {}, first) && Planned(first, NOTES, ch)
    ensures ch.kind.DropIndexChange?
  {
    hide Applied;
    hide Planned;
    NotesRules();
    NothingOnEmpty(NOTES);
    WhatRemains(EMPTY, NOTES, [], {}, ch);
  }

  lemma NothingPlannedAgain(states: seq<Db>, after: Db, ch: SchemaChange)
    requires NotesKept(states) && after.tables == states[2].tables - {FilesOf(Live)} && after.registry == map[]
    ensures !Planned(after, NOTES, ch)
  {
    hide FirstApply;
    if Planned(after, NOTES, ch) {
      var d: DeclaredTable :| Compared(after, NOTES, ch.collection, ch.env, d) && d.table == ch.table
        && TableDiff(after.tables[TableKey(ch.env, d.table)], ch.collection, NOTES.collections[ch.collection], d,
            ch.kind);
      assert Compared(states[1], NOTES, "notes", ch.env, d);
      NothingDiffers(states[1], ch.env, d, ch.kind);
    }
  }

  /** The collection can be applied again to what the dropped one left. */
  lemma DroppedIsStarting(states: seq<Db>, after: Db)
    requires NotesKept(states) && after.tables == states[2].tables - {FilesOf(Live)}
    ensures Starting(after)
  {
    hide FirstApply;
    hide Sourced;
    hide Viewed;
    hide FileBatch;
    hide DocumentsBatch;
    FirstFacts(NOTES, {}, states[1]);
    var first := states[1];
    assert Built(NOTES, "notes", first);
    assert Furnished(first, Dev) && Furnished(first, Live);
    ChunksSatisfied(first, after, Live);
    DevSatisfied(first, after);
  }

  lemma ChunksSatisfied(first: Db, after: Db, env: Env)
    requires AllSatisfied(TableBatch(env, "notes", Filed([TOPIC]), {}), first)
    requires ChunksOf(env) in first.tables && ChunksOf(env) in after.tables
    requires after.tables[ChunksOf(env)] == first.tables[ChunksOf(env)].(rows := after.tables[ChunksOf(env)].rows)
    ensures AllSatisfied(DocumentsBatch(ChunksOf(env), "notes"), after)
  {
    NotesBatch(env);
    var docs := DocumentsBatch(ChunksOf(env), "notes");
    forall s | s in docs ensures Builds(s) && Satisfied(s, after) {
      assert s in TableBatch(env, "notes", Filed([TOPIC]), {});
      assert Satisfied(s, first) && s.key == ChunksOf(env);
    }
  }

  lemma DevSatisfied(first: Db, after: Db)
    requires AllSatisfied(TableBatch(Dev, "notes", Filed([TOPIC]), {}), first)
    requires forall k :: k in first.tables && k.env == Dev ==> k in after.tables && after.tables[k] == first.tables[k]
    ensures AllSatisfied(TableBatch(Dev, "notes", Filed([TOPIC]), {}), after)
  {
    var batch := TableBatch(Dev, "notes", Filed([TOPIC]), {});
    TableBatchBuilds(Dev, "notes", Filed([TOPIC]), {});
    forall s | s in batch ensures Builds(s) && Satisfied(s, after) {
      assert Satisfied(s, first);
    }
  }

  /** Applied again, the notes have a new empty files table, beside the chunk without a file. */
  lemma ReaddedWitness() returns (states: seq<Db>, ch: SchemaChange, after: Db, again: Db)
    ensures Deployment(states) && NotesKept(states) && NotesDropped(states[2], ch, after)
    ensures Planned(states[2], NOTHING, ch) && Blocks(states[2], ch)
    ensures Finished(after, NOTES, [], {}) && again == Applied(after, NOTES, [], {}).db
    ensures FilesOf(Live) in again.tables && Orphaned(again, "notes") && !ForeignKeys(again)
  {
    hide Applied;
    hide Deployment;
    hide Finished;
    hide Starting;
    hide FirstApply;
    states := KeepNotes();
    ch, after := DropNotes(states);
    ChunkThere(states);
    OrphansFollow(states[2], ch, after);
    NotesBack(states, after);
    again := Applied(after, NOTES, [], {}).db;
    NotesRules();
    ReaddedStaysOrphaned(after, NOTES, [], {}, "notes");
  }

  lemma NotesBack(states: seq<Db>, after: Db)
    requires NotesKept(states) && after.tables == states[2].tables - {FilesOf(Live)} && after.registry == map[]
    ensures Finished(after, NOTES, [], {}) && Furnished(Applied(after, NOTES, [], {}).db, Live)
  {
    hide Applied;
    hide Finished;
    hide Starting;
    hide FirstApply;
    hide Planned;
    forall other ensures !Planned(after, NOTES, other) {
      NothingPlannedAgain(states, after, other);
    }
    DroppedIsStarting(states, after);
    NotesFinish(after);
  }

  // ----- and then changed

  /** The chunks' table has no columns but its own. */
  ghost predicate ChunksPlain(db: Db) {
    ChunksOf(Live) in db.tables && db.tables[ChunksOf(Live)].columns.Keys == DOCUMENTS_STRUCTURAL
  }

  lemma ChunksStayPlain(base: Db, later: Db)
    requires Sourced(NOTES, base, later) && Furnished(later, Live)
    requires ChunksOf(Live) in base.tables ==> ChunksPlain(base)
    ensures ChunksPlain(later)
  {
    hide Introduced;
    var key := ChunksOf(Live);
    assert SourcedTable(NOTES, base, key, later.tables[key]);
    forall f | f in later.tables[key].columns ensures f in DOCUMENTS_STRUCTURAL {
      if !(key in base.tables && f in base.tables[key].columns) {
        NewChunkColumn(base, later.tables[key].columns, f);
      }
    }
  }

  lemma NewChunkColumn(base: Db, cols: map<string, PgType>, f: string)
    requires f in cols && Introduced(NOTES, base, ChunksOf(Live), cols, f)
    requires ChunksOf(Live) in base.tables ==> f != "workspace_id"
    ensures f in DOCUMENTS_STRUCTURAL
  {
    hide Introduced;
    hide Apart;
    hide SchemaRules;
    var d := DocumentsTable("notes");
    NotesRules();
    IntroducedFits(NOTES, base, "notes", Live, d, cols, f);
    OwnTypes(Documents("notes"));
  }

  lemma BaseOfNothing(db: Db)
    ensures Base(db, []) == db
  {
    assert Drops([]) + Forget([]) == [];
  }

  /** What the collection's second apply leaves: one registered collection, and plain chunks. */
  lemma AgainIs(states: seq<Db>, after: Db, again: Db)
    requires NotesKept(states) && after.tables == states[2].tables - {FilesOf(Live)} && after.registry == map[]
    requires Finished(after, NOTES, [], {}) && again == Applied(after, NOTES, [], {}).db && Furnished(again, Live)
    ensures again.registry.Keys == {"notes"} && ChunksPlain(again)
  {
    hide Applied;
    hide FirstApply;
    hide Sourced;
    hide Settled;
    hide Grown;
    FirstFacts(NOTES, {}, states[1]);
    assert Furnished(states[1], Live);
    ChunksStayPlain(EMPTY, states[1]);
    FinishedSettles(after, NOTES, [], {});
    BaseOfNothing(after);
    ChunksStayPlain(after, again);
  }

  /** The field that goes is planned for, and nothing planned rests on a populated table. */
  lemma TopicGone(again: Db) returns (gone: SchemaChange)
    requires Furnished(again, Live) && Orphaned(again, "notes") && again.registry.Keys == {"notes"}
      && ChunksPlain(again)
    ensures gone.table == Files("notes") && gone.collection == "notes" && gone.env == Live && Destructive(gone)
    ensures gone.kind.DropColumnChange? && gone.kind.field == "topic" && Planned(again, BARE, gone)
  {
    var t, d := again.tables[FilesOf(Live)], FilesTable("notes", Filed([]), {});
    gone := SchemaChange("notes", Live, Files("notes"), DropColumnChange("topic", t.columns["topic"]));
    assert d.columns == [];
    assert Compared(again, BARE, "notes", Live, d);
    assert ColumnDiff(t, d, gone.kind);
    assert Drifted(again, BARE, gone);
  }

  lemma NothingBlocks(again: Db, ch: SchemaChange)
    requires Orphaned(again, "notes") && again.registry.Keys == {"notes"} && ChunksPlain(again)
    requires Planned(again, BARE, ch)
    ensures !Blocks(again, ch)
  {
    assert forall n :: n in again.registry ==> n in again.registry.Keys;
    var d: DeclaredTable :| Compared(again, BARE, ch.collection, ch.env, d) && d.table == ch.table
      && TableDiff(again.tables[TableKey(ch.env, d.table)], ch.collection, BARE.collections[ch.collection], d, ch.kind);
    assert ch.kind.DropColumnChange? ==>
        d.table.Files? || ch.kind.field in again.tables[TableKey(ch.env, d.table)].columns.Keys;
  }

  /** This plan refuses nothing, and its apply drops the populated chunks. */
  ghost predicate DropsChunks(again: Db, plan: seq<SchemaChange>, matching: set<string>) {
    Blocked(again, plan) == [] && !Populated(Applied(again, BARE, plan, matching).db, ChunksOf(Live))
  }

  /** Once the metadata field is taken out of the config, every apply of it drops the populated live chunks. */
  lemma ChunksLostWitness() returns (states: seq<Db>, ch: SchemaChange, after: Db, again: Db, gone: SchemaChange)
    ensures Deployment(states) && NotesKept(states) && NotesDropped(states[2], ch, after)
    ensures Planned(states[2], NOTHING, ch) && Blocks(states[2], ch)
    ensures Finished(after, NOTES, [], {}) && again == Applied(after, NOTES, [], {}).db
    ensures Planned(again, BARE, gone) && gone.kind.DropColumnChange? && Populated(again, ChunksOf(Live))
    ensures forall plan, matching :: Lists(plan, again, BARE) ==> DropsChunks(again, plan, matching)
  {
    hide Applied;
    hide Deployment;
    hide Finished;
    hide FirstApply;
    hide Planned;
    hide Furnished;
    hide DropsChunks;
    states, ch, after, again := ReaddedWitness();
    NotesBack(states, after);
    AgainIs(states, after, again);
    gone := TopicGone(again);
    forall plan, matching | Lists(plan, again, BARE) ensures DropsChunks(again, plan, matching) {
      ChunksLost(again, plan, matching, gone);
    }
  }

  lemma ChunksLost(again: Db, plan: seq<SchemaChange>, matching: set<string>, gone: SchemaChange)
    requires Orphaned(again, "notes") && again.registry.Keys == {"notes"} && ChunksPlain(again)
    requires Lists(plan, again, BARE) && Planned(again, BARE, gone) && Destructive(gone) && gone.env == Live
    requires gone.table == Files("notes") && gone.collection == "notes"
    ensures DropsChunks(again, plan, matching)
  {
    hide Applied;
    hide Planned;
    hide Blocks;
    NotesRules();
    BlockedLists(again, plan);
    forall ch | ch in plan ensures !Blocks(again, ch) {
      NothingBlocks(again, ch);
    }
    if Blocked(again, plan) != [] {
      assert Blocked(again, plan)[0] in Blocked(again, plan);
    }
    OrphansAreDropped(again, BARE, plan, matching, gone);
  }
}
