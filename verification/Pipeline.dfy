/**
 Plan, migrate, apply, on the databases that applies leave: the shape every apply and every
 migration keeps is what makes the next migration legal.
 */
module Pipeline {
  import opened Wrappers
  import opened Config
  import opened Catalog
  import opened Ddl
  import opened DdlFacts
  import opened Plan
  import opened Apply
  import opened ApplySafety
  import opened Convergence
  import opened Idempotence
  import opened PlannersAgree
  import opened Rules
  import opened Migration
  import opened MigrationProofs

  // ----- names of search columns

  predicate EndsTsv(name: string) {
    |name| >= 4 && name[|name| - 4..] == "_tsv"
  }

  lemma TsvEnds(f: string)
    ensures EndsTsv(Tsv(f))
  {
    assert Tsv(f)[|f|..] == "_tsv";
  }

  lemma OwnNamesAreNotTsv(n: string)
    requires n in REV_COLUMNS + {"workspace_id"}
    ensures !EndsTsv(n)
  {
    if |n| >= 4 {
      var tail := n[|n| - 4..];
      assert tail[3] == n[|n| - 1] && tail[2] == n[|n| - 2];
      assert "_tsv"[3] == 'v' && "_tsv"[2] == 's';
    }
  }

  /** Naming: no field and no bound vocabulary ends in `_tsv`. */
  ghost predicate NoTsvFields(cfg: Config) {
    forall n | n in cfg.collections ::
      && (forall i :: 0 <= i < |cfg.collections[n].fields| ==> !EndsTsv(cfg.collections[n].fields[i].name))
      && (forall t :: t in cfg.collections[n].taxonomies ==> !EndsTsv(t))
  }

  /**
   Only search columns end in `_tsv`, and each is generated from the field it is named after. A dataset is
   keyed by `_rev`.
   */
  ghost predicate TidyTable(name: TableName, t: Table) {
    && (forall c :: c in t.columns && EndsTsv(c) ==> name.Main? && c in t.generated)
    && (forall g :: g in t.generated ==> g in t.columns && TidyGenerated(name, g, t.generated[g]))
    && (t.identity.Some? ==> !EndsTsv(t.identity.value))
    && (name.Main? ==> t.primaryKey == Some("_rev"))
  }

  predicate TidyGenerated(name: TableName, g: string, source: string) {
    && !EndsTsv(source)
    && match name
       case Main(_) => g == Tsv(source)
       case Files(_) => g == "blob_checksum" && source == "blob"
       case Documents(_) => g == "tsv" && source == "content"
  }

  ghost predicate Tidy(db: Db) {
    forall k :: k in db.tables ==> TidyTable(k.name, db.tables[k])
  }

  // ----- statements that keep a database tidy

  predicate TidyColumn(name: TableName, c: Column) {
    match c.generator
    case None => !EndsTsv(c.name)
    case Some(g) => TidyGenerated(name, c.name, GeneratorSource(g)) && (EndsTsv(c.name) ==> name.Main?)
  }

  ghost predicate TidyStatement(s: Statement) {
    match s
    case CreateTable(key, columns, pk) =>
      && (forall c :: c in columns ==> TidyColumn(key.name, c))
      && (key.name.Main? ==> pk == Some("_rev"))
    case AddColumn(key, c) => TidyColumn(key.name, c)
    case CreateIdentity(_, f) => !EndsTsv(f)
    case CreateIndex(_, _, _, _) => true
    case _ => false
  }

  lemma {:induction false} NewTableTidy(name: TableName, columns: seq<Column>, pk: Option<string>)
    requires Distinct(Names(columns)) && (forall c :: c in columns ==> TidyColumn(name, c))
      && (name.Main? ==> pk == Some("_rev"))
    ensures TidyTable(name, NewTable(columns, pk))
  {
    TypesFrom(columns);
    GeneratedFrom(columns);
    var t := NewTable(columns, pk);
    forall c | c in t.columns && EndsTsv(c) ensures name.Main? && c in t.generated {
      var i :| 0 <= i < |columns| && columns[i].name == c;
      assert columns[i] in columns;
    }
    forall g | g in t.generated ensures g in t.columns && TidyGenerated(name, g, t.generated[g]) {
      var i :| 0 <= i < |columns| && columns[i].name == g && columns[i].generator.Some?
               && t.generated[g] == GeneratorSource(columns[i].generator.value);
      assert columns[i] in columns;
    }
  }

  lemma {:induction false} GeneratedFrom(columns: seq<Column>)
    requires Distinct(Names(columns))
    ensures forall g :: g in GeneratedColumns(columns) ==>
      exists i :: && 0 <= i < |columns| && columns[i].name == g && columns[i].generator.Some?
                  && GeneratedColumns(columns)[g] == GeneratorSource(columns[i].generator.value)
    ensures forall i :: 0 <= i < |columns| && columns[i].generator.Some? ==>
      columns[i].name in GeneratedColumns(columns)
  {
    if columns != [] {
      var before := columns[..|columns| - 1];
      forall i, j | 0 <= i < j < |before| ensures Names(before)[i] != Names(before)[j] {
        assert Names(columns)[i] != Names(columns)[j];
      }
      GeneratedFrom(before);
      forall i | 0 <= i < |before| ensures before[i].name != columns[|columns| - 1].name {
        assert Names(columns)[i] != Names(columns)[|columns| - 1];
      }
    }
  }

  lemma ExecTidy(s: Statement, db: Db)
    requires Tidy(db) && TidyStatement(s) && Exec(s, db).Some?
    ensures Tidy(Exec(s, db).value)
  {
    var after := Exec(s, db).value;
    OwnTableTidy(s, db);
    forall k | k in after.tables ensures TidyTable(k.name, after.tables[k]) {
      if k != s.key {
        assert after.tables[k] == db.tables[k];
      }
    }
  }

  lemma OwnTableTidy(s: Statement, db: Db)
    requires Tidy(db) && TidyStatement(s) && Exec(s, db).Some?
    ensures s.key in Exec(s, db).value.tables && TidyTable(s.key.name, Exec(s, db).value.tables[s.key])
  {
    if s.key !in db.tables {
      NewTableTidy(s.key.name, s.columns, s.primaryKey);
    } else {
      var t := db.tables[s.key];
      assert TidyTable(s.key.name, t);
      match s
      case CreateTable(_, _, _) =>
      case AddColumn(key, c) => AddedTidy(key.name, t, c);
      case CreateIdentity(_, _) =>
      case CreateIndex(_, _, _, _) =>
    }
  }

  lemma AddedTidy(name: TableName, t: Table, c: Column)
    requires TidyTable(name, t) && TidyColumn(name, c) && AddColumnTo(t, c).Some?
    ensures TidyTable(name, AddColumnTo(t, c).value)
  {}

  lemma {:induction false} ExecAllTidy(ss: seq<Statement>, db: Db)
    requires Tidy(db) && (forall s :: s in ss ==> TidyStatement(s)) && ExecAll(ss, db).Some?
    ensures Tidy(ExecAll(ss, db).value)
  {
    if ss != [] {
      ExecAllTidy(ss[..|ss| - 1], db);
      assert ss[|ss| - 1] in ss;
      ExecTidy(ss[|ss| - 1], ExecAll(ss[..|ss| - 1], db).value);
    }
  }

  // ----- every table statement of a config with tidy names

  ghost predicate AllTidy(ss: seq<Statement>) {
    forall s :: s in ss ==> TidyStatement(s)
  }

  ghost predicate TidyNames(c: Collection) {
    && (forall i :: 0 <= i < |c.fields| ==> !EndsTsv(c.fields[i].name))
    && (forall t :: t in c.taxonomies ==> !EndsTsv(t))
  }

  lemma FirstPkIsField(fields: seq<FieldEntry>)
    ensures FirstPk(fields).Some? ==> exists i :: 0 <= i < |fields| && fields[i].name == FirstPk(fields).value
  {
    if fields != [] && !fields[0].field.pk {
      FirstPkIsField(fields[1..]);
      if FirstPk(fields).Some? {
        var i :| 0 <= i < |fields[1..]| && fields[1..][i].name == FirstPk(fields).value;
        assert fields[i + 1].name == FirstPk(fields).value;
      }
    }
  }

  lemma FixedColumnsTidy(name: TableName)
    ensures forall c :: c in REV_DDL ==> TidyColumn(name, c)
    ensures TidyColumn(name, WORKSPACE)
  {
    forall c | c in REV_DDL ensures TidyColumn(name, c) {
      OwnNamesAreNotTsv(c.name);
    }
    OwnNamesAreNotTsv("workspace_id");
  }

  lemma DataColumnsTidy(name: TableName, columns: seq<DeclaredColumn>)
    requires forall col :: col in columns ==> !EndsTsv(col.name)
    ensures forall c :: c in DataColumns(columns) ==> TidyColumn(name, c)
  {
    forall c | c in DataColumns(columns) ensures TidyColumn(name, c) {
      var i :| 0 <= i < |columns| && c == Bare(columns[i].name, columns[i].pgType);
      assert columns[i] in columns;
    }
  }

  lemma DatasetTidy(env: Env, name: string, c: Collection, multiple: set<string>)
    requires TidyNames(c)
    ensures AllTidy(DatasetBatch(env, name, c, multiple))
  {
    var key, pk := MainKey(env, name), IdentityField(c);
    var head := [DatasetCreate(key, name, c, multiple), AddColumn(key, WORKSPACE), CreateIdentity(key, pk),
                 HistoryIndex(key, name, pk)];
    DatasetCreateTidy(key, name, c, multiple);
    FixedColumnsTidy(key.name);
    assert !EndsTsv(pk) by { FirstPkIsField(c.fields); }
    var a := IndexStatements(key, name, c.indexes, pk);
    assert AllTidy(a);
    DatasetAltersTidy(key, name, c, multiple);
    AppendTidy(head, a);
    AppendTidy(head + a, FieldAlters(key, c.fields, c.taxonomies));
    AppendTidy(head + a + FieldAlters(key, c.fields, c.taxonomies), VocabAlters(key, name, c.taxonomies, multiple));
    AppendTidy(head + a + FieldAlters(key, c.fields, c.taxonomies) + VocabAlters(key, name, c.taxonomies, multiple),
               SearchAlters(key, name, c.fields));
  }

  lemma AppendTidy(a: seq<Statement>, b: seq<Statement>)
    requires AllTidy(a) && AllTidy(b)
    ensures AllTidy(a + b)
  {}

  lemma DatasetCreateTidy(key: TableKey, name: string, c: Collection, multiple: set<string>)
    requires TidyNames(c) && key.name.Main?
    ensures TidyStatement(DatasetCreate(key, name, c, multiple))
  {
    FixedColumnsTidy(key.name);
    StoredColumnsFrom(c.fields, c.taxonomies, multiple);
    DataColumnsTidy(key.name, StoredColumns(c.fields, c.taxonomies, multiple));
  }

  lemma DatasetAltersTidy(key: TableKey, name: string, c: Collection, multiple: set<string>)
    requires TidyNames(c) && key.name.Main?
    ensures AllTidy(FieldAlters(key, c.fields, c.taxonomies))
    ensures AllTidy(VocabAlters(key, name, c.taxonomies, multiple))
    ensures AllTidy(SearchAlters(key, name, c.fields))
  {
    FieldAltersFrom(key, c.fields, c.taxonomies);
    VocabAltersFrom(key, name, c.taxonomies, multiple);
    SearchAltersFrom(key, name, c.fields);
  }

  lemma FileNamesAreNotTsv(n: string)
    requires n in FILES_STRUCTURAL + DOCUMENTS_STRUCTURAL
    ensures !EndsTsv(n)
  {
    if |n| >= 4 {
      NotTsvByEnd(n);
    }
  }

  /** A name whose last letter is not v does not end in _tsv. */
  lemma NotTsvByEnd(n: string)
    requires |n| >= 4 && n[|n| - 1] != 'v'
    ensures !EndsTsv(n)
  {
    assert n[|n| - 4..][3] == n[|n| - 1];
  }

  lemma FileColumnsTidy(name: string)
    ensures forall c :: c in FILES_HEAD + FILES_TAIL + FILES_LATER ==> TidyColumn(Files(name), c)
  {
    HeadColumnsTidy(name);
    TailColumnsTidy(name);
    LaterColumnsTidy(name);
  }

  lemma HeadColumnsTidy(name: string)
    ensures forall c :: c in FILES_HEAD ==> TidyColumn(Files(name), c)
  {
    forall c | c in FILES_HEAD ensures TidyColumn(Files(name), c) {
      assert c.name in FILES_STRUCTURAL;
      FileNamesAreNotTsv(c.name);
    }
  }

  lemma TailColumnsTidy(name: string)
    ensures forall c :: c in FILES_TAIL ==> TidyColumn(Files(name), c)
  {
    forall c | c in FILES_TAIL ensures TidyColumn(Files(name), c) {
      assert c.name in FILES_STRUCTURAL;
      FileNamesAreNotTsv(c.name);
    }
  }

  lemma LaterColumnsTidy(name: string)
    ensures forall c :: c in FILES_LATER ==> TidyColumn(Files(name), c)
  {
    forall c | c in FILES_LATER ensures TidyColumn(Files(name), c) {
      assert c.name in FILES_STRUCTURAL;
      FileNamesAreNotTsv(c.name);
    }
  }

  lemma DocumentColumnsTidy(name: string)
    ensures forall c :: c in DOCUMENTS_DDL ==> TidyColumn(Documents(name), c)
  {
    forall n | n in DOCUMENTS_STRUCTURAL ensures !EndsTsv(n) {
      FileNamesAreNotTsv(n);
    }
    forall c | c in DOCUMENTS_DDL ensures TidyColumn(Documents(name), c) {
      assert c.name in DOCUMENTS_STRUCTURAL;
    }
  }

  lemma FileTidy(env: Env, name: string, c: Collection, multiple: set<string>)
    requires TidyNames(c)
    ensures AllTidy(FileBatch(env, name, c, multiple))
  {
    var key := TableKey(env, Files(name));
    FilesHeadTidy(key, name, c, multiple);
    FileAltersTidy(key, name, c, multiple);
    FilesUpgradesTidy(key, name);
    DocumentsBatchTidy(TableKey(env, Documents(name)), name);
    FiveTidy([FilesCreate(key, c, multiple), AddColumn(key, WORKSPACE)],
             VocabAlters(key, name + "__files", c.taxonomies, multiple),
             MetadataAlters(key, c.fields, c.taxonomies),
             FilesUpgrades(key, name),
             DocumentsBatch(TableKey(env, Documents(name)), name));
  }

  lemma FiveTidy(a: seq<Statement>, b: seq<Statement>, c: seq<Statement>, d: seq<Statement>, e: seq<Statement>)
    requires AllTidy(a) && AllTidy(b) && AllTidy(c) && AllTidy(d) && AllTidy(e)
    ensures AllTidy(a + b + c + d + e)
  {}

  lemma FilesHeadTidy(key: TableKey, name: string, c: Collection, multiple: set<string>)
    requires TidyNames(c) && key.name == Files(name)
    ensures AllTidy([FilesCreate(key, c, multiple), AddColumn(key, WORKSPACE)])
  {
    FixedColumnsTidy(Files(name));
    FileColumnsTidy(name);
    MetadataColumnsFrom(c.fields, c.taxonomies);
    DataColumnsTidy(Files(name), TermColumns(c.taxonomies, multiple));
    DataColumnsTidy(Files(name), MetadataColumns(c.fields, c.taxonomies));
  }

  lemma FilesUpgradesTidy(key: TableKey, name: string)
    requires key.name == Files(name)
    ensures AllTidy(FilesUpgrades(key, name))
  {
    LaterColumnsTidy(name);
    var later := FILES_LATER;
    assert forall i :: 0 <= i < |later| ==> later[i] in later && TidyColumn(Files(name), later[i]);
    SixTidy(AddColumn(key, later[0]), AddColumn(key, later[1]), AddColumn(key, later[2]), AddColumn(key, later[3]),
            AddColumn(key, later[4]), CreateIndex(key, name + "__files_blob_checksum_idx", ["blob_checksum"], false));
  }

  lemma SixTidy(a: Statement, b: Statement, c: Statement, d: Statement, e: Statement, f: Statement)
    requires TidyStatement(a) && TidyStatement(b) && TidyStatement(c) && TidyStatement(d) && TidyStatement(e)
      && TidyStatement(f)
    ensures AllTidy([a, b, c, d, e, f])
  {}

  lemma DocumentsBatchTidy(docs: TableKey, name: string)
    requires docs.name == Documents(name)
    ensures AllTidy(DocumentsBatch(docs, name))
  {
    FixedColumnsTidy(Documents(name));
    DocumentColumnsTidy(name);
  }

  lemma FileAltersTidy(key: TableKey, name: string, c: Collection, multiple: set<string>)
    requires TidyNames(c) && key.name == Files(name)
    ensures AllTidy(VocabAlters(key, name + "__files", c.taxonomies, multiple))
    ensures AllTidy(MetadataAlters(key, c.fields, c.taxonomies))
  {
    VocabAltersFrom(key, name + "__files", c.taxonomies, multiple);
    MetadataAltersFrom(key, c.fields, c.taxonomies);
  }

  lemma TableBatchTidy(env: Env, name: string, c: Collection, multiple: set<string>)
    requires TidyNames(c)
    ensures AllTidy(TableBatch(env, name, c, multiple))
  {
    DatasetTidy(env, name, c, multiple);
    FileTidy(env, name, c, multiple);
  }

  // ----- applies, migrations and writes keep a database tidy

  lemma SendTidy(r: Run, batch: seq<Statement>)
    requires Tidy(r.db) && AllTidy(batch)
    ensures Tidy(Send(r, batch).db)
  {
    if ExecAll(batch, r.db).Some? {
      ExecAllTidy(batch, r.db);
    }
  }

  lemma {:induction false} AllTablesTidy(r: Run, cfg: Config, names: seq<string>, matching: set<string>)
    requires Covers(cfg, names) && NoTsvFields(cfg) && Tidy(r.db)
    ensures Tidy(AllTables(r, cfg, names, matching).db)
  {
    if names != [] {
      var before, name := names[..|names| - 1], names[|names| - 1];
      AllTablesTidy(r, cfg, before, matching);
      var c := cfg.collections[name];
      TableBatchTidy(Dev, name, c, cfg.multiple);
      TableBatchTidy(Live, name, c, cfg.multiple);
      var mid := AllTables(r, cfg, before, matching);
      var checked := CheckRevisions(CheckRevisions(mid, Dev, name, c), Live, name, c);
      SendTidy(checked, TableBatch(Dev, name, c, cfg.multiple));
      SendTidy(Send(checked, TableBatch(Dev, name, c, cfg.multiple)), TableBatch(Live, name, c, cfg.multiple));
    }
  }

  lemma AppliedTidy(db: Db, cfg: Config, plan: seq<SchemaChange>, matching: set<string>)
    requires Keyed(cfg) && NoTsvFields(cfg) && Tidy(db)
    ensures Tidy(Applied(db, cfg, plan, matching).db)
  {
    var resolved := Resolve(Start(db), plan);
    if Blocked(db, plan) == [] {
      ResolvedTables(db, plan);
    }
    AllTablesTidy(resolved, cfg, cfg.names, matching);
    AllViewsKeepTables(AllTables(resolved, cfg, cfg.names, matching), cfg, cfg.names);
  }

  lemma MigratedTidy(db: Db, next: Config, changes: seq<SchemaChange>, after: Db)
    requires Tidy(db) && RanFrom(db, next, changes, after)
    ensures Tidy(after)
  {
    Ran(db, next, changes, after);
    forall k | k in after.tables ensures TidyTable(k.name, after.tables[k]) {
      assert TidyTable(k.name, db.tables[k]) && Migrated(db.tables[k], after.tables[k], LiveChanges(changes), k);
    }
  }

  /** Rows differ, nothing about the schema does. */
  ghost predicate OnlyRows(a: Db, b: Db) {
    && b.tables.Keys == a.tables.Keys
    && (forall k :: k in a.tables ==> b.tables[k] == a.tables[k].(rows := b.tables[k].rows))
    && b.views == a.views && b.registry == a.registry
  }

  ghost predicate AppliedStep(a: Db, b: Db, cfg: Config, plan: seq<SchemaChange>, matching: set<string>) {
    Keyed(cfg) && NoTsvFields(cfg) && Lists(plan, a, cfg) && b == Applied(a, cfg, plan, matching).db
  }

  /** The ready part of a rendered migration ran. */
  ghost predicate MigratedStep(a: Db, b: Db, cfg: Config, changes: seq<SchemaChange>) {
    SchemaRules(cfg) && NoTsvFields(cfg) && Lists(changes, a, cfg) && Migrate(changes, a) == Some(b)
  }

  /** Documents were written or deleted; Postgres keeps the reference of each to its file. */
  ghost predicate WrittenStep(a: Db, b: Db) {
    OnlyRows(a, b) && (ForeignKeys(a) ==> ForeignKeys(b))
  }

  ghost predicate Step(a: Db, b: Db) {
    || (exists cfg, plan, matching :: AppliedStep(a, b, cfg, plan, matching))
    || (exists cfg, changes :: MigratedStep(a, b, cfg, changes))
    || WrittenStep(a, b)
  }

  /** A deployment: from an empty database, applies (finished or not), migrations and writes. */
  ghost predicate History(states: seq<Db>) {
    && states != [] && states[0] == EMPTY
    && forall i :: 0 <= i < |states| - 1 ==> Step(states[i], states[i + 1])
  }

  lemma StepTidy(a: Db, b: Db)
    requires Tidy(a) && Step(a, b)
    ensures Tidy(b)
  {
    if cfg, plan, matching :| AppliedStep(a, b, cfg, plan, matching) {
      AppliedTidy(a, cfg, plan, matching);
    } else if cfg, changes :| MigratedStep(a, b, cfg, changes) {
      TidyMigratable(a, cfg, changes);
      MigratedTidy(a, cfg, changes, b);
    } else {
      forall k | k in b.tables ensures TidyTable(k.name, b.tables[k]) {
        assert TidyTable(k.name, a.tables[k]);
      }
    }
  }

  lemma {:induction false} HistoryTidy(states: seq<Db>)
    requires History(states)
    ensures Tidy(states[|states| - 1])
  {
    if |states| > 1 {
      var n := |states| - 1;
      HistoryTidy(states[..n]);
      StepTidy(states[n - 1], states[n]);
    }
  }

  // ----- a tidy database can be migrated

  lemma DeclaredNamesTidy(next: Config, name: string, d: DeclaredTable, f: string)
    requires NoTsvFields(next) && name in next.collections
    requires d in DeclaredTables(name, next.collections[name], next.multiple) && DeclaresName(d, f)
    ensures !EndsTsv(f) && !d.table.Documents?
  {
    var c := next.collections[name];
    if c.kind == Dataset {
      var j := DeclaredField(c, next.multiple, name, f);
    } else {
      var i :| 0 <= i < |d.columns| && d.columns[i].name == f;
      assert d == FilesTable(name, c, next.multiple) && d.columns[i] in d.columns;
      FilesColumn(c, next.multiple, d.columns[i]);
    }
  }

  lemma RetypeOwnsTsv(db: Db, next: Config, ch: SchemaChange)
    requires Tidy(db) && NoTsvFields(next) && Planned(db, next, ch) && LiveRetype(ch)
    ensures OwnsTsv(db, ch) && !EndsTsv(ch.kind.field)
    ensures Tsv(ch.kind.field) in db.tables[TableKey(Live, ch.table)].columns ==> ch.table.Main?
  {
    var d := RetypeFacts(db, next, ch);
    var f := ch.kind.field;
    var t := db.tables[TableKey(Live, ch.table)];
    assert DeclaresName(d, f);
    DeclaredNamesTidy(next, ch.collection, d, f);
    TsvEnds(f);
    assert TidyTable(ch.table, t);
    if Tsv(f) in t.generated {
      TsvIsFrom(ch.table, f, t.generated[Tsv(f)]);
    }
  }

  lemma TsvIsFrom(name: TableName, f: string, source: string)
    requires TidyGenerated(name, Tsv(f), source)
    ensures source == f
  {
    TsvEnds(f);
    match name
    case Main(_) => TsvInjective(f, source);
    case Files(_) => FileNamesAreNotTsv("blob_checksum");
    case Documents(_) => FileNamesAreNotTsv("tsv");
  }

  lemma TidyMigratable(db: Db, next: Config, changes: seq<SchemaChange>)
    requires Tidy(db) && Keyed(next) && NoTsvFields(next) && Lists(changes, db, next)
    ensures Migratable(db, next, changes) && SearchNamesFree(db, next, changes)
  {
    forall ch | ch in changes && LiveRetype(ch)
      ensures OwnsTsv(db, ch) && !EndsTsv(ch.kind.field)
      ensures Tsv(ch.kind.field) in db.tables[TableKey(Live, ch.table)].columns ==> ch.table.Main?
    {
      RetypeOwnsTsv(db, next, ch);
    }
    forall a, b | a in changes && b in changes && LiveRetype(a) && LiveRetype(b)
      ensures a.kind.field != Tsv(b.kind.field)
    {
      TsvEnds(b.kind.field);
    }
    forall n, d: DeclaredTable, f |
      n in next.collections && d in DeclaredTables(n, next.collections[n], next.multiple) && DeclaresName(d, f)
      ensures !DeclaresName(d, Tsv(f))
    {
      TsvEnds(f);
      if DeclaresName(d, Tsv(f)) {
        DeclaredNamesTidy(next, n, d, Tsv(f));
      }
    }
    forall k, g | k in db.tables && g in db.tables[k].generated ensures g in db.tables[k].columns {
      assert TidyTable(k.name, db.tables[k]);
    }
  }

  /**
   The pipeline, over every history: the ready part of the migration runs exactly when nothing left standing
   is in its way, and then the next apply gets past its destructive check exactly when no populated live
   table had a change for review.
   */
  lemma PipelineFromAnyHistory(
      states: seq<Db>, next: Config, changes: seq<SchemaChange>, again: seq<SchemaChange>, matching: set<string>)
    requires History(states) && Keyed(next) && NoTsvFields(next) && Lists(changes, states[|states| - 1], next)
    requires Migrate(changes, states[|states| - 1]).Some? ==>
      Lists(again, Migrate(changes, states[|states| - 1]).value, next)
    ensures var db := states[|states| - 1];
      && (Migrate(changes, db).Some? <==> AllFree(db, changes, changes))
      && (Migrate(changes, db).Some? ==>
            (HasRefused(Applied(Migrate(changes, db).value, next, again, matching)) <==>
             exists ch :: Planned(db, next, ch) && ReviewRequired(ch) && Blocks(db, ch)))
  {
    var db := states[|states| - 1];
    HistoryTidy(states);
    TidyMigratable(db, next, changes);
    MigrationRuns(db, next, changes);
    if Migrate(changes, db).Some? {
      MigrationUnblocks(db, next, changes, Migrate(changes, db).value, again, matching);
    }
  }

  /**
   On any database a history reaches, the commented statement for a moved primary key does not help: without
   the identity index the planner reads the table's own key, `_rev`, and the change is refused as before,
   unless the key asked for is `_rev` itself.
   */
  lemma PkMoveStaysRefused(
      states: seq<Db>, next: Config, ch: SchemaChange, after: Db, again: seq<SchemaChange>, matching: set<string>)
    requires History(states) && Keyed(next) && ch.kind.PkChange?
    requires var db := states[|states| - 1];
      && Planned(db, next, ch) && Blocks(db, ch)
      && Exec(DropIdentity(TableKey(Live, ch.table)), db) == Some(after)
    requires Lists(again, after, next)
    ensures LinesOf(ch) == [Commented(DropIdentity(TableKey(Live, ch.table)))]
    ensures PkBlocked(after, next, ch.collection) <==> ch.kind.wantPk != "_rev"
    ensures ch.kind.wantPk != "_rev" ==> HasRefused(Applied(after, next, again, matching))
  {
    var db := states[|states| - 1];
    HistoryTidy(states);
    var d: DeclaredTable :| Compared(db, next, ch.collection, ch.env, d) && d.table == ch.table
      && TableDiff(db.tables[TableKey(ch.env, d.table)], ch.collection, next.collections[ch.collection], d, ch.kind);
    assert TidyTable(ch.table, db.tables[TableKey(Live, ch.table)]);
    PkMoveReplanned(db, next, ch, after);
    RefusesExactly(after, next, again, matching);
  }
}
