/**
 Convergence and idempotence: what a finished apply leaves is what the config declares, so planning
 it again finds nothing destructive and applying it again changes nothing.
 */
module Convergence {
  import opened Wrappers
  import opened Config
  import opened Catalog
  import opened Ddl
  import opened DdlFacts
  import opened Rules
  import opened Plan
  import opened Apply
  import opened ApplySafety

  /** What every table applies make has: a name they land on, and the columns that come with its creation. */
  ghost predicate Sound(db: Db) {
    forall k :: k in db.tables ==> Seen(k.name) && "workspace_id" in db.tables[k].columns
  }

  // ----- statements that have been carried out

  /** The statement has nothing left to do. */
  ghost predicate Satisfied(s: Statement, db: Db)
    requires Builds(s)
  {
    && s.key in db.tables
    && match s
       case CreateTable(_, _, _) => true
       case AddColumn(key, column) => column.name in db.tables[key].columns
       case CreateIdentity(key, _) => db.tables[key].identity.Some?
       case CreateIndex(key, index, _, _) => index in db.tables[key].indexes
  }

  ghost predicate AllSatisfied(ss: seq<Statement>, db: Db) {
    forall s :: s in ss ==> Builds(s) && Satisfied(s, db)
  }

  lemma SatisfiedStable(s: Statement, db: Db, later: Db)
    requires Builds(s) && Satisfied(s, db) && Grown(db, later)
    ensures Satisfied(s, later)
  {}

  lemma SatisfiedAfter(s: Statement, db: Db)
    requires Builds(s) && Exec(s, db).Some?
    ensures Satisfied(s, Exec(s, db).value)
  {}

  lemma SatisfiedNoOp(s: Statement, db: Db)
    requires Builds(s) && Satisfied(s, db)
    ensures Exec(s, db) == Some(db)
  {
    var t := db.tables[s.key];
    assert db.tables[s.key := t] == db.tables;
  }

  lemma {:induction false} BatchSatisfied(ss: seq<Statement>, db: Db)
    requires (forall s :: s in ss ==> Builds(s)) && ExecAll(ss, db).Some?
    ensures AllSatisfied(ss, ExecAll(ss, db).value)
  {
    if ss != [] {
      var before, last := ss[..|ss| - 1], ss[|ss| - 1];
      BatchSatisfied(before, db);
      var mid := ExecAll(before, db).value;
      var after := ExecAll(ss, db).value;
      assert last in ss;
      ExecGrows(last, mid);
      SatisfiedAfter(last, mid);
      forall s | s in ss ensures Satisfied(s, after) {
        if s in before {
          SatisfiedStable(s, mid, after);
        }
      }
    }
  }

  lemma {:induction false} BatchNoOp(ss: seq<Statement>, db: Db)
    requires AllSatisfied(ss, db)
    ensures ExecAll(ss, db) == Some(db)
    ensures forall s :: s in Passed(ss, db) ==> s == db
  {
    if ss != [] {
      BatchNoOp(ss[..|ss| - 1], db);
      SatisfiedNoOp(ss[|ss| - 1], db);
    }
  }

  // ----- where the columns of a built table come from

  predicate Adds(s: Statement, key: TableKey, column: string, t: PgType) {
    match s
    case CreateTable(k, columns, _) =>
      k == key && Distinct(Names(columns))
      && exists i :: 0 <= i < |columns| && columns[i].name == column && columns[i].pgType == t
    case AddColumn(k, c) => k == key && c.name == column && c.pgType == t
    case _ => false
  }

  /** Statements of collection `n` land on the table. */
  predicate Owns(cfg: Config, key: TableKey, n: string) {
    n in cfg.collections && OwnKey(key, key.env, n)
  }

  /** The statements of the one collection whose statements land there, if any do. */
  ghost function BatchFor(cfg: Config, key: TableKey): seq<Statement> {
    if n :| Owns(cfg, key, n) then TableBatch(key.env, n, cfg.collections[n], cfg.multiple) else []
  }

  lemma OwnedOnce(cfg: Config, key: TableKey, a: string, b: string)
    requires Apart(cfg) && Owns(cfg, key, a) && Owns(cfg, key, b)
    ensures a == b
  {}

  lemma BatchOf(cfg: Config, key: TableKey, name: string)
    requires Apart(cfg) && Owns(cfg, key, name)
    ensures BatchFor(cfg, key) == TableBatch(key.env, name, cfg.collections[name], cfg.multiple)
  {
    forall n | Owns(cfg, key, n) ensures n == name {
      OwnedOnce(cfg, key, n, name);
    }
  }

  lemma OwnerOf(cfg: Config, key: TableKey, s: Statement) returns (name: string)
    requires s in BatchFor(cfg, key)
    ensures Owns(cfg, key, name) && BatchFor(cfg, key) == TableBatch(key.env, name, cfg.collections[name], cfg.multiple)
  {
    name :| Owns(cfg, key, name)
        && BatchFor(cfg, key) == TableBatch(key.env, name, cfg.collections[name], cfg.multiple);
  }

  predicate AddsColumn(s: Statement, key: TableKey, column: string) {
    s.AddColumn? && s.key == key && s.column.name == column
  }

  predicate ListsColumn(s: Statement, key: TableKey, column: string) {
    s.CreateTable? && s.key == key && exists i :: 0 <= i < |s.columns| && s.columns[i].name == column
  }

  /** What a generated column is computed from stands in the table, with the type it needs. */
  predicate Fed(s: Statement, columns: map<string, PgType>) {
    s.AddColumn? && s.column.generator.Some? ==>
      var g := s.column.generator.value;
      GeneratorSource(g) in columns && columns[GeneratorSource(g)] == GeneratorInput(g)
  }

  /**
   Statement `i` can have put the column there. An `add column if not exists` can only where none before it
   did, and on a table that was created only where the column was not on the list.
   */
  ghost predicate PutBy(batch: seq<Statement>, i: nat, base: Db, key: TableKey, column: string, t: PgType)
    requires i < |batch|
  {
    && Adds(batch[i], key, column, t)
    && (batch[i].AddColumn? ==>
          && (forall j :: 0 <= j < i ==> !AddsColumn(batch[j], key, column))
          && (key !in base.tables ==> forall s :: s in batch ==> !ListsColumn(s, key, column)))
  }

  ghost predicate Introduced(cfg: Config, base: Db, key: TableKey, columns: map<string, PgType>, column: string)
    requires column in columns
  {
    var batch := BatchFor(cfg, key);
    exists i :: 0 <= i < |batch| && PutBy(batch, i, base, key, column, columns[column]) && Fed(batch[i], columns)
  }

  ghost predicate Creates(cfg: Config, key: TableKey) {
    exists s :: s in BatchFor(cfg, key) && s.CreateTable? && s.key == key
  }

  /** Every column on the list the table was created from. */
  ghost predicate HasListed(cfg: Config, key: TableKey, columns: map<string, PgType>) {
    forall s, c :: s in BatchFor(cfg, key) && ListsColumn(s, key, c) ==> c in columns
  }

  ghost predicate SourcedTable(cfg: Config, base: Db, key: TableKey, t: Table) {
    && (key !in base.tables ==> Creates(cfg, key) && HasListed(cfg, key, t.columns))
    && (forall c :: c in t.columns ==>
          (key in base.tables && c in base.tables[key].columns) || Introduced(cfg, base, key, t.columns, c))
    && (t.identity.Some? ==>
          || (key in base.tables && base.tables[key].identity == t.identity)
          || CreateIdentity(key, t.identity.value) in BatchFor(cfg, key))
  }

  /** Everything in `db` was in `base` already or was put there by the owner's own statements. */
  ghost predicate Sourced(cfg: Config, base: Db, db: Db) {
    forall key :: key in db.tables ==> SourcedTable(cfg, base, key, db.tables[key])
  }

  lemma {:induction false} TypesFrom(columns: seq<Column>)
    requires Distinct(Names(columns))
    ensures forall c :: c in Types(columns) <==> exists i :: 0 <= i < |columns| && columns[i].name == c
    ensures forall i :: 0 <= i < |columns| ==>
      columns[i].name in Types(columns) && Types(columns)[columns[i].name] == columns[i].pgType
  {
    if columns != [] {
      var before := columns[..|columns| - 1];
      var names := Names(columns);
      forall i, j | 0 <= i < j < |before| ensures Names(before)[i] != Names(before)[j] {
        assert names[i] != names[j];
      }
      TypesFrom(before);
      forall i | 0 <= i < |before| ensures before[i].name != columns[|columns| - 1].name {
        assert names[i] != names[|columns| - 1];
      }
    }
  }

  lemma MainCreates(env: Env, name: string, c: Collection, multiple: set<string>, s: Statement)
    requires s in TableBatch(env, name, c, multiple) && s.CreateTable? && s.key.name.Main?
    ensures |s.columns| > 0 && s.columns[0].name == "_rev"
  {
    match c.kind
    case Dataset => OnlyCreate(env, name, c, multiple, s);
    case File => FileCreates(env, name, c, multiple, s);
  }

  lemma OnlyCreate(env: Env, name: string, c: Collection, multiple: set<string>, s: Statement)
    requires s in DatasetBatch(env, name, c, multiple) && s.CreateTable?
    ensures s == DatasetCreate(MainKey(env, name), name, c, multiple)
  {
    var key := MainKey(env, name);
    FieldAltersFrom(key, c.fields, c.taxonomies);
    VocabAltersFrom(key, name, c.taxonomies, multiple);
    SearchAltersFrom(key, name, c.fields);
  }

  lemma FileCreates(env: Env, name: string, c: Collection, multiple: set<string>, s: Statement)
    requires s in FileBatch(env, name, c, multiple) && s.CreateTable?
    ensures || s == FilesCreate(TableKey(env, Files(name)), c, multiple)
            || s == CreateTable(TableKey(env, Documents(name)), DOCUMENTS_DDL, Some("id"))
  {
    var files := TableKey(env, Files(name));
    MetadataAltersFrom(files, c.fields, c.taxonomies);
    VocabAltersFrom(files, name + "__files", c.taxonomies, multiple);
  }

  /** No table has two `create table` statements. */
  lemma OneCreate(env: Env, name: string, c: Collection, multiple: set<string>, s: Statement, u: Statement)
    requires s in TableBatch(env, name, c, multiple) && u in TableBatch(env, name, c, multiple)
    requires s.CreateTable? && u.CreateTable? && s.key == u.key
    ensures s == u
  {
    match c.kind {
      case Dataset =>
        OnlyCreate(env, name, c, multiple, s);
        OnlyCreate(env, name, c, multiple, u);
      case File =>
        FileCreates(env, name, c, multiple, s);
        FileCreates(env, name, c, multiple, u);
    }
  }

  lemma CreatedSourced(cfg: Config, base: Db, i: nat, s: Statement)
    requires s.CreateTable? && Distinct(Names(s.columns)) && s.key !in base.tables
    requires i < |BatchFor(cfg, s.key)| && BatchFor(cfg, s.key)[i] == s
    ensures SourcedTable(cfg, base, s.key, NewTable(s.columns, s.primaryKey))
  {
    TypesFrom(s.columns);
    var t := NewTable(s.columns, s.primaryKey);
    var batch := BatchFor(cfg, s.key);
    assert s in batch;
    var name := OwnerOf(cfg, s.key, s);
    forall c | c in t.columns ensures Introduced(cfg, base, s.key, t.columns, c) {
      assert PutBy(batch, i, base, s.key, c, t.columns[c]) && Fed(batch[i], t.columns);
    }
    forall u, c | u in batch && ListsColumn(u, s.key, c) ensures c in t.columns {
      OneCreate(s.key.env, name, cfg.collections[name], cfg.multiple, s, u);
    }
  }

  /** What put a column there once is still what put it there when the table has grown. */
  lemma IntroducedStays(
      cfg: Config, base: Db, key: TableKey, cols: map<string, PgType>, more: map<string, PgType>, c: string)
    requires c in cols && Introduced(cfg, base, key, cols, c)
    requires forall n :: n in cols ==> n in more && more[n] == cols[n]
    ensures Introduced(cfg, base, key, more, c)
  {
    var batch := BatchFor(cfg, key);
    var i :| 0 <= i < |batch| && PutBy(batch, i, base, key, c, cols[c]) && Fed(batch[i], cols);
    assert PutBy(batch, i, base, key, c, more[c]) && Fed(batch[i], more);
  }

  lemma ColumnSourced(cfg: Config, base: Db, i: nat, s: Statement, t: Table)
    requires s.AddColumn? && i < |BatchFor(cfg, s.key)| && BatchFor(cfg, s.key)[i] == s
    requires SourcedTable(cfg, base, s.key, t) && AddColumnTo(t, s.column).Some?
    requires forall j :: 0 <= j < i && AddsColumn(BatchFor(cfg, s.key)[j], s.key, s.column.name) ==>
      s.column.name in t.columns
    ensures SourcedTable(cfg, base, s.key, AddColumnTo(t, s.column).value)
  {
    hide BatchFor;
    hide Creates;
    var u := AddColumnTo(t, s.column).value;
    var batch := BatchFor(cfg, s.key);
    if s.column.name !in t.columns {
      assert PutBy(batch, i, base, s.key, s.column.name, u.columns[s.column.name]) && Fed(batch[i], u.columns);
      forall c | c in t.columns && !(s.key in base.tables && c in base.tables[s.key].columns)
        ensures Introduced(cfg, base, s.key, u.columns, c)
      {
        IntroducedStays(cfg, base, s.key, t.columns, u.columns, c);
      }
    }
  }

  lemma SourcedExec(cfg: Config, base: Db, env: Env, name: string, i: nat, db: Db)
    requires Apart(cfg) && name in cfg.collections
    requires i < |TableBatch(env, name, cfg.collections[name], cfg.multiple)|
    requires var batch := TableBatch(env, name, cfg.collections[name], cfg.multiple);
      Exec(batch[i], db).Some? && AllSatisfied(batch[..i], db)
    requires Sourced(cfg, base, db) && Grown(base, db)
    ensures Sourced(cfg, base, Exec(TableBatch(env, name, cfg.collections[name], cfg.multiple)[i], db).value)
  {
    TableBatchBuilds(env, name, cfg.collections[name], cfg.multiple);
    var batch := TableBatch(env, name, cfg.collections[name], cfg.multiple);
    var s := batch[i];
    var after := Exec(s, db).value;
    assert s in batch;
    BatchOf(cfg, s.key, name);
    OwnTableSourced(cfg, base, i, s, db);
    OthersUntouched(s, db);
    OthersSourced(cfg, base, db, after, s.key);
  }

  lemma OthersSourced(cfg: Config, base: Db, db: Db, after: Db, own: TableKey)
    requires Sourced(cfg, base, db) && (own in after.tables ==> SourcedTable(cfg, base, own, after.tables[own]))
    requires forall key :: key in after.tables && key != own ==> key in db.tables && after.tables[key] == db.tables[key]
    ensures Sourced(cfg, base, after)
  {
    forall key | key in after.tables ensures SourcedTable(cfg, base, key, after.tables[key]) {
      if key != own {
        assert SourcedTable(cfg, base, key, db.tables[key]);
      }
    }
  }

  /** A building statement leaves every table but its own alone. */
  lemma OthersUntouched(s: Statement, db: Db)
    requires Builds(s) && Exec(s, db).Some?
    ensures var after := Exec(s, db).value;
      forall key :: key in after.tables && key != s.key ==> key in db.tables && after.tables[key] == db.tables[key]
  {}

  /** What a building statement makes of its own table. */
  function OwnAfter(s: Statement, t: Table): Option<Table>
    requires Builds(s)
  {
    match s
    case CreateTable(_, _, _) => Some(t)
    case AddColumn(_, column) => AddColumnTo(t, column)
    case CreateIdentity(_, field) => CreateIdentityOn(t, field)
    case CreateIndex(_, index, over, gin) => CreateIndexOn(t, index, over, gin)
  }

  lemma ExecOwn(s: Statement, db: Db)
    requires Builds(s) && Exec(s, db).Some?
    ensures s.key in Exec(s, db).value.tables
    ensures if s.key in db.tables then Some(Exec(s, db).value.tables[s.key]) == OwnAfter(s, db.tables[s.key])
            else s.CreateTable? && Distinct(Names(s.columns))
                 && Exec(s, db).value.tables[s.key] == NewTable(s.columns, s.primaryKey)
  {}

  lemma SameSourced(cfg: Config, base: Db, key: TableKey, t: Table, u: Table)
    requires SourcedTable(cfg, base, key, t) && u.columns == t.columns && u.identity == t.identity
    ensures SourcedTable(cfg, base, key, u)
  {}

  lemma StandingSourced(cfg: Config, base: Db, i: nat, s: Statement, t: Table)
    requires Builds(s) && i < |BatchFor(cfg, s.key)| && BatchFor(cfg, s.key)[i] == s
    requires SourcedTable(cfg, base, s.key, t) && OwnAfter(s, t).Some?
    requires forall j, c :: 0 <= j < i && AddsColumn(BatchFor(cfg, s.key)[j], s.key, c) ==> c in t.columns
    ensures SourcedTable(cfg, base, s.key, OwnAfter(s, t).value)
  {
    match s
    case CreateTable(_, _, _) =>
    case AddColumn(_, _) => ColumnSourced(cfg, base, i, s, t);
    case CreateIdentity(_, _) => IdentitySourced(cfg, base, s, t);
    case CreateIndex(key, _, _, _) => SameSourced(cfg, base, key, t, OwnAfter(s, t).value);
  }

  lemma OwnTableSourced(cfg: Config, base: Db, i: nat, s: Statement, db: Db)
    requires Builds(s) && i < |BatchFor(cfg, s.key)| && BatchFor(cfg, s.key)[i] == s && Exec(s, db).Some?
    requires Sourced(cfg, base, db) && Grown(base, db) && AllSatisfied(BatchFor(cfg, s.key)[..i], db)
    ensures s.key in Exec(s, db).value.tables && SourcedTable(cfg, base, s.key, Exec(s, db).value.tables[s.key])
  {
    ExecOwn(s, db);
    if s.key in db.tables {
      var batch := BatchFor(cfg, s.key);
      forall j, c | 0 <= j < i && AddsColumn(batch[j], s.key, c) ensures c in db.tables[s.key].columns {
        assert batch[..i][j] in batch[..i];
        assert Satisfied(batch[j], db);
      }
      StandingSourced(cfg, base, i, s, db.tables[s.key]);
    } else {
      CreatedSourced(cfg, base, i, s);
    }
  }

  lemma IdentitySourced(cfg: Config, base: Db, s: Statement, t: Table)
    requires s.CreateIdentity? && s in BatchFor(cfg, s.key) && SourcedTable(cfg, base, s.key, t)
    requires CreateIdentityOn(t, s.field).Some?
    ensures SourcedTable(cfg, base, s.key, CreateIdentityOn(t, s.field).value)
  {}

  /** The first `n` statements of a collection's batch. */
  lemma {:induction false} SourcedBatch(cfg: Config, base: Db, env: Env, name: string, n: nat, db: Db)
    requires Apart(cfg) && name in cfg.collections && n <= |TableBatch(env, name, cfg.collections[name], cfg.multiple)|
    requires Sourced(cfg, base, db) && Grown(base, db)
    requires ExecAll(TableBatch(env, name, cfg.collections[name], cfg.multiple)[..n], db).Some?
    ensures var after := ExecAll(TableBatch(env, name, cfg.collections[name], cfg.multiple)[..n], db).value;
      Sourced(cfg, base, after) && Grown(db, after)
  {
    hide Sourced;
    hide Grown;
    hide DatasetBatch;
    hide FileBatch;
    var batch := TableBatch(env, name, cfg.collections[name], cfg.multiple);
    if n > 0 {
      assert batch[..n][..n - 1] == batch[..n - 1];
      SourcedBatch(cfg, base, env, name, n - 1, db);
      var mid := ExecAll(batch[..n - 1], db).value;
      GrownTransitive(base, db, mid);
      TableBatchBuilds(env, name, cfg.collections[name], cfg.multiple);
      BatchSatisfied(batch[..n - 1], db);
      SourcedExec(cfg, base, env, name, n - 1, mid);
      ExecGrows(batch[n - 1], mid);
      GrownTransitive(db, mid, ExecAll(batch[..n], db).value);
    } else {
      GrownSelf(db);
    }
  }

  // ----- the tables phase

  ghost predicate Built(cfg: Config, name: string, db: Db)
    requires name in cfg.collections
  {
    var c := cfg.collections[name];
    forall env :: AllSatisfied(TableBatch(env, name, c, cfg.multiple), db) && !LacksRevisions(db, env, name, c)
  }

  lemma BuiltStable(cfg: Config, base: Db, name: string, db: Db, later: Db)
    requires name in cfg.collections && Built(cfg, name, db) && Grown(base, db) && Grown(db, later)
    requires Sourced(cfg, base, later)
    ensures Built(cfg, name, later)
  {
    var c := cfg.collections[name];
    forall env
      ensures AllSatisfied(TableBatch(env, name, c, cfg.multiple), later) && !LacksRevisions(later, env, name, c)
    {
      AllSatisfiedStable(TableBatch(env, name, c, cfg.multiple), db, later);
      RevisionsStay(cfg, base, db, later, env, name, c);
    }
  }

  lemma SendBuilds(cfg: Config, base: Db, r: Run, env: Env, name: string, batch: seq<Statement>)
    requires Apart(cfg) && name in cfg.collections
      && batch == TableBatch(env, name, cfg.collections[name], cfg.multiple)
    requires Sourced(cfg, base, r.db) && Grown(base, r.db) && Send(r, batch).failure.None?
    ensures var after := Send(r, batch).db;
      && r.failure.None? && Sourced(cfg, base, after) && Grown(r.db, after) && Grown(base, after)
      && AllSatisfied(batch, after)
  {
    assert batch[..|batch|] == batch;
    SourcedBatch(cfg, base, env, name, |batch|, r.db);
    GrownTransitive(base, r.db, Send(r, batch).db);
    TableBatchBuilds(env, name, cfg.collections[name], cfg.multiple);
    BatchSatisfied(batch, r.db);
  }

  lemma AllSatisfiedStable(ss: seq<Statement>, db: Db, later: Db)
    requires AllSatisfied(ss, db) && Grown(db, later)
    ensures AllSatisfied(ss, later)
  {
    forall s | s in ss ensures Builds(s) && Satisfied(s, later) {
      SatisfiedStable(s, db, later);
    }
  }

  lemma TableStep(cfg: Config, base: Db, r: Run, name: string, matching: set<string>)
    requires Apart(cfg) && name in cfg.collections
    requires Sourced(cfg, base, r.db) && Grown(base, r.db)
    requires TablesOf(r, cfg, name, matching).failure.None?
    ensures var after := TablesOf(r, cfg, name, matching).db;
      && r.failure.None? && Sourced(cfg, base, after) && Grown(r.db, after) && Grown(base, after)
      && Built(cfg, name, after) && (cfg.collections[name].external ==> name in matching)
  {
    var c := cfg.collections[name];
    var devBatch, liveBatch := TableBatch(Dev, name, c, cfg.multiple), TableBatch(Live, name, c, cfg.multiple);
    var dev := Send(r, devBatch);
    var live := Send(dev, liveBatch);
    SendBuilds(cfg, base, r, Dev, name, devBatch);
    SendBuilds(cfg, base, dev, Live, name, liveBatch);
    GrownTransitive(r.db, dev.db, live.db);
    AllSatisfiedStable(devBatch, dev.db, live.db);
    forall env
      ensures AllSatisfied(TableBatch(env, name, c, cfg.multiple), live.db) && !LacksRevisions(live.db, env, name, c)
    {
      assert env == Dev || env == Live;
      assert !LacksRevisions(r.db, env, name, c);
      RevisionsStay(cfg, base, r.db, live.db, env, name, c);
    }
  }

  lemma RevisionsStay(cfg: Config, base: Db, db: Db, later: Db, env: Env, name: string, c: Collection)
    requires !LacksRevisions(db, env, name, c) && Grown(base, db) && Grown(db, later) && Sourced(cfg, base, later)
    ensures !LacksRevisions(later, env, name, c)
  {
    var key := TableKey(env, Main(name));
    if key in later.tables {
      assert SourcedTable(cfg, base, key, later.tables[key]);
      if key !in base.tables {
        var s :| s in BatchFor(cfg, key) && s.CreateTable? && s.key == key;
        var owner := OwnerOf(cfg, key, s);
        MainCreates(env, owner, cfg.collections[owner], cfg.multiple, s);
        assert ListsColumn(s, key, "_rev");
      }
    }
  }

  lemma {:induction false} TablesDone(cfg: Config, base: Db, r: Run, names: seq<string>, matching: set<string>)
    requires Apart(cfg) && Covers(cfg, names)
    requires Sourced(cfg, base, r.db) && Grown(base, r.db)
    requires AllTables(r, cfg, names, matching).failure.None?
    ensures var after := AllTables(r, cfg, names, matching).db;
      && r.failure.None? && Sourced(cfg, base, after) && Grown(base, after)
      && forall n :: n in names ==> Built(cfg, n, after) && (cfg.collections[n].external ==> n in matching)
  {
    if names != [] {
      var before, name := names[..|names| - 1], names[|names| - 1];
      var mid := AllTables(r, cfg, before, matching);
      TablesDone(cfg, base, r, before, matching);
      TableStep(cfg, base, mid, name, matching);
      var after := AllTables(r, cfg, names, matching).db;
      forall n | n in before ensures Built(cfg, n, after) {
        BuiltStable(cfg, base, n, mid.db, after);
      }
    }
  }

  // ----- introduced columns are declared columns, or the DDL's own

  /** The columns the DDL writes out itself, whatever is declared. */
  function OwnColumns(table: TableName): seq<Column> {
    match table
    case Main(_) => REV_DDL
    case Files(_) => FILES_HEAD + FILES_TAIL + [FILES_LATER[0], FILES_LATER[1], FILES_LATER[2], FILES_LATER[4]]
    case Documents(_) => DOCUMENTS_DDL
  }

  predicate SearchesInto(c: Collection, column: string) {
    exists j :: 0 <= j < |c.fields| && c.fields[j].field.searchable && column == Tsv(c.fields[j].name)
  }

  /** The type of a column that is laid down beside the declared ones: the DDL's own, a binding's, a search column. */
  function Laid(c: Collection, multiple: set<string>, d: DeclaredTable, column: string): Option<PgType> {
    if column in Types(OwnColumns(d.table)) then Some(Types(OwnColumns(d.table))[column])
    else if !d.table.Main? then Option.None
    else if column in c.taxonomies then Some(VocabType(column, multiple))
    else if SearchesInto(c, column) then Some(Tsvector)
    else Option.None
  }

  /** What the rules leave possible for a column an own statement put into a declared table. */
  ghost predicate Fits(c: Collection, multiple: set<string>, d: DeclaredTable, column: string, t: PgType) {
    if DeclaresName(d, column) then Declares(d, column, t) else Laid(c, multiple, d, column) == Some(t)
  }

  lemma RevNames()
    ensures Distinct(Names(REV_DDL))
    ensures forall n :: n in REV_COLUMNS + {"workspace_id"} <==> exists i :: 0 <= i < |REV_DDL| && REV_DDL[i].name == n
  {
    var r := REV_DDL;
    assert r[0].name == "_rev" && r[1].name == "_rev_seq" && r[2].name == "_rev_at" && r[3].name == "_rev_by"
        && r[4].name == "_rev_op";
    assert r[5].name == "_rev_status" && r[6].name == "_rev_fields" && r[7].name == "_rev_base"
        && r[8].name == "_current" && r[9].name == "workspace_id";
  }

  lemma FilesOwnNames()
    ensures Distinct(Names(OwnColumns(Files(""))))
    ensures var own := OwnColumns(Files(""));
      forall n :: n in FILES_STRUCTURAL <==> exists i :: 0 <= i < |own| && own[i].name == n
  {
    var r := OwnColumns(Files(""));
    assert r[0].name == "id" && r[1].name == "workspace_id" && r[2].name == "title" && r[3].name == "path";
    assert r[4].name == "owner" && r[5].name == "checksum" && r[6].name == "updated_at" && r[7].name == "origin";
    assert r[8].name == "content_type" && r[9].name == "byte_size" && r[10].name == "blob"
        && r[11].name == "blob_checksum";
  }

  lemma DocumentsOwnNames()
    ensures Distinct(Names(DOCUMENTS_DDL))
    ensures forall n :: n in DOCUMENTS_STRUCTURAL <==>
      exists i :: 0 <= i < |DOCUMENTS_DDL| && DOCUMENTS_DDL[i].name == n
  {
    var r := DOCUMENTS_DDL;
    assert r[0].name == "id" && r[1].name == "workspace_id" && r[2].name == "file_id" && r[3].name == "document_seq";
    assert r[4].name == "content" && r[5].name == "tsv" && r[6].name == "embedding";
  }

  /** The names of a table's own columns. */
  function OwnNames(table: TableName): set<string> {
    match table
    case Main(_) => REV_COLUMNS + {"workspace_id"}
    case Files(_) => FILES_STRUCTURAL
    case Documents(_) => DOCUMENTS_STRUCTURAL
  }

  lemma OwnTypes(table: TableName)
    ensures forall n :: n in Types(OwnColumns(table)) <==> n in OwnNames(table)
    ensures forall i :: 0 <= i < |OwnColumns(table)| ==>
      var col := OwnColumns(table)[i];
      col.name in Types(OwnColumns(table)) && Types(OwnColumns(table))[col.name] == col.pgType
  {
    match table {
      case Main(_) => RevNames();
      case Files(_) => FilesOwnNames();
      case Documents(_) => DocumentsOwnNames();
    }
    TypesFrom(OwnColumns(table));
  }

  lemma DeclaredField(c: Collection, multiple: set<string>, name: string, column: string) returns (j: nat)
    requires DeclaresName(DatasetTable(name, c, multiple), column)
    ensures j < |c.fields| && c.fields[j].name == column && c.fields[j].field.storage.Stored?
    ensures Declares(DatasetTable(name, c, multiple), column, FieldPgType(c.fields[j], c.taxonomies, multiple))
  {
    var d := DatasetTable(name, c, multiple);
    StoredColumnsFrom(c.fields, c.taxonomies, multiple);
    var i :| 0 <= i < |d.columns| && d.columns[i].name == column;
    assert d.columns[i] in d.columns;
    j :| 0 <= j < |c.fields| && c.fields[j].field.storage.Stored?
        && d.columns[i] == ColumnOf(c.fields[j], c.taxonomies, multiple);
  }

  lemma StoredIsDeclared(c: Collection, multiple: set<string>, name: string, j: nat)
    requires j < |c.fields| && c.fields[j].field.storage.Stored?
    ensures Declares(DatasetTable(name, c, multiple), c.fields[j].name,
      FieldPgType(c.fields[j], c.taxonomies, multiple))
    ensures DeclaresName(DatasetTable(name, c, multiple), c.fields[j].name)
  {
    StoredColumnsFrom(c.fields, c.taxonomies, multiple);
    var col := ColumnOf(c.fields[j], c.taxonomies, multiple);
    assert col in StoredColumns(c.fields, c.taxonomies, multiple);
  }

  /** A list of distinct names: an entry is one of the DDL's own, or is declared and not one of them. */
  lemma ListedApart(head: seq<Column>, cols: seq<DeclaredColumn>, tail: seq<Column>, i: nat, k: nat)
    requires Distinct(Names(head + DataColumns(cols) + tail))
    requires i < |head| + |cols| + |tail| && k < |cols| && !(|head| <= i < |head| + |cols|)
    ensures (head + DataColumns(cols) + tail)[i].name != cols[k].name
  {
    var all := head + DataColumns(cols) + tail;
    assert all[|head| + k].name == cols[k].name;
    assert Names(all)[i] != Names(all)[|head| + k];
  }

  lemma DatasetCreateFits(env: Env, name: string, c: Collection, multiple: set<string>, i: nat)
    requires c.kind == Dataset && i < |DatasetCreate(MainKey(env, name), name, c, multiple).columns|
    requires Distinct(Names(DatasetCreate(MainKey(env, name), name, c, multiple).columns))
    ensures var col := DatasetCreate(MainKey(env, name), name, c, multiple).columns[i];
      Fits(c, multiple, DatasetTable(name, c, multiple), col.name, col.pgType)
  {
    var columns := DatasetCreate(MainKey(env, name), name, c, multiple).columns;
    var stored := StoredColumns(c.fields, c.taxonomies, multiple);
    if i < |REV_DDL| {
      assert columns[i] == REV_DDL[i];
      OwnTypes(Main(name));
      assert REV_DDL + DataColumns(stored) + [] == columns;
      forall k | 0 <= k < |stored| ensures stored[k].name != columns[i].name {
        ListedApart(REV_DDL, stored, [], i, k);
      }
    } else {
      assert columns[i].name == stored[i - |REV_DDL|].name;
    }
  }

  /** On a table that was created the later alter does not put `workspace_id` there: the list did. */
  lemma WorkspaceListed(cfg: Config, base: Db, env: Env, name: string, d: DeclaredTable, i: nat)
    requires name in cfg.collections && d in DeclaredTables(name, cfg.collections[name], cfg.multiple)
    requires var batch := TableBatch(env, name, cfg.collections[name], cfg.multiple);
      i < |batch| && batch[i].AddColumn?
    ensures var key := Landed(env, d.table); var batch := TableBatch(env, name, cfg.collections[name], cfg.multiple);
      PutBy(batch, i, base, key, "workspace_id", Text) ==> key in base.tables
  {
    var s := DeclaredIsCreated(env, name, cfg.collections[name], cfg.multiple, d);
    CreateListsWorkspace(env, name, cfg.collections[name], cfg.multiple, s);
  }

  /** The batch creates every declared table. */
  lemma DeclaredIsCreated(env: Env, name: string, c: Collection, multiple: set<string>, d: DeclaredTable)
    returns (s: Statement)
    requires d in DeclaredTables(name, c, multiple) && !(c.external && env == Live)
    ensures s in TableBatch(env, name, c, multiple) && s.CreateTable? && s.key == Landed(env, d.table)
  {
    match d.table
    case Main(_) =>
      s := DatasetCreate(MainKey(env, name), name, c, multiple);
      assert DatasetBatch(env, name, c, multiple)[0] == s;
    case Files(_) =>
      s := FilesCreate(TableKey(env, Files(name)), c, multiple);
      assert FileBatch(env, name, c, multiple)[0] == s;
    case Documents(_) =>
      var docs := DocumentsBatch(TableKey(env, Documents(name)), name);
      s := docs[0];
      assert s in docs;
  }

  lemma WorkspaceIsOwn(table: TableName)
    ensures "workspace_id" in Types(OwnColumns(table)) && Types(OwnColumns(table))["workspace_id"] == Text
  {
    OwnTypes(table);
    match table
    case Main(_) => assert REV_DDL[9] == WORKSPACE;
    case Files(_) => assert OwnColumns(table)[1] == WORKSPACE;
    case Documents(_) => assert DOCUMENTS_DDL[1] == WORKSPACE;
  }

  lemma CreateListsWorkspace(env: Env, name: string, c: Collection, multiple: set<string>, s: Statement)
    requires s in TableBatch(env, name, c, multiple) && s.CreateTable?
    ensures ListsColumn(s, s.key, "workspace_id")
  {
    if c.kind == Dataset {
      OnlyCreate(env, name, c, multiple, s);
      assert s.columns[9] == REV_DDL[9] == WORKSPACE;
    } else {
      FileCreates(env, name, c, multiple, s);
      assert s.columns[1] == WORKSPACE;
    }
  }

  /** Statement `i` of a dataset's batch, by the part of the batch it stands in. */
  lemma DatasetFits(cfg: Config, base: Db, env: Env, name: string, i: nat, cols: map<string, PgType>, column: string)
    requires SchemaRules(cfg) && name in cfg.collections && cfg.collections[name].kind == Dataset && column in cols
    requires var key := MainKey(env, name); var batch := TableBatch(env, name, cfg.collections[name], cfg.multiple);
      i < |batch| && PutBy(batch, i, base, key, column, cols[column])
    requires MainKey(env, name) in base.tables ==> column != "workspace_id"
    ensures Fits(cfg.collections[name], cfg.multiple, DatasetTable(name, cfg.collections[name], cfg.multiple), column,
      cols[column])
  {
    var c, key := cfg.collections[name], MainKey(env, name);
    var d := DatasetTable(name, c, cfg.multiple);
    var batch := TableBatch(env, name, cfg.collections[name], cfg.multiple);
    var s := batch[i];
    if s.CreateTable? {
      OnlyCreate(env, name, c, cfg.multiple, s);
      var k :| 0 <= k < |s.columns| && s.columns[k].name == column && s.columns[k].pgType == cols[column];
      DatasetCreateFits(env, name, c, cfg.multiple, k);
    } else if s == AddColumn(key, WORKSPACE) {
      WorkspaceListed(cfg, base, env, name, d, i);
    } else if s in FieldAlters(key, c.fields, c.taxonomies) {
      FieldAltersFrom(key, c.fields, c.taxonomies);
      var j :| 0 <= j < |c.fields| && c.fields[j].field.storage.Stored? && c.fields[j].name !in c.taxonomies
               && s == AddColumn(key, Bare(c.fields[j].name, PgTypeOf(c.fields[j].field.ftype)));
      StoredIsDeclared(c, cfg.multiple, name, j);
    } else if s in VocabAlters(key, name, c.taxonomies, cfg.multiple) {
      VocabAltersFrom(key, name, c.taxonomies, cfg.multiple);
      if DeclaresName(d, column) {
        var j := DeclaredField(c, cfg.multiple, name, column);
      } else {
        BindingFits(cfg, base, env, name, i, cols, column);
      }
    } else {
      SearchFits(cfg, base, env, name, i, cols, column);
    }
  }

  /** A vocabulary's own column is not named as a bookkeeping one. */
  lemma BindingFits(cfg: Config, base: Db, env: Env, name: string, i: nat, cols: map<string, PgType>, column: string)
    requires SchemaRules(cfg) && name in cfg.collections && cfg.collections[name].kind == Dataset && column in cols
    requires var key := MainKey(env, name); var batch := TableBatch(env, name, cfg.collections[name], cfg.multiple);
      && i < |batch| && PutBy(batch, i, base, key, column, cols[column])
      && batch[i] == AddColumn(key, Bare(column, cols[column])) && batch[i] != AddColumn(key, WORKSPACE)
    requires column in cfg.collections[name].taxonomies
    ensures column !in Types(OwnColumns(Main(name)))
  {
    var batch := TableBatch(env, name, cfg.collections[name], cfg.multiple);
    OwnTypes(Main(name));
    assert batch[1] == AddColumn(MainKey(env, name), WORKSPACE);
    assert i > 1 && !AddsColumn(batch[1], MainKey(env, name), column);
    assert Checked(cfg.collections[name]) && SlugShaped(column);
    if column in REV_COLUMNS {
      RevUnderscored(column);
    }
  }

  lemma SearchFits(cfg: Config, base: Db, env: Env, name: string, i: nat, cols: map<string, PgType>, column: string)
    requires SchemaRules(cfg) && name in cfg.collections && cfg.collections[name].kind == Dataset && column in cols
    requires var key := MainKey(env, name); var batch := TableBatch(env, name, cfg.collections[name], cfg.multiple);
      var c := cfg.collections[name];
      && i < |batch| && PutBy(batch, i, base, key, column, cols[column])
      && batch[i].AddColumn? && batch[i] != AddColumn(key, WORKSPACE)
      && batch[i] !in FieldAlters(key, c.fields, c.taxonomies)
          && batch[i] !in VocabAlters(key, name, c.taxonomies, cfg.multiple)
    ensures SearchesInto(cfg.collections[name], column)
    ensures Fits(cfg.collections[name], cfg.multiple, DatasetTable(name, cfg.collections[name], cfg.multiple), column,
      cols[column])
  {
    hide FieldAlters;
    hide SearchAlters;
    hide StoredColumns;
    hide IndexStatements;
    var c, key := cfg.collections[name], MainKey(env, name);
    var batch := TableBatch(env, name, cfg.collections[name], cfg.multiple);
    var before := 4 + |c.indexes| + |FieldAlters(key, c.fields, c.taxonomies)|
        + |VocabAlters(key, name, c.taxonomies, cfg.multiple)|;
    SearchAltersFrom(key, name, c.fields);
    DatasetPart(env, name, c, cfg.multiple, i);
    assert batch[i] in SearchAlters(key, name, c.fields) && i >= before;
    var j :| 0 <= j < |c.fields| && c.fields[j].field.searchable
        && batch[i] == AddColumn(key, TsvColumn(c.fields[j].name));
    if DeclaresName(DatasetTable(name, c, cfg.multiple), column) {
      var k := DeclaredField(c, cfg.multiple, name, column);
      assert FieldChecked(c, c.fields[j]) && HasField(c, Tsv(c.fields[j].name));
      var v := VocabAltered(env, name, c, cfg.multiple, column);
      assert false;
    } else {
      OwnNotTsv(c.fields[j].name);
      OwnTypes(Main(name));
      if column in c.taxonomies {
        var v := VocabAltered(env, name, c, cfg.multiple, column);
        assert false;
      }
    }
  }

  /** Which part of a dataset's batch a position lies in. */
  lemma DatasetPart(env: Env, name: string, c: Collection, multiple: set<string>, i: nat)
    requires i < |DatasetBatch(env, name, c, multiple)|
    ensures var key := MainKey(env, name); var s := DatasetBatch(env, name, c, multiple)[i];
      var a, b, v := |c.indexes|, FieldAlters(key, c.fields, c.taxonomies),
          VocabAlters(key, name, c.taxonomies, multiple);
      && (i < 4 && s.AddColumn? ==> s == AddColumn(key, WORKSPACE))
      && (4 <= i < 4 + a ==> s.CreateIndex?)
      && (4 + a <= i < 4 + a + |b| ==> s in b)
      && (4 + a + |b| <= i < 4 + a + |b| + |v| ==> s in v)
      && (4 + a + |b| + |v| <= i ==> s in SearchAlters(key, name, c.fields))
  {
    var key := MainKey(env, name);
    var a, b := IndexStatements(key, name, c.indexes, IdentityField(c)), FieldAlters(key, c.fields, c.taxonomies);
    var v, t := VocabAlters(key, name, c.taxonomies, multiple), SearchAlters(key, name, c.fields);
    var s := DatasetBatch(env, name, c, multiple)[i];
    if i < 4 + |a| {
      assert 4 <= i ==> s == a[i - 4];
    } else if i < 4 + |a| + |b| {
      assert s == b[i - 4 - |a|];
    } else if i < 4 + |a| + |b| + |v| {
      assert s == v[i - 4 - |a| - |b|];
    } else {
      assert s == t[i - 4 - |a| - |b| - |v|];
    }
  }

  lemma VocabAltered(env: Env, name: string, c: Collection, multiple: set<string>, slug: string) returns (k: nat)
    requires slug in c.taxonomies
    ensures var key := MainKey(env, name);
      && k < 4 + |c.indexes| + |FieldAlters(key, c.fields, c.taxonomies)|
          + |VocabAlters(key, name, c.taxonomies, multiple)|
      && k < |DatasetBatch(env, name, c, multiple)| && AddsColumn(DatasetBatch(env, name, c, multiple)[k], key, slug)
  {
    var key := MainKey(env, name);
    var j := TermAltered(key, name, c.taxonomies, multiple, slug);
    k := 4 + |c.indexes| + |FieldAlters(key, c.fields, c.taxonomies)| + j;
    assert DatasetBatch(env, name, c, multiple)[k] == VocabAlters(key, name, c.taxonomies, multiple)[j];
  }

  lemma FilesCreateFits(env: Env, name: string, c: Collection, multiple: set<string>, i: nat)
    requires c.kind == File && i < |FilesCreate(TableKey(env, Files(name)), c, multiple).columns|
    requires Distinct(Names(FilesCreate(TableKey(env, Files(name)), c, multiple).columns))
    ensures var col := FilesCreate(TableKey(env, Files(name)), c, multiple).columns[i];
      Fits(c, multiple, FilesTable(name, c, multiple), col.name, col.pgType)
  {
    var columns := FilesCreate(TableKey(env, Files(name)), c, multiple).columns;
    var d := FilesTable(name, c, multiple);
    FilesListed(c, multiple);
    OwnTypes(Files(name));
    if |FILES_HEAD| <= i < |FILES_HEAD| + |d.columns| {
      assert d.columns[i - |FILES_HEAD|].name == columns[i].name;
      assert d.columns[i - |FILES_HEAD|].pgType == columns[i].pgType;
    } else {
      if i < |FILES_HEAD| {
        assert columns[i] == FILES_HEAD[i] == OwnColumns(Files(name))[i];
      } else {
        assert columns[i] == FILES_TAIL[i - |FILES_HEAD| - |d.columns|] == OwnColumns(Files(name))[i - |d.columns|];
      }
      forall k | 0 <= k < |d.columns| ensures d.columns[k].name != columns[i].name {
        ListedApart(FILES_HEAD, d.columns, FILES_TAIL, i, k);
      }
    }
  }

  lemma FilesListed(c: Collection, multiple: set<string>)
    ensures var terms, meta := TermColumns(c.taxonomies, multiple), MetadataColumns(c.fields, c.taxonomies);
      FILES_HEAD + DataColumns(terms) + DataColumns(meta) + FILES_TAIL == FILES_HEAD + DataColumns(terms + meta)
          + FILES_TAIL
  {
    var terms, meta := TermColumns(c.taxonomies, multiple), MetadataColumns(c.fields, c.taxonomies);
    assert DataColumns(terms + meta) == DataColumns(terms) + DataColumns(meta);
  }

  lemma FilesFits(cfg: Config, base: Db, env: Env, name: string, i: nat, cols: map<string, PgType>, column: string)
    requires name in cfg.collections && cfg.collections[name].kind == File && column in cols
    requires var key := TableKey(env, Files(name)); var batch := TableBatch(env, name, cfg.collections[name],
      cfg.multiple);
      i < |batch| && PutBy(batch, i, base, key, column, cols[column])
    requires TableKey(env, Files(name)) in base.tables ==> column != "workspace_id"
    ensures Fits(cfg.collections[name], cfg.multiple, FilesTable(name, cfg.collections[name], cfg.multiple), column,
      cols[column])
  {
    var c, key := cfg.collections[name], TableKey(env, Files(name));
    var d := FilesTable(name, c, cfg.multiple);
    var batch := TableBatch(env, name, cfg.collections[name], cfg.multiple);
    var v, m := VocabAlters(key, name + "__files", c.taxonomies, cfg.multiple),
        MetadataAlters(key, c.fields, c.taxonomies);
    var s := batch[i];
    if i == 0 {
      var k :| 0 <= k < |s.columns| && s.columns[k].name == column && s.columns[k].pgType == cols[column];
      FilesCreateFits(env, name, c, cfg.multiple, k);
    } else if i == 1 {
      WorkspaceListed(cfg, base, env, name, d, i);
    } else if i < 2 + |v| + |m| {
      FileAlterFits(env, name, c, cfg.multiple, i, column, cols[column]);
    } else {
      LaterIsStructural(env, name, c, cfg.multiple, i, column, cols[column]);
      if DeclaresName(d, column) {
        var k := FileAltered(env, name, c, cfg.multiple, column);
        assert false;
      }
    }
  }

  lemma FileAlterFits(env: Env, name: string, c: Collection, multiple: set<string>, i: nat, column: string, t: PgType)
    requires var key := TableKey(env, Files(name)); var batch := FileBatch(env, name, c, multiple);
      && 2 <= i < 2 + |VocabAlters(key, name + "__files", c.taxonomies, multiple)|
          + |MetadataAlters(key, c.fields, c.taxonomies)|
      && Adds(batch[i], key, column, t)
    ensures Declares(FilesTable(name, c, multiple), column, t) && DeclaresName(FilesTable(name, c, multiple), column)
  {
    var key := TableKey(env, Files(name));
    var d := FilesTable(name, c, multiple);
    var v, m := VocabAlters(key, name + "__files", c.taxonomies, multiple), MetadataAlters(key, c.fields, c.taxonomies);
    var s := FileBatch(env, name, c, multiple)[i];
    VocabAltersFrom(key, name + "__files", c.taxonomies, multiple);
    MetadataAltersFrom(key, c.fields, c.taxonomies);
    if i < 2 + |v| {
      assert s == v[i - 2] && s in v;
      var j :| 0 <= j < |c.taxonomies|
          && s == AddColumn(key, Bare(c.taxonomies[j], VocabType(c.taxonomies[j], multiple)));
      assert d.columns[j].name == column && d.columns[j].pgType == t;
    } else {
      assert s == m[i - 2 - |v|] && s in m;
      MetadataColumnsFrom(c.fields, c.taxonomies);
      var j :| 0 <= j < |c.fields| && IsMetadata(c.fields[j], c.taxonomies)
               && s == AddColumn(key, Bare(c.fields[j].name, PgTypeOf(c.fields[j].field.ftype)));
      var col := MetadataColumn(c.fields[j]);
      assert col in MetadataColumns(c.fields, c.taxonomies);
      assert col in d.columns && col.name == column && col.pgType == t;
    }
  }

  lemma LaterIsStructural(
      env: Env, name: string, c: Collection, multiple: set<string>, i: nat, column: string, t: PgType)
    requires var key := TableKey(env, Files(name)); var batch := FileBatch(env, name, c, multiple);
      && 2 + |VocabAlters(key, name + "__files", c.taxonomies, multiple)|
          + |MetadataAlters(key, c.fields, c.taxonomies)| <= i < |batch|
      && Adds(batch[i], key, column, t)
    ensures FileBatch(env, name, c, multiple)[i].AddColumn?
    ensures Laid(c, multiple, FilesTable(name, c, multiple), column) == Some(t)
  {
    hide VocabAlters;
    hide MetadataAlters;
    hide DocumentsBatch;
    var key := TableKey(env, Files(name));
    var s := FileBatch(env, name, c, multiple)[i];
    OwnTypes(Files(name));
    var own := OwnColumns(Files(name));
    assert own[7] == Bare("origin", Text) && own[8] == FILES_LATER[0] && own[9] == FILES_LATER[1]
           && own[10] == FILES_LATER[2] && own[11] == FILES_LATER[4];
    FileEnd(env, name, c, multiple, i);
  }

  lemma FileEnd(env: Env, name: string, c: Collection, multiple: set<string>, i: nat)
    requires var key := TableKey(env, Files(name));
      var n := 2 + |VocabAlters(key, name + "__files", c.taxonomies, multiple)|
          + |MetadataAlters(key, c.fields, c.taxonomies)|;
      n <= i < |FileBatch(env, name, c, multiple)|
    ensures var key := TableKey(env, Files(name)); var s := FileBatch(env, name, c, multiple)[i];
      s in FilesUpgrades(key, name) || s.key == TableKey(env, Documents(name))
  {
    var key := TableKey(env, Files(name));
    var n := 2 + |VocabAlters(key, name + "__files", c.taxonomies, multiple)|
        + |MetadataAlters(key, c.fields, c.taxonomies)|;
    var u, docs := FilesUpgrades(key, name), DocumentsBatch(TableKey(env, Documents(name)), name);
    if i < n + |u| {
      assert FileBatch(env, name, c, multiple)[i] == u[i - n];
    } else {
      assert FileBatch(env, name, c, multiple)[i] == docs[i - n - |u|];
    }
  }

  /** Every declared column of a files table has its own alter, before the later structural ones. */
  lemma FileAltered(env: Env, name: string, c: Collection, multiple: set<string>, column: string) returns (k: nat)
    requires DeclaresName(FilesTable(name, c, multiple), column)
    ensures var key := TableKey(env, Files(name));
      && k < 2 + |VocabAlters(key, name + "__files", c.taxonomies, multiple)|
          + |MetadataAlters(key, c.fields, c.taxonomies)|
      && k < |FileBatch(env, name, c, multiple)| && AddsColumn(FileBatch(env, name, c, multiple)[k], key, column)
  {
    var key := TableKey(env, Files(name));
    var v, m := VocabAlters(key, name + "__files", c.taxonomies, multiple), MetadataAlters(key, c.fields, c.taxonomies);
    if column in c.taxonomies {
      var j := TermAltered(key, name + "__files", c.taxonomies, multiple, column);
      k := 2 + j;
    } else {
      var j := MetadataAltered(key, name, c, multiple, column);
      k := 2 + |v| + j;
    }
    FileAlterAt(env, name, c, multiple, k);
  }

  lemma FileAlterAt(env: Env, name: string, c: Collection, multiple: set<string>, k: nat)
    requires var key := TableKey(env, Files(name));
      2 <= k < 2 + |VocabAlters(key, name + "__files", c.taxonomies, multiple)|
          + |MetadataAlters(key, c.fields, c.taxonomies)|
    ensures var key := TableKey(env, Files(name));
      var v, m := VocabAlters(key, name + "__files", c.taxonomies, multiple),
          MetadataAlters(key, c.fields, c.taxonomies);
      k < |FileBatch(env, name, c, multiple)|
      && FileBatch(env, name, c, multiple)[k] == if k < 2 + |v| then v[k - 2] else m[k - 2 - |v|]
  {}

  lemma TermAltered(key: TableKey, prefix: string, taxonomies: seq<string>, multiple: set<string>, slug: string)
    returns (j: nat)
    requires slug in taxonomies
    ensures j < |VocabAlters(key, prefix, taxonomies, multiple)|
    ensures VocabAlters(key, prefix, taxonomies, multiple)[j] == AddColumn(key, Bare(slug, VocabType(slug, multiple)))
  {
    VocabAltersFrom(key, prefix, taxonomies, multiple);
    var v := VocabAlters(key, prefix, taxonomies, multiple);
    var s := AddColumn(key, Bare(slug, VocabType(slug, multiple)));
    assert s in v;
    j :| 0 <= j < |v| && v[j] == s;
  }

  lemma MetadataAltered(key: TableKey, name: string, c: Collection, multiple: set<string>, column: string)
    returns (j: nat)
    requires DeclaresName(FilesTable(name, c, multiple), column) && column !in c.taxonomies
    ensures j < |MetadataAlters(key, c.fields, c.taxonomies)|
    ensures AddsColumn(MetadataAlters(key, c.fields, c.taxonomies)[j], key, column)
  {
    var d := FilesTable(name, c, multiple);
    var i :| 0 <= i < |d.columns| && d.columns[i].name == column;
    assert d.columns[i] in d.columns;
    FilesColumn(c, multiple, d.columns[i]);
    var f :| 0 <= f < |c.fields| && IsMetadata(c.fields[f], c.taxonomies)
        && d.columns[i] == MetadataColumn(c.fields[f]);
    MetadataAltersFrom(key, c.fields, c.taxonomies);
    var m := MetadataAlters(key, c.fields, c.taxonomies);
    var s := AddColumn(key, Bare(c.fields[f].name, PgTypeOf(c.fields[f].field.ftype)));
    assert s in m;
    j :| 0 <= j < |m| && m[j] == s;
  }

  /** A statement about the documents table is one of the last part. */
  lemma OnDocuments(env: Env, name: string, c: Collection, multiple: set<string>, s: Statement)
    requires s in FileBatch(env, name, c, multiple) && Builds(s) && s.key == TableKey(env, Documents(name))
    ensures s in DocumentsBatch(TableKey(env, Documents(name)), name)
  {
    hide VocabAlters;
    hide MetadataAlters;
    hide DocumentsBatch;
    var key := TableKey(env, Files(name));
    VocabAltersFrom(key, name + "__files", c.taxonomies, multiple);
    MetadataAltersFrom(key, c.fields, c.taxonomies);
  }

  lemma DocumentsFits(
      env: Env, name: string, c: Collection, multiple: set<string>, s: Statement, column: string, t: PgType)
    requires c.kind == File
    requires s in FileBatch(env, name, c, multiple) && Adds(s, TableKey(env, Documents(name)), column, t)
    ensures Fits(c, multiple, DocumentsTable(name), column, t)
  {
    hide FileBatch;
    OnDocuments(env, name, c, multiple, s);
    OwnTypes(Documents(name));
    WorkspaceIsOwn(Documents(name));
  }

  /** A column a collection's own statements put into one of its declared tables. */
  lemma IntroducedFits(
      cfg: Config, base: Db, name: string, env: Env, d: DeclaredTable, cols: map<string, PgType>, column: string)
    requires SchemaRules(cfg) && Apart(cfg) && name in cfg.collections && column in cols
    requires d in DeclaredTables(name, cfg.collections[name], cfg.multiple)
    requires Introduced(cfg, base, Landed(env, d.table), cols, column)
    requires Landed(env, d.table) in base.tables ==> column != "workspace_id"
    ensures Fits(cfg.collections[name], cfg.multiple, d, column, cols[column])
  {
    var key := Landed(env, d.table);
    BatchOf(cfg, key, name);
    var batch := BatchFor(cfg, key);
    var i :| 0 <= i < |batch| && PutBy(batch, i, base, key, column, cols[column]);
    match d.table
    case Main(_) => DatasetFits(cfg, base, env, name, i, cols, column);
    case Files(_) => FilesFits(cfg, base, env, name, i, cols, column);
    case Documents(_) => DocumentsFits(env, name, cfg.collections[name], cfg.multiple, batch[i], column, cols[column]);
  }

  /** A dataset's column that is none of the others is a search column, over text that stands in the table. */
  lemma SearchFed(cfg: Config, base: Db, env: Env, name: string, cols: map<string, PgType>, column: string)
    returns (j: nat)
    requires Apart(cfg) && name in cfg.collections && cfg.collections[name].kind == Dataset && column in cols
    requires Introduced(cfg, base, MainKey(env, name), cols, column)
    requires !DeclaresName(DatasetTable(name, cfg.collections[name], cfg.multiple), column)
    requires column !in REV_COLUMNS + {"workspace_id"} && column !in cfg.collections[name].taxonomies
    ensures var fields := cfg.collections[name].fields;
      && j < |fields| && fields[j].field.searchable && column == Tsv(fields[j].name)
      && fields[j].name in cols && cols[fields[j].name] == Text
  {
    hide FieldAlters;
    hide VocabAlters;
    hide SearchAlters;
    hide StoredColumns;
    hide IndexStatements;
    hide Apart;
    var c, key := cfg.collections[name], MainKey(env, name);
    BatchOf(cfg, key, name);
    var batch := BatchFor(cfg, key);
    var i :| 0 <= i < |batch| && PutBy(batch, i, base, key, column, cols[column]) && Fed(batch[i], cols);
    var s := batch[i];
    if s.CreateTable? {
      OnlyCreate(env, name, c, cfg.multiple, s);
      var k :| 0 <= k < |s.columns| && s.columns[k].name == column && s.columns[k].pgType == cols[column];
      DatasetListed(env, name, c, cfg.multiple, k);
    }
    FieldAltersFrom(key, c.fields, c.taxonomies);
    VocabAltersFrom(key, name, c.taxonomies, cfg.multiple);
    SearchAltersFrom(key, name, c.fields);
    DatasetPart(env, name, c, cfg.multiple, i);
    if s in FieldAlters(key, c.fields, c.taxonomies) {
      var k :| 0 <= k < |c.fields| && c.fields[k].field.storage.Stored? && c.fields[k].name == column;
      StoredIsDeclared(c, cfg.multiple, name, k);
    }
    j :| 0 <= j < |c.fields| && c.fields[j].field.searchable && s == AddColumn(key, TsvColumn(c.fields[j].name));
  }

  lemma DatasetListed(env: Env, name: string, c: Collection, multiple: set<string>, i: nat)
    requires i < |DatasetCreate(MainKey(env, name), name, c, multiple).columns|
    ensures var col := DatasetCreate(MainKey(env, name), name, c, multiple).columns[i].name;
      col in REV_COLUMNS + {"workspace_id"} || DeclaresName(DatasetTable(name, c, multiple), col)
  {
    var columns := DatasetCreate(MainKey(env, name), name, c, multiple).columns;
    if i < |REV_DDL| {
      assert columns[i] == REV_DDL[i];
    } else {
      assert columns[i].name == StoredColumns(c.fields, c.taxonomies, multiple)[i - |REV_DDL|].name;
    }
  }

  // ----- after the destructive changes are settled

  lemma {:induction false} DropsTables(r: Run, keys: seq<TableKey>)
    requires r.failure.None?
    ensures var after := SendEach(r, Drops(keys));
      && after.failure.None? && after.db.registry == r.db.registry
      && after.db.tables == map k | k in r.db.tables && k !in keys :: r.db.tables[k]
  {
    if keys != [] {
      var n := |keys| - 1;
      DropsTables(r, keys[..n]);
      assert Drops(keys)[..n] == Drops(keys[..n]);
      OneDropTables(SendEach(r, Drops(keys[..n])), keys[n]);
      assert keys == keys[..n] + [keys[n]];
    }
  }

  lemma OneDropTables(r: Run, key: TableKey)
    requires r.failure.None?
    ensures var after := Send(r, [DropTable(key)]);
      after.failure.None? && after.db.registry == r.db.registry && after.db.tables == r.db.tables - {key}
  {
    ExecSingle(DropTable(key), r.db);
  }

  lemma ForgetOneTables(r: Run, name: string)
    requires r.failure.None?
    ensures var after := Send(Send(Send(r, [Unregister(name)]), [ClearAcl(Dev, name)]), [ClearAcl(Live, name)]);
      && after.failure.None? && after.db.tables == r.db.tables
      && after.db.registry == r.db.registry - {name}
  {
    ExecSingle(Unregister(name), r.db);
    var one := Send(r, [Unregister(name)]);
    ExecSingle(ClearAcl(Dev, name), one.db);
    var two := Send(one, [ClearAcl(Dev, name)]);
    ExecSingle(ClearAcl(Live, name), two.db);
  }

  lemma {:induction false} ForgetTables(r: Run, names: seq<string>)
    requires r.failure.None?
    ensures var after := SendEach(r, Forget(names));
      && after.failure.None? && after.db.tables == r.db.tables
      && (forall n :: n in after.db.registry.Keys <==> n in r.db.registry.Keys && n !in names)
  {
    if names != [] {
      var n := |names| - 1;
      ForgetTables(r, names[..n]);
      ForgetLast(r, names);
      ForgetOneTables(SendEach(r, Forget(names[..n])), names[n]);
      assert names == names[..n] + [names[n]];
    }
  }

  lemma ResolvedTables(db: Db, plan: seq<SchemaChange>)
    requires Blocked(db, plan) == []
    ensures var after := Resolve(Start(db), plan);
      && after.failure.None?
      && after.db.tables == (map k | k in db.tables && k !in DropKeys(db, plan) :: db.tables[k])
      && (forall n :: n in after.db.registry.Keys <==> n in db.registry.Keys && n !in Gone(plan))
  {
    var drops, forget := Drops(DropKeys(db, plan)), Forget(Gone(plan));
    DropsTables(Start(db), DropKeys(db, plan));
    SendEachAppend(Start(db), drops, forget);
    ForgetTables(SendEach(Start(db), drops), Gone(plan));
  }

  /** A table that survives settling differs from the config in nothing destructive. */
  lemma SurvivorHarmless(db: Db, cfg: Config, plan: seq<SchemaChange>, ch: SchemaChange)
    requires Lists(plan, db, cfg) && Blocked(db, plan) == [] && Planned(db, cfg, ch) && Destructive(ch)
    ensures TableKey(ch.env, ch.table) !in Resolve(Start(db), plan).db.tables
  {
    ResolvedTables(db, plan);
    BlockedLists(db, plan);
    DropKeysFrom(db, plan);
    assert ch in plan;
    assert !Blocks(db, ch);
    var key := TableKey(ch.env, ch.table);
    assert key.env == ch.env && key.name in TablesToDrop(ch.table);
    assert key in DropKeys(db, plan);
  }
}
