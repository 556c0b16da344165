/**
 Configs of one dataset, small enough to follow: they apply to an empty database, and a document written then
 makes the history of a deployment. `Witnesses` starts from these.
 */
module SmallRuns {
  import opened Wrappers
  import opened Config
  import opened Catalog
  import opened Ddl
  import opened DdlFacts
  import opened Rules
  import opened Plan
  import opened Apply
  import opened ApplySafety
  import opened Convergence
  import opened Idempotence
  import opened PlannersAgree
  import opened Migration
  import opened MigrationProofs
  import opened Pipeline
  import opened References
  import Fresh
  import TableNames

  function Single(name: string, c: Collection, multiple: set<string>): Config {
    Config([name], map[name := c], multiple)
  }

  // ----- one dataset, applied to an empty database

  /** A joined field reads columns that are there: those of the dataset's own table. */
  predicate Joins(name: string, c: Collection, e: FieldEntry) {
    e.field.storage.Joined? ==>
      && e.field.storage.table == Main(name) && Fold(name) == name && StoresField(c, "id")
      && StoresField(c, e.field.storage.column) && StoresField(c, e.field.storage.on)
  }

  /** The statements for it run, and its view reads no sibling. */
  ghost predicate Plain(name: string, c: Collection, multiple: set<string>) {
    && c.kind == Dataset && !c.external && Checked(c) && DistinctFields(c)
    && Fresh.StoredApart(c.fields) && Fresh.IdentityThere(c) && Fresh.TermsLand(c, multiple)
    && forall i :: 0 <= i < |c.fields| ==>
        Fresh.Searches(name, c, multiple, c.fields[i]) && Joins(name, c, c.fields[i])
  }

  /** A batch makes tables of its own environment only, and touches neither views nor registry. */
  lemma {:induction false} BatchMakesOwn(ss: seq<Statement>, env: Env, name: string, db: Db)
    requires BuildsFor(ss, env, name) && ExecAll(ss, db).Some?
    ensures var after := ExecAll(ss, db).value;
      && after.views == db.views && after.registry == db.registry
      && forall k :: k in after.tables && k.env != env ==> k in db.tables && after.tables[k] == db.tables[k]
  {
    if ss != [] {
      var mid := ExecAll(ss[..|ss| - 1], db).value;
      assert ss[|ss| - 1] in ss;
      BatchMakesOwn(ss[..|ss| - 1], env, name, db);
      OthersUntouched(ss[|ss| - 1], mid);
    }
  }

  lemma TablesRun(name: string, c: Collection, multiple: set<string>, matching: set<string>)
    requires Plain(name, c, multiple)
    ensures TablesOf(Start(EMPTY), Single(name, c, multiple), name, matching).failure.None?
  {
    Fresh.FreshRuns(EMPTY, Dev, name, c, multiple);
    DatasetBatchBuilds(Dev, name, c, multiple);
    BatchMakesOwn(DatasetBatch(Dev, name, c, multiple), Dev, name, EMPTY);
    Fresh.FreshRuns(ExecAll(DatasetBatch(Dev, name, c, multiple), EMPTY).value, Live, name, c, multiple);
  }

  lemma {:induction false} FieldsUse(
      env: Env, name: string, c: Collection, multiple: set<string>, n: nat, ref: ColumnRef)
    requires Plain(name, c, multiple) && n <= |c.fields| && ref in FieldsUses(env, MainKey(env, name), c.fields[..n])
    ensures ref.table == MainKey(env, name) && (StoresField(c, ref.column) || SearchesInto(c, ref.column))
  {
    var key := MainKey(env, name);
    assert c.fields[..n][..n - 1] == c.fields[..n - 1];
    if ref in FieldsUses(env, key, c.fields[..n - 1]) {
      FieldsUse(env, name, c, multiple, n - 1, ref);
    } else {
      assert ref in FieldUses(env, key, c.fields[n - 1]);
      assert Joins(name, c, c.fields[n - 1]);
    }
  }

  lemma StoredIsListed(env: Env, name: string, c: Collection, multiple: set<string>, i: nat)
    requires i < |c.fields| && c.fields[i].field.storage.Stored?
    ensures ListsColumn(DatasetCreate(MainKey(env, name), name, c, multiple), MainKey(env, name), c.fields[i].name)
  {
    var stored := StoredColumns(c.fields, c.taxonomies, multiple);
    StoredIsDeclared(c, multiple, name, i);
    var k :| 0 <= k < |stored| && stored[k].name == c.fields[i].name;
    var s := DatasetCreate(MainKey(env, name), name, c, multiple);
    assert s.columns[|REV_DDL| + k].name == stored[k].name;
  }

  /** The dataset was made by its own statements, which have all been carried out. */
  ghost predicate MadeAlone(cfg: Config, name: string, db: Db) {
    && name in cfg.collections && Apart(cfg) && Plain(name, cfg.collections[name], cfg.multiple)
    && Built(cfg, name, db) && Sourced(cfg, EMPTY, db)
  }

  /** Every column its view names is there. */
  lemma ViewColumn(cfg: Config, name: string, env: Env, db: Db, ref: ColumnRef)
    requires MadeAlone(cfg, name, db) && ref in ViewUses(env, name, cfg.collections[name], cfg.multiple)
    ensures ref.table == MainKey(env, name) && ref.table in db.tables && ref.column in db.tables[ref.table].columns
  {
    var c, key := cfg.collections[name], MainKey(env, name);
    var create := DatasetCreate(key, name, c, cfg.multiple);
    assert create == DatasetBatch(env, name, c, cfg.multiple)[0];
    BuiltSatisfies(cfg, name, env, create, db);
    assert SourcedTable(cfg, EMPTY, key, db.tables[key]);
    BatchOf(cfg, key, name);
    if ref in FieldsUses(env, key, c.fields) {
      assert c.fields[..|c.fields|] == c.fields;
      FieldsUse(env, name, c, cfg.multiple, |c.fields|, ref);
      if StoresField(c, ref.column) {
        var i :| 0 <= i < |c.fields| && c.fields[i].name == ref.column && c.fields[i].field.storage.Stored?;
        StoredIsListed(env, name, c, cfg.multiple, i);
      } else {
        SearchPresent(cfg, db, name, env, ref.column);
      }
    } else {
      MainListsOwn(env, name, c, cfg.multiple, create, ref.column);
    }
  }

  lemma ViewReadable(cfg: Config, name: string, env: Env, db: Db)
    requires MadeAlone(cfg, name, db)
    ensures Readable(db, ViewUses(env, name, cfg.collections[name], cfg.multiple))
  {
    forall ref | ref in ViewUses(env, name, cfg.collections[name], cfg.multiple)
      ensures ref.table in db.tables && ref.column in db.tables[ref.table].columns
    {
      ViewColumn(cfg, name, env, db, ref);
    }
  }

  lemma ViewsRun(cfg: Config, name: string, r: Run)
    requires name in cfg.collections && r.failure.None?
    requires forall env :: Readable(r.db, ViewUses(env, name, cfg.collections[name], cfg.multiple))
    ensures ViewsOf(r, cfg, name).failure.None?
  {
    var c := cfg.collections[name];
    var dev, live := ViewUses(Dev, name, c, cfg.multiple), ViewUses(Live, name, c, cfg.multiple);
    RecreateView(r.db, ViewOf(Dev, name), dev);
    var mid := Send(r, ViewBatch(Dev, name, c, cfg.multiple));
    assert Readable(r.db, live) && mid.db.tables == r.db.tables;
    RecreateView(mid.db, ViewOf(Live, name), live);
    ExecSingle(Register(name, c), Send(mid, ViewBatch(Live, name, c, cfg.multiple)).db);
  }

  /** The run of a config with one collection over which nothing is planned, without its recursion. */
  lemma SingleRun(db: Db, name: string, c: Collection, multiple: set<string>, matching: set<string>)
    ensures var cfg := Single(name, c, multiple);
      Applied(db, cfg, [], matching) == ViewsOf(TablesOf(Start(db), cfg, name, matching), cfg, name)
  {
    var cfg := Single(name, c, multiple);
    assert Drops([]) + Forget([]) == [];
    assert Resolve(Start(db), []) == Start(db);
    var start, tabled := Start(db), TablesOf(Start(db), cfg, name, matching);
    assert cfg.names[..0] == [];
    assert AllTables(start, cfg, cfg.names[..0], matching) == start;
    assert AllTables(start, cfg, cfg.names, matching) == tabled;
    assert AllViews(tabled, cfg, cfg.names[..0]) == tabled;
    assert AllViews(tabled, cfg, cfg.names) == ViewsOf(tabled, cfg, name);
  }

  lemma SingleRules(name: string, c: Collection, multiple: set<string>)
    requires Checked(c) && DistinctFields(c)
    ensures SchemaRules(Single(name, c, multiple)) && Apart(Single(name, c, multiple))
  {}

  /** A plain one-dataset config is applied to an empty database. */
  lemma OneDatasetFinishes(name: string, c: Collection, multiple: set<string>, matching: set<string>)
    requires Plain(name, c, multiple)
    ensures SchemaRules(Single(name, c, multiple)) && Finished(EMPTY, Single(name, c, multiple), [], matching)
  {
    hide TablesOf;
    hide ViewUses;
    hide Applied;
    hide Checked;
    var cfg := Single(name, c, multiple);
    SingleRules(name, c, multiple);
    NothingOnEmpty(cfg);
    SourcedSelf(cfg, EMPTY);
    TablesRun(name, c, multiple, matching);
    TableStep(cfg, EMPTY, Start(EMPTY), name, matching);
    var tabled := TablesOf(Start(EMPTY), cfg, name, matching);
    forall env ensures Readable(tabled.db, ViewUses(env, name, c, multiple)) {
      ViewReadable(cfg, name, env, tabled.db);
    }
    ViewsRun(cfg, name, tabled);
    SingleRun(EMPTY, name, c, multiple, matching);
  }

  // ----- the views it leaves

  lemma TablesKeepViews(r: Run, cfg: Config, name: string, matching: set<string>)
    requires name in cfg.collections
    ensures TablesOf(r, cfg, name, matching).db.views == r.db.views
  {
    var c := cfg.collections[name];
    TableBatchBuilds(Dev, name, c, cfg.multiple);
    TableBatchBuilds(Live, name, c, cfg.multiple);
    var checked := CheckRevisions(CheckRevisions(r, Dev, name, c), Live, name, c);
    var dev := Send(checked, TableBatch(Dev, name, c, cfg.multiple));
    SendKeepsViews(checked, Dev, name, TableBatch(Dev, name, c, cfg.multiple));
    SendKeepsViews(dev, Live, name, TableBatch(Live, name, c, cfg.multiple));
  }

  lemma SendKeepsViews(r: Run, env: Env, name: string, batch: seq<Statement>)
    requires BuildsFor(batch, env, name)
    ensures Send(r, batch).db.views == r.db.views
  {
    if ExecAll(batch, r.db).Some? {
      BatchMakesOwn(batch, env, name, r.db);
    }
  }

  /** There are its two views and no other. */
  lemma SingleViews(name: string, c: Collection, multiple: set<string>, db: Db)
    requires FirstApply(Single(name, c, multiple), {}, db)
    ensures db.views.Keys == {ViewOf(Dev, name), ViewOf(Live, name)}
    ensures db.views[ViewOf(Dev, name)] == ViewUses(Dev, name, c, multiple)
  {
    var cfg := Single(name, c, multiple);
    SingleRun(EMPTY, name, c, multiple, {});
    var tabled := TablesOf(Start(EMPTY), cfg, name, {});
    TablesKeepViews(Start(EMPTY), cfg, name, {});
    TwoViewsSent(tabled, name, c, ViewUses(Dev, name, c, multiple), ViewUses(Live, name, c, multiple));
  }

  /** A migration that touches the collection leaves no view standing that reads its live table. */
  lemma NothingInTheWay(
      name: string, c: Collection, multiple: set<string>, first: Db, db: Db, changes: seq<SchemaChange>,
      ch: SchemaChange, f: string)
    requires FirstApply(Single(name, c, multiple), {}, first) && Plain(name, c, multiple) && db.views == first.views
    requires ch in changes && Rendered(ch) && Destructive(ch) && ch.collection == name
    ensures Unread(db, changes, ColumnRef(MainKey(Live, name), f))
  {
    hide FirstApply;
    hide ViewUses;
    hide Sourced;
    var cfg, ref := Single(name, c, multiple), ColumnRef(MainKey(Live, name), f);
    FirstFacts(cfg, {}, first);
    SingleViews(name, c, multiple, first);
    TouchedBy(changes, ch);
    forall v | LeftStanding(db, changes, v) ensures ref !in db.views[v] {
      assert v == ViewOf(Dev, name);
      if ref in ViewUses(Dev, name, c, multiple) {
        ViewColumn(cfg, name, Dev, first, ref);
      }
    }
  }

  lemma TouchedBy(changes: seq<SchemaChange>, ch: SchemaChange)
    requires ch in changes && Rendered(ch) && Destructive(ch)
    ensures ViewedAs(Touched(LiveChanges(changes)), ViewOf(Live, ch.collection))
  {
    LiveChangesAre(changes);
    var touched := Touched(LiveChanges(changes));
    TouchedHas(LiveChanges(changes), ch);
    var i :| 0 <= i < |touched| && touched[i] == ch.collection;
  }

  lemma {:induction false} TouchedHas(live: seq<SchemaChange>, ch: SchemaChange)
    requires ch in live && Destructive(ch)
    ensures ch.collection in Touched(live)
  {
    var n := |live| - 1;
    if ch != live[n] {
      TouchedHas(live[..n], ch);
    }
  }

  // ----- a document written

  /** One document in the table, and these ACL rows. */
  function Written(db: Db, key: TableKey, row: Row, acl: set<AclEntry>): Db {
    if key in db.tables then db.(tables := db.tables[key := db.tables[key].(rows := [row])], acl := acl) else db
  }

  lemma WritingKeeps(db: Db, key: TableKey, row: Row, acl: set<AclEntry>)
    requires key.name.Main?
    ensures WrittenStep(db, Written(db, key, row, acl))
  {
    var b := Written(db, key, row, acl);
    forall env, n, i | ForeignKeys(db) && TableKey(env, Documents(n)) in b.tables
                       && 0 <= i < |b.tables[TableKey(env, Documents(n))].rows|
      ensures ReferencesFile(b, env, n, b.tables[TableKey(env, Documents(n))].rows[i])
    {
      assert ReferencesFile(db, env, n, db.tables[TableKey(env, Documents(n))].rows[i]);
    }
  }

  /** What an apply of one plain dataset leaves, and that with a live document. */
  ghost predicate Published(cfg: Config, name: string, row: Row, acl: set<AclEntry>, states: seq<Db>) {
    && |states| == 3 && states[0] == EMPTY && FirstApply(cfg, {}, states[1])
    && states[2] == Written(states[1], MainKey(Live, name), row, acl)
    && MainKey(Live, name) in states[1].tables && MainKey(Dev, name) in states[1].tables
    && states[1].registry.Keys == {name} && cfg.collections.Keys == {name}
  }

  lemma FirstStep(cfg: Config, first: Db)
    requires FirstApply(cfg, {}, first)
    ensures Deployed(EMPTY, first) && (NoTsvFields(cfg) ==> Step(EMPTY, first))
  {
    hide Applied;
    NothingOnEmpty(cfg);
    assert ApplyStep(EMPTY, first, cfg, [], {});
    if NoTsvFields(cfg) {
      assert AppliedStep(EMPTY, first, cfg, [], {});
    }
  }

  lemma TwoSteps(a: Db, b: Db, c: Db)
    requires a == EMPTY && WrittenStep(b, c)
    ensures Deployed(a, b) ==> Deployment([a, b, c])
    ensures Step(a, b) ==> History([a, b, c])
  {
    hide WrittenStep;
    var states := [a, b, c];
    assert states[0] == a && states[1] == b && states[2] == c;
  }

  lemma Publish(name: string, c: Collection, multiple: set<string>, row: Row, acl: set<AclEntry>)
    returns (states: seq<Db>)
    requires Plain(name, c, multiple)
    ensures Published(Single(name, c, multiple), name, row, acl, states)
    ensures Deployment(states) && Populated(states[2], MainKey(Live, name))
    ensures NoTsvFields(Single(name, c, multiple)) ==> History(states)
  {
    hide Applied;
    hide Finished;
    hide Deployed;
    hide Step;
    hide WrittenStep;
    var cfg := Single(name, c, multiple);
    OneDatasetFinishes(name, c, multiple, {});
    var first := Applied(EMPTY, cfg, [], {}).db;
    var third := Written(first, MainKey(Live, name), row, acl);
    BothTablesThere(name, c, multiple, first);
    WritingKeeps(first, MainKey(Live, name), row, acl);
    FirstStep(cfg, first);
    TwoSteps(EMPTY, first, third);
    states := [EMPTY, first, third];
  }

  lemma BothTablesThere(name: string, c: Collection, multiple: set<string>, first: Db)
    requires FirstApply(Single(name, c, multiple), {}, first) && c.kind == Dataset && !c.external
    ensures MainKey(Live, name) in first.tables && MainKey(Dev, name) in first.tables && first.registry.Keys == {name}
  {
    var cfg := Single(name, c, multiple);
    FirstFacts(cfg, {}, first);
    IdentityShape(cfg, {}, first, name, Live);
    IdentityShape(cfg, {}, first, name, Dev);
  }

  // ----- the columns it leaves, and the retypes of another declaration

  /** The column of a stored field has the type the field asks for. */
  lemma StoredColumnIs(name: string, c: Collection, multiple: set<string>, db: Db, env: Env, j: nat)
    requires FirstState(Single(name, c, multiple), {}, db) && Plain(name, c, multiple)
    requires j < |c.fields| && c.fields[j].field.storage.Stored?
    ensures MainKey(env, name) in db.tables
    ensures var cols, f := db.tables[MainKey(env, name)].columns, c.fields[j].name;
      f in cols && cols[f] == FieldPgType(c.fields[j], c.taxonomies, multiple)
  {
    hide FirstState;
    hide Laid;
    var cfg, f, d := Single(name, c, multiple), c.fields[j].name, DatasetTable(name, c, multiple);
    SingleRules(name, c, multiple);
    StoredIsDeclared(c, multiple, name, j);
    ColumnShape(cfg, {}, db, name, env, d, f);
    DeclaredOnce(name, c, multiple, d, f, FieldPgType(c.fields[j], c.taxonomies, multiple),
        db.tables[MainKey(env, name)].columns[f]);
  }

  /** A stored field of the same name in both declarations. */
  predicate BothStore(p: Collection, n: Collection, j: int) {
    && 0 <= j < |p.fields| && j < |n.fields| && p.fields[j].name == n.fields[j].name
    && p.fields[j].field.storage.Stored? && n.fields[j].field.storage.Stored?
  }

  function TypeAt(c: Collection, multiple: set<string>, j: int): PgType
    requires 0 <= j < |c.fields|
  {
    FieldPgType(c.fields[j], c.taxonomies, multiple)
  }

  /** The published dataset, and the same collection as another config declares it. */
  ghost predicate Redeclared(
      name: string, p: Collection, pm: set<string>, n: Collection, nm: set<string>, states: seq<Db>) {
    && Plain(name, p, pm) && Seen(Main(name)) && |states| == 3 && FirstState(Single(name, p, pm), {}, states[1])
    && MainKey(Live, name) in states[1].tables && MainKey(Live, name) in states[2].tables
    && states[2].tables[MainKey(Live, name)].columns == states[1].tables[MainKey(Live, name)].columns
    && n.kind == Dataset && !n.external && Checked(n) && DistinctFields(n)
  }

  lemma PublishedIsRedeclared(
      name: string, p: Collection, pm: set<string>, n: Collection, nm: set<string>, row: Row, acl: set<AclEntry>,
      states: seq<Db>)
    requires Published(Single(name, p, pm), name, row, acl, states) && Plain(name, p, pm) && Seen(Main(name))
    requires n.kind == Dataset && !n.external && Checked(n) && DistinctFields(n)
    ensures Redeclared(name, p, pm, n, nm, states)
  {
    hide Plain;
    hide FirstState;
    hide FirstApply;
    FirstFacts(Single(name, p, pm), {}, states[1]);
  }

  /** A field declared with another type is planned for a retype. */
  lemma RetypePlanned(
      name: string, p: Collection, pm: set<string>, n: Collection, nm: set<string>, states: seq<Db>, j: nat)
    requires Redeclared(name, p, pm, n, nm, states) && BothStore(p, n, j) && TypeAt(p, pm, j) != TypeAt(n, nm, j)
    ensures Planned(states[2], Single(name, n, nm),
      SchemaChange(name, Live, Main(name), TypeChange(n.fields[j].name, TypeAt(p, pm, j), TypeAt(n, nm, j))))
  {
    hide FirstState;
    hide Plain;
    hide Checked;
    var next, d := Single(name, n, nm), DatasetTable(name, n, nm);
    var ch := SchemaChange(
      name, Live, Main(name), TypeChange(n.fields[j].name, TypeAt(p, pm, j), TypeAt(n, nm, j)));
    StoredColumnIs(name, p, pm, states[1], Live, j);
    StoredIsDeclared(n, nm, name, j);
    assert Compared(states[2], next, name, Live, d);
    assert ColumnDiff(states[2].tables[MainKey(Live, name)], d, ch.kind);
    assert Drifted(states[2], next, ch);
  }

  /** A planned retype is of the dataset's table, and of a field declared with another type if it was one before. */
  lemma RetypeIsOf(
      name: string, p: Collection, pm: set<string>, n: Collection, nm: set<string>, states: seq<Db>, ch: SchemaChange)
    returns (j: nat)
    requires Redeclared(name, p, pm, n, nm, states) && Planned(states[2], Single(name, n, nm), ch) && LiveRetype(ch)
    ensures ch.collection == name && ch.table == Main(name) && j < |n.fields| && ch.kind.field == n.fields[j].name
    ensures BothStore(p, n, j) ==> TypeAt(p, pm, j) != TypeAt(n, nm, j)
  {
    hide FirstState;
    hide Plain;
    hide Checked;
    var d := RetypeFacts(states[2], Single(name, n, nm), ch);
    assert DeclaresName(d, ch.kind.field);
    j := DeclaredField(n, nm, name, ch.kind.field);
    DeclaredOnce(name, n, nm, d, ch.kind.field, ch.kind.want, TypeAt(n, nm, j));
    if BothStore(p, n, j) {
      StoredColumnIs(name, p, pm, states[1], Live, j);
    }
  }

  // ----- names and fields of small configs

  /** A config without collections. */
  const NOTHING: Config := Config([], map[], {})

  function StoredField(name: string, t: FieldType, pk: bool): FieldEntry {
    FieldEntry(name, Field(t, pk, false, Stored))
  }

  lemma DocsIsLower()
    ensures Fold("docs") == "docs"
  {
    assert !TableNames.HasCapital("docs");
    TableNames.FoldKeeps("docs");
  }

  /** A name that starts with a letter is no revision column. */
  lemma Lettered(n: string)
    requires n != "" && n[0] != '_' && n != "workspace_id"
    ensures !Fresh.OwnName(n)
  {
    if n in REV_COLUMNS {
      RevUnderscored(n);
    }
  }

  /** The offered statements run, and leave nothing registered. */
  lemma CollectionDropped(db: Db, table: TableName) returns (after: Db)
    requires db.registry.Keys == {table.collection}
    ensures ExecAll([DropTable(TableKey(Live, table)), Unregister(table.collection)], db) == Some(after)
    ensures Keyed(NOTHING) && Lists([], after, NOTHING)
  {
    var drop, forget := DropTable(TableKey(Live, table)), Unregister(table.collection);
    ExecTwo(drop, forget, db);
    after := Exec(forget, Exec(drop, db).value).value;
    assert after.registry.Keys == {};
  }
}
