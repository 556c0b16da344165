/**
 The planner that reads the database and the one that only has two configs: what the first reports
 as destructive for live, on the database the previous config left, against what the second reports.
 */
module PlannersAgree {
  import opened Wrappers
  import opened Config
  import opened Catalog
  import opened Ddl
  import opened DdlFacts
  import opened Rules
  import opened Plan
  import opened Apply
  import opened Convergence
  import opened Idempotence

  const EMPTY: Db := Db(map[], map[], map[], {})

  /** A destructive change without the parts the two planners cannot share: types and table names. */
  datatype What = Retyped(field: string) | Removed(field: string) | Moved(field: string) | Gone

  datatype Brief = Brief(collection: string, what: What)

  function BriefOf(ch: SchemaChange): Brief
    requires Destructive(ch)
  {
    Brief(ch.collection, match ch.kind
      case TypeChange(f, _, _) => Retyped(f)
      case DropColumnChange(f, _) => Removed(f)
      case PkChange(_, want) => Moved(want)
      case DropCollection => Gone)
  }

  ghost predicate SchemaReports(db: Db, next: Config, b: Brief) {
    exists ch :: Planned(db, next, ch) && ch.env == Live && Destructive(ch) && BriefOf(ch) == b
  }

  ghost predicate ConfigReports(prev: Config, next: Config, b: Brief) {
    exists ch :: PlannedBetween(prev, next, ch) && Destructive(ch) && BriefOf(ch) == b
  }

  /** The collection has, and had, a live table of its own. */
  predicate Local(prev: Config, next: Config, name: string) {
    && name in prev.collections && !prev.collections[name].external
    && (name in next.collections ==> !next.collections[name].external)
  }

  predicate SharedDatasets(prev: Config, next: Config, name: string) {
    && Local(prev, next, name) && name in next.collections
    && prev.collections[name].kind == Dataset && next.collections[name].kind == Dataset
  }

  /** The collection is of one kind before and after. */
  predicate Shared(prev: Config, next: Config, name: string) {
    Local(prev, next, name) && name in next.collections && prev.collections[name].kind == next.collections[name].kind
  }

  /** The one table of a collection that declares columns. */
  function Home(cfg: Config, name: string): DeclaredTable
    requires name in cfg.collections
  {
    DeclaredTables(name, cfg.collections[name], cfg.multiple)[0]
  }

  /** `prev` laid the column down without declaring it: bookkeeping, an unstored binding's, a search column. */
  predicate LaidOnly(prev: Config, name: string, f: string)
    requires name in prev.collections
  {
    && !DeclaresName(Home(prev, name), f)
    && Laid(prev.collections[name], prev.multiple, Home(prev, name), f).Some?
  }

  /**
   A column no declaration of `prev` names: reported when `next` declares it with another type, or
   neither declares it nor counts it as structural.
   */
  ghost predicate Undeclared(prev: Config, next: Config, b: Brief) {
    && Shared(prev, next, b.collection)
    && match b.what
       case Retyped(f) =>
         && LaidOnly(prev, b.collection, f) && DeclaresName(Home(next, b.collection), f)
         && var laid := Laid(prev.collections[b.collection], prev.multiple, Home(prev, b.collection), f);
            !Declares(Home(next, b.collection), f, laid.value)
       case Removed(f) =>
         && LaidOnly(prev, b.collection, f) && !DeclaresName(Home(next, b.collection), f)
         && f !in Home(next, b.collection).structural
       case _ => false
  }

  /** A declared column goes that carries a name structural to `next`: the database planner looks past it. */
  predicate HiddenDrop(prev: Config, next: Config, b: Brief) {
    && Shared(prev, next, b.collection) && b.what.Removed?
    && DeclaresName(Home(prev, b.collection), b.what.field) && b.what.field in Home(next, b.collection).structural
  }

  /** A dataset without a declared pk is identified by `id`; declaring another one moves it. */
  predicate FirstPkDeclared(prev: Config, next: Config, b: Brief) {
    && SharedDatasets(prev, next, b.collection)
    && PkField(prev.collections[b.collection]) == Option.None
    && b.what.Moved? && PkField(next.collections[b.collection]) == Some(b.what.field) && b.what.field != "id"
  }

  /** `prev` was applied to an empty database and finished. */
  ghost predicate FirstApply(prev: Config, matching: set<string>, db: Db) {
    && Finished(EMPTY, prev, [], matching)
    && db == Applied(EMPTY, prev, [], matching).db
  }

  // ----- the tables a first apply leaves

  lemma NothingOnEmpty(cfg: Config)
    ensures Lists([], EMPTY, cfg) && Base(EMPTY, []) == EMPTY
  {
    assert Drops([]) + Forget([]) == [];
  }

  /** What a first apply leaves: every table made by its own collection's statements, and all of them carried out. */
  ghost predicate FirstState(prev: Config, matching: set<string>, db: Db) {
    && Keyed(prev) && Apart(prev) && Sourced(prev, EMPTY, db) && Settled(prev, matching, db)
    && db.registry.Keys == prev.collections.Keys
  }

  lemma FirstFacts(prev: Config, matching: set<string>, db: Db)
    requires FirstApply(prev, matching, db)
    ensures FirstState(prev, matching, db)
  {
    NothingOnEmpty(prev);
    FinishedSettles(EMPTY, prev, [], matching);
  }

  lemma CreatesDeclared(env: Env, name: string, c: Collection, multiple: set<string>, s: Statement)
    returns (d: DeclaredTable)
    requires s in TableBatch(env, name, c, multiple) && s.CreateTable?
    ensures d in DeclaredTables(name, c, multiple) && s.key == Landed(env, d.table) && !(c.external && env == Live)
  {
    if c.kind == Dataset {
      OnlyCreate(env, name, c, multiple, s);
      d := DatasetTable(name, c, multiple);
    } else {
      FileCreates(env, name, c, multiple, s);
      d := if s.key.name.Files? then FilesTable(name, c, multiple) else DocumentsTable(name);
    }
  }

  /** The collection declares the table, and has it in this environment. */
  ghost predicate Declaring(prev: Config, name: string, env: Env, d: DeclaredTable) {
    && name in prev.collections && !(prev.collections[name].external && env == Live)
    && d in DeclaredTables(name, prev.collections[name], prev.multiple)
  }

  /** A table that exists after a first apply is where a declared one lands. */
  lemma TableDeclared(prev: Config, db: Db, key: TableKey) returns (name: string, d: DeclaredTable)
    requires Sourced(prev, EMPTY, db) && key in db.tables
    ensures Declaring(prev, name, key.env, d) && Landed(key.env, d.table) == key
  {
    assert SourcedTable(prev, EMPTY, key, db.tables[key]);
    var s :| s in BatchFor(prev, key) && s.CreateTable? && s.key == key;
    name := OwnerOf(prev, key, s);
    d := CreatesDeclared(key.env, name, prev.collections[name], prev.multiple, s);
  }

  lemma DeclaredTableExists(prev: Config, db: Db, name: string, env: Env, d: DeclaredTable)
    requires Declaring(prev, name, env, d) && Built(prev, name, db)
    ensures Landed(env, d.table) in db.tables
  {
    var s := DeclaredIsCreated(env, name, prev.collections[name], prev.multiple, d);
    BuiltSatisfies(prev, name, env, s, db);
  }

  /** The columns of a created table: the declared ones and the ones laid down beside them, each with its type. */
  lemma ColumnShape(prev: Config, matching: set<string>, db: Db, name: string, env: Env, d: DeclaredTable, f: string)
    requires SchemaRules(prev) && FirstState(prev, matching, db) && Declaring(prev, name, env, d)
    ensures Landed(env, d.table) in db.tables
    ensures var cols := db.tables[Landed(env, d.table)].columns;
      var laid := Laid(prev.collections[name], prev.multiple, d, f);
      && (f in cols <==> DeclaresName(d, f) || laid.Some?)
      && (f in cols ==> if DeclaresName(d, f) then Declares(d, f, cols[f]) else laid == Some(cols[f]))
  {
    var key := Landed(env, d.table);
    DeclaredTableExists(prev, db, name, env, d);
    var cols := db.tables[key].columns;
    assert SourcedTable(prev, EMPTY, key, db.tables[key]);
    if DeclaresName(d, f) {
      ColumnPresent(prev, db, name, env, d, f);
    } else if Laid(prev.collections[name], prev.multiple, d, f).Some? {
      LaidPresent(prev, db, name, env, d, f);
    }
    if f in cols {
      IntroducedFits(prev, EMPTY, name, env, d, cols, f);
    }
  }

  /** A declared table of a first apply: built, with everything its creation listed. */
  ghost predicate Made(prev: Config, db: Db, name: string, env: Env, d: DeclaredTable) {
    && Declaring(prev, name, env, d) && Apart(prev) && Built(prev, name, db) && Landed(env, d.table) in db.tables
    && HasListed(prev, Landed(env, d.table), db.tables[Landed(env, d.table)].columns)
  }

  lemma LaidPresent(prev: Config, db: Db, name: string, env: Env, d: DeclaredTable, f: string)
    requires Made(prev, db, name, env, d) && Laid(prev.collections[name], prev.multiple, d, f).Some?
    ensures f in db.tables[Landed(env, d.table)].columns
  {
    if f in Types(OwnColumns(d.table)) {
      OwnTypes(d.table);
      OwnPresent(prev, db, name, env, d, f);
    } else if f in prev.collections[name].taxonomies {
      BindingColumn(prev, db, name, env, f);
    } else {
      SearchPresent(prev, db, name, env, f);
    }
  }

  /** What the statement that creates a declared table lists is in it. */
  lemma ListedPresent(prev: Config, db: Db, name: string, env: Env, d: DeclaredTable, s: Statement, f: string)
    requires Made(prev, db, name, env, d) && s in TableBatch(env, name, prev.collections[name], prev.multiple)
    requires ListsColumn(s, Landed(env, d.table), f)
    ensures f in db.tables[Landed(env, d.table)].columns
  {
    BatchOf(prev, Landed(env, d.table), name);
  }

  /** A table's own columns come with its creation, and the later ones of a files table with their alters. */
  lemma OwnPresent(prev: Config, db: Db, name: string, env: Env, d: DeclaredTable, f: string)
    requires Made(prev, db, name, env, d) && f in OwnNames(d.table)
    ensures f in db.tables[Landed(env, d.table)].columns
  {
    var c := prev.collections[name];
    var s := DeclaredIsCreated(env, name, c, prev.multiple, d);
    match d.table {
      case Main(_) =>
        MainListsOwn(env, name, c, prev.multiple, s, f);
        ListedPresent(prev, db, name, env, d, s, f);
      case Files(_) =>
        FilesOwnPresent(prev, db, name, env, d, f, s);
      case Documents(_) =>
        DocumentsListOwn(env, name, c, prev.multiple, s, f);
        ListedPresent(prev, db, name, env, d, s, f);
    }
  }

  lemma MainListsOwn(env: Env, name: string, c: Collection, multiple: set<string>, s: Statement, f: string)
    requires s in DatasetBatch(env, name, c, multiple) && s.CreateTable? && f in REV_COLUMNS + {"workspace_id"}
    ensures ListsColumn(s, s.key, f)
  {
    OnlyCreate(env, name, c, multiple, s);
    RevNames();
    var i :| 0 <= i < |REV_DDL| && REV_DDL[i].name == f;
    assert s.columns[i] == REV_DDL[i];
  }

  lemma DocumentsListOwn(env: Env, name: string, c: Collection, multiple: set<string>, s: Statement, f: string)
    requires s in FileBatch(env, name, c, multiple) && s.CreateTable? && s.key.name.Documents?
      && f in DOCUMENTS_STRUCTURAL
    ensures ListsColumn(s, s.key, f)
  {
    FileCreates(env, name, c, multiple, s);
    DocumentsOwnNames();
    var i :| 0 <= i < |DOCUMENTS_DDL| && DOCUMENTS_DDL[i].name == f;
    assert s.columns[i] == DOCUMENTS_DDL[i];
  }

  /** Where a files table's own column comes from: its creation's list, or a later alter. */
  lemma FilesOwnFrom(key: TableKey, name: string, c: Collection, multiple: set<string>, f: string)
    requires f in FILES_STRUCTURAL
    ensures || ListsColumn(FilesCreate(key, c, multiple), key, f)
            || exists s :: s in FilesUpgrades(key, name) && AddsColumn(s, key, f)
  {
    FilesOwnNames();
    var own, columns := OwnColumns(Files("")), FilesCreate(key, c, multiple).columns;
    var i :| 0 <= i < |own| && own[i].name == f;
    if i < |FILES_HEAD| {
      assert columns[i] == own[i];
    } else if i < |FILES_HEAD| + |FILES_TAIL| {
      assert columns[|columns| - |FILES_TAIL| + (i - |FILES_HEAD|)] == own[i];
    } else {
      var u := FilesUpgrades(key, name);
      var k := if i == 11 then 4 else i - 8;
      assert u[k] == AddColumn(key, own[i]) && u[k] in u;
    }
  }

  lemma FilesOwnPresent(prev: Config, db: Db, name: string, env: Env, d: DeclaredTable, f: string, s: Statement)
    requires Made(prev, db, name, env, d) && d.table == Files(name) && f in FILES_STRUCTURAL
    requires s in TableBatch(env, name, prev.collections[name], prev.multiple) && s.CreateTable?
      && s.key == Landed(env, d.table)
    ensures f in db.tables[Landed(env, d.table)].columns
  {
    var c, key := prev.collections[name], TableKey(env, Files(name));
    FileCreates(env, name, c, prev.multiple, s);
    FilesOwnFrom(key, name, c, prev.multiple, f);
    if ListsColumn(s, key, f) {
      ListedPresent(prev, db, name, env, d, s, f);
    } else {
      var u :| u in FilesUpgrades(key, name) && AddsColumn(u, key, f);
      assert u in FileBatch(env, name, c, prev.multiple);
      BuiltSatisfies(prev, name, env, u, db);
    }
  }

  lemma IdentityShape(prev: Config, matching: set<string>, db: Db, name: string, env: Env)
    requires FirstState(prev, matching, db) && name in prev.collections
      && !(prev.collections[name].external && env == Live) && prev.collections[name].kind == Dataset
    ensures MainKey(env, name) in db.tables
    ensures var t := db.tables[MainKey(env, name)];
      t.identity == Some(IdentityField(prev.collections[name])) && ReflectPk(t) == t.identity
  {
    var key := MainKey(env, name);
    var c := prev.collections[name];
    var s := CreateIdentity(key, IdentityField(c));
    assert s in TableBatch(env, name, c, prev.multiple);
    BuiltSatisfies(prev, name, env, s, db);
    assert SourcedTable(prev, EMPTY, key, db.tables[key]);
    BatchOf(prev, key, name);
    CreatesIdentity(env, name, c, prev.multiple, key, db.tables[key].identity.value);
  }

  // ----- from the database planner to the config planner

  ghost predicate Setting(prev: Config, next: Config, matching: set<string>, db: Db) {
    SchemaRules(prev) && Keyed(next) && FirstState(prev, matching, db)
  }

  /** The planner finds the table the previous config made for the collection. */
  predicate Found(prev: Config, b: Brief) {
    b.collection in prev.collections && Seen(Home(prev, b.collection).table)
  }

  /** A table both planners look at: declared by `next`, and by `prev` under the same name. */
  ghost predicate BothDeclare(
      prev: Config, next: Config, db: Db, name: string, before: DeclaredTable, d: DeclaredTable) {
    && Local(prev, next, name) && name in next.collections && before.table == d.table
    && Compared(db, prev, name, Live, before) && Compared(db, next, name, Live, d)
    && TableKey(Live, d.table) == Landed(Live, before.table)
  }

  lemma SameKind(prev: Config, next: Config, db: Db, name: string, before: DeclaredTable, d: DeclaredTable)
    requires BothDeclare(prev, next, db, name, before, d)
    ensures prev.collections[name].kind == next.collections[name].kind
  {}

  /** A table that exists where the planner looks is the collection's own. */
  lemma OwnTable(prev: Config, db: Db, name: string, table: TableName) returns (before: DeclaredTable)
    requires Sourced(prev, EMPTY, db) && TableKey(Live, table) in db.tables && table.collection == name
    requires !Taken(prev, name)
    ensures Declaring(prev, name, Live, before) && before.table == table && Seen(table)
  {
    var n;
    n, before := TableDeclared(prev, db, TableKey(Live, table));
    if table.Main? {
      FoldTwice(n);
    }
  }

  lemma ComparedBefore(prev: Config, next: Config, matching: set<string>, db: Db, name: string, d: DeclaredTable)
    returns (before: DeclaredTable)
    requires FirstState(prev, matching, db) && Compared(db, next, name, Live, d) && !Taken(prev, name)
    ensures BothDeclare(prev, next, db, name, before, d)
  {
    hide Sourced;
    hide Settled;
    hide Taken;
    before := OwnTable(prev, db, name, d.table);
  }

  /** A table that declares a column, before or after, is the collection's home table in both configs. */
  lemma AtHome(prev: Config, next: Config, db: Db, name: string, before: DeclaredTable, d: DeclaredTable, f: string)
    requires BothDeclare(prev, next, db, name, before, d)
    requires DeclaresName(d, f) || DeclaresName(before, f) || !d.table.Documents?
    ensures Shared(prev, next, name) && before == Home(prev, name) && d == Home(next, name)
  {
    SameKind(prev, next, db, name, before, d);
  }

  lemma SchemaTypeChange(prev: Config, next: Config, matching: set<string>, db: Db, ch: SchemaChange, d: DeclaredTable)
    requires Setting(prev, next, matching, db) && Compared(db, next, ch.collection, Live, d) && d.table == ch.table
    requires !Taken(prev, ch.collection)
    requires ch.env == Live && ch.kind.TypeChange? && ColumnDiff(db.tables[TableKey(Live, d.table)], d, ch.kind)
    ensures (PlannedBetween(prev, next, ch) && Local(prev, next, ch.collection)) || Undeclared(prev, next, BriefOf(ch))
  {
    hide Settled;
    hide Sourced;
    hide SchemaRules;
    var name, f := ch.collection, ch.kind.field;
    var before := ComparedBefore(prev, next, matching, db, name, d);
    ColumnShape(prev, matching, db, name, Live, before, f);
    AtHome(prev, next, db, name, before, d, f);
    if DeclaresName(before, f) {
      assert ConfigColumnDiff(before, d, ch.kind);
    } else if Declares(d, f, ch.kind.have) {
      DeclaredOnce(name, next.collections[name], next.multiple, d, f, ch.kind.have, ch.kind.want);
    }
  }

  lemma SchemaDropColumn(prev: Config, next: Config, matching: set<string>, db: Db, ch: SchemaChange, d: DeclaredTable)
    requires Setting(prev, next, matching, db) && Compared(db, next, ch.collection, Live, d) && d.table == ch.table
    requires !Taken(prev, ch.collection)
    requires ch.env == Live && ch.kind.DropColumnChange? && ColumnDiff(db.tables[TableKey(Live, d.table)], d, ch.kind)
    ensures
      || (PlannedBetween(prev, next, ch) && Local(prev, next, ch.collection) && !HiddenDrop(prev, next, BriefOf(ch)))
            || Undeclared(prev, next, BriefOf(ch))
  {
    hide Settled;
    hide Sourced;
    hide SchemaRules;
    var before := ComparedBefore(prev, next, matching, db, ch.collection, d);
    ColumnShape(prev, matching, db, ch.collection, Live, before, ch.kind.field);
    DocumentsHaveNoStrays(prev, before, ch.collection, d, ch.kind.field);
    AtHome(prev, next, db, ch.collection, before, d, ch.kind.field);
    if DeclaresName(before, ch.kind.field) {
      assert ConfigColumnDiff(before, d, ch.kind);
    }
  }

  /** What is laid down in a documents table is structural to it. */
  lemma DocumentsHaveNoStrays(prev: Config, before: DeclaredTable, name: string, d: DeclaredTable, f: string)
    requires name in prev.collections && before.table == d.table
    ensures d.table.Documents? && Laid(prev.collections[name], prev.multiple, before, f).Some? ==>
      f in DOCUMENTS_STRUCTURAL
  {
    OwnTypes(d.table);
  }

  lemma SchemaPkChange(prev: Config, next: Config, matching: set<string>, db: Db, ch: SchemaChange, d: DeclaredTable)
    requires Setting(prev, next, matching, db) && Compared(db, next, ch.collection, Live, d) && d.table == ch.table
    requires !Taken(prev, ch.collection)
    requires ch.env == Live && ch.kind.PkChange?
    requires IdentityDiff(db.tables[TableKey(Live, d.table)], ch.collection, next.collections[ch.collection], d,
      ch.kind)
    ensures (PlannedBetween(prev, next, ch) && Local(prev, next, ch.collection))
      || FirstPkDeclared(prev, next, BriefOf(ch))
  {
    hide FirstState;
    var before := ComparedBefore(prev, next, matching, db, ch.collection, d);
    SameKind(prev, next, db, ch.collection, before, d);
    IdentityShape(prev, matching, db, ch.collection, Live);
  }

  lemma SchemaDropped(prev: Config, next: Config, matching: set<string>, db: Db, ch: SchemaChange)
    requires FirstState(prev, matching, db) && Dropped(db, next, ch) && ch.env == Live && !Taken(prev, ch.collection)
    ensures ConfigReports(prev, next, BriefOf(ch)) && Local(prev, next, ch.collection)
  {
    hide Settled;
    hide Sourced;
    var before := OwnTable(prev, db, ch.collection, ch.table);
    var same := SchemaChange(ch.collection, Live, Main(ch.collection), DropCollection);
    assert PlannedBetween(prev, next, same);
  }

  lemma PlannedAtOwnName(db: Db, next: Config, ch: SchemaChange)
    requires Planned(db, next, ch)
    ensures TableKey(ch.env, ch.table) in db.tables && ch.table.collection == ch.collection
  {}

  /** Whatever is reported for a collection, its table was found. */
  lemma ReportedIsFound(prev: Config, next: Config, matching: set<string>, db: Db, ch: SchemaChange)
    requires FirstState(prev, matching, db) && Planned(db, next, ch) && ch.env == Live && !Taken(prev, ch.collection)
    requires Destructive(ch)
    ensures Found(prev, BriefOf(ch))
  {
    hide Settled;
    hide Sourced;
    PlannedAtOwnName(db, next, ch);
    var before := OwnTable(prev, db, ch.collection, ch.table);
  }

  lemma FromSchema(prev: Config, next: Config, matching: set<string>, db: Db, ch: SchemaChange)
    requires Setting(prev, next, matching, db) && Planned(db, next, ch) && ch.env == Live && Destructive(ch)
    requires !Taken(prev, ch.collection)
    ensures var b := BriefOf(ch);
            || (ConfigReports(prev, next, b) && Local(prev, next, b.collection) && !HiddenDrop(prev, next, b))
            || Undeclared(prev, next, b) || FirstPkDeclared(prev, next, b)
  {
    hide FirstState;
    if Dropped(db, next, ch) {
      SchemaDropped(prev, next, matching, db, ch);
    } else {
      var d: DeclaredTable :| Compared(db, next, ch.collection, ch.env, d) && d.table == ch.table
        && TableDiff(db.tables[TableKey(ch.env, d.table)], ch.collection, next.collections[ch.collection], d, ch.kind);
      match ch.kind
      case TypeChange(_, _, _) => SchemaTypeChange(prev, next, matching, db, ch, d);
      case DropColumnChange(_, _) => SchemaDropColumn(prev, next, matching, db, ch, d);
      case PkChange(_, _) => SchemaPkChange(prev, next, matching, db, ch, d);
      case _ =>
    }
  }

  // ----- from the config planner to the database planner

  lemma ComparedNow(
      prev: Config, next: Config, matching: set<string>, db: Db, name: string, before: DeclaredTable, d: DeclaredTable)
    requires FirstState(prev, matching, db) && Local(prev, next, name) && name in next.collections
    requires before in DeclaredTables(name, prev.collections[name], prev.multiple) && Seen(before.table)
    requires d in DeclaredTables(name, next.collections[name], next.multiple) && before.table == d.table
    ensures BothDeclare(prev, next, db, name, before, d)
  {
    DeclaredTableExists(prev, db, name, Live, before);
  }

  lemma DriftPlanned(db: Db, next: Config, ch: SchemaChange, d: DeclaredTable)
    requires Compared(db, next, ch.collection, ch.env, d) && d.table == ch.table
    requires ColumnDiff(db.tables[TableKey(ch.env, d.table)], d, ch.kind)
    ensures Planned(db, next, ch)
  {
    assert Drifted(db, next, ch);
  }

  lemma FromConfigDrift(prev: Config, next: Config, matching: set<string>, db: Db, ch: SchemaChange)
    requires Setting(prev, next, matching, db) && Local(prev, next, ch.collection) && ch.collection in next.collections
    requires ch.env == Live && Destructive(ch) && ConfigDrift(prev, next, ch) && !HiddenDrop(prev, next, BriefOf(ch))
    requires Found(prev, BriefOf(ch))
    ensures Planned(db, next, ch)
  {
    hide FirstState;
    var name := ch.collection;
    var before: DeclaredTable, d: DeclaredTable :|
      && before in DeclaredTables(name, prev.collections[name], prev.multiple)
      && d in DeclaredTables(name, next.collections[name], next.multiple)
      && before.table == d.table == ch.table && ConfigColumnDiff(before, d, ch.kind);
    ComparedNow(prev, next, matching, db, name, before, d);
    var t := db.tables[TableKey(Live, d.table)];
    match ch.kind {
      case TypeChange(f, have, want) =>
        ColumnShape(prev, matching, db, name, Live, before, f);
        DeclaredOnce(name, prev.collections[name], prev.multiple, before, f, have, t.columns[f]);
      case DropColumnChange(f, had) =>
        ColumnShape(prev, matching, db, name, Live, before, f);
        DeclaredOnce(name, prev.collections[name], prev.multiple, before, f, had, t.columns[f]);
        AtHome(prev, next, db, name, before, d, f);
      case _ =>
    }
    DriftPlanned(db, next, ch, d);
  }

  lemma PkMoved(prev: Config, next: Config, matching: set<string>, db: Db, name: string, want: string)
    returns (ch: SchemaChange)
    requires FirstState(prev, matching, db) && SharedDatasets(prev, next, name) && Seen(Main(name))
    requires PkField(next.collections[name]) == Some(want) && want != IdentityField(prev.collections[name])
    ensures Planned(db, next, ch) && ch.env == Live && Destructive(ch) && BriefOf(ch) == Brief(name, Moved(want))
  {
    hide FirstState;
    var before := DatasetTable(name, prev.collections[name], prev.multiple);
    var d := DatasetTable(name, next.collections[name], next.multiple);
    ComparedNow(prev, next, matching, db, name, before, d);
    IdentityShape(prev, matching, db, name, Live);
    ch := SchemaChange(name, Live, Main(name), PkChange(IdentityField(prev.collections[name]), want));
    assert TableDiff(db.tables[TableKey(Live, d.table)], name, next.collections[name], d, ch.kind);
    assert Drifted(db, next, ch);
  }

  lemma GoneNow(prev: Config, next: Config, matching: set<string>, db: Db, name: string) returns (ch: SchemaChange)
    requires FirstState(prev, matching, db) && Local(prev, next, name) && name !in next.collections
    requires Seen(Home(prev, name).table)
    ensures Planned(db, next, ch) && ch.env == Live && Destructive(ch) && BriefOf(ch) == Brief(name, Gone)
  {
    var d := Home(prev, name);
    DeclaredTableExists(prev, db, name, Live, d);
    ch := SchemaChange(name, Live, d.table, DropCollection);
    assert Dropped(db, next, ch);
  }

  lemma UndeclaredNow(prev: Config, next: Config, matching: set<string>, db: Db, b: Brief) returns (ch: SchemaChange)
    requires Setting(prev, next, matching, db) && Undeclared(prev, next, b) && Found(prev, b)
    ensures Planned(db, next, ch) && ch.env == Live && Destructive(ch) && BriefOf(ch) == b
  {
    hide FirstState;
    var name, f := b.collection, b.what.field;
    var before, d := Home(prev, name), Home(next, name);
    ComparedNow(prev, next, matching, db, name, before, d);
    ColumnShape(prev, matching, db, name, Live, before, f);
    var have := db.tables[TableKey(Live, d.table)].columns[f];
    if b.what.Retyped? {
      var i :| 0 <= i < |d.columns| && d.columns[i].name == f;
      assert Declares(d, f, d.columns[i].pgType);
      ch := SchemaChange(name, Live, d.table, TypeChange(f, have, d.columns[i].pgType));
    } else {
      ch := SchemaChange(name, Live, d.table, DropColumnChange(f, have));
    }
    DriftPlanned(db, next, ch, d);
  }

  lemma FromConfig(prev: Config, next: Config, matching: set<string>, db: Db, ch: SchemaChange)
    requires Setting(prev, next, matching, db) && PlannedBetween(prev, next, ch) && Destructive(ch)
    requires Local(prev, next, ch.collection) && !HiddenDrop(prev, next, BriefOf(ch)) && Found(prev, BriefOf(ch))
    ensures SchemaReports(db, next, BriefOf(ch))
  {
    if ch.collection !in next.collections {
      var now := GoneNow(prev, next, matching, db, ch.collection);
    } else if ConfigDrift(prev, next, ch) {
      FromConfigDrift(prev, next, matching, db, ch);
    } else {
      var now := PkMoved(prev, next, matching, db, ch.collection, ch.kind.wantPk);
    }
  }

  /**
   Main result: on the database the previous config left, the live destructive changes of a collection whose table
   is found are those of the config comparison for collections stored locally before and after, except columns that
   go but carry a structural name; and besides them the columns no declaration named, and the first pk a dataset
   declares. Where the table is not found, which is where its statements fold the name to another, there are none.
   */
  lemma PlannersAgreeOn(prev: Config, next: Config, matching: set<string>, db: Db, b: Brief)
    requires SchemaRules(prev) && Keyed(next) && FirstApply(prev, matching, db) && !Taken(prev, b.collection)
    ensures SchemaReports(db, next, b) <==>
            && Found(prev, b)
            && (|| (ConfigReports(prev, next, b) && Local(prev, next, b.collection) && !HiddenDrop(prev, next, b))
                || Undeclared(prev, next, b)
                || FirstPkDeclared(prev, next, b))
  {
    hide FirstState;
    hide FirstApply;
    hide Undeclared;
    FirstFacts(prev, matching, db);
    if SchemaReports(db, next, b) {
      var ch :| Planned(db, next, ch) && ch.env == Live && Destructive(ch) && BriefOf(ch) == b;
      FromSchema(prev, next, matching, db, ch);
      ReportedIsFound(prev, next, matching, db, ch);
    }
    if Found(prev, b)
       && (|| (ConfigReports(prev, next, b) && Local(prev, next, b.collection) && !HiddenDrop(prev, next, b))
           || Undeclared(prev, next, b) || FirstPkDeclared(prev, next, b))
    {
      FoundReports(prev, next, matching, db, b);
    }
  }

  lemma FoundReports(prev: Config, next: Config, matching: set<string>, db: Db, b: Brief)
    requires Setting(prev, next, matching, db) && Found(prev, b)
    requires || (ConfigReports(prev, next, b) && Local(prev, next, b.collection) && !HiddenDrop(prev, next, b))
             || Undeclared(prev, next, b)
             || FirstPkDeclared(prev, next, b)
    ensures SchemaReports(db, next, b)
  {
    if Undeclared(prev, next, b) {
      var ch := UndeclaredNow(prev, next, matching, db, b);
    } else if FirstPkDeclared(prev, next, b) {
      var ch := PkMoved(prev, next, matching, db, b.collection, b.what.field);
    } else {
      var ch :| PlannedBetween(prev, next, ch) && Destructive(ch) && BriefOf(ch) == b;
      FromConfig(prev, next, matching, db, ch);
    }
  }
}
