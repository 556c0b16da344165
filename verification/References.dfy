/**
 Every chunk of a file refers to its file. Applies, migrations and writes keep it so, which is what makes live
 data safe over whole deployments; the statements a migration offers for a dropped file collection do not.
 */
module References {
  import opened Wrappers
  import opened Config
  import opened Catalog
  import opened Ddl
  import opened DdlFacts
  import opened Rules
  import opened Plan
  import opened Apply
  import opened ApplySafety
  import opened Convergence
  import opened Idempotence
  import opened PlannersAgree
  import opened Migration
  import opened MigrationProofs
  import opened Pipeline
  import opened Forgetting

  // ----- what an apply adds

  /** The column of a file collection's table that the reference rests on. */
  predicate KeyColumn(key: TableKey, column: string) {
    match key.name
    case Main(_) => false
    case Files(_) => column == "id"
    case Documents(_) => column == "file_id"
  }

  /** A column no step takes from a table: one the reference rests on, or `workspace_id`. */
  predicate Lasting(key: TableKey, column: string) {
    KeyColumn(key, column) || column == "workspace_id"
  }

  /** The table lies where statements land, and has its lasting columns. */
  ghost predicate HasKeys(key: TableKey, t: Table) {
    Seen(key.name) && forall c :: Lasting(key, c) ==> c in t.columns
  }

  ghost predicate AllHaveKeys(db: Db) {
    forall k :: k in db.tables ==> HasKeys(k, db.tables[k])
  }

  lemma HavingKeysIsSound(db: Db)
    requires AllHaveKeys(db)
    ensures Sound(db)
  {
    forall k | k in db.tables ensures Seen(k.name) && "workspace_id" in db.tables[k].columns {
      assert HasKeys(k, db.tables[k]) && Lasting(k, "workspace_id");
    }
  }

  /** A table that was not there before holds no rows, and has its lasting columns. */
  ghost predicate NewEmpty(db: Db, later: Db) {
    forall k :: k in later.tables && k !in db.tables ==> later.tables[k].rows == [] && HasKeys(k, later.tables[k])
  }

  /** A table statement, and every table is created where statements land and with its lasting columns. */
  ghost predicate ListsKeys(s: Statement) {
    Builds(s) && (s.CreateTable? ==> Seen(s.key.name) && forall c :: Lasting(s.key, c) ==> ListsColumn(s, s.key, c))
  }

  /** A file collection's tables are created with the columns its reference rests on. */
  lemma FilesListKeys(env: Env, name: string, c: Collection, multiple: set<string>, s: Statement)
    requires s in FileBatch(env, name, c, multiple) && s.CreateTable?
    ensures Seen(s.key.name) && forall col :: KeyColumn(s.key, col) ==> ListsColumn(s, s.key, col)
  {
    FileCreates(env, name, c, multiple, s);
    assert if s.key.name.Files? then s.columns[0].name == "id" else s.columns[2].name == "file_id";
  }

  lemma DatasetListsKeys(env: Env, name: string, c: Collection, multiple: set<string>, s: Statement)
    requires s in DatasetBatch(env, name, c, multiple) && s.CreateTable?
    ensures Seen(s.key.name) && forall col :: !KeyColumn(s.key, col)
  {
    OnlyCreate(env, name, c, multiple, s);
    FoldTwice(name);
  }

  lemma BatchListsKeys(env: Env, name: string, c: Collection, multiple: set<string>)
    ensures forall s :: s in TableBatch(env, name, c, multiple) ==> ListsKeys(s)
  {
    hide DatasetBatch;
    hide FileBatch;
    TableBatchBuilds(env, name, c, multiple);
    forall s | s in TableBatch(env, name, c, multiple) && s.CreateTable? ensures ListsKeys(s) {
      CreateListsWorkspace(env, name, c, multiple, s);
      match c.kind
      case Dataset => DatasetListsKeys(env, name, c, multiple, s);
      case File => FilesListKeys(env, name, c, multiple, s);
    }
  }

  lemma ExecNewEmpty(s: Statement, db: Db)
    requires ListsKeys(s) && Exec(s, db).Some?
    ensures NewEmpty(db, Exec(s, db).value)
  {
    ExecOwn(s, db);
    OthersUntouched(s, db);
    if s.key !in db.tables {
      TypesFrom(s.columns);
    }
  }

  lemma EmptyStays(key: TableKey, t: Table, u: Table)
    requires Extends(t, u) && t.rows == [] && HasKeys(key, t)
    ensures u.rows == [] && HasKeys(key, u)
  {}

  lemma NewEmptyThen(a: Db, b: Db, c: Db)
    requires NewEmpty(a, b) && NewEmpty(b, c) && Grown(b, c)
    ensures NewEmpty(a, c)
  {
    forall k | k in c.tables && k !in a.tables ensures c.tables[k].rows == [] && HasKeys(k, c.tables[k]) {
      if k in b.tables {
        EmptyStays(k, b.tables[k], c.tables[k]);
      }
    }
  }

  lemma {:induction false} BatchAdds(ss: seq<Statement>, db: Db)
    requires (forall s :: s in ss ==> ListsKeys(s)) && ExecAll(ss, db).Some?
    ensures Grown(db, ExecAll(ss, db).value) && NewEmpty(db, ExecAll(ss, db).value)
  {
    if ss != [] {
      var mid := ExecAll(ss[..|ss| - 1], db).value;
      assert ss[|ss| - 1] in ss;
      BatchAdds(ss[..|ss| - 1], db);
      ExecGrows(ss[|ss| - 1], mid);
      ExecNewEmpty(ss[|ss| - 1], mid);
      GrownTransitive(db, mid, ExecAll(ss, db).value);
      NewEmptyThen(db, mid, ExecAll(ss, db).value);
    }
  }

  lemma SendAdds(base: Db, r: Run, batch: seq<Statement>)
    requires (forall s :: s in batch ==> ListsKeys(s)) && Grown(base, r.db) && NewEmpty(base, r.db)
    ensures Grown(base, Send(r, batch).db) && NewEmpty(base, Send(r, batch).db)
  {
    if r.failure.None? && ExecAll(batch, r.db).Some? {
      BatchAdds(batch, r.db);
      GrownTransitive(base, r.db, Send(r, batch).db);
      NewEmptyThen(base, r.db, Send(r, batch).db);
    }
  }

  lemma {:induction false} TablesAdd(base: Db, r: Run, cfg: Config, names: seq<string>, matching: set<string>)
    requires Covers(cfg, names) && Grown(base, r.db) && NewEmpty(base, r.db)
    ensures var after := AllTables(r, cfg, names, matching).db; Grown(base, after) && NewEmpty(base, after)
  {
    if names != [] {
      var before, name := names[..|names| - 1], names[|names| - 1];
      TablesAdd(base, r, cfg, before, matching);
      OneAdds(base, AllTables(r, cfg, before, matching), cfg, name, matching);
    }
  }

  lemma OneAdds(base: Db, r: Run, cfg: Config, name: string, matching: set<string>)
    requires name in cfg.collections && Grown(base, r.db) && NewEmpty(base, r.db)
    ensures var after := TablesOf(r, cfg, name, matching).db; Grown(base, after) && NewEmpty(base, after)
  {
    var c := cfg.collections[name];
    BatchListsKeys(Dev, name, c, cfg.multiple);
    BatchListsKeys(Live, name, c, cfg.multiple);
    var checked := CheckRevisions(CheckRevisions(r, Dev, name, c), Live, name, c);
    SendAdds(base, checked, TableBatch(Dev, name, c, cfg.multiple));
    SendAdds(base, Send(checked, TableBatch(Dev, name, c, cfg.multiple)), TableBatch(Live, name, c, cfg.multiple));
  }

  /** Whether it finishes or throws, an apply adds to what settling the destructive changes left. */
  lemma AppliedAdds(db: Db, cfg: Config, plan: seq<SchemaChange>, matching: set<string>)
    requires Keyed(cfg)
    ensures var after := Applied(db, cfg, plan, matching).db;
      Grown(Base(db, plan), after) && NewEmpty(Base(db, plan), after)
  {
    var resolved := Resolve(Start(db), plan);
    TablesAdd(resolved.db, resolved, cfg, cfg.names, matching);
    AllViewsKeepTables(AllTables(resolved, cfg, cfg.names, matching), cfg, cfg.names);
  }

  // ----- each step keeps the reference

  ghost predicate SameColumn(t: Table, u: Table, column: string) {
    |u.rows| == |t.rows| && forall i :: 0 <= i < |t.rows| ==> Cell(u.rows[i], column) == Cell(t.rows[i], column)
  }

  /** Both ends of the reference are as they were, wherever there is still a chunk. */
  ghost predicate EndsKept(db: Db, later: Db) {
    forall env, c | TableKey(env, Documents(c)) in later.tables
        && later.tables[TableKey(env, Documents(c))].rows != [] ::
      var docs, files := TableKey(env, Documents(c)), TableKey(env, Files(c));
      && docs in db.tables && SameColumn(db.tables[docs], later.tables[docs], "file_id")
      && (files in db.tables ==> files in later.tables && SameColumn(db.tables[files], later.tables[files], "id"))
  }

  lemma EndsKeepReferences(db: Db, later: Db)
    requires ForeignKeys(db) && EndsKept(db, later)
    ensures ForeignKeys(later)
  {
    forall env, c, i | TableKey(env, Documents(c)) in later.tables
                       && 0 <= i < |later.tables[TableKey(env, Documents(c))].rows|
      ensures ReferencesFile(later, env, c, later.tables[TableKey(env, Documents(c))].rows[i])
    {
      var docs, files := TableKey(env, Documents(c)), TableKey(env, Files(c));
      assert later.tables[docs].rows != [];
      assert ReferencesFile(db, env, c, db.tables[docs].rows[i]);
      var f :| f in db.tables[files].rows && Cell(f, "id") == Cell(db.tables[docs].rows[i], "file_id");
      var k :| 0 <= k < |db.tables[files].rows| && db.tables[files].rows[k] == f;
      assert later.tables[files].rows[k] in later.tables[files].rows;
    }
  }

  /** Settling drops a files table together with its documents, so what stays is referenced as before. */
  lemma SettlingKeepsReferences(db: Db, plan: seq<SchemaChange>)
    requires ForeignKeys(db) && AllHaveKeys(db)
    ensures ForeignKeys(Base(db, plan)) && AllHaveKeys(Base(db, plan))
  {
    if Blocked(db, plan) == [] {
      ResolvedTables(db, plan);
      var base := Base(db, plan);
      forall env, c | TableKey(env, Documents(c)) in base.tables && TableKey(env, Files(c)) in db.tables
        ensures TableKey(env, Files(c)) in base.tables
      {
        DroppedTogether(db, plan, env, c);
      }
      assert EndsKept(db, base);
      EndsKeepReferences(db, base);
    }
  }

  lemma DroppedTogether(db: Db, plan: seq<SchemaChange>, env: Env, c: string)
    ensures TableKey(env, Files(c)) in DropKeys(db, plan) ==> TableKey(env, Documents(c)) in DropKeys(db, plan)
  {
    if TableKey(env, Files(c)) in DropKeys(db, plan) {
      var ch := DroppedFor(db, plan, TableKey(env, Files(c)));
      DropKeysFrom(db, plan);
      assert TableKey(env, Documents(c)).name in TablesToDrop(ch.table);
    }
  }

  lemma KeysKeepEnds(db: Db, later: Db)
    requires forall k :: k in db.tables ==> k in later.tables
    requires forall k :: k in later.tables && later.tables[k].rows != [] ==> k in db.tables
    requires forall k, c :: k in db.tables && KeyColumn(k, c) ==> SameColumn(db.tables[k], later.tables[k], c)
    ensures EndsKept(db, later)
  {
    forall env, c | TableKey(env, Documents(c)) in later.tables
        && later.tables[TableKey(env, Documents(c))].rows != []
      ensures var docs, files := TableKey(env, Documents(c)), TableKey(env, Files(c));
        && docs in db.tables && SameColumn(db.tables[docs], later.tables[docs], "file_id")
        && (files in db.tables ==> files in later.tables && SameColumn(db.tables[files], later.tables[files], "id"))
    {
      assert KeyColumn(TableKey(env, Documents(c)), "file_id") && KeyColumn(TableKey(env, Files(c)), "id");
    }
  }

  /** What is only added to keeps its references, since both of its columns were there. */
  lemma AddingKeepsReferences(base: Db, later: Db)
    requires AllHaveKeys(base) && ForeignKeys(base) && Grown(base, later) && NewEmpty(base, later)
    ensures ForeignKeys(later) && AllHaveKeys(later)
  {
    forall k, c | k in base.tables && KeyColumn(k, c) ensures SameColumn(base.tables[k], later.tables[k], c) {
      assert HasKeys(k, base.tables[k]) && Lasting(k, c) && c in base.tables[k].columns;
    }
    KeysKeepEnds(base, later);
    EndsKeepReferences(base, later);
    forall k | k in later.tables ensures HasKeys(k, later.tables[k]) {
      if k in base.tables {
        assert HasKeys(k, base.tables[k]) && Extends(base.tables[k], later.tables[k]);
      }
    }
  }

  lemma AppliedKeepsReferences(db: Db, cfg: Config, plan: seq<SchemaChange>, matching: set<string>)
    requires Keyed(cfg) && AllHaveKeys(db) && ForeignKeys(db)
    ensures ForeignKeys(Applied(db, cfg, plan, matching).db) && AllHaveKeys(Applied(db, cfg, plan, matching).db)
  {
    SettlingKeepsReferences(db, plan);
    AppliedAdds(db, cfg, plan, matching);
    AddingKeepsReferences(Base(db, plan), Applied(db, cfg, plan, matching).db);
  }

  // ----- migrations

  /** A ready statement that leaves the columns the reference rests on alone. */
  predicate Spares(s: Statement) {
    match s
    case DropView(_) => true
    case DropColumn(key, c) => !Lasting(key, c)
    case Retype(key, c, _, using) => KeyColumn(key, c) ==> using == InPlace
    case _ => false
  }

  ghost predicate AllSpare(ss: seq<Statement>) {
    forall s :: s in ss ==> Spares(s)
  }

  ghost predicate KeysSpared(db: Db, later: Db) {
    && later.tables.Keys == db.tables.Keys
    && (forall k, c :: k in db.tables && KeyColumn(k, c) ==> SameColumn(db.tables[k], later.tables[k], c))
    && forall k, c :: k in db.tables && Lasting(k, c) && c in db.tables[k].columns ==> c in later.tables[k].columns
  }

  lemma ExecSpares(s: Statement, db: Db)
    requires Spares(s) && Exec(s, db).Some?
    ensures KeysSpared(db, Exec(s, db).value)
  {}

  lemma {:induction false} ExecAllSpares(ss: seq<Statement>, db: Db)
    requires AllSpare(ss) && ExecAll(ss, db).Some?
    ensures KeysSpared(db, ExecAll(ss, db).value)
  {
    if ss != [] {
      assert ss[|ss| - 1] in ss;
      ExecAllSpares(ss[..|ss| - 1], db);
      ExecSpares(ss[|ss| - 1], ExecAll(ss[..|ss| - 1], db).value);
    }
  }

  /** `id` is a reserved slug, so no vocabulary makes it an array. */
  lemma IdIsNoArray(next: Config, name: string, d: DeclaredTable)
    requires SchemaRules(next) && name in next.collections && d.table.Files?
    requires d in DeclaredTables(name, next.collections[name], next.multiple)
    ensures !Declares(d, "id", TextArray)
  {
    var c := next.collections[name];
    assert Checked(c) && "id" in RESERVED_SLUGS;
    if i :| 0 <= i < |d.columns| && d.columns[i].name == "id" && d.columns[i].pgType == TextArray {
      assert d.columns[i] in d.columns;
      FilesColumn(c, next.multiple, d.columns[i]);
    }
  }

  lemma RetypeSpares(db: Db, next: Config, ch: SchemaChange)
    requires SchemaRules(next) && Planned(db, next, ch) && Lossless(ch)
    ensures Spares(RetypeOf(ch))
  {
    var d := RetypeFacts(db, next, ch);
    if KeyColumn(TableKey(Live, ch.table), ch.kind.field) && ch.table.Files? {
      IdIsNoArray(next, ch.collection, d);
    }
  }

  lemma LinesSpare(db: Db, next: Config, ch: SchemaChange)
    requires SchemaRules(next) && Planned(db, next, ch) && Rendered(ch)
    ensures AllSpare(ReadyOnly(LinesOf(ch)))
  {
    if LiveRetype(ch) {
      ReadyLines(ch);
      TsvIsNoKey(ch.kind.field);
      if Lossless(ch) {
        RetypeSpares(db, next, ch);
      }
    } else {
      CommentedOnly(LinesOf(ch));
    }
  }

  lemma TsvIsNoKey(f: string)
    ensures Tsv(f) != "id" && Tsv(f) != "file_id" && Tsv(f) != "workspace_id"
  {
    assert Tsv(f)[|Tsv(f)| - 1] == 'v';
  }

  lemma {:induction false} ChangesSpare(db: Db, next: Config, live: seq<SchemaChange>)
    requires SchemaRules(next) && forall ch :: ch in live ==> Planned(db, next, ch) && Rendered(ch)
    ensures AllSpare(ReadyOnly(ChangeLines(live)))
  {
    if live != [] {
      var before, last := live[..|live| - 1], live[|live| - 1];
      ChangesSpare(db, next, before);
      LinesSpare(db, next, last);
      ReadyAppend(ChangeLines(before), LinesOf(last));
    }
  }

  /** No ready statement of a rendered migration touches a column the reference rests on. */
  lemma MigrationSpares(db: Db, next: Config, changes: seq<SchemaChange>)
    requires SchemaRules(next) && Lists(changes, db, next)
    ensures AllSpare(ReadyOnly(Render(changes)))
  {
    var live := LiveChanges(changes);
    LiveChangesAre(changes);
    ChangesSpare(db, next, live);
    ReadyAppend(ViewLines(Touched(live)), ChangeLines(live));
    ViewLinesReady(Touched(live));
  }

  lemma MigratedKeepsReferences(db: Db, next: Config, changes: seq<SchemaChange>, after: Db)
    requires AllHaveKeys(db) && ForeignKeys(db)
    requires SchemaRules(next) && Lists(changes, db, next) && Migrate(changes, db) == Some(after)
    ensures ForeignKeys(after) && AllHaveKeys(after)
  {
    MigrationSpares(db, next, changes);
    ExecAllSpares(ReadyOnly(Render(changes)), db);
    KeysKeepEnds(db, after);
    EndsKeepReferences(db, after);
    forall k | k in after.tables ensures HasKeys(k, after.tables[k]) {
      assert HasKeys(k, db.tables[k]);
    }
  }

  // ----- every deployment

  /**
   One step of any deployment, whatever the fields are called: an apply, finished or not, the ready part of a
   rendered migration, or writes, whose references Postgres checks.
   */
  ghost predicate Deployed(a: Db, b: Db) {
    || (exists cfg, plan, matching :: ApplyStep(a, b, cfg, plan, matching))
    || (exists cfg, changes :: MigrationStep(a, b, cfg, changes))
    || WrittenStep(a, b)
  }

  ghost predicate ApplyStep(a: Db, b: Db, cfg: Config, plan: seq<SchemaChange>, matching: set<string>) {
    Keyed(cfg) && Lists(plan, a, cfg) && b == Applied(a, cfg, plan, matching).db
  }

  ghost predicate MigrationStep(a: Db, b: Db, cfg: Config, changes: seq<SchemaChange>) {
    SchemaRules(cfg) && Lists(changes, a, cfg) && Migrate(changes, a) == Some(b)
  }

  ghost predicate Deployment(states: seq<Db>) {
    && states != [] && states[0] == EMPTY
    && forall i :: 0 <= i < |states| - 1 ==> Deployed(states[i], states[i + 1])
  }

  /** The histories of the pipeline are deployments. */
  lemma HistoryIsDeployment(states: seq<Db>)
    requires History(states)
    ensures Deployment(states)
  {
    forall i | 0 <= i < |states| - 1 ensures Deployed(states[i], states[i + 1]) {
      assert Step(states[i], states[i + 1]);
      StepIsDeployed(states[i], states[i + 1]);
    }
  }

  lemma StepIsDeployed(a: Db, b: Db)
    requires Step(a, b)
    ensures Deployed(a, b)
  {
    if cfg, plan, matching :| AppliedStep(a, b, cfg, plan, matching) {
      assert ApplyStep(a, b, cfg, plan, matching);
    } else if cfg, changes :| MigratedStep(a, b, cfg, changes) {
      assert MigrationStep(a, b, cfg, changes);
    }
  }

  lemma DeployedKeepsReferences(a: Db, b: Db)
    requires AllHaveKeys(a) && ForeignKeys(a) && Deployed(a, b)
    ensures ForeignKeys(b) && AllHaveKeys(b)
  {
    if cfg, plan, matching :| ApplyStep(a, b, cfg, plan, matching) {
      AppliedKeepsReferences(a, cfg, plan, matching);
    } else if cfg, changes :| MigrationStep(a, b, cfg, changes) {
      MigratedKeepsReferences(a, cfg, changes, b);
    } else {
      forall k | k in b.tables ensures HasKeys(k, b.tables[k]) {
        assert HasKeys(k, a.tables[k]);
      }
    }
  }

  /** Over every deployment of applies, migrations and writes, each chunk refers to a file that is there. */
  lemma {:induction false} DeploymentKeepsReferences(states: seq<Db>)
    requires Deployment(states)
    ensures ForeignKeys(states[|states| - 1]) && AllHaveKeys(states[|states| - 1])
  {
    if |states| > 1 {
      var n := |states| - 1;
      DeploymentKeepsReferences(states[..n]);
      DeployedKeepsReferences(states[n - 1], states[n]);
    }
  }

  /** Main result: on no database a deployment reaches does an apply lose a live row, column or type, in any state. */
  lemma LiveDataSafe(states: seq<Db>, cfg: Config, plan: seq<SchemaChange>, matching: set<string>)
    requires Deployment(states) && Keyed(cfg) && Lists(plan, states[|states| - 1], cfg)
    ensures Safe(states[|states| - 1], Applied(states[|states| - 1], cfg, plan, matching))
  {
    DeploymentKeepsReferences(states);
    SafeWhileReferenced(states[|states| - 1], cfg, plan, matching);
  }

  /** Main result: so on every such database applying converges, and whether nothing destructive remains is exact. */
  lemma ConvergesAnywhere(states: seq<Db>, cfg: Config, plan: seq<SchemaChange>, matching: set<string>)
    requires Deployment(states) && SchemaRules(cfg) && RegistryApart(states[|states| - 1], cfg)
    requires Finished(states[|states| - 1], cfg, plan, matching)
    ensures var after := Applied(states[|states| - 1], cfg, plan, matching).db;
      NoStrays(cfg) <==> forall ch :: Planned(after, cfg, ch) ==> ch.kind.DropIndexChange?
  {
    DeploymentKeepsReferences(states);
    HavingKeysIsSound(states[|states| - 1]);
    Converges(states[|states| - 1], cfg, plan, matching);
  }

  // ----- tables the planner does not find

  /** The declaration differs from the table its statements land on, found or not. */
  ghost predicate Differs(db: Db, cfg: Config, ch: SchemaChange) {
    exists d: DeclaredTable ::
      && Declaring(cfg, ch.collection, ch.env, d) && d.table == ch.table && Landed(ch.env, d.table) in db.tables
      && TableDiff(db.tables[Landed(ch.env, d.table)], ch.collection, cfg.collections[ch.collection], d, ch.kind)
  }

  /** On a database of whole tables the planner reports exactly the differences of tables that are found. */
  lemma PlannedWhereSeen(db: Db, cfg: Config, ch: SchemaChange)
    requires Sound(db)
    ensures Planned(db, cfg, ch) <==> Seen(ch.table) && (Dropped(db, cfg, ch) || Differs(db, cfg, ch))
  {
    if Drifted(db, cfg, ch) {
      var d: DeclaredTable :| Compared(db, cfg, ch.collection, ch.env, d) && d.table == ch.table
        && TableDiff(db.tables[TableKey(ch.env, d.table)], ch.collection, cfg.collections[ch.collection], d, ch.kind);
      assert Landed(ch.env, d.table) == TableKey(ch.env, d.table);
    }
    if Seen(ch.table) && Differs(db, cfg, ch) {
      var d: DeclaredTable :|
        && Declaring(cfg, ch.collection, ch.env, d) && d.table == ch.table && Landed(ch.env, d.table) in db.tables
        && TableDiff(db.tables[Landed(ch.env, d.table)], ch.collection, cfg.collections[ch.collection], d, ch.kind);
      assert Compared(db, cfg, ch.collection, ch.env, d);
    }
  }

  /**
   Main result: apply refuses exactly where the destructive difference is in a populated live table that is found
   under the collection's own name. Over a dataset whose name holds a capital it never does, whatever differs.
   */
  lemma RefusesWhereSeen(states: seq<Db>, cfg: Config, plan: seq<SchemaChange>, matching: set<string>)
    requires Deployment(states) && Keyed(cfg) && Lists(plan, states[|states| - 1], cfg)
    ensures var db := states[|states| - 1];
      HasRefused(Applied(db, cfg, plan, matching)) <==>
        exists ch ::
          && Destructive(ch) && ch.env == Live && Populated(db, Landed(Live, ch.table)) && Seen(ch.table)
          && (Dropped(db, cfg, ch) || Differs(db, cfg, ch))
  {
    var db := states[|states| - 1];
    DeploymentKeepsReferences(states);
    HavingKeysIsSound(db);
    RefusesExactly(db, cfg, plan, matching);
    forall ch
      ensures Planned(db, cfg, ch) && Blocks(db, ch) <==>
        && Destructive(ch) && ch.env == Live && Populated(db, Landed(Live, ch.table)) && Seen(ch.table)
        && (Dropped(db, cfg, ch) || Differs(db, cfg, ch))
    {
      PlannedWhereSeen(db, cfg, ch);
    }
  }

  /** Nor does apply forget such a dataset when it leaves the config: its ACL rows stay. */
  lemma CapitalKeepsAcl(
      states: seq<Db>, cfg: Config, plan: seq<SchemaChange>, matching: set<string>, a: AclEntry)
    requires Deployment(states) && Keyed(cfg) && Lists(plan, states[|states| - 1], cfg)
    requires !Seen(Main(a.collection)) && forall env ::
      TableKey(env, Files(a.collection)) !in states[|states| - 1].tables
    ensures a in states[|states| - 1].acl ==> a in Applied(states[|states| - 1], cfg, plan, matching).db.acl
  {
    var db := states[|states| - 1];
    DeploymentKeepsReferences(states);
    HavingKeysIsSound(db);
    if Blocked(db, plan) == [] {
      AclRowsForgotten(db, cfg, plan, matching, a);
    } else {
      AllTablesStopped(Resolve(Start(db), plan), cfg, cfg.names, matching);
      AllViewsStopped(Resolve(Start(db), plan), cfg, cfg.names);
    }
  }

  // ----- where the reference is lost

  /** A populated documents table without its files table. */
  ghost predicate Orphaned(db: Db, name: string) {
    Populated(db, TableKey(Live, Documents(name))) && !Populated(db, TableKey(Live, Files(name)))
  }

  lemma OrphansBreakReferences(db: Db, name: string)
    requires Orphaned(db, name)
    ensures !ForeignKeys(db)
  {
    if ForeignKeys(db) {
      DocumentsNeedFiles(db, Live, name);
    }
  }

  /**
   The statements offered for a dropped file collection take its live files table alone. Its documents stay
   behind with nothing they refer to, and no later apply sees them.
   */
  lemma MigratedDropOrphans(
      db: Db, next: Config, ch: SchemaChange, after: Db, again: seq<SchemaChange>, matching: set<string>)
    requires Keyed(next) && Planned(db, next, ch) && ch.kind == DropCollection && ch.env == Live && ch.table.Files?
    requires ExecAll([DropTable(TableKey(Live, ch.table)), Unregister(ch.collection)], db) == Some(after)
    requires Lists(again, after, next) && Populated(db, TableKey(Live, Documents(ch.collection)))
    ensures var done := Applied(after, next, again, matching).db;
      && Orphaned(done, ch.collection) && !ForeignKeys(done) && TableKey(Live, Files(ch.collection)) !in done.tables
  {
    PlannedNames(db, next, ch);
    DropAndUnregister(db, TableKey(Live, ch.table), ch.collection, after);
    UnknownIsUntouched(after, next, again, matching, ch.collection);
    OrphansBreakReferences(Applied(after, next, again, matching).db, ch.collection);
  }

  /** A finished apply makes the files table of every configured file collection. */
  lemma FilesTableComes(db: Db, next: Config, plan: seq<SchemaChange>, matching: set<string>, name: string)
    requires Finished(db, next, plan, matching)
    requires name in next.collections && next.collections[name].kind == File && !next.collections[name].external
    ensures TableKey(Live, Files(name)) in Applied(db, next, plan, matching).db.tables
  {
    hide Sourced;
    hide Applied;
    hide ApplySafety.Grown;
    var done := Applied(db, next, plan, matching).db;
    FinishedSettles(db, next, plan, matching);
    var d := FilesTable(name, next.collections[name], next.multiple);
    DeclaredTableExists(next, done, name, Live, d);
  }

  /** Whatever an apply does, it adds to the orphaned documents' table and puts no row into a new files table. */
  lemma OrphansStay(db: Db, next: Config, plan: seq<SchemaChange>, matching: set<string>, name: string)
    requires Keyed(next) && Lists(plan, db, next) && Blocked(db, plan) == []
    requires Orphaned(db, name) && TableKey(Live, Files(name)) !in db.tables
    ensures Orphaned(Applied(db, next, plan, matching).db, name)
  {
    hide Applied;
    hide Lists;
    hide Base;
    AppliedAdds(db, next, plan, matching);
    OrphansStayBase(db, next, plan, name);
    OrphansGrow(Base(db, plan), Applied(db, next, plan, matching).db, name);
  }

  lemma OrphansStayBase(db: Db, next: Config, plan: seq<SchemaChange>, name: string)
    requires Lists(plan, db, next) && Blocked(db, plan) == []
    requires Orphaned(db, name) && TableKey(Live, Files(name)) !in db.tables
    ensures Orphaned(Base(db, plan), name) && TableKey(Live, Files(name)) !in Base(db, plan).tables
  {
    hide Lists;
    hide Resolve;
    hide DropKeys;
    hide Blocked;
    ResolvedTables(db, plan);
    OrphansNotListed(db, next, plan, name);
  }

  lemma OrphansGrow(base: Db, done: Db, name: string)
    requires Grown(base, done) && NewEmpty(base, done)
    requires Orphaned(base, name) && TableKey(Live, Files(name)) !in base.tables
    ensures Orphaned(done, name)
  {
    var docs := TableKey(Live, Documents(name));
    assert Extends(base.tables[docs], done.tables[docs]);
  }

  /** Configured again, the collection gets a new, empty files table beside the old documents. */
  lemma ReaddedStaysOrphaned(db: Db, next: Config, plan: seq<SchemaChange>, matching: set<string>, name: string)
    requires Finished(db, next, plan, matching) && Orphaned(db, name) && TableKey(Live, Files(name)) !in db.tables
    requires name in next.collections && next.collections[name].kind == File && !next.collections[name].external
    ensures var done := Applied(db, next, plan, matching).db;
      TableKey(Live, Files(name)) in done.tables && Orphaned(done, name) && !ForeignKeys(done)
  {
    FinishedIsFree(db, next, plan, matching);
    FilesTableComes(db, next, plan, matching, name);
    OrphansStay(db, next, plan, matching, name);
    OrphansBreakReferences(Applied(db, next, plan, matching).db, name);
  }

  lemma FinishedIsFree(db: Db, next: Config, plan: seq<SchemaChange>, matching: set<string>)
    requires Finished(db, next, plan, matching)
    ensures Keyed(next) && Lists(plan, db, next) && Blocked(db, plan) == []
  {
    FinishedSettles(db, next, plan, matching);
  }

  /** Without a files table nothing is planned that would list the documents for dropping. */
  lemma OrphansNotListed(db: Db, next: Config, plan: seq<SchemaChange>, name: string)
    requires Lists(plan, db, next) && Orphaned(db, name) && TableKey(Live, Files(name)) !in db.tables
    ensures TableKey(Live, Documents(name)) !in DropKeys(db, plan)
  {
    if TableKey(Live, Documents(name)) in DropKeys(db, plan) {
      var ch := DroppedFor(db, plan, TableKey(Live, Documents(name)));
      PlannedExists(db, next, ch);
    }
  }

  /** The drop list takes a files table's documents along. */
  lemma OrphansListed(db: Db, cfg: Config, plan: seq<SchemaChange>, ch: SchemaChange)
    requires Lists(plan, db, cfg) && Planned(db, cfg, ch) && Destructive(ch) && ch.table.Files? && !Blocks(db, ch)
    ensures TableKey(ch.env, Documents(ch.collection)) in DropKeys(db, plan)
  {
    PlannedNames(db, cfg, ch);
    DropKeysFrom(db, plan);
    var docs := TableKey(ch.env, Documents(ch.collection));
    assert ch in plan && docs.name in TablesToDrop(ch.table);
  }

  /**
   Main result: from there, any destructive change of the files table, which is empty and so blocks nothing,
   has apply drop the populated live documents with it: what `LiveDataSafe` rules out over every deployment.
   */
  lemma OrphansAreDropped(db: Db, cfg: Config, plan: seq<SchemaChange>, matching: set<string>, ch: SchemaChange)
    requires Keyed(cfg) && Lists(plan, db, cfg) && Blocked(db, plan) == []
    requires Planned(db, cfg, ch) && Destructive(ch) && ch.env == Live && ch.table.Files?
    requires Orphaned(db, ch.collection)
    ensures var docs := TableKey(Live, Documents(ch.collection)); var done := Applied(db, cfg, plan, matching).db;
      docs !in Base(db, plan).tables && !Populated(done, docs) && !KeepsLive(db, done)
  {
    PlannedNames(db, cfg, ch);
    OrphansListed(db, cfg, plan, ch);
    ResolvedTables(db, plan);
    AppliedAdds(db, cfg, plan, matching);
    RowsLost(db, Applied(db, cfg, plan, matching).db, TableKey(Live, Documents(ch.collection)));
  }

  lemma RowsLost(db: Db, later: Db, key: TableKey)
    requires key.env == Live && Populated(db, key) && !Populated(later, key)
    ensures !KeepsLive(db, later)
  {}
}
