/** What holds once an apply has finished, and what planning or applying again then does. */
module Idempotence {
  import opened Wrappers
  import opened Config
  import opened Catalog
  import opened Ddl
  import opened DdlFacts
  import opened Rules
  import opened Plan
  import opened Apply
  import opened ApplySafety
  import opened Convergence

  // ----- the views phase

  ghost predicate Viewed(cfg: Config, name: string, db: Db)
    requires name in cfg.collections
  {
    var c := cfg.collections[name];
    && name in db.registry && db.registry[name] == c
    && forall env ::
         && ViewOf(env, name) in db.views
         && db.views[ViewOf(env, name)] == ViewUses(env, name, c, cfg.multiple)
         && Readable(db, ViewUses(env, name, c, cfg.multiple))
  }

  /** Dropping and recreating a view sets what it reads, if every column it reads exists. */
  lemma RecreateView(db: Db, v: ViewKey, uses: set<ColumnRef>)
    ensures ExecAll([DropView(v), CreateView(v, uses)], db)
         == if Readable(db, uses) then Some(db.(views := db.views[v := uses])) else Option.None
  {
    ExecTwo(DropView(v), CreateView(v, uses), db);
    var mid := db.(views := db.views - {v});
    assert Readable(mid, uses) <==> Readable(db, uses);
    assert (db.views - {v})[v := uses] == db.views[v := uses];
  }

  lemma ViewSent(r: Run, v: ViewKey, uses: set<ColumnRef>)
    requires Send(r, [DropView(v), CreateView(v, uses)]).failure.None?
    ensures r.failure.None? && Readable(r.db, uses)
    ensures Send(r, [DropView(v), CreateView(v, uses)]).db == r.db.(views := r.db.views[v := uses])
  {
    RecreateView(r.db, v, uses);
  }

  lemma ExecTwo(a: Statement, b: Statement, db: Db)
    ensures ExecAll([a, b], db) == match Exec(a, db) case None => Option.None case Some(mid) => Exec(b, mid)
    ensures Exec(a, db).Some? && Exec(b, Exec(a, db).value).Some? ==>
              Passed([a, b], db) == [Exec(a, db).value, Exec(b, Exec(a, db).value).value]
  {
    assert [a, b][..1] == [a];
    ExecSingle(a, db);
  }

  ghost predicate SameViewsExcept(db: Db, after: Db, name: string) {
    forall v: ViewKey | v.collection != Fold(name) ::
      (v in after.views <==> v in db.views) && (v in db.views ==> after.views[v] == db.views[v])
  }

  lemma TwoViewsSent(r: Run, name: string, c: Collection, dev: set<ColumnRef>, live: set<ColumnRef>)
    requires var one := Send(r, [DropView(ViewOf(Dev, name)), CreateView(ViewOf(Dev, name), dev)]);
      var two := Send(one, [DropView(ViewOf(Live, name)), CreateView(ViewOf(Live, name), live)]);
      Send(two, [Register(name, c)]).failure.None?
    ensures var one := Send(r, [DropView(ViewOf(Dev, name)), CreateView(ViewOf(Dev, name), dev)]);
      var two := Send(one, [DropView(ViewOf(Live, name)), CreateView(ViewOf(Live, name), live)]);
      && r.failure.None? && Readable(r.db, dev) && Readable(r.db, live)
      && Send(two, [Register(name, c)]).db == r.db.(
           views := r.db.views[ViewOf(Dev, name) := dev][ViewOf(Live, name) := live],
           registry := r.db.registry[name := c])
  {
    var one := Send(r, [DropView(ViewOf(Dev, name)), CreateView(ViewOf(Dev, name), dev)]);
    var two := Send(one, [DropView(ViewOf(Live, name)), CreateView(ViewOf(Live, name), live)]);
    ViewSent(one, ViewOf(Live, name), live);
    ViewSent(r, ViewOf(Dev, name), dev);
    ExecSingle(Register(name, c), two.db);
    assert one.db.tables == r.db.tables;
  }

  lemma ViewsPut(db: Db, after: Db, name: string, dev: set<ColumnRef>, live: set<ColumnRef>)
    requires Readable(db, dev) && Readable(db, live) && after.tables == db.tables
    requires after.views == db.views[ViewOf(Dev, name) := dev][ViewOf(Live, name) := live]
    ensures ViewOf(Dev, name) in after.views && after.views[ViewOf(Dev, name)] == dev && Readable(after, dev)
    ensures ViewOf(Live, name) in after.views && after.views[ViewOf(Live, name)] == live && Readable(after, live)
    ensures SameViewsExcept(db, after, name)
  {}

  lemma ViewStep(cfg: Config, r: Run, name: string)
    requires name in cfg.collections && ViewsOf(r, cfg, name).failure.None?
    ensures var after := ViewsOf(r, cfg, name).db;
      && r.failure.None? && after.tables == r.db.tables && Viewed(cfg, name, after)
      && after.registry == r.db.registry[name := cfg.collections[name]]
      && SameViewsExcept(r.db, after, name)
  {
    var c := cfg.collections[name];
    TwoViewsSent(r, name, c, ViewUses(Dev, name, c, cfg.multiple), ViewUses(Live, name, c, cfg.multiple));
    var after := ViewsOf(r, cfg, name).db;
    ViewsPut(r.db, after, name, ViewUses(Dev, name, c, cfg.multiple), ViewUses(Live, name, c, cfg.multiple));
    forall env
      ensures && ViewOf(env, name) in after.views
              && after.views[ViewOf(env, name)] == ViewUses(env, name, c, cfg.multiple)
              && Readable(after, ViewUses(env, name, c, cfg.multiple))
    {
      assert env == Dev || env == Live;
    }
  }

  lemma {:induction false} ViewsDone(cfg: Config, r: Run, names: seq<string>)
    requires Apart(cfg) && Covers(cfg, names) && AllViews(r, cfg, names).failure.None?
    ensures var after := AllViews(r, cfg, names).db;
      && r.failure.None? && after.tables == r.db.tables
      && (forall n :: n in names ==> Viewed(cfg, n, after))
      && after.registry.Keys == r.db.registry.Keys + (set n | n in names)
  {
    if names != [] {
      var before, name := names[..|names| - 1], names[|names| - 1];
      var mid := AllViews(r, cfg, before);
      ViewStep(cfg, mid, name);
      ViewsDone(cfg, r, before);
      var after := AllViews(r, cfg, names).db;
      forall n | n in names ensures Viewed(cfg, n, after) {
        if n != name {
          assert n in before;
          ViewedStable(cfg, n, mid.db, after, name);
        }
      }
    }
  }

  lemma ViewedStable(cfg: Config, n: string, db: Db, after: Db, name: string)
    requires n in cfg.collections && Fold(n) != Fold(name) && Viewed(cfg, n, db)
    requires after.tables == db.tables && SameViewsExcept(db, after, name)
    requires n in after.registry && after.registry[n] == db.registry[n]
    ensures Viewed(cfg, n, after)
  {
    forall env
      ensures && ViewOf(env, n) in after.views
              && after.views[ViewOf(env, n)] == ViewUses(env, n, cfg.collections[n], cfg.multiple)
              && Readable(after, ViewUses(env, n, cfg.collections[n], cfg.multiple))
    {
      assert ViewOf(env, n) in db.views;
    }
  }

  /** Views and the registry leave every table alone, whether or not they succeed. */
  lemma SendKeepsTables(r: Run, a: Statement, b: Statement)
    requires a.DropView? && b.CreateView?
    ensures Send(r, [a, b]).db.tables == r.db.tables
  {
    ExecTwo(a, b, r.db);
  }

  lemma ThreeKeepTables(r: Run, dev: seq<Statement>, live: seq<Statement>, name: string, c: Collection)
    requires |dev| == 2 && |live| == 2 && dev[0].DropView? && dev[1].CreateView? && live[0].DropView?
      && live[1].CreateView?
    ensures Send(Send(Send(r, dev), live), [Register(name, c)]).db.tables == r.db.tables
  {
    assert dev == [dev[0], dev[1]] && live == [live[0], live[1]];
    SendKeepsTables(r, dev[0], dev[1]);
    SendKeepsTables(Send(r, dev), live[0], live[1]);
    ExecSingle(Register(name, c), Send(Send(r, dev), live).db);
  }

  lemma {:induction false} AllViewsKeepTables(r: Run, cfg: Config, names: seq<string>)
    requires Covers(cfg, names)
    ensures AllViews(r, cfg, names).db.tables == r.db.tables
  {
    if names != [] {
      var before, name := names[..|names| - 1], names[|names| - 1];
      AllViewsKeepTables(r, cfg, before);
      var c := cfg.collections[name];
      ThreeKeepTables(AllViews(r, cfg, before), ViewBatch(Dev, name, c, cfg.multiple),
                      ViewBatch(Live, name, c, cfg.multiple), name, c);
    }
  }

  // ----- a finished apply

  ghost predicate Settled(cfg: Config, matching: set<string>, db: Db) {
    forall n :: n in cfg.collections ==>
      Built(cfg, n, db) && Viewed(cfg, n, db) && (cfg.collections[n].external ==> n in matching)
  }

  /** The state after `resolveDestructiveChanges`, which every later statement only adds to. */
  function Base(db: Db, plan: seq<SchemaChange>): Db {
    Resolve(Start(db), plan).db
  }

  /** The apply of a config whose names do not differ in case alone returned. */
  ghost predicate Finished(db: Db, cfg: Config, plan: seq<SchemaChange>, matching: set<string>) {
    Keyed(cfg) && Apart(cfg) && Lists(plan, db, cfg) && Applied(db, cfg, plan, matching).failure.None?
  }

  lemma TablesSettle(db: Db, cfg: Config, plan: seq<SchemaChange>, matching: set<string>)
    requires Keyed(cfg) && Apart(cfg) && AllTables(Resolve(Start(db), plan), cfg, cfg.names, matching).failure.None?
    ensures var after := AllTables(Resolve(Start(db), plan), cfg, cfg.names, matching).db;
      && Blocked(db, plan) == []
      && Sourced(cfg, Base(db, plan), after) && Grown(Base(db, plan), after)
      && after.registry == Base(db, plan).registry
      && forall n :: n in cfg.names ==> Built(cfg, n, after) && (cfg.collections[n].external ==> n in matching)
  {
    var resolved := Resolve(Start(db), plan);
    if Blocked(db, plan) != [] {
      AllTablesStopped(resolved, cfg, cfg.names, matching);
    }
    SourcedSelf(cfg, resolved.db);
    TablesDone(cfg, resolved.db, resolved, cfg.names, matching);
    TablesRegistry(cfg, resolved, cfg.names, matching);
  }

  lemma SourcedSelf(cfg: Config, db: Db)
    ensures Sourced(cfg, db, db) && Grown(db, db)
  {}

  lemma {:induction false} BatchRegistry(ss: seq<Statement>, db: Db)
    requires (forall s :: s in ss ==> Builds(s)) && ExecAll(ss, db).Some?
    ensures ExecAll(ss, db).value.registry == db.registry
  {
    if ss != [] {
      BatchRegistry(ss[..|ss| - 1], db);
      assert Builds(ss[|ss| - 1]);
    }
  }

  lemma SendRegistry(r: Run, batch: seq<Statement>)
    requires forall s :: s in batch ==> Builds(s)
    ensures Send(r, batch).db.registry == r.db.registry
  {
    if ExecAll(batch, r.db).Some? {
      BatchRegistry(batch, r.db);
    }
  }

  lemma {:induction false} TablesRegistry(cfg: Config, r: Run, names: seq<string>, matching: set<string>)
    requires Covers(cfg, names)
    ensures AllTables(r, cfg, names, matching).db.registry == r.db.registry
  {
    if names != [] {
      var before, name := names[..|names| - 1], names[|names| - 1];
      TablesRegistry(cfg, r, before, matching);
      OneRegistry(cfg, AllTables(r, cfg, before, matching), name, matching);
    }
  }

  lemma OneRegistry(cfg: Config, r: Run, name: string, matching: set<string>)
    requires name in cfg.collections
    ensures TablesOf(r, cfg, name, matching).db.registry == r.db.registry
  {
    var c := cfg.collections[name];
    TableBatchBuilds(Dev, name, c, cfg.multiple);
    TableBatchBuilds(Live, name, c, cfg.multiple);
    var checked := CheckRevisions(CheckRevisions(r, Dev, name, c), Live, name, c);
    SendRegistry(checked, TableBatch(Dev, name, c, cfg.multiple));
    SendRegistry(Send(checked, TableBatch(Dev, name, c, cfg.multiple)), TableBatch(Live, name, c, cfg.multiple));
  }

  /** Views and the registry do not touch tables, so what the tables phase built is still there. */
  lemma BuiltFromTables(cfg: Config, n: string, db: Db, after: Db)
    requires n in cfg.collections && Built(cfg, n, db) && after.tables == db.tables
    ensures Built(cfg, n, after)
  {
    var c := cfg.collections[n];
    forall env
      ensures AllSatisfied(TableBatch(env, n, c, cfg.multiple), after) && !LacksRevisions(after, env, n, c)
    {
      assert AllSatisfied(TableBatch(env, n, c, cfg.multiple), db);
    }
  }

  lemma FinishedSettles(db: Db, cfg: Config, plan: seq<SchemaChange>, matching: set<string>)
    requires Finished(db, cfg, plan, matching)
    ensures var after := Applied(db, cfg, plan, matching).db;
      && Blocked(db, plan) == []
      && Settled(cfg, matching, after)
      && Sourced(cfg, Base(db, plan), after) && Grown(Base(db, plan), after)
      && after.registry.Keys == Base(db, plan).registry.Keys + cfg.collections.Keys
  {
    var tabled := AllTables(Resolve(Start(db), plan), cfg, cfg.names, matching);
    var after := Applied(db, cfg, plan, matching).db;
    ViewsDone(cfg, tabled, cfg.names);
    TablesSettle(db, cfg, plan, matching);
    forall n | n in cfg.collections
      ensures Built(cfg, n, after) && Viewed(cfg, n, after) && (cfg.collections[n].external ==> n in matching)
    {
      assert n in cfg.names;
      BuiltFromTables(cfg, n, tabled.db, after);
    }
  }

  // ----- planning again

  /** A table that survived settling shows no destructive difference. */
  lemma SurvivorAgrees(db: Db, cfg: Config, plan: seq<SchemaChange>, ch: SchemaChange, d: DeclaredTable)
    requires Lists(plan, db, cfg) && Blocked(db, plan) == [] && Destructive(ch)
    requires d.table == ch.table && TableKey(ch.env, d.table) in Base(db, plan).tables
    requires Compared(Base(db, plan), cfg, ch.collection, ch.env, d)
    ensures !TableDiff(Base(db, plan).tables[TableKey(ch.env, d.table)], ch.collection,
                       cfg.collections[ch.collection], d, ch.kind)
  {
    ResolvedTables(db, plan);
    assert Compared(db, cfg, ch.collection, ch.env, d);
    if TableDiff(db.tables[TableKey(ch.env, d.table)], ch.collection, cfg.collections[ch.collection], d, ch.kind) {
      assert Drifted(db, cfg, ch);
      SurvivorHarmless(db, cfg, plan, ch);
    }
  }

  /** A search column or a binding's own column that is neither declared nor structural to its dataset. */
  predicate Stray(cfg: Config, name: string, f: string)
    requires name in cfg.collections
  {
    var c := cfg.collections[name];
    && c.kind == Dataset && (f in c.taxonomies || SearchesInto(c, f))
    && !DeclaresName(DatasetTable(name, c, cfg.multiple), f) && f !in DatasetStructural(c)
  }

  /** No dataset the planner finds has one. */
  ghost predicate NoStrays(cfg: Config) {
    forall n, f | n in cfg.collections && Seen(Main(n)) :: !Stray(cfg, n, f)
  }

  /** No collection was registered under a name that differs from a configured one in case alone. */
  ghost predicate RegistryApart(db: Db, cfg: Config) {
    forall a, b | a in cfg.collections && b in db.registry :: Fold(a) == Fold(b) ==> a == b
  }

  /** What the rest of this section asks of the config and the database, and the state the run has come to. */
  ghost predicate Settling(db: Db, cfg: Config, plan: seq<SchemaChange>, after: Db) {
    && SchemaRules(cfg) && Apart(cfg) && Sound(db) && Lists(plan, db, cfg) && Blocked(db, plan) == []
    && Sourced(cfg, Base(db, plan), after) && Grown(Base(db, plan), after)
  }

  lemma BaseIsSound(db: Db, plan: seq<SchemaChange>)
    requires Sound(db) && Blocked(db, plan) == []
    ensures Sound(Base(db, plan))
  {
    ResolvedTables(db, plan);
  }

  /** A table the planner finds is the one the collection's statements land on. */
  lemma ComparedLands(db: Db, cfg: Config, plan: seq<SchemaChange>, after: Db, name: string, env: Env, d: DeclaredTable)
    requires Settling(db, cfg, plan, after) && Compared(after, cfg, name, env, d)
    ensures TableKey(env, d.table) == Landed(env, d.table) && Seen(d.table)
  {
    var key := TableKey(env, d.table);
    BaseIsSound(db, plan);
    assert SourcedTable(cfg, Base(db, plan), key, after.tables[key]);
    if key !in Base(db, plan).tables {
      var owner := CreatedOwned(cfg, Base(db, plan), key, after.tables[key]);
    }
  }

  /** A table that was created belongs to a configured collection, and lies where its statements land. */
  lemma CreatedOwned(cfg: Config, base: Db, key: TableKey, t: Table) returns (owner: string)
    requires SourcedTable(cfg, base, key, t) && key !in base.tables
    ensures Owns(cfg, key, owner) && Seen(key.name)
  {
    var s :| s in BatchFor(cfg, key) && s.CreateTable? && s.key == key;
    owner := OwnerOf(cfg, key, s);
    FoldTwice(owner);
  }

  /** A column that was not there before was put there by the collection, and fits its declaration. */
  lemma NewFits(
      db: Db, cfg: Config, plan: seq<SchemaChange>, after: Db, name: string, env: Env, d: DeclaredTable, f: string)
    requires Settling(db, cfg, plan, after) && Compared(after, cfg, name, env, d)
    requires var key := TableKey(env, d.table);
      f in after.tables[key].columns && !(key in Base(db, plan).tables && f in Base(db, plan).tables[key].columns)
    ensures Fits(cfg.collections[name], cfg.multiple, d, f, after.tables[TableKey(env, d.table)].columns[f])
  {
    var key := TableKey(env, d.table);
    BaseIsSound(db, plan);
    assert SourcedTable(cfg, Base(db, plan), key, after.tables[key]);
    ComparedLands(db, cfg, plan, after, name, env, d);
    IntroducedFits(cfg, Base(db, plan), name, env, d, after.tables[key].columns, f);
  }

  lemma TypesAgree(db: Db, cfg: Config, plan: seq<SchemaChange>, after: Db, ch: SchemaChange, d: DeclaredTable)
    requires Settling(db, cfg, plan, after)
    requires Compared(after, cfg, ch.collection, ch.env, d) && d.table == ch.table && ch.kind.TypeChange?
    ensures !ColumnDiff(after.tables[TableKey(ch.env, d.table)], d, ch.kind)
  {
    var key := TableKey(ch.env, d.table);
    var base := Base(db, plan);
    if ColumnDiff(after.tables[key], d, ch.kind) {
      if key in base.tables && ch.kind.field in base.tables[key].columns {
        SurvivorAgrees(db, cfg, plan, ch, d);
      } else {
        NewFits(db, cfg, plan, after, ch.collection, ch.env, d, ch.kind.field);
        DeclaredOnce(ch.collection, cfg.collections[ch.collection], cfg.multiple, d, ch.kind.field, ch.kind.have,
            ch.kind.want);
      }
    }
  }

  /** No stray column survives settling. */
  lemma NoStraySurvives(
      db: Db, cfg: Config, plan: seq<SchemaChange>, name: string, env: Env, d: DeclaredTable, g: string)
    requires Lists(plan, db, cfg) && Blocked(db, plan) == [] && Compared(Base(db, plan), cfg, name, env, d)
    requires !DeclaresName(d, g) && g !in d.structural
    ensures g !in Base(db, plan).tables[TableKey(env, d.table)].columns
  {
    var t := Base(db, plan).tables[TableKey(env, d.table)];
    if g in t.columns {
      SurvivorAgrees(db, cfg, plan, SchemaChange(name, env, d.table, DropColumnChange(g, t.columns[g])), d);
    }
  }

  lemma StraysKnown(db: Db, cfg: Config, plan: seq<SchemaChange>, after: Db, ch: SchemaChange, d: DeclaredTable)
    requires Settling(db, cfg, plan, after)
    requires Compared(after, cfg, ch.collection, ch.env, d) && d.table == ch.table && ch.kind.DropColumnChange?
    requires ColumnDiff(after.tables[TableKey(ch.env, d.table)], d, ch.kind)
    ensures Stray(cfg, ch.collection, ch.kind.field) && Seen(Main(ch.collection))
  {
    hide Sourced;
    hide Grown;
    hide SchemaRules;
    hide Apart;
    hide Sound;
    hide Base;
    if TableKey(ch.env, d.table) in Base(db, plan).tables {
      NoStraySurvives(db, cfg, plan, ch.collection, ch.env, d, ch.kind.field);
    }
    NewFits(db, cfg, plan, after, ch.collection, ch.env, d, ch.kind.field);
    ComparedLands(db, cfg, plan, after, ch.collection, ch.env, d);
    OwnTypes(d.table);
  }

  lemma CreatesIdentity(env: Env, name: string, c: Collection, multiple: set<string>, key: TableKey, f: string)
    requires CreateIdentity(key, f) in TableBatch(env, name, c, multiple)
    ensures c.kind == Dataset && f == IdentityField(c)
  {
    if c.kind == Dataset {
      FieldAltersFrom(MainKey(env, name), c.fields, c.taxonomies);
      VocabAltersFrom(MainKey(env, name), name, c.taxonomies, multiple);
      SearchAltersFrom(MainKey(env, name), name, c.fields);
    } else {
      FileCreatesNoIdentity(env, name, c, multiple);
    }
  }

  lemma FileCreatesNoIdentity(env: Env, name: string, c: Collection, multiple: set<string>)
    ensures forall s :: s in FileBatch(env, name, c, multiple) ==> !s.CreateIdentity?
  {
    MetadataAltersFrom(TableKey(env, Files(name)), c.fields, c.taxonomies);
    VocabAltersFrom(TableKey(env, Files(name)), name + "__files", c.taxonomies, multiple);
  }

  lemma IdentityAgrees(db: Db, cfg: Config, plan: seq<SchemaChange>, after: Db, ch: SchemaChange, d: DeclaredTable)
    requires Settling(db, cfg, plan, after)
    requires Compared(after, cfg, ch.collection, ch.env, d) && d.table == ch.table && ch.kind.PkChange?
    requires Built(cfg, ch.collection, after)
    ensures !IdentityDiff(after.tables[TableKey(ch.env, d.table)], ch.collection, cfg.collections[ch.collection], d,
      ch.kind)
  {
    hide Introduced;
    hide Grown;
    hide SchemaRules;
    hide Apart;
    hide Sound;
    var key := TableKey(ch.env, d.table);
    var base := Base(db, plan);
    var c := cfg.collections[ch.collection];
    if IdentityDiff(after.tables[key], ch.collection, c, d, ch.kind) {
      ComparedLands(db, cfg, plan, after, ch.collection, ch.env, d);
      var s := CreateIdentity(key, IdentityField(c));
      assert s in TableBatch(ch.env, ch.collection, c, cfg.multiple);
      assert Satisfied(s, after);
      if key in base.tables && base.tables[key].identity == after.tables[key].identity {
        SurvivorAgrees(db, cfg, plan, ch, d);
      } else {
        assert SourcedTable(cfg, base, key, after.tables[key]);
        BatchOf(cfg, key, ch.collection);
        CreatesIdentity(ch.env, ch.collection, c, cfg.multiple, key, after.tables[key].identity.value);
      }
    }
  }

  /** The collection's view selects every declared column, so it could not exist without them. */
  lemma ColumnPresent(cfg: Config, after: Db, name: string, env: Env, d: DeclaredTable, f: string)
    requires Keyed(cfg) && name in cfg.collections && Viewed(cfg, name, after) && DeclaresName(d, f)
    requires d in DeclaredTables(name, cfg.collections[name], cfg.multiple)
      && !(cfg.collections[name].external && env == Live)
    ensures var key := Landed(env, d.table); key in after.tables && f in after.tables[key].columns
  {
    var key := Landed(env, d.table);
    var c := cfg.collections[name];
    var uses := ViewUses(env, name, c, cfg.multiple);
    assert Readable(after, uses);
    if d.table.Main? {
      var j := DeclaredField(c, cfg.multiple, name, f);
      FieldUsed(env, key, c.fields, j);
      assert ColumnRef(key, f) in uses;
    } else {
      var terms, meta := TermColumns(c.taxonomies, cfg.multiple), MetadataColumns(c.fields, c.taxonomies);
      var i :| 0 <= i < |d.columns| && d.columns[i].name == f;
      assert d == FilesTable(name, c, cfg.multiple);
      if i < |terms| {
        assert ColumnRef(key, terms[i].name) in DeclaredUses(key, terms);
      } else {
        assert ColumnRef(key, meta[i - |terms|].name) in DeclaredUses(key, meta);
      }
      assert ColumnRef(key, f) in uses;
    }
  }

  lemma {:induction false} FieldUsed(env: Env, key: TableKey, fields: seq<FieldEntry>, j: nat)
    requires j < |fields| && fields[j].field.storage.Stored?
    ensures ColumnRef(key, fields[j].name) in FieldsUses(env, key, fields)
  {
    if j < |fields| - 1 {
      FieldUsed(env, key, fields[..|fields| - 1], j);
    }
  }

  lemma IndexPresent(cfg: Config, after: Db, name: string, env: Env, d: DeclaredTable, index: string)
    requires Compared(after, cfg, name, env, d) && Built(cfg, name, after)
    requires d.table == Main(name) && WantsIndex(name, cfg.collections[name], index)
    requires TableKey(env, d.table) == Landed(env, d.table)
    ensures OwnsIndex(after.tables[TableKey(env, d.table)], name, index)
  {
    var key := TableKey(env, d.table);
    var c := cfg.collections[name];
    var i :| 0 <= i < |c.indexes| && IndexName(name, c.indexes[i]) == index;
    var all := IndexStatements(key, name, c.indexes, IdentityField(c));
    assert all[i] in all;
    assert all[i] in TableBatch(env, name, c, cfg.multiple);
    assert Satisfied(all[i], after);
    assert InfixAt(index, |name|);
  }

  lemma NothingDropped(db: Db, cfg: Config, plan: seq<SchemaChange>, after: Db, ch: SchemaChange)
    requires Settling(db, cfg, plan, after) && RegistryApart(db, cfg)
    requires after.registry.Keys == Base(db, plan).registry.Keys + cfg.collections.Keys
    ensures !Dropped(after, cfg, ch)
  {
    if Dropped(after, cfg, ch) {
      var key := TableKey(ch.env, ch.table);
      ResolvedTables(db, plan);
      assert ch.collection in db.registry.Keys;
      if key in Base(db, plan).tables {
        assert Dropped(db, cfg, ch);
        SurvivorHarmless(db, cfg, plan, ch);
      } else {
        assert SourcedTable(cfg, Base(db, plan), key, after.tables[key]);
        var owner := CreatedOwned(cfg, Base(db, plan), key, after.tables[key]);
        NotLanding(db, cfg, owner, ch.collection, key);
      }
    }
  }

  /** A registered collection that left the config is nobody's landing place. */
  lemma NotLanding(db: Db, cfg: Config, owner: string, name: string, key: TableKey)
    requires RegistryApart(db, cfg) && name in db.registry && name !in cfg.collections
    requires key.name in {Main(name), Files(name)}
    ensures !Owns(cfg, key, owner)
  {
    FoldTwice(owner);
  }

  lemma DriftRemains(
      db: Db, cfg: Config, plan: seq<SchemaChange>, matching: set<string>, after: Db, ch: SchemaChange,
          d: DeclaredTable)
    requires Settling(db, cfg, plan, after) && Settled(cfg, matching, after)
    requires Compared(after, cfg, ch.collection, ch.env, d) && d.table == ch.table
    requires TableDiff(after.tables[TableKey(ch.env, d.table)], ch.collection, cfg.collections[ch.collection], d,
      ch.kind)
    ensures ch.kind.DropIndexChange? || IsStray(cfg, ch)
  {
    ComparedLands(db, cfg, plan, after, ch.collection, ch.env, d);
    match ch.kind {
      case AddColumnChange(f, _) => ColumnPresent(cfg, after, ch.collection, ch.env, d, f);
      case TypeChange(_, _, _) => TypesAgree(db, cfg, plan, after, ch, d);
      case DropColumnChange(_, _) => StraysKnown(db, cfg, plan, after, ch, d);
      case PkChange(_, _) => IdentityAgrees(db, cfg, plan, after, ch, d);
      case AddIndexChange(i) => IndexPresent(cfg, after, ch.collection, ch.env, d, i);
      case _ =>
    }
  }

  /** The column of a stray of a dataset the planner finds. */
  predicate IsStray(cfg: Config, ch: SchemaChange) {
    && ch.collection in cfg.collections && Seen(Main(ch.collection))
    && ch.kind.DropColumnChange? && Stray(cfg, ch.collection, ch.kind.field)
  }

  /** After a finished apply the planner reports only indexes to drop and strays. */
  lemma WhatRemains(db: Db, cfg: Config, plan: seq<SchemaChange>, matching: set<string>, ch: SchemaChange)
    requires SchemaRules(cfg) && Sound(db) && RegistryApart(db, cfg) && Finished(db, cfg, plan, matching)
    requires Planned(Applied(db, cfg, plan, matching).db, cfg, ch)
    ensures ch.kind.DropIndexChange? || IsStray(cfg, ch)
  {
    FinishedSettles(db, cfg, plan, matching);
    var after := Applied(db, cfg, plan, matching).db;
    NothingDropped(db, cfg, plan, after, ch);
    var d: DeclaredTable :| Compared(after, cfg, ch.collection, ch.env, d) && d.table == ch.table
      && TableDiff(after.tables[TableKey(ch.env, d.table)], ch.collection, cfg.collections[ch.collection], d, ch.kind);
    DriftRemains(db, cfg, plan, matching, after, ch, d);
  }

  /** A stray is there after the apply, and the next plan wants it dropped. */
  lemma StrayRemains(after: Db, cfg: Config, matching: set<string>, name: string, env: Env, f: string)
    returns (ch: SchemaChange)
    requires Settled(cfg, matching, after) && name in cfg.collections && Seen(Main(name)) && Stray(cfg, name, f)
    requires !(cfg.collections[name].external && env == Live)
    ensures Planned(after, cfg, ch) && Destructive(ch) && ch.table == Main(name) && ch.env == env
    ensures ch.kind.DropColumnChange? && ch.kind.field == f && ch.collection == name
  {
    var c, key := cfg.collections[name], TableKey(env, Main(name));
    if f in c.taxonomies {
      BindingColumn(cfg, after, name, env, f);
    } else {
      SearchPresent(cfg, after, name, env, f);
    }
    var d := DatasetTable(name, c, cfg.multiple);
    ch := SchemaChange(name, env, Main(name), DropColumnChange(f, after.tables[key].columns[f]));
    assert Compared(after, cfg, name, env, d);
    assert Drifted(after, cfg, ch);
  }

  /** So once its live table holds a row, every further apply of the unchanged config is refused. */
  lemma StrayRefuses(
      after: Db, later: Db, cfg: Config, settled: set<string>, matching: set<string>, name: string, f: string,
      plan: seq<SchemaChange>)
    requires Keyed(cfg) && Settled(cfg, settled, after) && name in cfg.collections && !cfg.collections[name].external
    requires Seen(Main(name)) && Stray(cfg, name, f)
    requires var key := TableKey(Live, Main(name));
      Populated(later, key) && (key in after.tables ==> later.tables[key].columns == after.tables[key].columns)
    requires Lists(plan, later, cfg)
    ensures HasRefused(Applied(later, cfg, plan, matching))
  {
    var ch := StrayRemains(after, cfg, settled, name, Live, f);
    SamePlanned(after, later, cfg, ch);
    RefusesExactly(later, cfg, plan, matching);
  }

  /** A column change rests on the table's columns alone. */
  lemma SamePlanned(after: Db, later: Db, cfg: Config, ch: SchemaChange)
    requires Planned(after, cfg, ch) && ch.kind.DropColumnChange?
    requires var key := TableKey(ch.env, ch.table);
      key in later.tables && (key in after.tables ==> later.tables[key].columns == after.tables[key].columns)
    ensures Planned(later, cfg, ch)
  {
    var d: DeclaredTable :| Compared(after, cfg, ch.collection, ch.env, d) && d.table == ch.table
      && TableDiff(after.tables[TableKey(ch.env, d.table)], ch.collection, cfg.collections[ch.collection], d, ch.kind);
    assert Compared(later, cfg, ch.collection, ch.env, d);
  }

  lemma SearchPresent(cfg: Config, db: Db, name: string, env: Env, f: string)
    requires name in cfg.collections && cfg.collections[name].kind == Dataset && Built(cfg, name, db)
    requires SearchesInto(cfg.collections[name], f) && !(cfg.collections[name].external && env == Live)
    ensures var key := MainKey(env, name); key in db.tables && f in db.tables[key].columns
  {
    var c, key := cfg.collections[name], MainKey(env, name);
    var j :| 0 <= j < |c.fields| && c.fields[j].field.searchable && f == Tsv(c.fields[j].name);
    SearchAltersFrom(key, name, c.fields);
    var s := AddColumn(key, TsvColumn(c.fields[j].name));
    assert s in SearchAlters(key, name, c.fields);
    BuiltSatisfies(cfg, name, env, s, db);
  }

  lemma BuiltSatisfies(cfg: Config, name: string, env: Env, s: Statement, db: Db)
    requires name in cfg.collections && Built(cfg, name, db)
    requires s in TableBatch(env, name, cfg.collections[name], cfg.multiple)
    ensures Builds(s) && Satisfied(s, db)
  {
    assert AllSatisfied(TableBatch(env, name, cfg.collections[name], cfg.multiple), db);
  }

  lemma BindingColumn(cfg: Config, after: Db, name: string, env: Env, slug: string)
    requires name in cfg.collections && Built(cfg, name, after) && cfg.collections[name].kind == Dataset
    requires slug in cfg.collections[name].taxonomies && !(cfg.collections[name].external && env == Live)
    ensures var key := MainKey(env, name); key in after.tables && slug in after.tables[key].columns
  {
    var c, key := cfg.collections[name], MainKey(env, name);
    var s := AddColumn(key, Bare(slug, VocabType(slug, cfg.multiple)));
    VocabAltersFrom(key, name, c.taxonomies, cfg.multiple);
    assert s in VocabAlters(key, name, c.taxonomies, cfg.multiple);
    BuiltSatisfies(cfg, name, env, s, after);
  }

  /**
   Convergence: nothing but `drop_index` remains, exactly when every search column and every bound vocabulary
   of a dataset the planner finds is declared or carries a structural name.
   */
  lemma Converges(db: Db, cfg: Config, plan: seq<SchemaChange>, matching: set<string>)
    requires SchemaRules(cfg) && Sound(db) && RegistryApart(db, cfg) && Finished(db, cfg, plan, matching)
    ensures NoStrays(cfg) <==>
            forall ch :: Planned(Applied(db, cfg, plan, matching).db, cfg, ch) ==> ch.kind.DropIndexChange?
  {
    forall ch | NoStrays(cfg) && Planned(Applied(db, cfg, plan, matching).db, cfg, ch)
      ensures ch.kind.DropIndexChange?
    {
      WhatRemains(db, cfg, plan, matching, ch);
    }
    if !NoStrays(cfg) {
      var n, f :| n in cfg.collections && Seen(Main(n)) && Stray(cfg, n, f);
      FinishedSettles(db, cfg, plan, matching);
      var ch := StrayRemains(Applied(db, cfg, plan, matching).db, cfg, matching, n, Dev, f);
    }
  }

  // ----- applying again

  /** The run is still going, its database is `db`, and no state it saw touched a table. */
  ghost predicate Quiet(db: Db, r: Run) {
    && r.failure.None? && r.db == db
    && forall s :: s in r.seen ==> s.tables == db.tables && s.registry == db.registry && s.acl == db.acl
  }

  lemma {:induction false} NothingToResolve(db: Db, plan: seq<SchemaChange>)
    requires forall ch :: ch in plan ==> !Destructive(ch)
    ensures Blocked(db, plan) == [] && DropKeys(db, plan) == [] && Gone(plan) == []
  {
    if plan != [] {
      NothingToResolve(db, plan[..|plan| - 1]);
      assert plan[|plan| - 1] in plan;
    }
  }

  lemma QuietBatch(db: Db, r: Run, batch: seq<Statement>)
    requires Quiet(db, r) && AllSatisfied(batch, db)
    ensures Quiet(db, Send(r, batch))
  {
    BatchNoOp(batch, db);
  }

  lemma QuietView(db: Db, r: Run, v: ViewKey, uses: set<ColumnRef>)
    requires Quiet(db, r) && v in db.views && db.views[v] == uses && Readable(db, uses)
    ensures Quiet(db, Send(r, [DropView(v), CreateView(v, uses)]))
  {
    RecreateView(db, v, uses);
    ExecTwo(DropView(v), CreateView(v, uses), db);
    assert db.views[v := uses] == db.views;
  }

  lemma QuietTables(cfg: Config, db: Db, r: Run, name: string, matching: set<string>)
    requires name in cfg.collections && Quiet(db, r) && Built(cfg, name, db)
    requires cfg.collections[name].external ==> name in matching
    ensures Quiet(db, TablesOf(r, cfg, name, matching))
  {
    var c := cfg.collections[name];
    assert !LacksRevisions(db, Dev, name, c) && !LacksRevisions(db, Live, name, c);
    QuietBatch(db, r, TableBatch(Dev, name, c, cfg.multiple));
    QuietBatch(db, Send(r, TableBatch(Dev, name, c, cfg.multiple)), TableBatch(Live, name, c, cfg.multiple));
  }

  lemma QuietRegister(db: Db, r: Run, name: string, c: Collection)
    requires Quiet(db, r) && name in db.registry && db.registry[name] == c
    ensures Quiet(db, Send(r, [Register(name, c)]))
  {
    ExecSingle(Register(name, c), db);
    assert db.registry[name := c] == db.registry;
  }

  lemma QuietViews(cfg: Config, db: Db, r: Run, name: string)
    requires name in cfg.collections && Quiet(db, r) && Viewed(cfg, name, db)
    ensures Quiet(db, ViewsOf(r, cfg, name))
  {
    var c := cfg.collections[name];
    var dev := Send(r, ViewBatch(Dev, name, c, cfg.multiple));
    QuietView(db, r, ViewOf(Dev, name), ViewUses(Dev, name, c, cfg.multiple));
    QuietView(db, dev, ViewOf(Live, name), ViewUses(Live, name, c, cfg.multiple));
    QuietRegister(db, Send(dev, ViewBatch(Live, name, c, cfg.multiple)), name, c);
  }

  lemma {:induction false} QuietAllTables(cfg: Config, db: Db, r: Run, names: seq<string>, matching: set<string>)
    requires Covers(cfg, names) && Quiet(db, r) && Settled(cfg, matching, db)
    ensures Quiet(db, AllTables(r, cfg, names, matching))
  {
    if names != [] {
      var before, name := names[..|names| - 1], names[|names| - 1];
      QuietAllTables(cfg, db, r, before, matching);
      QuietTables(cfg, db, AllTables(r, cfg, before, matching), name, matching);
    }
  }

  lemma {:induction false} QuietAllViews(cfg: Config, db: Db, r: Run, names: seq<string>, matching: set<string>)
    requires Covers(cfg, names) && Quiet(db, r) && Settled(cfg, matching, db)
    ensures Quiet(db, AllViews(r, cfg, names))
  {
    if names != [] {
      var before, name := names[..|names| - 1], names[|names| - 1];
      QuietAllViews(cfg, db, r, before, matching);
      QuietViews(cfg, db, AllViews(r, cfg, before), name);
    }
  }

  lemma ApplySettled(cfg: Config, db: Db, plan: seq<SchemaChange>, matching: set<string>)
    requires Keyed(cfg) && Settled(cfg, matching, db) && forall ch :: ch in plan ==> !Destructive(ch)
    ensures Quiet(db, Applied(db, cfg, plan, matching))
  {
    NothingToResolve(db, plan);
    assert Drops([]) + Forget([]) == [];
    assert Resolve(Start(db), plan) == Start(db);
    QuietAllTables(cfg, db, Start(db), cfg.names, matching);
    QuietAllViews(cfg, db, AllTables(Start(db), cfg, cfg.names, matching), cfg.names, matching);
  }

  /**
   Idempotence: applying the same config to what an apply left finishes, changes nothing, and no
   state on the way has another table, registry or ACL.
   */
  lemma SecondApplyChangesNothing(
      db: Db, cfg: Config, plan: seq<SchemaChange>, again: seq<SchemaChange>, matching: set<string>)
    requires SchemaRules(cfg) && Sound(db) && RegistryApart(db, cfg) && NoStrays(cfg)
      && Finished(db, cfg, plan, matching)
    requires Lists(again, Applied(db, cfg, plan, matching).db, cfg)
    ensures var after := Applied(db, cfg, plan, matching).db;
      Quiet(after, Applied(after, cfg, again, matching))
  {
    var after := Applied(db, cfg, plan, matching).db;
    FinishedSettles(db, cfg, plan, matching);
    forall ch | ch in again ensures !Destructive(ch) {
      WhatRemains(db, cfg, plan, matching, ch);
    }
    ApplySettled(cfg, after, again, matching);
  }
}
