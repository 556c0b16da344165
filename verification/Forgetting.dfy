/**
 What becomes of a collection that leaves the config: apply takes its registry row and its ACL rows with
 its tables, and nothing else's; but the reviewed migration's own statements leave ACL rows behind.
 */
module Forgetting {
  import opened Wrappers
  import opened Config
  import opened Catalog
  import opened Ddl
  import opened DdlFacts
  import opened Plan
  import opened Apply
  import opened ApplySafety
  import opened Migration

  // ----- statements that leave a collection alone

  /**
   The statement has nothing to do with the tables or the ACL rows of `name`, but perhaps with its own table if
   that one is not `spared`.
   */
  predicate Avoids(s: Statement, name: string, spared: bool) {
    match s
    case ClearAcl(_, c) => c != name
    case CreateView(_, _) => true
    case DropView(_) => true
    case Register(_, _) => true
    case Unregister(_) => true
    case _ => s.key.name.collection == name ==> s.key.name.Main? && !spared
  }

  ghost predicate AllAvoid(ss: seq<Statement>, name: string, spared: bool) {
    forall s :: s in ss ==> Avoids(s, name, spared)
  }

  /** The tables, its own one if `spared`, and the ACL rows of `name` are as they were. */
  ghost predicate Untouched(db: Db, after: Db, name: string, spared: bool) {
    && (forall k: TableKey :: k.name.collection == name && (k.name.Main? ==> spared) ==>
          (k in after.tables <==> k in db.tables) && (k in db.tables ==> after.tables[k] == db.tables[k]))
    && (forall a: AclEntry :: a.collection == name ==> (a in after.acl <==> a in db.acl))
  }

  lemma ExecAvoids(s: Statement, db: Db, name: string, spared: bool)
    requires Avoids(s, name, spared) && Exec(s, db).Some?
    ensures Untouched(db, Exec(s, db).value, name, spared)
  {}

  lemma {:induction false} ExecAllAvoids(ss: seq<Statement>, db: Db, name: string, spared: bool)
    requires AllAvoid(ss, name, spared) && ExecAll(ss, db).Some?
    ensures Untouched(db, ExecAll(ss, db).value, name, spared)
  {
    if ss != [] {
      ExecAllAvoids(ss[..|ss| - 1], db, name, spared);
      ExecAvoids(ss[|ss| - 1], ExecAll(ss[..|ss| - 1], db).value, name, spared);
    }
  }

  lemma SendAvoids(r: Run, batch: seq<Statement>, name: string, spared: bool)
    requires AllAvoid(batch, name, spared)
    ensures Untouched(r.db, Send(r, batch).db, name, spared)
  {
    if r.failure.None? && ExecAll(batch, r.db).Some? {
      ExecAllAvoids(batch, r.db, name, spared);
    }
  }

  lemma UntouchedTransitive(a: Db, b: Db, c: Db, name: string, spared: bool)
    requires Untouched(a, b, name, spared) && Untouched(b, c, name, spared)
    ensures Untouched(a, c, name, spared)
  {}

  lemma {:induction false} SendEachAvoids(r: Run, batches: seq<seq<Statement>>, name: string, spared: bool)
    requires forall b :: b in batches ==> AllAvoid(b, name, spared)
    ensures Untouched(r.db, SendEach(r, batches).db, name, spared)
  {
    if batches != [] {
      var before := SendEach(r, batches[..|batches| - 1]);
      SendEachAvoids(r, batches[..|batches| - 1], name, spared);
      SendAvoids(before, batches[|batches| - 1], name, spared);
      UntouchedTransitive(r.db, before.db, SendEach(r, batches).db, name, spared);
    }
  }

  /** What lands on another's own table does so because the two names fold together. */
  lemma BatchAvoids(cfg: Config, env: Env, n: string, name: string, spared: bool)
    requires n in cfg.collections && n != name && (spared ==> !Taken(cfg, name))
    ensures AllAvoid(TableBatch(env, n, cfg.collections[n], cfg.multiple), name, spared)
  {
    hide DatasetBatch;
    hide FileBatch;
    DatasetBatchBuilds(env, n, cfg.collections[n], cfg.multiple);
    FileBatchBuilds(env, n, cfg.collections[n], cfg.multiple);
  }

  lemma TablesAvoid(r: Run, cfg: Config, n: string, matching: set<string>, name: string, spared: bool)
    requires n in cfg.collections && n != name && (spared ==> !Taken(cfg, name))
    ensures Untouched(r.db, TablesOf(r, cfg, n, matching).db, name, spared)
  {
    var c := cfg.collections[n];
    BatchAvoids(cfg, Dev, n, name, spared);
    BatchAvoids(cfg, Live, n, name, spared);
    var checked := CheckRevisions(CheckRevisions(r, Dev, n, c), Live, n, c);
    var dev := Send(checked, TableBatch(Dev, n, c, cfg.multiple));
    SendAvoids(checked, TableBatch(Dev, n, c, cfg.multiple), name, spared);
    SendAvoids(dev, TableBatch(Live, n, c, cfg.multiple), name, spared);
    UntouchedTransitive(r.db, dev.db, Send(dev, TableBatch(Live, n, c, cfg.multiple)).db, name, spared);
  }

  lemma ViewsAvoid(r: Run, cfg: Config, n: string, name: string, spared: bool)
    requires n in cfg.collections
    ensures Untouched(r.db, ViewsOf(r, cfg, n).db, name, spared)
  {
    var c := cfg.collections[n];
    var dev := Send(r, ViewBatch(Dev, n, c, cfg.multiple));
    var live := Send(dev, ViewBatch(Live, n, c, cfg.multiple));
    SendAvoids(r, ViewBatch(Dev, n, c, cfg.multiple), name, spared);
    SendAvoids(dev, ViewBatch(Live, n, c, cfg.multiple), name, spared);
    SendAvoids(live, [Register(n, c)], name, spared);
    UntouchedTransitive(r.db, dev.db, live.db, name, spared);
    UntouchedTransitive(r.db, live.db, ViewsOf(r, cfg, n).db, name, spared);
  }

  lemma {:induction false} AllTablesAvoid(
      r: Run, cfg: Config, names: seq<string>, matching: set<string>, name: string, spared: bool)
    requires Covers(cfg, names) && name !in names && (spared ==> !Taken(cfg, name))
    ensures Untouched(r.db, AllTables(r, cfg, names, matching).db, name, spared)
  {
    if names != [] {
      var before := AllTables(r, cfg, names[..|names| - 1], matching);
      AllTablesAvoid(r, cfg, names[..|names| - 1], matching, name, spared);
      TablesAvoid(before, cfg, names[|names| - 1], matching, name, spared);
      UntouchedTransitive(r.db, before.db, AllTables(r, cfg, names, matching).db, name, spared);
    }
  }

  lemma {:induction false} AllViewsAvoid(r: Run, cfg: Config, names: seq<string>, name: string, spared: bool)
    requires Covers(cfg, names)
    ensures Untouched(r.db, AllViews(r, cfg, names).db, name, spared)
  {
    if names != [] {
      var before := AllViews(r, cfg, names[..|names| - 1]);
      AllViewsAvoid(r, cfg, names[..|names| - 1], name, spared);
      ViewsAvoid(before, cfg, names[|names| - 1], name, spared);
      UntouchedTransitive(r.db, before.db, AllViews(r, cfg, names).db, name, spared);
    }
  }

  // ----- what the plan names

  lemma {:induction false} GoneIs(plan: seq<SchemaChange>)
    ensures forall n :: n in Gone(plan) <==> exists ch :: ch in plan && ch.kind == DropCollection && ch.collection == n
  {
    if plan != [] {
      GoneIs(plan[..|plan| - 1]);
      var ch := plan[|plan| - 1];
      assert forall c :: c in plan <==> c in plan[..|plan| - 1] || c == ch;
    }
  }

  lemma PlannedNames(db: Db, cfg: Config, ch: SchemaChange)
    requires Planned(db, cfg, ch)
    ensures ch.table.collection == ch.collection
    ensures ch.kind == DropCollection <==> ch.collection !in cfg.collections
    ensures ch.collection in cfg.collections || ch.collection in db.registry
  {
    if Drifted(db, cfg, ch) {
      var d: DeclaredTable :| Compared(db, cfg, ch.collection, ch.env, d) && d.table == ch.table
        && TableDiff(db.tables[TableKey(ch.env, d.table)], ch.collection, cfg.collections[ch.collection], d, ch.kind);
    }
  }

  /** The collections apply forgets: registered, out of the config, with a table of theirs still there. */
  ghost predicate Leaves(db: Db, cfg: Config, name: string) {
    && name in db.registry && name !in cfg.collections
    && exists env: Env, t: TableName :: t in {Main(name), Files(name)} && TableKey(env, t) in db.tables
  }

  lemma GoneLeaves(db: Db, cfg: Config, plan: seq<SchemaChange>, name: string)
    requires Lists(plan, db, cfg)
    ensures name in Gone(plan) <==> Leaves(db, cfg, name)
  {
    GoneIs(plan);
    if name in Gone(plan) {
      var ch :| ch in plan && ch.kind == DropCollection && ch.collection == name;
      PlannedNames(db, cfg, ch);
      assert Dropped(db, cfg, ch);
    }
    if Leaves(db, cfg, name) {
      var env: Env, t: TableName :| t in {Main(name), Files(name)} && TableKey(env, t) in db.tables;
      var ch := SchemaChange(name, env, t, DropCollection);
      assert Dropped(db, cfg, ch) && Planned(db, cfg, ch);
    }
  }

  lemma ResolveAvoids(db: Db, cfg: Config, plan: seq<SchemaChange>, name: string, spared: bool)
    requires Lists(plan, db, cfg) && name !in db.registry && name !in cfg.collections
    ensures Untouched(db, Resolve(Start(db), plan).db, name, spared)
  {
    var drops, forget := Drops(DropKeys(db, plan)), Forget(Gone(plan));
    forall k | k in DropKeys(db, plan) ensures k.name.collection != name {
      var ch := DroppedFor(db, plan, k);
      PlannedNames(db, cfg, ch);
    }
    GoneLeaves(db, cfg, plan, name);
    ForgetAvoids(Gone(plan), name, spared);
    SendEachAvoids(Start(db), drops + forget, name, spared);
  }

  lemma {:induction false} ForgetAvoids(names: seq<string>, name: string, spared: bool)
    requires name !in names
    ensures forall b :: b in Forget(names) ==> AllAvoid(b, name, spared)
  {
    if names != [] {
      ForgetAvoids(names[..|names| - 1], name, spared);
    }
  }

  /**
   A collection neither registered nor configured is none of apply's business, whatever is left of it; but its own
   table is a configured dataset's if that one's name folds to it.
   */
  lemma UnknownIsUntouched(db: Db, cfg: Config, plan: seq<SchemaChange>, matching: set<string>, name: string)
    requires Keyed(cfg) && Lists(plan, db, cfg) && name !in db.registry && name !in cfg.collections
    ensures Untouched(db, Applied(db, cfg, plan, matching).db, name, !Taken(cfg, name))
  {
    var spared := !Taken(cfg, name);
    var resolved := Resolve(Start(db), plan);
    var built := AllTables(resolved, cfg, cfg.names, matching);
    ResolveAvoids(db, cfg, plan, name, spared);
    AllTablesAvoid(resolved, cfg, cfg.names, matching, name, spared);
    AllViewsAvoid(built, cfg, cfg.names, name, spared);
    UntouchedTransitive(db, resolved.db, built.db, name, spared);
    UntouchedTransitive(db, built.db, Applied(db, cfg, plan, matching).db, name, spared);
  }

  // ----- ACL rows

  predicate Keeps(s: Statement) {
    !s.ClearAcl?
  }

  lemma ExecKeepsAcl(s: Statement, db: Db)
    requires Keeps(s) && Exec(s, db).Some?
    ensures Exec(s, db).value.acl == db.acl
  {}

  lemma {:induction false} ExecAllKeepsAcl(ss: seq<Statement>, db: Db)
    requires (forall s :: s in ss ==> Keeps(s)) && ExecAll(ss, db).Some?
    ensures ExecAll(ss, db).value.acl == db.acl
  {
    if ss != [] {
      ExecAllKeepsAcl(ss[..|ss| - 1], db);
      ExecKeepsAcl(ss[|ss| - 1], ExecAll(ss[..|ss| - 1], db).value);
    }
  }

  lemma SendKeepsAcl(r: Run, batch: seq<Statement>)
    requires forall s :: s in batch ==> Keeps(s)
    ensures Send(r, batch).db.acl == r.db.acl
  {
    if r.failure.None? && ExecAll(batch, r.db).Some? {
      ExecAllKeepsAcl(batch, r.db);
    }
  }

  lemma {:induction false} DropsKeepAcl(r: Run, keys: seq<TableKey>)
    requires r.failure.None?
    ensures SendEach(r, Drops(keys)).db.acl == r.db.acl && SendEach(r, Drops(keys)).failure.None?
  {
    if keys != [] {
      var n := |keys| - 1;
      DropsKeepAcl(r, keys[..n]);
      assert Drops(keys)[..n] == Drops(keys[..n]);
      ExecSingle(DropTable(keys[n]), SendEach(r, Drops(keys[..n])).db);
    }
  }

  function Without(acl: set<AclEntry>, names: seq<string>): set<AclEntry> {
    set a | a in acl && a.collection !in names
  }

  lemma WithoutLast(acl: set<AclEntry>, names: seq<string>)
    requires names != []
    ensures Without(acl, names)
      == set a | a in Without(acl, names[..|names| - 1]) && a.collection != names[|names| - 1]
  {
    assert names == names[..|names| - 1] + [names[|names| - 1]];
  }

  lemma ForgetOneAcl(r: Run, name: string)
    requires r.failure.None?
    ensures var after := Send(Send(Send(r, [Unregister(name)]), [ClearAcl(Dev, name)]), [ClearAcl(Live, name)]);
      && after.failure.None? && after.db.acl == (set a | a in r.db.acl && a.collection != name)
      && after.db.registry == r.db.registry - {name}
  {
    ExecSingle(Unregister(name), r.db);
    var one := Send(r, [Unregister(name)]);
    ExecSingle(ClearAcl(Dev, name), one.db);
    var two := Send(one, [ClearAcl(Dev, name)]);
    ExecSingle(ClearAcl(Live, name), two.db);
  }

  lemma {:induction false} ForgetClears(r: Run, names: seq<string>)
    requires r.failure.None?
    ensures var after := SendEach(r, Forget(names));
      after.failure.None? && after.db.acl == Without(r.db.acl, names)
  {
    if names != [] {
      var n := |names| - 1;
      ForgetClears(r, names[..n]);
      ForgetLast(r, names);
      ForgetOneAcl(SendEach(r, Forget(names[..n])), names[n]);
      WithoutLast(r.db.acl, names);
    }
  }

  lemma {:induction false} TablesKeepAcl(r: Run, cfg: Config, names: seq<string>, matching: set<string>)
    requires Covers(cfg, names)
    ensures AllTables(r, cfg, names, matching).db.acl == r.db.acl
  {
    if names != [] {
      var before, name := AllTables(r, cfg, names[..|names| - 1], matching), names[|names| - 1];
      TablesKeepAcl(r, cfg, names[..|names| - 1], matching);
      OneTableKeepsAcl(before, cfg, name, matching);
    }
  }

  lemma OneTableKeepsAcl(r: Run, cfg: Config, name: string, matching: set<string>)
    requires name in cfg.collections
    ensures TablesOf(r, cfg, name, matching).db.acl == r.db.acl
  {
    var c := cfg.collections[name];
    TableBatchBuilds(Dev, name, c, cfg.multiple);
    TableBatchBuilds(Live, name, c, cfg.multiple);
    var checked := CheckRevisions(CheckRevisions(r, Dev, name, c), Live, name, c);
    SendKeepsAcl(checked, TableBatch(Dev, name, c, cfg.multiple));
    SendKeepsAcl(Send(checked, TableBatch(Dev, name, c, cfg.multiple)), TableBatch(Live, name, c, cfg.multiple));
  }

  lemma {:induction false} ViewsKeepAcl(r: Run, cfg: Config, names: seq<string>)
    requires Covers(cfg, names)
    ensures AllViews(r, cfg, names).db.acl == r.db.acl
  {
    if names != [] {
      var before, name := AllViews(r, cfg, names[..|names| - 1]), names[|names| - 1];
      ViewsKeepAcl(r, cfg, names[..|names| - 1]);
      var c := cfg.collections[name];
      var dev := Send(before, ViewBatch(Dev, name, c, cfg.multiple));
      SendKeepsAcl(before, ViewBatch(Dev, name, c, cfg.multiple));
      SendKeepsAcl(dev, ViewBatch(Live, name, c, cfg.multiple));
      SendKeepsAcl(Send(dev, ViewBatch(Live, name, c, cfg.multiple)), [Register(name, c)]);
    }
  }

  /**
   Main result: an apply that is not refused deletes exactly the ACL rows of the collections that left: those
   registered, no longer configured, with a table still there. Every other ACL row stays, in both environments.
   */
  lemma AclRowsForgotten(db: Db, cfg: Config, plan: seq<SchemaChange>, matching: set<string>, a: AclEntry)
    requires Keyed(cfg) && Lists(plan, db, cfg) && Blocked(db, plan) == []
    ensures a in Applied(db, cfg, plan, matching).db.acl <==> a in db.acl && !Leaves(db, cfg, a.collection)
  {
    var drops, forget := Drops(DropKeys(db, plan)), Forget(Gone(plan));
    var dropped := SendEach(Start(db), drops);
    DropsKeepAcl(Start(db), DropKeys(db, plan));
    SendEachAppend(Start(db), drops, forget);
    ForgetClears(dropped, Gone(plan));
    GoneLeaves(db, cfg, plan, a.collection);
    var resolved := Resolve(Start(db), plan);
    TablesKeepAcl(resolved, cfg, cfg.names, matching);
    ViewsKeepAcl(AllTables(resolved, cfg, cfg.names, matching), cfg, cfg.names);
  }

  /**
   Main result: a populated collection dropped through the migration's own statements is not forgotten. They
   take one live table and its registry row, and without the row no later apply sees it: its ACL rows, in both
   environments, and its other tables stay for whatever collection is next given the name.
   */
  lemma MigratedDropStaysBehind(
      db: Db, next: Config, ch: SchemaChange, after: Db, again: seq<SchemaChange>, matching: set<string>)
    requires Keyed(next) && Planned(db, next, ch) && ch.kind == DropCollection && ch.env == Live
    requires ExecAll([DropTable(TableKey(Live, ch.table)), Unregister(ch.collection)], db) == Some(after)
    requires Lists(again, after, next)
    ensures LinesOf(ch) == [Commented(DropTable(TableKey(Live, ch.table))), Commented(Unregister(ch.collection))]
    ensures forall a: AclEntry :: a.collection == ch.collection && a in db.acl ==>
      a in Applied(after, next, again, matching).db.acl
    ensures forall k: TableKey ::
      k.name.collection == ch.collection && (k.name.Main? ==> !Taken(next, ch.collection))
      && k in db.tables && k != TableKey(Live, ch.table) ==>
              && k in Applied(after, next, again, matching).db.tables
              && Applied(after, next, again, matching).db.tables[k] == db.tables[k]
  {
    PlannedNames(db, next, ch);
    DropAndUnregister(db, TableKey(Live, ch.table), ch.collection, after);
    UnknownIsUntouched(after, next, again, matching, ch.collection);
  }

  lemma DropAndUnregister(db: Db, key: TableKey, name: string, after: Db)
    requires ExecAll([DropTable(key), Unregister(name)], db) == Some(after)
    ensures after.acl == db.acl && after.tables == db.tables - {key} && after.registry == db.registry - {name}
  {
    var drop, forget := DropTable(key), Unregister(name);
    assert [drop, forget] == [drop] + [forget];
    ExecAppend([drop], [forget], db);
    ExecSingle(drop, db);
    var mid := Exec(drop, db).value;
    ExecSingle(forget, mid);
    assert mid.acl == db.acl && mid.tables == db.tables - {key} && mid.registry == db.registry;
  }
}
