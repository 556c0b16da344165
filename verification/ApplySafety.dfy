/**
 Live data safety: in every state an apply passes through, whether it finishes or throws, a live
 table that held rows at the start is still there with every column, type and row it had.
 */
module ApplySafety {
  import opened Config
  import opened Catalog
  import opened Ddl
  import DdlFacts
  import opened Plan
  import opened Apply

  // ----- a table that only grew

  ghost predicate SameRows(t: Table, u: Table) {
    && |u.rows| == |t.rows|
    && forall i, c :: 0 <= i < |t.rows| && c in t.columns ==> Cell(u.rows[i], c) == Cell(t.rows[i], c)
  }

  /** Every column, type, index and stored value of `t` is in `u`; `u` may have more columns. */
  ghost predicate Extends(t: Table, u: Table) {
    && (forall c :: c in t.columns ==> c in u.columns && u.columns[c] == t.columns[c])
    && SameRows(t, u)
    && u.primaryKey == t.primaryKey
    && (t.identity.Some? ==> u.identity == t.identity)
    && (forall i :: i in t.indexes ==> i in u.indexes && u.indexes[i] == t.indexes[i])
  }

  ghost predicate Grown(db: Db, later: Db) {
    forall k :: k in db.tables ==> k in later.tables && Extends(db.tables[k], later.tables[k])
  }

  lemma GrownSelf(db: Db)
    ensures Grown(db, db)
  {}

  lemma GrownTransitive(a: Db, b: Db, c: Db)
    requires Grown(a, b) && Grown(b, c)
    ensures Grown(a, c)
  {
    forall k | k in a.tables ensures k in c.tables && Extends(a.tables[k], c.tables[k]) {
      ExtendsTransitive(a.tables[k], b.tables[k], c.tables[k]);
    }
  }

  lemma ExtendsTransitive(t: Table, u: Table, v: Table)
    requires Extends(t, u) && Extends(u, v)
    ensures Extends(t, v)
  {}

  predicate Grows(s: Statement) {
    match s
    case DropTable(_) => false
    case DropColumn(_, _) => false
    case DropIdentity(_) => false
    case DropIndex(_, _) => false
    case Retype(_, _, _, _) => false
    case _ => true
  }

  predicate AllGrow(ss: seq<Statement>) {
    forall i :: 0 <= i < |ss| ==> Grows(ss[i])
  }

  lemma AddColumnExtends(t: Table, column: Column)
    requires AddColumnTo(t, column).Some?
    ensures Extends(t, AddColumnTo(t, column).value)
  {}

  lemma ExecGrows(s: Statement, db: Db)
    requires Grows(s) && Exec(s, db).Some?
    ensures Grown(db, Exec(s, db).value)
  {
    if s.AddColumn? {
      AddColumnExtends(db.tables[s.key], s.column);
    }
  }

  lemma {:induction false} ExecAllGrows(ss: seq<Statement>, db: Db)
    requires AllGrow(ss)
    ensures forall later :: later in Passed(ss, db) ==> Grown(db, later)
    ensures ExecAll(ss, db).Some? ==> Grown(db, ExecAll(ss, db).value)
  {
    if ss != [] {
      var before := ss[..|ss| - 1];
      ExecAllGrows(before, db);
      if ExecAll(ss, db).Some? {
        var mid := ExecAll(before, db).value;
        ExecGrows(ss[|ss| - 1], mid);
        GrownTransitive(db, mid, ExecAll(ss, db).value);
      }
    }
  }

  // ----- every table and view statement only grows

  lemma TableBatchGrows(env: Env, name: string, c: Collection, multiple: set<string>)
    ensures AllGrow(TableBatch(env, name, c, multiple))
  {
    DdlFacts.TableBatchBuilds(env, name, c, multiple);
    var batch := TableBatch(env, name, c, multiple);
    forall i | 0 <= i < |batch| ensures Grows(batch[i]) {
      assert batch[i] in batch;
    }
  }

  // ----- tables that stay

  ghost predicate KeepsTables(start: Db, now: Db, keep: set<TableKey>) {
    forall k :: k in keep && k in start.tables ==> k in now.tables && Extends(start.tables[k], now.tables[k])
  }

  ghost predicate Keeping(start: Db, r: Run, keep: set<TableKey>) {
    KeepsTables(start, r.db, keep) && forall s :: s in r.seen ==> KeepsTables(start, s, keep)
  }

  lemma KeepsGrown(start: Db, now: Db, later: Db, keep: set<TableKey>)
    requires KeepsTables(start, now, keep) && Grown(now, later)
    ensures KeepsTables(start, later, keep)
  {
    forall k | k in keep && k in start.tables
      ensures k in later.tables && Extends(start.tables[k], later.tables[k])
    {
      ExtendsTransitive(start.tables[k], now.tables[k], later.tables[k]);
    }
  }

  lemma SendKeeps(start: Db, r: Run, batch: seq<Statement>, keep: set<TableKey>)
    requires Keeping(start, r, keep) && AllGrow(batch)
    ensures Keeping(start, Send(r, batch), keep)
  {
    ExecAllGrows(batch, r.db);
    forall s | s in Passed(batch, r.db) ensures KeepsTables(start, s, keep) {
      KeepsGrown(start, r.db, s, keep);
    }
    if ExecAll(batch, r.db).Some? {
      KeepsGrown(start, r.db, ExecAll(batch, r.db).value, keep);
    }
  }

  lemma DropKeeps(start: Db, r: Run, key: TableKey, keep: set<TableKey>)
    requires Keeping(start, r, keep) && key !in keep
    ensures Keeping(start, Send(r, [DropTable(key)]), keep)
  {
    ExecSingle(DropTable(key), r.db);
  }

  lemma {:induction false} DropsKeep(start: Db, r: Run, keys: seq<TableKey>, keep: set<TableKey>)
    requires Keeping(start, r, keep)
    requires forall k :: k in keys ==> k !in keep
    ensures Keeping(start, SendEach(r, Drops(keys)), keep)
  {
    if keys != [] {
      var n := |keys| - 1;
      DropsKeep(start, r, keys[..n], keep);
      assert Drops(keys)[..n] == Drops(keys[..n]);
      DropKeeps(start, SendEach(r, Drops(keys[..n])), keys[n], keep);
    }
  }

  lemma {:induction false} GrowingBatchesKeep(start: Db, r: Run, batches: seq<seq<Statement>>, keep: set<TableKey>)
    requires Keeping(start, r, keep) && forall b :: b in batches ==> AllGrow(b)
    ensures Keeping(start, SendEach(r, batches), keep)
  {
    if batches != [] {
      GrowingBatchesKeep(start, r, batches[..|batches| - 1], keep);
      SendKeeps(start, SendEach(r, batches[..|batches| - 1]), batches[|batches| - 1], keep);
    }
  }

  lemma {:induction false} SendEachAppend(r: Run, a: seq<seq<Statement>>, b: seq<seq<Statement>>)
    ensures SendEach(r, a + b) == SendEach(SendEach(r, a), b)
  {
    if b == [] {
      assert a + b == a;
    } else {
      assert (a + b)[..|a + b| - 1] == a + b[..|b| - 1];
      SendEachAppend(r, a, b[..|b| - 1]);
    }
  }

  lemma {:induction false} ForgetGrows(names: seq<string>)
    ensures forall b :: b in Forget(names) ==> AllGrow(b)
  {
    if names != [] {
      ForgetGrows(names[..|names| - 1]);
    }
  }

  // ----- what gets dropped

  /** `file_id uuid not null references …__files(id)`. */
  ghost predicate ForeignKeys(db: Db) {
    forall env, c, i ::
        TableKey(env, Documents(c)) in db.tables && 0 <= i < |db.tables[TableKey(env, Documents(c))].rows| ==>
      ReferencesFile(db, env, c, db.tables[TableKey(env, Documents(c))].rows[i])
  }

  ghost predicate ReferencesFile(db: Db, env: Env, c: string, row: Row) {
    && TableKey(env, Files(c)) in db.tables
    && exists f :: f in db.tables[TableKey(env, Files(c))].rows && Cell(f, "id") == Cell(row, "file_id")
  }

  lemma {:induction false} BlockedLists(db: Db, plan: seq<SchemaChange>)
    ensures forall ch :: ch in Blocked(db, plan) <==> ch in plan && Blocks(db, ch)
  {
    if plan != [] {
      BlockedLists(db, plan[..|plan| - 1]);
    }
  }

  lemma {:induction false} DropKeysFrom(db: Db, plan: seq<SchemaChange>)
    ensures forall k :: k in DropKeys(db, plan) <==>
        exists ch ::
            ch in plan && Destructive(ch) && !Blocks(db, ch) && k.env == ch.env && k.name in TablesToDrop(ch.table)
  {
    if plan != [] {
      DropKeysFrom(db, plan[..|plan| - 1]);
      var ch := plan[|plan| - 1];
      KeysOfFrom(ch.env, TablesToDrop(ch.table));
    }
  }

  lemma KeysOfFrom(env: Env, names: seq<TableName>)
    ensures forall k :: k in KeysOf(env, names) <==> k.env == env && k.name in names
  {
    forall k: TableKey | k.env == env && k.name in names ensures k in KeysOf(env, names) {
      var i :| 0 <= i < |names| && names[i] == k.name;
      assert KeysOf(env, names)[i] == k;
    }
  }

  /** A planned change is about a table that exists. */
  lemma PlannedExists(db: Db, cfg: Config, ch: SchemaChange)
    requires Planned(db, cfg, ch)
    ensures TableKey(ch.env, ch.table) in db.tables
  {}

  lemma DocumentsNeedFiles(db: Db, env: Env, c: string)
    requires ForeignKeys(db)
    ensures Populated(db, TableKey(env, Documents(c))) ==> Populated(db, TableKey(env, Files(c)))
  {
    var key := TableKey(env, Documents(c));
    if Populated(db, key) {
      assert ReferencesFile(db, env, c, db.tables[key].rows[0]);
    }
  }

  /** Nothing live that holds rows is on the drop list; for `__documents` this is the foreign key. */
  lemma DropsSpareLive(db: Db, cfg: Config, plan: seq<SchemaChange>, key: TableKey)
    requires Lists(plan, db, cfg) && ForeignKeys(db) && Blocked(db, plan) == []
    requires key in DropKeys(db, plan)
    ensures !(key.env == Live && Populated(db, key))
  {
    var ch := DroppedFor(db, plan, key);
    PlannedExists(db, cfg, ch);
    DocumentsNeedFiles(db, key.env, ch.table.collection);
  }

  /** Every key on the drop list is there for a change that does not block. */
  lemma DroppedFor(db: Db, plan: seq<SchemaChange>, key: TableKey) returns (ch: SchemaChange)
    requires key in DropKeys(db, plan)
    ensures ch in plan && Destructive(ch) && !Blocks(db, ch) && key.env == ch.env && key.name in TablesToDrop(ch.table)
  {
    DropKeysFrom(db, plan);
    ch :| ch in plan && Destructive(ch) && !Blocks(db, ch) && key.env == ch.env && key.name in TablesToDrop(ch.table);
  }

  lemma ResolveKeeps(db: Db, plan: seq<SchemaChange>, keep: set<TableKey>)
    requires Blocked(db, plan) == [] ==> forall k :: k in DropKeys(db, plan) ==> k !in keep
    ensures Keeping(db, Resolve(Start(db), plan), keep)
  {
    if Blocked(db, plan) == [] {
      var drops, forget := Drops(DropKeys(db, plan)), Forget(Gone(plan));
      DropsKeep(db, Start(db), DropKeys(db, plan), keep);
      ForgetGrows(Gone(plan));
      GrowingBatchesKeep(db, SendEach(Start(db), drops), forget, keep);
      SendEachAppend(Start(db), drops, forget);
    }
  }

  lemma {:induction false} TablesKeep(
      start: Db, r: Run, cfg: Config, names: seq<string>, matching: set<string>, keep: set<TableKey>)
    requires Keeping(start, r, keep) && Covers(cfg, names)
    ensures Keeping(start, AllTables(r, cfg, names, matching), keep)
  {
    if names != [] {
      var before, name := names[..|names| - 1], names[|names| - 1];
      TablesKeep(start, r, cfg, before, matching, keep);
      var c := cfg.collections[name];
      TableBatchGrows(Dev, name, c, cfg.multiple);
      TableBatchGrows(Live, name, c, cfg.multiple);
      var mid := AllTables(r, cfg, before, matching);
      var checked := CheckRevisions(CheckRevisions(mid, Dev, name, c), Live, name, c);
      var dev, live := TableBatch(Dev, name, c, cfg.multiple), TableBatch(Live, name, c, cfg.multiple);
      SendKeeps(start, checked, dev, keep);
      SendKeeps(start, Send(checked, dev), live, keep);
    }
  }

  lemma {:induction false} ViewsKeep(start: Db, r: Run, cfg: Config, names: seq<string>, keep: set<TableKey>)
    requires Keeping(start, r, keep) && Covers(cfg, names)
    ensures Keeping(start, AllViews(r, cfg, names), keep)
  {
    if names != [] {
      var before, name := names[..|names| - 1], names[|names| - 1];
      ViewsKeep(start, r, cfg, before, keep);
      var c := cfg.collections[name];
      var mid := AllViews(r, cfg, before);
      var dev, live := ViewBatch(Dev, name, c, cfg.multiple), ViewBatch(Live, name, c, cfg.multiple);
      SendKeeps(start, mid, dev, keep);
      SendKeeps(start, Send(mid, dev), live, keep);
      SendKeeps(start, Send(Send(mid, dev), live), [Register(name, c)], keep);
    }
  }

  /** Tables that are not on the drop list stay through every state of an apply. */
  lemma AppliedKeeps(db: Db, cfg: Config, plan: seq<SchemaChange>, matching: set<string>, keep: set<TableKey>)
    requires Keyed(cfg) && (Blocked(db, plan) == [] ==> forall k :: k in DropKeys(db, plan) ==> k !in keep)
    ensures Keeping(db, Applied(db, cfg, plan, matching), keep)
  {
    var resolved := Resolve(Start(db), plan);
    ResolveKeeps(db, plan, keep);
    TablesKeep(db, resolved, cfg, cfg.names, matching, keep);
    ViewsKeep(db, AllTables(resolved, cfg, cfg.names, matching), cfg, cfg.names, keep);
  }

  // ----- live tables that hold rows

  ghost predicate KeepsLive(start: Db, now: Db) {
    forall k: TableKey :: k.env == Live && Populated(start, k) ==>
      k in now.tables && Extends(start.tables[k], now.tables[k])
  }

  ghost predicate Safe(start: Db, r: Run) {
    KeepsLive(start, r.db) && forall s :: s in r.seen ==> KeepsLive(start, s)
  }

  /** While every chunk refers to a file, no state of an apply loses a live row, column or type. */
  lemma SafeWhileReferenced(db: Db, cfg: Config, plan: seq<SchemaChange>, matching: set<string>)
    requires Keyed(cfg) && Lists(plan, db, cfg) && ForeignKeys(db)
    ensures Safe(db, Applied(db, cfg, plan, matching))
  {
    var keep := set k: TableKey | k in db.tables && k.env == Live && Populated(db, k);
    if Blocked(db, plan) == [] {
      forall k | k in DropKeys(db, plan) ensures k !in keep {
        DropsSpareLive(db, cfg, plan, k);
      }
    }
    AppliedKeeps(db, cfg, plan, matching, keep);
    var r := Applied(db, cfg, plan, matching);
    forall s | s in r.seen ensures KeepsLive(db, s) {
      assert KeepsTables(db, s, keep);
    }
  }

  // ----- tables with nothing destructive planned

  /** A change of the plan for which the table is dropped and built again, or dropped for good. */
  predicate Endangers(ch: SchemaChange, k: TableKey) {
    && ch.env == k.env && (ch.table == k.name || (k.name.Documents? && ch.table == Files(k.name.collection)))
    && (ch.kind.TypeChange? || ch.kind.DropColumnChange? || ch.kind.PkChange? || ch.kind.DropCollection?)
  }

  /**
   In either environment, a table with no such change planned, for documents none for their files either, is
   there in every state of an apply, with its columns and rows.
   */
  lemma UnplannedStays(db: Db, cfg: Config, plan: seq<SchemaChange>, matching: set<string>, k: TableKey)
    requires Keyed(cfg) && Lists(plan, db, cfg) && k in db.tables
    requires forall ch :: Planned(db, cfg, ch) ==> !Endangers(ch, k)
    ensures var r := Applied(db, cfg, plan, matching);
      forall s :: s == r.db || s in r.seen ==> k in s.tables && Extends(db.tables[k], s.tables[k])
  {
    if Blocked(db, plan) == [] {
      forall gone | gone in DropKeys(db, plan) ensures gone !in {k} {
        var ch := DroppedFor(db, plan, gone);
        assert Planned(db, cfg, ch) && Endangers(ch, gone);
      }
    }
    AppliedKeeps(db, cfg, plan, matching, {k});
    var r := Applied(db, cfg, plan, matching);
    forall s | s == r.db || s in r.seen ensures k in s.tables && Extends(db.tables[k], s.tables[k]) {
      assert KeepsTables(db, s, {k});
    }
  }

  lemma RefusesExactly(db: Db, cfg: Config, plan: seq<SchemaChange>, matching: set<string>)
    requires Keyed(cfg) && Lists(plan, db, cfg)
    ensures var r := Applied(db, cfg, plan, matching);
      && ((r.failure.Some? && r.failure.value.Refused?) <==>
           exists ch :: Planned(db, cfg, ch) && Blocks(db, ch))
      && (r.failure.Some? && r.failure.value.Refused? ==>
           && r.db == db && r.seen == []
           && forall ch :: ch in r.failure.value.blocked <==> Planned(db, cfg, ch) && Blocks(db, ch))
  {
    BlockedLists(db, plan);
    var resolved := Resolve(Start(db), plan);
    if Blocked(db, plan) != [] {
      AllTablesStopped(resolved, cfg, cfg.names, matching);
      AllViewsStopped(resolved, cfg, cfg.names);
      var ch := Blocked(db, plan)[0];
      assert ch in Blocked(db, plan);
    } else {
      NeverRefusesLater(resolved, cfg, cfg.names, matching, cfg.names);
      SendEachFailure(Start(db), Drops(DropKeys(db, plan)) + Forget(Gone(plan)));
    }
  }

  predicate HasRefused(r: Run) {
    r.failure.Some? && r.failure.value.Refused?
  }

  lemma {:induction false} SendEachFailure(r: Run, batches: seq<seq<Statement>>)
    requires !HasRefused(r)
    ensures !HasRefused(SendEach(r, batches))
  {
    if batches != [] {
      SendEachFailure(r, batches[..|batches| - 1]);
    }
  }

  lemma {:induction false} TablesFailure(r: Run, cfg: Config, names: seq<string>, matching: set<string>)
    requires Covers(cfg, names) && !HasRefused(r)
    ensures !HasRefused(AllTables(r, cfg, names, matching))
  {
    if names != [] {
      TablesFailure(r, cfg, names[..|names| - 1], matching);
    }
  }

  lemma {:induction false} ViewsFailure(r: Run, cfg: Config, names: seq<string>)
    requires Covers(cfg, names) && !HasRefused(r)
    ensures !HasRefused(AllViews(r, cfg, names))
  {
    if names != [] {
      ViewsFailure(r, cfg, names[..|names| - 1]);
    }
  }

  lemma NeverRefusesLater(r: Run, cfg: Config, names: seq<string>, matching: set<string>, views: seq<string>)
    requires Covers(cfg, names) && Covers(cfg, views)
    ensures !HasRefused(r) ==> !HasRefused(AllViews(AllTables(r, cfg, names, matching), cfg, views))
  {
    if !HasRefused(r) {
      TablesFailure(r, cfg, names, matching);
      ViewsFailure(AllTables(r, cfg, names, matching), cfg, views);
    }
  }
}
