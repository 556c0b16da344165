/**
 `applyConfig`: settle the destructive changes or refuse them all, build the tables, then the views.

 The functions give the run as a value, with every state the database passes through; the methods
 of `Connection` are the loops of `apply.ts` that issue the statements, proved to be that run.
 */
module Apply {
  import opened Wrappers
  import opened Config
  import opened Catalog
  import opened Ddl
  import opened Plan

  datatype Failure =
    | Refused(blocked: seq<SchemaChange>)
    | MissingRevisions(env: Env, collection: string)
    | ShapeMismatch(collection: string)
    | SqlError

  /** The database now, every state since the start, and why the run stopped if it did. */
  datatype Run = Run(db: Db, seen: seq<Db>, failure: Option<Failure>)

  function Stop(r: Run, why: Failure): Run {
    r.(failure := Some(why))
  }

  /** One query string, unless the run has already thrown. A failing string rolls back. */
  function Send(r: Run, batch: seq<Statement>): Run {
    if r.failure.Some? then r
    else
      match ExecAll(batch, r.db)
      case Some(after) => Run(after, r.seen + Passed(batch, r.db), Option.None)
      case None => Run(r.db, r.seen + Passed(batch, r.db) + [r.db], Some(SqlError))
  }

  function SendEach(r: Run, batches: seq<seq<Statement>>): Run {
    if batches == [] then r
    else Send(SendEach(r, batches[..|batches| - 1]), batches[|batches| - 1])
  }

  // ----- destructive changes

  function TablesToDrop(t: TableName): seq<TableName> {
    match t
    case Files(c) => [t, Documents(c)]
    case _ => [t]
  }

  predicate Blocks(db: Db, ch: SchemaChange) {
    Destructive(ch) && ch.env == Live && Populated(db, TableKey(Live, ch.table))
  }

  function Blocked(db: Db, plan: seq<SchemaChange>): seq<SchemaChange> {
    if plan == [] then []
    else
      var ch := plan[|plan| - 1];
      Blocked(db, plan[..|plan| - 1]) + if Blocks(db, ch) then [ch] else []
  }

  /** `Set.add`, keeping insertion order. */
  function Adjoin<T(==)>(xs: seq<T>, y: T): seq<T> {
    if y in xs then xs else xs + [y]
  }

  function AdjoinAll<T(==,!new)>(xs: seq<T>, ys: seq<T>): (all: seq<T>)
    ensures forall x :: x in all <==> x in xs || x in ys
    decreases |ys|
  {
    if ys == [] then xs else AdjoinAll(Adjoin(xs, ys[0]), ys[1..])
  }

  function KeysOf(env: Env, names: seq<TableName>): seq<TableKey> {
    seq(|names|, i requires 0 <= i < |names| => TableKey(env, names[i]))
  }

  function DropKeys(db: Db, plan: seq<SchemaChange>): seq<TableKey> {
    if plan == [] then []
    else
      var ch := plan[|plan| - 1];
      AdjoinAll(DropKeys(db, plan[..|plan| - 1]),
                if Destructive(ch) && !Blocks(db, ch) then KeysOf(ch.env, TablesToDrop(ch.table)) else [])
  }

  function Gone(plan: seq<SchemaChange>): seq<string> {
    if plan == [] then []
    else
      var ch := plan[|plan| - 1];
      var before := Gone(plan[..|plan| - 1]);
      if ch.kind == DropCollection then Adjoin(before, ch.collection) else before
  }

  function Drops(keys: seq<TableKey>): seq<seq<Statement>> {
    seq(|keys|, i requires 0 <= i < |keys| => [DropTable(keys[i])])
  }

  function Forget(names: seq<string>): seq<seq<Statement>> {
    if names == [] then []
    else
      var name := names[|names| - 1];
      Forget(names[..|names| - 1]) + [[Unregister(name)], [ClearAcl(Dev, name)], [ClearAcl(Live, name)]]
  }

  function Resolve(r: Run, plan: seq<SchemaChange>): Run {
    var blocked := Blocked(r.db, plan);
    if blocked != [] then Stop(r, Refused(blocked))
    else SendEach(r, Drops(DropKeys(r.db, plan)) + Forget(Gone(plan)))
  }

  // ----- tables, then views

  predicate LacksRevisions(db: Db, env: Env, name: string, c: Collection) {
    var key := TableKey(env, Main(name));
    c.kind == Dataset && key in db.tables && "_rev" !in db.tables[key].columns
  }

  function CheckRevisions(r: Run, env: Env, name: string, c: Collection): Run {
    if r.failure.None? && LacksRevisions(r.db, env, name, c) then Stop(r, MissingRevisions(env, name)) else r
  }

  /** `matching` holds the external collections whose remote table has the declared columns. */
  function CheckShape(r: Run, name: string, c: Collection, matching: set<string>): Run {
    if r.failure.None? && c.external && name !in matching then Stop(r, ShapeMismatch(name)) else r
  }

  function TablesOf(r: Run, cfg: Config, name: string, matching: set<string>): Run
    requires name in cfg.collections
  {
    var c := cfg.collections[name];
    var checked := CheckRevisions(CheckRevisions(r, Dev, name, c), Live, name, c);
    var dev := Send(checked, TableBatch(Dev, name, c, cfg.multiple));
    var live := Send(dev, TableBatch(Live, name, c, cfg.multiple));
    CheckShape(live, name, c, matching)
  }

  function ViewsOf(r: Run, cfg: Config, name: string): Run
    requires name in cfg.collections
  {
    var c := cfg.collections[name];
    var dev := Send(r, ViewBatch(Dev, name, c, cfg.multiple));
    var live := Send(dev, ViewBatch(Live, name, c, cfg.multiple));
    Send(live, [Register(name, c)])
  }

  predicate Covers(cfg: Config, names: seq<string>) {
    forall n :: n in names ==> n in cfg.collections
  }

  function AllTables(r: Run, cfg: Config, names: seq<string>, matching: set<string>): Run
    requires Covers(cfg, names)
  {
    if names == [] then r
    else TablesOf(AllTables(r, cfg, names[..|names| - 1], matching), cfg, names[|names| - 1], matching)
  }

  function AllViews(r: Run, cfg: Config, names: seq<string>): Run
    requires Covers(cfg, names)
  {
    if names == [] then r
    else ViewsOf(AllViews(r, cfg, names[..|names| - 1]), cfg, names[|names| - 1])
  }

  /** The run of one apply, given the changes its planner reported. */
  function ApplyRun(r: Run, cfg: Config, plan: seq<SchemaChange>, matching: set<string>): Run
    requires Covers(cfg, cfg.names)
  {
    AllViews(AllTables(Resolve(r, plan), cfg, cfg.names, matching), cfg, cfg.names)
  }

  function Start(db: Db): Run {
    Run(db, [], Option.None)
  }

  function Applied(db: Db, cfg: Config, plan: seq<SchemaChange>, matching: set<string>): Run
    requires Covers(cfg, cfg.names)
  {
    ApplyRun(Start(db), cfg, plan, matching)
  }

  // ----- a run that has thrown stays as it is

  lemma {:induction false} AllTablesStopped(r: Run, cfg: Config, names: seq<string>, matching: set<string>)
    requires Covers(cfg, names) && r.failure.Some?
    ensures AllTables(r, cfg, names, matching) == r
  {
    if names != [] {
      AllTablesStopped(r, cfg, names[..|names| - 1], matching);
    }
  }

  lemma {:induction false} AllViewsStopped(r: Run, cfg: Config, names: seq<string>)
    requires Covers(cfg, names) && r.failure.Some?
    ensures AllViews(r, cfg, names) == r
  {
    if names != [] {
      AllViewsStopped(r, cfg, names[..|names| - 1]);
    }
  }

  lemma {:induction false} FailurePersists(ss: seq<Statement>, n: nat, db: Db)
    requires n <= |ss| && ExecAll(ss[..n], db).None?
    ensures ExecAll(ss, db).None? && Passed(ss, db) == Passed(ss[..n], db)
  {
    if n < |ss| {
      assert ss[..|ss| - 1][..n] == ss[..n];
      FailurePersists(ss[..|ss| - 1], n, db);
    } else {
      assert ss[..n] == ss;
    }
  }

  lemma NextTables(r: Run, cfg: Config, i: nat, matching: set<string>)
    requires Covers(cfg, cfg.names) && i < |cfg.names|
    ensures AllTables(r, cfg, cfg.names[..i + 1], matching)
         == TablesOf(AllTables(r, cfg, cfg.names[..i], matching), cfg, cfg.names[i], matching)
  {
    assert cfg.names[..i + 1][..i] == cfg.names[..i];
  }

  lemma NextViews(r: Run, cfg: Config, i: nat)
    requires Covers(cfg, cfg.names) && i < |cfg.names|
    ensures AllViews(r, cfg, cfg.names[..i + 1]) == ViewsOf(AllViews(r, cfg, cfg.names[..i]), cfg, cfg.names[i])
  {
    assert cfg.names[..i + 1][..i] == cfg.names[..i];
  }

  lemma ForgetStep(r: Run, so: seq<seq<Statement>>, gone: seq<string>, i: nat)
    requires i < |gone|
    ensures SendEach(r, so + Forget(gone[..i + 1]))
         == Send(Send(Send(SendEach(r, so + Forget(gone[..i])), [Unregister(gone[i])]), [ClearAcl(Dev, gone[i])]),
                 [ClearAcl(Live, gone[i])])
  {
    assert gone[..i + 1][..i] == gone[..i];
    var steps := [[Unregister(gone[i])], [ClearAcl(Dev, gone[i])], [ClearAcl(Live, gone[i])]];
    SendThree(r, so + Forget(gone[..i]), steps[0], steps[1], steps[2]);
    assert so + Forget(gone[..i + 1]) == so + Forget(gone[..i]) + steps;
  }

  lemma ForgetLast(r: Run, names: seq<string>)
    requires names != []
    ensures var n := |names| - 1;
      SendEach(r, Forget(names)) == Send(Send(Send(SendEach(r, Forget(names[..n])), [Unregister(names[n])]),
                                               [ClearAcl(Dev, names[n])]), [ClearAcl(Live, names[n])])
  {
    var n := |names| - 1;
    ForgetStep(r, [], names, n);
    assert [] + Forget(names[..n]) == Forget(names[..n]);
    assert names[..n + 1] == names && [] + Forget(names) == Forget(names);
  }

  lemma ExecSingle(s: Statement, db: Db)
    ensures ExecAll([s], db) == Exec(s, db)
    ensures Passed([s], db) == if Exec(s, db).Some? then [Exec(s, db).value] else []
  {
    assert [s][..0] == [];
    assert Passed([s][..0], db) == [];
  }

  // ----- the same, issued on a connection

  class Connection {
    var db: Db
    ghost var seen: seq<Db>

    constructor (start: Db)
      ensures db == start && seen == []
    {
      db, seen := start, [];
    }

    ghost function State(failure: Option<Failure>): Run
      reads this
    {
      Run(db, seen, failure)
    }

    method Query(batch: seq<Statement>) returns (failure: Option<Failure>)
      modifies this
      ensures State(failure) == Send(old(State(Option.None)), batch)
    {
      var start := db;
      for i := 0 to |batch|
        invariant ExecAll(batch[..i], start) == Some(db)
        invariant seen == old(seen) + Passed(batch[..i], start)
      {
        assert batch[..i + 1][..i] == batch[..i];
        match Exec(batch[i], db)
        case None =>
          FailurePersists(batch, i + 1, start);
          db := start;
          seen := seen + [start];
          return Some(SqlError);
        case Some(after) =>
          db := after;
          seen := seen + [after];
      }
      assert batch[..|batch|] == batch;
      failure := Option.None;
    }

    method Sort(plan: seq<SchemaChange>)
      returns (blocked: seq<SchemaChange>, drop: seq<TableKey>, gone: seq<string>)
      ensures blocked == Blocked(db, plan) && drop == DropKeys(db, plan) && gone == Gone(plan)
    {
      blocked, drop, gone := [], [], [];
      for i := 0 to |plan|
        invariant blocked == Blocked(db, plan[..i])
        invariant drop == DropKeys(db, plan[..i])
        invariant gone == Gone(plan[..i])
      {
        var ch := plan[i];
        assert plan[..i + 1][..i] == plan[..i];
        if Destructive(ch) {
          if ch.env == Live && Populated(db, TableKey(Live, ch.table)) {
            blocked := blocked + [ch];
          } else {
            drop := AdjoinAll(drop, KeysOf(ch.env, TablesToDrop(ch.table)));
          }
        }
        if ch.kind == DropCollection {
          gone := Adjoin(gone, ch.collection);
        }
      }
      assert plan[..|plan|] == plan;
    }

    method DropAll(drop: seq<TableKey>)
      modifies this
      ensures State(Option.None) == SendEach(old(State(Option.None)), Drops(drop))
    {
      ghost var r := State(Option.None);
      for i := 0 to |drop|
        invariant State(Option.None) == SendEach(r, Drops(drop[..i]))
      {
        SendOne(r, Drops(drop[..i]), [DropTable(drop[i])]);
        assert Drops(drop[..i + 1]) == Drops(drop[..i]) + [[DropTable(drop[i])]];
        ExecSingle(DropTable(drop[i]), db);
        var none := Query([DropTable(drop[i])]);
      }
      assert drop[..|drop|] == drop;
    }

    method ForgetOne(name: string)
      modifies this
      ensures State(Option.None) ==
        Send(Send(Send(old(State(Option.None)), [Unregister(name)]), [ClearAcl(Dev, name)]), [ClearAcl(Live, name)])
    {
      ExecSingle(Unregister(name), db);
      var none := Query([Unregister(name)]);
      ExecSingle(ClearAcl(Dev, name), db);
      none := Query([ClearAcl(Dev, name)]);
      ExecSingle(ClearAcl(Live, name), db);
      none := Query([ClearAcl(Live, name)]);
    }

    method ForgetAll(gone: seq<string>, ghost r: Run, ghost so: seq<seq<Statement>>)
      requires State(Option.None) == SendEach(r, so)
      modifies this
      ensures State(Option.None) == SendEach(r, so + Forget(gone))
    {
      assert so + Forget(gone[..0]) == so;
      for i := 0 to |gone|
        invariant State(Option.None) == SendEach(r, so + Forget(gone[..i]))
      {
        ForgetStep(r, so, gone, i);
        ForgetOne(gone[i]);
      }
      assert gone[..|gone|] == gone;
    }

    method ResolveDestructive(plan: seq<SchemaChange>) returns (failure: Option<Failure>)
      modifies this
      ensures State(failure) == Resolve(old(State(Option.None)), plan)
    {
      ghost var r := State(Option.None);
      var blocked, drop, gone := Sort(plan);
      if blocked != [] {
        return Some(Refused(blocked));
      }
      DropAll(drop);
      ForgetAll(gone, r, Drops(drop));
      failure := Option.None;
    }

    method BuildTables(cfg: Config, name: string, matching: set<string>) returns (failure: Option<Failure>)
      requires name in cfg.collections
      modifies this
      ensures State(failure) == TablesOf(old(State(Option.None)), cfg, name, matching)
    {
      var c := cfg.collections[name];
      if LacksRevisions(db, Dev, name, c) {
        return Some(MissingRevisions(Dev, name));
      }
      if LacksRevisions(db, Live, name, c) {
        return Some(MissingRevisions(Live, name));
      }
      failure := Query(TableBatch(Dev, name, c, cfg.multiple));
      if failure.Some? {
        return;
      }
      failure := Query(TableBatch(Live, name, c, cfg.multiple));
      if failure.Some? {
        return;
      }
      if c.external && name !in matching {
        return Some(ShapeMismatch(name));
      }
    }

    method BuildViews(cfg: Config, name: string) returns (failure: Option<Failure>)
      requires name in cfg.collections
      modifies this
      ensures State(failure) == ViewsOf(old(State(Option.None)), cfg, name)
    {
      var c := cfg.collections[name];
      failure := Query(ViewBatch(Dev, name, c, cfg.multiple));
      if failure.Some? {
        return;
      }
      failure := Query(ViewBatch(Live, name, c, cfg.multiple));
      if failure.Some? {
        return;
      }
      failure := Query([Register(name, c)]);
    }

    method BuildAllTables(cfg: Config, matching: set<string>) returns (failure: Option<Failure>)
      requires Covers(cfg, cfg.names)
      modifies this
      ensures State(failure) == AllTables(old(State(Option.None)), cfg, cfg.names, matching)
    {
      ghost var r := State(Option.None);
      for i := 0 to |cfg.names|
        invariant State(Option.None) == AllTables(r, cfg, cfg.names[..i], matching)
      {
        NextTables(r, cfg, i, matching);
        failure := BuildTables(cfg, cfg.names[i], matching);
        assert State(failure) == AllTables(r, cfg, cfg.names[..i + 1], matching);
        if failure.Some? {
          TablesFrom(r, cfg, cfg.names, i + 1, matching);
          return;
        }
      }
      assert cfg.names[..|cfg.names|] == cfg.names;
      failure := Option.None;
    }

    method BuildAllViews(cfg: Config) returns (failure: Option<Failure>)
      requires Covers(cfg, cfg.names)
      modifies this
      ensures State(failure) == AllViews(old(State(Option.None)), cfg, cfg.names)
    {
      ghost var r := State(Option.None);
      for i := 0 to |cfg.names|
        invariant State(Option.None) == AllViews(r, cfg, cfg.names[..i])
      {
        NextViews(r, cfg, i);
        failure := BuildViews(cfg, cfg.names[i]);
        if failure.Some? {
          ViewsFrom(r, cfg, cfg.names, i + 1);
          return;
        }
      }
      assert cfg.names[..|cfg.names|] == cfg.names;
      failure := Option.None;
    }

    /** `applyOn`, on one connection checked out for the duration. */
    method ApplyOn(cfg: Config, matching: set<string>)
      returns (failure: Option<Failure>, ghost plan: seq<SchemaChange>)
      requires Keyed(cfg)
      modifies this
      ensures Lists(plan, old(db), cfg)
      ensures State(failure) == ApplyRun(old(State(Option.None)), cfg, plan, matching)
    {
      var changes := PlanFromSchema(db, cfg);
      plan := changes;
      failure := ResolveDestructive(changes);
      if failure.Some? {
        AllTablesStopped(State(failure), cfg, cfg.names, matching);
        AllViewsStopped(State(failure), cfg, cfg.names);
        return;
      }
      failure := BuildAllTables(cfg, matching);
      if failure.Some? {
        AllViewsStopped(State(failure), cfg, cfg.names);
        return;
      }
      failure := BuildAllViews(cfg);
    }
  }

  // ----- running a prefix first

  lemma SendOne(r: Run, so: seq<seq<Statement>>, a: seq<Statement>)
    ensures SendEach(r, so + [a]) == Send(SendEach(r, so), a)
  {
    var all := so + [a];
    assert all[..|all| - 1] == so;
  }

  lemma SendThree(r: Run, so: seq<seq<Statement>>, a: seq<Statement>, b: seq<Statement>, c: seq<Statement>)
    ensures SendEach(r, so + [a, b, c]) == Send(Send(Send(SendEach(r, so), a), b), c)
  {
    var one, two := so + [a], so + [a, b];
    SendOne(r, so, a);
    Appended(one, b, two);
    SendOne(r, one, b);
    Appended(two, c, so + [a, b, c]);
    SendOne(r, two, c);
  }

  lemma Appended(before: seq<seq<Statement>>, x: seq<Statement>, all: seq<seq<Statement>>)
    requires |all| == |before| + 1 && (forall i :: 0 <= i < |before| ==> all[i] == before[i]) && all[|before|] == x
    ensures all == before + [x]
  {}

  lemma {:induction false} TablesFrom(r: Run, cfg: Config, names: seq<string>, n: nat, matching: set<string>)
    requires Covers(cfg, names) && n <= |names|
    requires AllTables(r, cfg, names[..n], matching).failure.Some?
    ensures AllTables(r, cfg, names, matching) == AllTables(r, cfg, names[..n], matching)
  {
    if n == |names| {
      assert names[..n] == names;
    } else {
      assert names[..|names| - 1][..n] == names[..n];
      TablesFrom(r, cfg, names[..|names| - 1], n, matching);
    }
  }

  lemma {:induction false} ViewsFrom(r: Run, cfg: Config, names: seq<string>, n: nat)
    requires Covers(cfg, names) && n <= |names|
    requires AllViews(r, cfg, names[..n]).failure.Some?
    ensures AllViews(r, cfg, names) == AllViews(r, cfg, names[..n])
  {
    if n == |names| {
      assert names[..n] == names;
    } else {
      assert names[..|names| - 1][..n] == names[..n];
      ViewsFrom(r, cfg, names[..|names| - 1], n);
    }
  }
}
