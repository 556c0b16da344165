/**
 `renderMigrationSql`: the reviewable migration for the destructive part of a plan. A line is either
 a statement that runs as written or one that is commented out until somebody has read it.
 */
module Migration {
  import opened Wrappers
  import opened Config
  import opened Catalog
  import opened Ddl
  import opened Plan
  import opened Apply

  datatype Line = Ready(s: Statement) | Commented(s: Statement)

  // ----- the rendered file

  predicate Rendered(ch: SchemaChange) {
    (Destructive(ch) || ch.kind.DropIndexChange?) && ch.env == Live
  }

  function LiveChanges(changes: seq<SchemaChange>): seq<SchemaChange> {
    if changes == [] then []
    else
      var ch := changes[|changes| - 1];
      LiveChanges(changes[..|changes| - 1]) + if Rendered(ch) then [ch] else []
  }

  /** The collections of the destructive changes, once each, in order. */
  function Touched(live: seq<SchemaChange>): seq<string> {
    if live == [] then []
    else
      var ch := live[|live| - 1];
      var before := Touched(live[..|live| - 1]);
      if Destructive(ch) then Adjoin(before, ch.collection) else before
  }

  function ViewLines(collections: seq<string>): seq<Line> {
    seq(|collections|, i requires 0 <= i < |collections| => Ready(DropView(ViewOf(Live, collections[i]))))
  }

  function RetypeOf(ch: SchemaChange): Statement
    requires ch.kind.TypeChange?
  {
    Retype(TableKey(Live, ch.table), ch.kind.field, ch.kind.want, ClassifyCast(ch.kind.have, ch.kind.want).using)
  }

  function LinesOf(ch: SchemaChange): seq<Line> {
    var key := TableKey(Live, ch.table);
    match ch.kind
    case DropIndexChange(i) => [Commented(DropIndex(key, i))]
    case DropCollection => [Commented(DropTable(key)), Commented(Unregister(ch.collection))]
    case PkChange(_, _) => [Commented(DropIdentity(TableKey(Live, Main(ch.collection))))]
    case DropColumnChange(f, _) => [Commented(DropColumn(key, f))]
    case TypeChange(f, _, _) =>
      // the search column goes even when the cast itself waits for review
      [Ready(DropColumn(key, Tsv(f))),
       if ReviewRequired(ch) then Commented(RetypeOf(ch)) else Ready(RetypeOf(ch))]
    case _ => []
  }

  function ChangeLines(live: seq<SchemaChange>): seq<Line> {
    if live == [] then [] else ChangeLines(live[..|live| - 1]) + LinesOf(live[|live| - 1])
  }

  function Render(changes: seq<SchemaChange>): seq<Line> {
    var live := LiveChanges(changes);
    ViewLines(Touched(live)) + ChangeLines(live)
  }

  method SelectLive(changes: seq<SchemaChange>) returns (live: seq<SchemaChange>)
    ensures live == LiveChanges(changes)
  {
    live := [];
    for i := 0 to |changes|
      invariant live == LiveChanges(changes[..i])
    {
      assert changes[..i + 1][..i] == changes[..i];
      if Rendered(changes[i]) {
        live := live + [changes[i]];
      }
    }
    assert changes[..|changes|] == changes;
  }

  method SelectTouched(live: seq<SchemaChange>) returns (touched: seq<string>)
    ensures touched == Touched(live)
  {
    touched := [];
    for i := 0 to |live|
      invariant touched == Touched(live[..i])
    {
      assert live[..i + 1][..i] == live[..i];
      if Destructive(live[i]) {
        touched := Adjoin(touched, live[i].collection);
      }
    }
    assert live[..|live|] == live;
  }

  method RenderMigration(changes: seq<SchemaChange>) returns (out: seq<Line>)
    ensures out == Render(changes)
  {
    var live := SelectLive(changes);
    var touched := SelectTouched(live);
    var views := RenderViews(touched);
    var alters := RenderChanges(live);
    out := views + alters;
  }

  method RenderViews(touched: seq<string>) returns (out: seq<Line>)
    ensures out == ViewLines(touched)
  {
    out := [];
    for i := 0 to |touched|
      invariant out == ViewLines(touched[..i])
    {
      out := out + [Ready(DropView(ViewOf(Live, touched[i])))];
    }
    assert touched[..|touched|] == touched;
  }

  method RenderChanges(live: seq<SchemaChange>) returns (out: seq<Line>)
    ensures out == ChangeLines(live)
  {
    out := [];
    for i := 0 to |live|
      invariant out == ChangeLines(live[..i])
    {
      assert live[..i + 1][..i] == live[..i];
      out := out + LinesOf(live[i]);
    }
    assert live[..|live|] == live;
  }

  // ----- the statements that run without review

  function ReadyOnly(lines: seq<Line>): seq<Statement> {
    if lines == [] then []
    else
      var line := lines[|lines| - 1];
      ReadyOnly(lines[..|lines| - 1]) + if line.Ready? then [line.s] else []
  }

  /** The project migration runs in one transaction. */
  function Migrate(changes: seq<SchemaChange>, db: Db): Option<Db> {
    ExecAll(ReadyOnly(Render(changes)), db)
  }

  lemma {:induction false} ReadyAppend(a: seq<Line>, b: seq<Line>)
    ensures ReadyOnly(a + b) == ReadyOnly(a) + ReadyOnly(b)
  {
    if b == [] {
      assert a + b == a;
    } else {
      assert (a + b)[..|a + b| - 1] == a + b[..|b| - 1];
      ReadyAppend(a, b[..|b| - 1]);
    }
  }

  lemma {:induction false} ExecAppend(a: seq<Statement>, b: seq<Statement>, db: Db)
    ensures ExecAll(a + b, db) == match ExecAll(a, db) case None => Option.None case Some(mid) => ExecAll(b, mid)
  {
    if b == [] {
      assert a + b == a;
    } else {
      assert (a + b)[..|a + b| - 1] == a + b[..|b| - 1];
      ExecAppend(a, b[..|b| - 1], db);
    }
  }
}
