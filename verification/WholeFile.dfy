/**
 The migration file with every commented statement taken up too, run one statement after the other: when it
 gets through, and what is then still planned. Which lines it holds is read off the plan.
 */
module WholeFile {
  import opened Wrappers
  import opened Config
  import opened Catalog
  import opened Ddl
  import opened DdlFacts
  import opened Plan
  import opened Migration
  import opened MigrationProofs
  import opened Pipeline
  import L = Lowering

  // ----- the file, comments and all

  function Statements(lines: seq<Line>): (ss: seq<Statement>)
    ensures |ss| == |lines|
  {
    seq(|lines|, i requires 0 <= i < |lines| => lines[i].s)
  }

  function RunWhole(changes: seq<SchemaChange>, db: Db): Option<Db> {
    ExecAll(Statements(Render(changes)), db)
  }

  // ----- what the plan asks for

  /** The change takes this live column away: as planned, or as the search column of one that is retyped. */
  predicate Takes(ch: SchemaChange, k: TableKey, c: string) {
    && ch.env == Live && k == TableKey(Live, ch.table)
    && match ch.kind
       case DropColumnChange(f, _) => c == f
       case TypeChange(f, _, _) => c == f + "_tsv"
       case _ => false
  }

  predicate TakesTable(ch: SchemaChange, k: TableKey) {
    ch.env == Live && ch.kind == DropCollection && k == TableKey(Live, ch.table)
  }

  predicate Changes(ch: SchemaChange, v: ViewKey) {
    && ch.env == Live && v == ViewKey(Live, Fold(ch.collection))
    && (ch.kind.TypeChange? || ch.kind.DropColumnChange? || ch.kind.PkChange? || ch.kind.DropCollection?)
  }

  predicate Recasts(ch: SchemaChange, k: TableKey, c: string, to: PgType) {
    ch.env == Live && k == TableKey(Live, ch.table) && ch.kind.TypeChange? && ch.kind.field == c && ch.kind.want == to
  }

  /** One element is wrapped and several are joined; other types are cast in place. */
  function UsingFor(have: PgType, want: PgType): Using {
    if have == Text && want == TextArray then WrapArray
    else if have == TextArray && want == Text then JoinArray
    else InPlace
  }

  // ----- what is in the way

  ghost predicate TakenBefore(changes: seq<SchemaChange>, n: nat, k: TableKey, c: string)
    requires n <= |changes|
  {
    exists m :: 0 <= m < n && Takes(changes[m], k, c)
  }

  /** The view is there: no collection with a destructive change has it, and no table it reads is gone yet. */
  ghost predicate StillUp(db: Db, changes: seq<SchemaChange>, n: nat, v: ViewKey)
    requires n <= |changes|
  {
    && v in db.views
    && (forall ch :: ch in changes ==> !Changes(ch, v))
    && forall m, k :: 0 <= m < n && TakesTable(changes[m], k) ==> !ReadsTable(db.views[v], k)
  }

  ghost predicate ReadBefore(db: Db, changes: seq<SchemaChange>, n: nat, k: TableKey, c: string)
    requires n <= |changes|
  {
    exists v :: StillUp(db, changes, n, v) && ColumnRef(k, c) in db.views[v]
  }

  /** The column `g` is generated from this one and has not been taken. */
  ghost predicate FeedsBefore(db: Db, changes: seq<SchemaChange>, n: nat, k: TableKey, c: string, g: string)
    requires n <= |changes| && k in db.tables
  {
    g in db.tables[k].generated && db.tables[k].generated[g] == c && !TakenBefore(changes, n, k, g)
  }

  /** Why the lines of the `n`th change fail where those before it have run. */
  ghost predicate InTheWay(db: Db, changes: seq<SchemaChange>, n: nat)
    requires n < |changes|
  {
    var ch := changes[n];
    var k := TableKey(Live, ch.table);
    && ch.env == Live && k in db.tables
    && match ch.kind
       case DropColumnChange(f, _) =>
         && !TakenBefore(changes, n, k, f)
         && (ReadBefore(db, changes, n, k, f) || exists g :: FeedsBefore(db, changes, n, k, f, g))
       case TypeChange(f, _, _) =>
         || (f + "_tsv" in db.tables[k].columns && !TakenBefore(changes, n, k, f + "_tsv")
             && ReadBefore(db, changes, n, k, f + "_tsv"))
         || ReadBefore(db, changes, n, k, f) || f in db.tables[k].generated
         || exists g :: g != f + "_tsv" && FeedsBefore(db, changes, n, k, f, g)
       case _ => false
  }

  // ----- which statements the file holds

  /** A statement of the change, the view drops at the head of the file aside. */
  predicate Says(ch: SchemaChange, s: Statement) {
    && ch.env == Live
    && match s
       case DropColumn(k, c) => Takes(ch, k, c)
       case DropTable(k) => TakesTable(ch, k)
       case Unregister(n) => ch.kind == DropCollection && n == ch.collection
       case DropIdentity(k) => ch.kind.PkChange? && k == TableKey(Live, Main(ch.collection))
       case DropIndex(k, i) => ch.kind == DropIndexChange(i) && k == TableKey(Live, ch.table)
       case Retype(k, c, to, using) => Recasts(ch, k, c, to) && using == UsingFor(ch.kind.have, to)
       case _ => false
  }

  ghost predicate SaidBefore(changes: seq<SchemaChange>, n: nat, s: Statement)
    requires n <= |changes|
  {
    if s.DropView? then exists ch :: ch in changes && Changes(ch, s.view)
    else exists m :: 0 <= m < n && Says(changes[m], s)
  }

  /** The file up to the lines of the `n`th change. */
  function FileTo(changes: seq<SchemaChange>, n: nat): seq<Line>
    requires n <= |changes|
  {
    ViewLines(Touched(LiveChanges(changes))) + ChangeLines(LiveChanges(changes[..n]))
  }

  function OwnLines(ch: SchemaChange): seq<Line> {
    if Rendered(ch) then LinesOf(ch) else []
  }

  lemma FileStep(changes: seq<SchemaChange>, n: nat)
    requires n < |changes|
    ensures FileTo(changes, n + 1) == FileTo(changes, n) + OwnLines(changes[n])
  {
    var ch, front := changes[n], LiveChanges(changes[..n]);
    assert changes[..n + 1][..n] == changes[..n];
    if Rendered(ch) {
      assert (front + [ch])[..|front|] == front;
      assert ChangeLines(front + [ch]) == ChangeLines(front) + LinesOf(ch);
      assert LiveChanges(changes[..n + 1]) == front + [ch];
    } else {
      assert LiveChanges(changes[..n + 1]) == front;
    }
  }

  lemma StatementsAppend(a: seq<Line>, b: seq<Line>)
    ensures Statements(a + b) == Statements(a) + Statements(b)
  {}

  lemma OwnSays(ch: SchemaChange, s: Statement)
    ensures s in Statements(OwnLines(ch)) <==> Says(ch, s)
  {
    var ss := Statements(OwnLines(ch));
    if Rendered(ch) {
      var k := TableKey(Live, ch.table);
      match ch.kind
      case DropCollection => assert ss == [DropTable(k), Unregister(ch.collection)];
      case PkChange(_, _) => assert ss == [DropIdentity(TableKey(Live, Main(ch.collection)))];
      case DropColumnChange(f, _) => assert ss == [DropColumn(k, f)];
      case DropIndexChange(i) => assert ss == [DropIndex(k, i)];
      case TypeChange(f, have, want) =>
        assert ss == [DropColumn(k, f + "_tsv"), Retype(k, f, want, UsingFor(have, want))];
    } else {
      assert ss == [];
    }
  }

  lemma {:induction false} TouchedAre(live: seq<SchemaChange>)
    ensures forall n :: n in Touched(live) <==> exists ch :: ch in live && Destructive(ch) && ch.collection == n
  {
    if live != [] {
      var front, last := live[..|live| - 1], live[|live| - 1];
      TouchedAre(front);
      assert forall ch :: ch in live <==> ch in front || ch == last;
    }
  }

  lemma ViewLinesSay(changes: seq<SchemaChange>, s: Statement)
    ensures s in Statements(ViewLines(Touched(LiveChanges(changes)))) <==>
            s.DropView? && exists ch :: ch in changes && Changes(ch, s.view)
  {
    var touched := Touched(LiveChanges(changes));
    TouchedAre(LiveChanges(changes));
    LiveChangesAre(changes);
    var ss := Statements(ViewLines(touched));
    assert forall i :: 0 <= i < |touched| ==> ss[i] == DropView(ViewOf(Live, touched[i]));
    if s.DropView? && exists ch :: ch in changes && Changes(ch, s.view) {
      var ch :| ch in changes && Changes(ch, s.view);
      assert ch in LiveChanges(changes) && ch.collection in touched;
      var i :| 0 <= i < |touched| && touched[i] == ch.collection;
      assert ss[i] == s;
    }
    if s in ss {
      var i :| 0 <= i < |ss| && ss[i] == s;
      assert touched[i] in touched;
      var ch :| ch in LiveChanges(changes) && Destructive(ch) && ch.collection == touched[i];
      assert Changes(ch, s.view);
    }
  }

  /** The file holds the view drops, and then change by change what the plan asks for. */
  lemma {:induction false} FileSays(changes: seq<SchemaChange>, n: nat, s: Statement)
    requires n <= |changes|
    ensures s in Statements(FileTo(changes, n)) <==> SaidBefore(changes, n, s)
    decreases n
  {
    hide FileTo, Says, SaidBefore, Changes, Statements, OwnLines;
    if n == 0 {
      ViewLinesSay(changes, s);
      HeadSays(changes, s);
    } else {
      FileSays(changes, n - 1, s);
      FileStep(changes, n - 1);
      StatementsAppend(FileTo(changes, n - 1), OwnLines(changes[n - 1]));
      OwnSays(changes[n - 1], s);
      SaidMore(changes, n - 1, s);
    }
  }

  lemma HeadSays(changes: seq<SchemaChange>, s: Statement)
    ensures FileTo(changes, 0) == ViewLines(Touched(LiveChanges(changes)))
    ensures SaidBefore(changes, 0, s) <==> s.DropView? && exists ch :: ch in changes && Changes(ch, s.view)
  {
    assert changes[..0] == [];
  }

  lemma SaidMore(changes: seq<SchemaChange>, n: nat, s: Statement)
    requires n < |changes|
    ensures SaidBefore(changes, n + 1, s) <==> SaidBefore(changes, n, s) || Says(changes[n], s)
  {}

  // ----- where each change finds the database

  ghost function Before(changes: seq<SchemaChange>, n: nat): set<Statement>
    requires n <= |changes|
  {
    L.Done(Statements(FileTo(changes, n)))
  }

  lemma BeforeIs(changes: seq<SchemaChange>, n: nat)
    requires n <= |changes|
    ensures forall s :: s in Before(changes, n) <==> SaidBefore(changes, n, s)
    ensures forall k, c :: DropColumn(k, c) in Before(changes, n) <==> TakenBefore(changes, n, k, c)
    ensures forall k :: DropTable(k) in Before(changes, n) <==> exists m :: 0 <= m < n && TakesTable(changes[m], k)
  {
    hide FileTo, Says;
    forall s ensures s in Before(changes, n) <==> SaidBefore(changes, n, s) {
      FileSays(changes, n, s);
    }
    forall k, c ensures DropColumn(k, c) in Before(changes, n) <==> TakenBefore(changes, n, k, c) {
      SaysColumn(changes, n, k, c);
    }
    forall k
      ensures DropTable(k) in Before(changes, n) <==> exists m :: 0 <= m < n && TakesTable(changes[m], k)
    {
      SaysTable(changes, n, k);
    }
  }

  lemma SaysColumn(changes: seq<SchemaChange>, n: nat, k: TableKey, c: string)
    requires n <= |changes|
    ensures SaidBefore(changes, n, DropColumn(k, c)) <==> TakenBefore(changes, n, k, c)
  {
    var s := DropColumn(k, c);
    assert forall m :: 0 <= m < n ==> (Says(changes[m], s) <==> Takes(changes[m], k, c));
  }

  lemma SaysTable(changes: seq<SchemaChange>, n: nat, k: TableKey)
    requires n <= |changes|
    ensures SaidBefore(changes, n, DropTable(k)) <==> exists m :: 0 <= m < n && TakesTable(changes[m], k)
  {
    var s := DropTable(k);
    assert forall m :: 0 <= m < n ==> (Says(changes[m], s) <==> TakesTable(changes[m], k));
  }

  lemma ReadIs(db: Db, changes: seq<SchemaChange>, n: nat, k: TableKey, c: string)
    requires n <= |changes|
    ensures L.Unread(db, Before(changes, n), ColumnRef(k, c)) <==> !ReadBefore(db, changes, n, k, c)
  {
    hide FileTo, Changes;
    BeforeIs(changes, n);
    forall v ensures L.Outlives(db, Before(changes, n), v) <==> StillUp(db, changes, n, v) {
      assert DropView(v) in Before(changes, n) <==> SaidBefore(changes, n, DropView(v));
    }
  }

  lemma FeedsIs(db: Db, changes: seq<SchemaChange>, n: nat, k: TableKey, c: string)
    requires n <= |changes| && k in db.tables
    ensures L.FeedsNothing(db.tables[k], Before(changes, n), k, c) <==>
      !exists g :: FeedsBefore(db, changes, n, k, c, g)
  {
    hide FileTo, TakenBefore;
    BeforeIs(changes, n);
    if !L.FeedsNothing(db.tables[k], Before(changes, n), k, c) {
      var g :| g in db.tables[k].generated && db.tables[k].generated[g] == c && DropColumn(k, g) !in Before(changes, n);
      assert FeedsBefore(db, changes, n, k, c, g);
    }
  }

  /** A table that is compared is none of those that go. */
  lemma ComparedStays(
      db: Db, next: Config, changes: seq<SchemaChange>, name: string, d: DeclaredTable, ch: SchemaChange)
    requires Lists(changes, db, next) && Compared(db, next, name, Live, d) && ch in changes
    ensures !TakesTable(ch, TableKey(Live, d.table))
  {
    if ch.kind == DropCollection {
      assert Planned(db, next, ch) && !Drifted(db, next, ch);
    }
  }

  lemma TakenFacts(db: Db, next: Config, ch: SchemaChange) returns (d: DeclaredTable)
    requires Planned(db, next, ch) && ch.env == Live && ch.kind.DropColumnChange?
    ensures Compared(db, next, ch.collection, Live, d) && d.table == ch.table
    ensures !DeclaresName(d, ch.kind.field) && ch.kind.field !in d.structural
    ensures ch.kind.field in db.tables[TableKey(Live, ch.table)].columns
  {
    d :| Compared(db, next, ch.collection, ch.env, d) && d.table == ch.table
      && TableDiff(db.tables[TableKey(ch.env, d.table)], ch.collection, next.collections[ch.collection], d, ch.kind);
  }

  /** A retyped column is not taken away, neither for itself nor as a search column. */
  lemma RetypedStays(db: Db, next: Config, changes: seq<SchemaChange>, n: nat, ch: SchemaChange)
    requires Migratable(db, next, changes) && n <= |changes| && ch in changes && LiveRetype(ch)
    ensures !TakenBefore(changes, n, TableKey(Live, ch.table), ch.kind.field)
  {
    forall m | 0 <= m < n ensures !Takes(changes[m], TableKey(Live, ch.table), ch.kind.field) {
      assert changes[m] in changes;
      RetypeNotTaken(db, next, changes, ch, changes[m]);
    }
  }

  lemma RetypeNotTaken(db: Db, next: Config, changes: seq<SchemaChange>, ch: SchemaChange, other: SchemaChange)
    requires Migratable(db, next, changes) && ch in changes && LiveRetype(ch) && other in changes
    ensures !Takes(other, TableKey(Live, ch.table), ch.kind.field)
  {
    var d := RetypeFacts(db, next, ch);
    assert DeclaresName(d, ch.kind.field);
    if other.env == Live && other.table == ch.table && other.kind.DropColumnChange? {
      var e := TakenFacts(db, next, other);
      assert e == d;
    }
  }

  // ----- one change

  lemma DropColumnFits(db: Db, next: Config, changes: seq<SchemaChange>, n: nat)
    requires Migratable(db, next, changes) && n < |changes|
    requires changes[n].env == Live && changes[n].kind.DropColumnChange?
    ensures L.Runs(db, Before(changes, n), DropColumn(TableKey(Live, changes[n].table), changes[n].kind.field))
            <==> !InTheWay(db, changes, n)
  {
    hide FileTo, Migratable, ReadBefore, FeedsBefore, TakenBefore, L.Unread, L.FeedsNothing;
    var ch := changes[n];
    assert ch in changes;
    var d := TakenFactsIn(db, next, changes, ch);
    var k, f := TableKey(Live, ch.table), ch.kind.field;
    GoneTables(db, next, changes, n, ch.collection, d);
    BeforeIs(changes, n);
    ReadIs(db, changes, n, k, f);
    FeedsIs(db, changes, n, k, f);
  }

  lemma TakenFactsIn(db: Db, next: Config, changes: seq<SchemaChange>, ch: SchemaChange) returns (d: DeclaredTable)
    requires Migratable(db, next, changes) && ch in changes && ch.env == Live && ch.kind.DropColumnChange?
    ensures Lists(changes, db, next) && Compared(db, next, ch.collection, Live, d) && d.table == ch.table
    ensures ch.kind.field in db.tables[TableKey(Live, ch.table)].columns
  {
    d := TakenFacts(db, next, ch);
  }

  lemma GoneTables(db: Db, next: Config, changes: seq<SchemaChange>, n: nat, name: string, d: DeclaredTable)
    requires Lists(changes, db, next) && Compared(db, next, name, Live, d) && n <= |changes|
    ensures DropTable(TableKey(Live, d.table)) !in Before(changes, n)
  {
    hide FileTo;
    BeforeIs(changes, n);
    forall m | 0 <= m < n ensures !TakesTable(changes[m], TableKey(Live, d.table)) {
      assert changes[m] in changes;
      ComparedStays(db, next, changes, name, d, changes[m]);
    }
  }

  lemma RetypeFits(db: Db, next: Config, changes: seq<SchemaChange>, n: nat)
    requires Migratable(db, next, changes) && n < |changes| && LiveRetype(changes[n])
    ensures var k, f := TableKey(Live, changes[n].table), changes[n].kind.field;
      var cast := Retype(k, f, changes[n].kind.want, UsingFor(changes[n].kind.have, changes[n].kind.want));
      (&& L.Runs(db, Before(changes, n), DropColumn(k, f + "_tsv"))
       && L.Runs(db, Before(changes, n) + {DropColumn(k, f + "_tsv")}, cast)) <==> !InTheWay(db, changes, n)
  {
    hide FileTo, Migratable, ReadBefore, TakenBefore, L.Unread, FeedsBefore, Before, L.FeedsNothing, FeedsGenerated;
    var ch := changes[n];
    assert ch in changes;
    var k, f := TableKey(Live, ch.table), ch.kind.field;
    var d := RetypedFacts(db, next, changes, n, ch);
    GoneTables(db, next, changes, n, ch.collection, d);
    BeforeIs(changes, n);
    ReadIs(db, changes, n, k, f);
    ReadIs(db, changes, n, k, f + "_tsv");
    var more := Before(changes, n) + {DropColumn(k, f + "_tsv")};
    UnreadStill(db, Before(changes, n), k, f + "_tsv", ColumnRef(k, f));
    TsvDiffers(f);
    FeedsMore(db, changes, n, k, f, f + "_tsv");
    NothingFed(db.tables[k], Before(changes, n), k, f + "_tsv");
  }

  lemma FeedsMore(db: Db, changes: seq<SchemaChange>, n: nat, k: TableKey, c: string, aside: string)
    requires n <= |changes| && k in db.tables
    ensures L.FeedsNothing(db.tables[k], Before(changes, n) + {DropColumn(k, aside)}, k, c) <==>
            !exists g :: g != aside && FeedsBefore(db, changes, n, k, c, g)
  {
    hide FileTo, TakenBefore;
    BeforeIs(changes, n);
    var more := Before(changes, n) + {DropColumn(k, aside)};
    if !L.FeedsNothing(db.tables[k], more, k, c) {
      var g :| g in db.tables[k].generated && db.tables[k].generated[g] == c && DropColumn(k, g) !in more;
      assert g != aside && FeedsBefore(db, changes, n, k, c, g);
    }
  }

  lemma NothingFed(t: Table, done: set<Statement>, k: TableKey, c: string)
    requires !FeedsGenerated(t, c)
    ensures L.FeedsNothing(t, done, k, c)
  {}

  lemma UnreadStill(db: Db, done: set<Statement>, k: TableKey, c: string, ref: ColumnRef)
    ensures L.Unread(db, done + {DropColumn(k, c)}, ref) <==> L.Unread(db, done, ref)
  {
    forall v ensures L.Outlives(db, done + {DropColumn(k, c)}, v) <==> L.Outlives(db, done, v) {}
  }

  lemma RetypedFacts(db: Db, next: Config, changes: seq<SchemaChange>, n: nat, ch: SchemaChange)
    returns (d: DeclaredTable)
    requires Migratable(db, next, changes) && n <= |changes| && ch in changes && LiveRetype(ch)
    ensures Lists(changes, db, next) && Compared(db, next, ch.collection, Live, d) && d.table == ch.table
    ensures ch.kind.field in db.tables[TableKey(Live, ch.table)].columns
    ensures !TakenBefore(changes, n, TableKey(Live, ch.table), ch.kind.field)
    ensures !FeedsGenerated(db.tables[TableKey(Live, ch.table)], ch.kind.field + "_tsv")
  {
    d := RetypeFacts(db, next, ch);
    RetypedStays(db, next, changes, n, ch);
    assert OwnsTsv(db, ch);
  }

  /** The lines of each change run exactly when nothing is in their way. */
  lemma ChangeFits(db: Db, next: Config, changes: seq<SchemaChange>, n: nat)
    requires Migratable(db, next, changes) && n < |changes|
    ensures L.AllRun(db, Statements(FileTo(changes, n + 1))) <==>
            L.AllRun(db, Statements(FileTo(changes, n))) && !InTheWay(db, changes, n)
  {
    hide FileTo, InTheWay, Migratable, L.AllRun, L.Runs;
    var ch := changes[n];
    var front, own := Statements(FileTo(changes, n)), Statements(OwnLines(ch));
    FileStep(changes, n);
    StatementsAppend(FileTo(changes, n), OwnLines(ch));
    if !Rendered(ch) {
      assert front + own == front;
      Clear(db, changes, n);
    } else {
      OwnFits(db, next, changes, n, front, own);
    }
  }

  lemma Clear(db: Db, changes: seq<SchemaChange>, n: nat)
    requires n < |changes|
      && !(changes[n].env == Live && (changes[n].kind.TypeChange? || changes[n].kind.DropColumnChange?))
    ensures !InTheWay(db, changes, n)
  {}

  lemma OwnFits(
      db: Db, next: Config, changes: seq<SchemaChange>, n: nat, front: seq<Statement>, own: seq<Statement>)
    requires Migratable(db, next, changes) && n < |changes| && Rendered(changes[n])
    requires front == Statements(FileTo(changes, n)) && own == Statements(LinesOf(changes[n]))
    ensures L.AllRun(db, front + own) <==> L.AllRun(db, front) && !InTheWay(db, changes, n)
  {
    hide FileTo, InTheWay, Migratable, L.AllRun, L.Runs;
    var ch := changes[n];
    var k := TableKey(Live, ch.table);
    match ch.kind
    case TypeChange(f, have, want) =>
      var drop, cast := DropColumn(k, f + "_tsv"), Retype(k, f, want, UsingFor(have, want));
      assert own == [drop, cast];
      PushTwo(db, front, drop, cast);
      RetypeFits(db, next, changes, n);
    case DropColumnChange(f, _) =>
      assert own == [DropColumn(k, f)];
      L.AllRunPush(db, front, DropColumn(k, f));
      DropColumnFits(db, next, changes, n);
    case DropCollection =>
      assert own == [DropTable(k), Unregister(ch.collection)];
      PushTwo(db, front, DropTable(k), Unregister(ch.collection));
      AlwaysRuns(db, L.Done(front), DropTable(k));
      AlwaysRuns(db, L.Done(front) + {DropTable(k)}, Unregister(ch.collection));
      Clear(db, changes, n);
    case PkChange(_, _) =>
      var s := DropIdentity(TableKey(Live, Main(ch.collection)));
      assert own == [s];
      L.AllRunPush(db, front, s);
      AlwaysRuns(db, L.Done(front), s);
      Clear(db, changes, n);
    case DropIndexChange(i) =>
      assert own == [DropIndex(k, i)];
      L.AllRunPush(db, front, DropIndex(k, i));
      AlwaysRuns(db, L.Done(front), DropIndex(k, i));
      Clear(db, changes, n);
  }

  lemma AlwaysRuns(db: Db, done: set<Statement>, s: Statement)
    requires !s.DropColumn? && !s.Retype?
    ensures L.Runs(db, done, s)
  {}

  lemma PushTwo(db: Db, front: seq<Statement>, a: Statement, b: Statement)
    ensures L.AllRun(db, front + [a, b]) <==>
            L.AllRun(db, front) && L.Runs(db, L.Done(front), a) && L.Runs(db, L.Done(front) + {a}, b)
  {
    hide L.AllRun, L.Runs;
    L.AllRunPush(db, front, a);
    L.AllRunPush(db, front + [a], b);
    assert front + [a] + [b] == front + [a, b];
    assert L.Done(front + [a]) == L.Done(front) + {a};
  }

  // ----- the whole file

  lemma {:induction false} FileFits(db: Db, next: Config, changes: seq<SchemaChange>, n: nat)
    requires Migratable(db, next, changes) && n <= |changes|
    ensures L.AllRun(db, Statements(FileTo(changes, n))) <==> forall m :: 0 <= m < n ==> !InTheWay(db, changes, m)
    decreases n
  {
    hide FileTo, InTheWay, Migratable, L.AllRun;
    if n == 0 {
      HeadFits(db, changes);
    } else {
      FileFits(db, next, changes, n - 1);
      ChangeFits(db, next, changes, n - 1);
    }
  }

  lemma HeadFits(db: Db, changes: seq<SchemaChange>)
    ensures L.AllRun(db, Statements(FileTo(changes, 0)))
  {
    hide FileTo;
    var ss := Statements(FileTo(changes, 0));
    forall i | 0 <= i < |ss| ensures L.Runs(db, L.Done(ss[..i]), ss[i]) {
      FileSays(changes, 0, ss[i]);
      assert ss[i] in ss;
    }
  }

  /** The file as a list of statements that drop and cast. */
  lemma FileLowers(db: Db, next: Config, changes: seq<SchemaChange>)
    requires Migratable(db, next, changes)
    ensures Statements(Render(changes)) == Statements(FileTo(changes, |changes|))
    ensures forall s :: s in Statements(Render(changes)) ==> L.Lowers(s)
    ensures L.OneCast(Before(changes, |changes|)) && L.GeneratedKept(db)
  {
    assert changes[..|changes|] == changes;
    forall s | s in Statements(Render(changes)) ensures L.Lowers(s) {
      FileSays(changes, |changes|, s);
    }
    CastsOnce(db, next, changes);
  }

  lemma CastsOnce(db: Db, next: Config, changes: seq<SchemaChange>)
    requires Migratable(db, next, changes)
    ensures L.OneCast(Before(changes, |changes|))
  {
    hide FileTo, Migratable, LiveRetype;
    var done := Before(changes, |changes|);
    forall k, c, to, using, other, how | L.Casts(done, k, c, to, using) && L.Casts(done, k, c, other, how)
      ensures to == other && using == how
    {
      var a := CastBy(changes, k, c, to, using);
      var b := CastBy(changes, k, c, other, how);
      SameRetype(db, next, changes, a, b);
    }
  }

  lemma SameRetype(db: Db, next: Config, changes: seq<SchemaChange>, a: SchemaChange, b: SchemaChange)
    requires Migratable(db, next, changes) && a in changes && b in changes && a.env == b.env == Live
    requires a.kind.TypeChange? && b.kind.TypeChange? && a.table == b.table && a.kind.field == b.kind.field
    ensures a.kind == b.kind
  {
    RetypesAgree(db, next, changes, a, b);
  }

  /** The change a cast stands for. */
  lemma CastBy(changes: seq<SchemaChange>, k: TableKey, c: string, to: PgType, using: Using)
    returns (ch: SchemaChange)
    requires L.Casts(Before(changes, |changes|), k, c, to, using)
    ensures ch in changes && Recasts(ch, k, c, to) && using == UsingFor(ch.kind.have, to)
  {
    hide FileTo;
    BeforeIs(changes, |changes|);
    var s := Retype(k, c, to, using);
    assert SaidBefore(changes, |changes|, s);
    var m :| 0 <= m < |changes| && Says(changes[m], s);
    ch := changes[m];
  }

  /** The whole file ran, and left this. */
  ghost predicate WholeRan(db: Db, next: Config, changes: seq<SchemaChange>, after: Db) {
    Migratable(db, next, changes) && RunWhole(changes, db) == Some(after)
  }

  lemma WholeRuns(db: Db, next: Config, changes: seq<SchemaChange>)
    requires Migratable(db, next, changes)
    ensures RunWhole(changes, db).Some? <==> forall n :: 0 <= n < |changes| ==> !InTheWay(db, changes, n)
    ensures RunWhole(changes, db).Some? ==> L.Lowered(db, RunWhole(changes, db).value, Before(changes, |changes|))
  {
    hide FileTo, InTheWay, Migratable, L.AllRun, L.Lowered, L.Lowers;
    FileLowers(db, next, changes);
    FileFits(db, next, changes, |changes|);
    L.LoweringRuns(db, Statements(FileTo(changes, |changes|)));
  }

  lemma Said(changes: seq<SchemaChange>, ch: SchemaChange, s: Statement)
    requires ch in changes && Says(ch, s) && !s.DropView?
    ensures s in Before(changes, |changes|)
  {
    hide FileTo, Says;
    BeforeIs(changes, |changes|);
    var m :| 0 <= m < |changes| && changes[m] == ch;
    assert SaidBefore(changes, |changes|, s);
  }

  // ----- what is still planned

  lemma CollectionsGone(db: Db, next: Config, changes: seq<SchemaChange>, after: Db, ch: SchemaChange)
    requires WholeRan(db, next, changes, after) && ch.env == Live
    ensures !Dropped(after, next, ch)
  {
    hide FileTo, L.LoweredTable;
    WholeRuns(db, next, changes);
    if Dropped(db, next, ch) {
      Said(changes, ch, DropTable(TableKey(Live, ch.table)));
    }
  }

  /** The table was compared before, and has been lowered. */
  lemma ComparedBefore(
      db: Db, next: Config, changes: seq<SchemaChange>, after: Db, name: string, d: DeclaredTable)
    requires WholeRan(db, next, changes, after) && Compared(after, next, name, Live, d)
    ensures var k := TableKey(Live, d.table);
      && Compared(db, next, name, Live, d) && Lists(changes, db, next) && Keyed(next)
      && L.LoweredTable(db.tables[k], after.tables[k], Before(changes, |changes|), k)
  {
    hide FileTo, L.LoweredTable;
    WholeRuns(db, next, changes);
  }

  lemma DriftIn(db: Db, next: Config, changes: seq<SchemaChange>, name: string, d: DeclaredTable, kind: ChangeKind)
    requires Lists(changes, db, next) && Compared(db, next, name, Live, d)
    requires TableDiff(db.tables[TableKey(Live, d.table)], name, next.collections[name], d, kind)
    ensures SchemaChange(name, Live, d.table, kind) in changes
  {
    var ch := SchemaChange(name, Live, d.table, kind);
    assert Drifted(db, next, ch);
  }

  lemma TypesAgree(
      db: Db, next: Config, changes: seq<SchemaChange>, after: Db, name: string, d: DeclaredTable, f: string,
      want: PgType)
    requires WholeRan(db, next, changes, after) && Compared(after, next, name, Live, d)
    requires Declares(d, f, want) && f in after.tables[TableKey(Live, d.table)].columns
    ensures after.tables[TableKey(Live, d.table)].columns[f] == want
  {
    hide FileTo, Migratable, WholeRan, Declares, Lists;
    ComparedBefore(db, next, changes, after, name, d);
    var k := TableKey(Live, d.table);
    var t, u := db.tables[k], after.tables[k];
    assert L.LoweredColumn(t, u, Before(changes, |changes|), k, f);
    CastToWanted(db, next, changes, name, d, f, want);
  }

  /** A declared column is cast to its type, or has it and is not cast. */
  lemma CastToWanted(
      db: Db, next: Config, changes: seq<SchemaChange>, name: string, d: DeclaredTable, f: string, want: PgType)
    requires Keyed(next) && Lists(changes, db, next) && Compared(db, next, name, Live, d) && Declares(d, f, want)
    requires f in db.tables[TableKey(Live, d.table)].columns
    ensures var k, done := TableKey(Live, d.table), Before(changes, |changes|);
      var have := db.tables[k].columns[f];
      if have == want then forall to, using :: !L.Casts(done, k, f, to, using)
      else L.Casts(done, k, f, want, UsingFor(have, want))
  {
    hide FileTo;
    var k, done := TableKey(Live, d.table), Before(changes, |changes|);
    var have := db.tables[k].columns[f];
    if have == want {
      forall to, using ensures !L.Casts(done, k, f, to, using) {
        if L.Casts(done, k, f, to, using) {
          var ch := CastBy(changes, k, f, to, using);
          WantedOnce(db, next, changes, ch, name, d, f, want);
        }
      }
    } else {
      var ch := SchemaChange(name, Live, d.table, TypeChange(f, have, want));
      DriftIn(db, next, changes, name, d, ch.kind);
      Said(changes, ch, Retype(k, f, want, UsingFor(have, want)));
    }
  }

  /** A retype's column has another type than declared. */
  lemma WantedOnce(
      db: Db, next: Config, changes: seq<SchemaChange>, ch: SchemaChange, name: string, d: DeclaredTable,
      f: string, want: PgType)
    requires Keyed(next) && Lists(changes, db, next) && ch in changes && ch.kind.TypeChange?
    requires Recasts(ch, TableKey(Live, d.table), f, ch.kind.want)
    requires Compared(db, next, name, Live, d) && Declares(d, f, want)
    ensures f in db.tables[TableKey(Live, d.table)].columns && db.tables[TableKey(Live, d.table)].columns[f] != want
  {
    var e := RetypeFacts(db, next, ch);
    assert e == d;
    DeclaredOnce(name, next.collections[name], next.multiple, d, f, ch.kind.want, want);
  }

  lemma ColumnsAgree(
      db: Db, next: Config, changes: seq<SchemaChange>, after: Db, name: string, d: DeclaredTable, f: string)
    requires WholeRan(db, next, changes, after) && Compared(after, next, name, Live, d)
    requires !DeclaresName(d, f) && f !in d.structural
    ensures f !in after.tables[TableKey(Live, d.table)].columns
  {
    hide FileTo, Migratable, WholeRan, Lists;
    ComparedBefore(db, next, changes, after, name, d);
    var k := TableKey(Live, d.table);
    if f in db.tables[k].columns {
      var ch := SchemaChange(name, Live, d.table, DropColumnChange(f, db.tables[k].columns[f]));
      DriftIn(db, next, changes, name, d, ch.kind);
      Said(changes, ch, DropColumn(k, f));
    }
  }

  lemma IndexesAgree(
      db: Db, next: Config, changes: seq<SchemaChange>, after: Db, name: string, d: DeclaredTable, i: string)
    requires WholeRan(db, next, changes, after) && Compared(after, next, name, Live, d) && d.table == Main(name)
    requires Owned(i) && !WantsIndex(name, next.collections[name], i)
    ensures !HasIndex(after.tables[TableKey(Live, d.table)], name, i)
  {
    hide FileTo, Migratable, WholeRan, Lists, Owned, WantsIndex;
    ComparedBefore(db, next, changes, after, name, d);
    var k := TableKey(Live, d.table);
    if HasIndex(db.tables[k], name, i) {
      var ch := SchemaChange(name, Live, d.table, DropIndexChange(i));
      DriftIn(db, next, changes, name, d, ch.kind);
      Said(changes, ch, DropIndex(k, i));
    }
  }

  /** An identity that is left is the one asked for. */
  lemma IdentityAgrees(
      db: Db, next: Config, changes: seq<SchemaChange>, after: Db, name: string, d: DeclaredTable, want: string)
    requires WholeRan(db, next, changes, after) && Compared(after, next, name, Live, d) && d.table == Main(name)
    requires PkField(next.collections[name]) == Some(want)
    ensures after.tables[TableKey(Live, d.table)].identity in {Option.None, Some(want)}
  {
    hide FileTo, Migratable, WholeRan, Lists;
    ComparedBefore(db, next, changes, after, name, d);
    var k := TableKey(Live, d.table);
    var had := db.tables[k].identity;
    if had.Some? && had.value != want {
      var ch := SchemaChange(name, Live, d.table, PkChange(had.value, want));
      DriftIn(db, next, changes, name, d, ch.kind);
      Said(changes, ch, DropIdentity(k));
    }
  }

  /** The planner takes the table's own key for the identity, and asks to move away from it. */
  ghost predicate KeyMove(after: Db, ch: SchemaChange) {
    && ch.kind.PkChange? && TableKey(Live, ch.table) in after.tables
    && after.tables[TableKey(Live, ch.table)].identity.None?
    && after.tables[TableKey(Live, ch.table)].primaryKey == Some(ch.kind.havePk)
  }

  lemma StillPlanned(db: Db, next: Config, changes: seq<SchemaChange>, after: Db, ch: SchemaChange)
    requires WholeRan(db, next, changes, after) && Planned(after, next, ch) && ch.env == Live
    ensures ch.kind.AddColumnChange? || ch.kind.AddIndexChange? || KeyMove(after, ch)
  {
    hide FileTo, Migratable, WholeRan, Lists, Owned, WantsIndex, HasIndex, Declares, DeclaresName;
    CollectionsGone(db, next, changes, after, ch);
    var d: DeclaredTable :| Compared(after, next, ch.collection, ch.env, d) && d.table == ch.table
      && TableDiff(after.tables[TableKey(ch.env, d.table)], ch.collection, next.collections[ch.collection], d, ch.kind);
    match ch.kind
    case TypeChange(f, _, want) => TypesAgree(db, next, changes, after, ch.collection, d, f, want);
    case DropColumnChange(f, _) => ColumnsAgree(db, next, changes, after, ch.collection, d, f);
    case DropIndexChange(i) => IndexesAgree(db, next, changes, after, ch.collection, d, i);
    case PkChange(_, want) => IdentityAgrees(db, next, changes, after, ch.collection, d, want);
    case _ =>
  }

  // ----- what has changed

  /** The column went through the cast its retype asks for, or is as it was. */
  ghost predicate ColumnAsPlanned(db: Db, after: Db, changes: seq<SchemaChange>, k: TableKey, c: string)
    requires k in db.tables && k in after.tables && |after.tables[k].rows| == |db.tables[k].rows|
    requires c in db.tables[k].columns && c in after.tables[k].columns
  {
    var t, u := db.tables[k], after.tables[k];
    && (forall ch, to :: ch in changes && Recasts(ch, k, c, to) ==>
          && u.columns[c] == to
          && forall i :: 0 <= i < |t.rows| ==>
              Cell(u.rows[i], c) == Cast(Cell(t.rows[i], c), UsingFor(ch.kind.have, to)))
    && ((forall ch, to :: ch in changes ==> !Recasts(ch, k, c, to)) ==>
          && u.columns[c] == t.columns[c]
          && forall i :: 0 <= i < |t.rows| ==> Cell(u.rows[i], c) == Cell(t.rows[i], c))
  }

  /** Only what the plan takes away is gone, and only what it retypes has changed. */
  ghost predicate AsPlanned(db: Db, after: Db, changes: seq<SchemaChange>) {
    && (forall k :: k in after.tables <==> k in db.tables && forall ch :: ch in changes ==> !TakesTable(ch, k))
    && (forall n :: n in after.registry <==>
          n in db.registry && forall ch :: ch in changes && ch.env == Live && ch.collection == n ==>
              ch.kind != DropCollection)
    && after.acl == db.acl
    && forall k :: k in after.tables ==>
         && |after.tables[k].rows| == |db.tables[k].rows|
         && (forall c :: c in after.tables[k].columns <==>
               c in db.tables[k].columns && forall ch :: ch in changes ==> !Takes(ch, k, c))
         && forall c :: c in after.tables[k].columns ==> ColumnAsPlanned(db, after, changes, k, c)
  }

  lemma SaysAll(changes: seq<SchemaChange>)
    ensures forall k :: DropTable(k) in Before(changes, |changes|) <==> exists ch :: ch in changes && TakesTable(ch, k)
    ensures forall k, c :: DropColumn(k, c) in Before(changes, |changes|) <==>
      exists ch :: ch in changes && Takes(ch, k, c)
    ensures forall n :: Unregister(n) in Before(changes, |changes|) <==>
      exists ch :: ch in changes && ch.env == Live && ch.kind == DropCollection && ch.collection == n
  {
    hide FileTo;
    BeforeIs(changes, |changes|);
    forall n
      ensures Unregister(n) in Before(changes, |changes|) <==>
              exists ch :: ch in changes && ch.env == Live && ch.kind == DropCollection && ch.collection == n
    {
      if ch :| ch in changes && ch.env == Live && ch.kind == DropCollection && ch.collection == n {
        Said(changes, ch, Unregister(n));
      }
      assert Unregister(n) in Before(changes, |changes|) <==> SaidBefore(changes, |changes|, Unregister(n));
    }
  }

  lemma SaidCast(changes: seq<SchemaChange>, ch: SchemaChange, k: TableKey, c: string, to: PgType)
    requires ch in changes && Recasts(ch, k, c, to)
    ensures L.Casts(Before(changes, |changes|), k, c, to, UsingFor(ch.kind.have, to))
  {
    Said(changes, ch, Retype(k, c, to, UsingFor(ch.kind.have, to)));
  }

  lemma CastsAsPlanned(db: Db, after: Db, changes: seq<SchemaChange>, k: TableKey, c: string)
    requires k in db.tables && k in after.tables
    requires L.LoweredTable(db.tables[k], after.tables[k], Before(changes, |changes|), k)
      && c in after.tables[k].columns
    ensures c in db.tables[k].columns && ColumnAsPlanned(db, after, changes, k, c)
  {
    hide FileTo, Before, TidyTable, Says;
    var done := Before(changes, |changes|);
    assert L.LoweredColumn(db.tables[k], after.tables[k], done, k, c);
    forall ch, to | ch in changes && Recasts(ch, k, c, to)
      ensures L.Casts(done, k, c, to, UsingFor(ch.kind.have, to))
    {
      SaidCast(changes, ch, k, c, to);
    }
    if forall ch, to :: ch in changes ==> !Recasts(ch, k, c, to) {
      forall to, using ensures !L.Casts(done, k, c, to, using) {
        if L.Casts(done, k, c, to, using) {
          var ch := CastBy(changes, k, c, to, using);
        }
      }
    }
  }

  lemma LoweredAsPlanned(db: Db, after: Db, changes: seq<SchemaChange>)
    requires L.Lowered(db, after, Before(changes, |changes|))
    ensures AsPlanned(db, after, changes)
  {
    hide FileTo, ColumnAsPlanned, L.LoweredColumn, Takes, TakesTable;
    SaysAll(changes);
    forall k, c | k in after.tables && c in after.tables[k].columns
      ensures c in db.tables[k].columns && ColumnAsPlanned(db, after, changes, k, c)
    {
      CastsAsPlanned(db, after, changes, k, c);
    }
    forall k | k in after.tables ensures |after.tables[k].rows| == |db.tables[k].rows| {
      assert L.LoweredTable(db.tables[k], after.tables[k], Before(changes, |changes|), k);
    }
  }

  // ----- the main result

  /**
   Main result, over every database a deployment reaches: the whole file runs through exactly when nothing is
   in the way of a dropped or retyped column at its place in the plan. Then what the plan takes away is gone
   and what it retypes is cast, nothing else has changed, and the only change still planned that needs more
   than additions is a move of the primary key, now away from the table's own.
   */
  lemma WholeFileRuns(states: seq<Db>, next: Config, changes: seq<SchemaChange>)
    requires History(states) && Keyed(next) && NoTsvFields(next) && Lists(changes, states[|states| - 1], next)
    ensures var db := states[|states| - 1];
      var r := RunWhole(changes, db);
      && (r.Some? <==> forall n :: 0 <= n < |changes| ==> !InTheWay(db, changes, n))
      && (r.Some? ==>
            && AsPlanned(db, r.value, changes)
            && forall ch :: Planned(r.value, next, ch) && ch.env == Live ==>
                 ch.kind.AddColumnChange? || ch.kind.AddIndexChange?
                 || (ch.kind.PkChange? && ch.kind.havePk == "_rev" && ch.kind.wantPk != "_rev"))
  {
    hide FileTo, InTheWay, AsPlanned, Render;
    var db := states[|states| - 1];
    HistoryTidy(states);
    TidyMigratable(db, next, changes);
    WholeRuns(db, next, changes);
    if RunWhole(changes, db).Some? {
      var after := RunWhole(changes, db).value;
      LoweredAsPlanned(db, after, changes);
      forall ch | Planned(after, next, ch) && ch.env == Live
        ensures ch.kind.AddColumnChange? || ch.kind.AddIndexChange?
                || (ch.kind.PkChange? && ch.kind.havePk == "_rev" && ch.kind.wantPk != "_rev")
      {
        StillPlanned(db, next, changes, after, ch);
        if ch.kind.PkChange? {
          OwnKey(db, next, changes, after, ch);
        }
      }
    }
  }

  lemma OwnKey(db: Db, next: Config, changes: seq<SchemaChange>, after: Db, ch: SchemaChange)
    requires WholeRan(db, next, changes, after) && Tidy(db) && Planned(after, next, ch) && ch.env == Live
    requires KeyMove(after, ch)
    ensures ch.kind.havePk == "_rev" && ch.kind.wantPk != "_rev"
  {
    hide FileTo, Migratable, WholeRan, Lists;
    var d: DeclaredTable :| Compared(after, next, ch.collection, ch.env, d) && d.table == ch.table
      && TableDiff(after.tables[TableKey(ch.env, d.table)], ch.collection, next.collections[ch.collection], d, ch.kind);
    ComparedBefore(db, next, changes, after, ch.collection, d);
    assert TidyTable(ch.table, db.tables[TableKey(Live, ch.table)]);
  }

  /**
   A field that was searchable and is removed leaves two columns to drop. The file runs through only if the
   search column is dropped first: Postgres keeps a column that another is generated from.
   */
  lemma SearchColumnFirst(states: seq<Db>, next: Config, changes: seq<SchemaChange>, n: nat)
    requires History(states) && Keyed(next) && NoTsvFields(next) && Lists(changes, states[|states| - 1], next)
    requires n < |changes| && changes[n].env == Live && changes[n].kind.DropColumnChange?
    requires var k := TableKey(Live, changes[n].table);
      var db := states[|states| - 1];
      k in db.tables && k.name.Main? && changes[n].kind.field + "_tsv" in db.tables[k].columns
    requires RunWhole(changes, states[|states| - 1]).Some?
    requires forall m :: 0 <= m < n ==> !Takes(changes[m], TableKey(Live, changes[n].table), changes[n].kind.field)
    ensures TakenBefore(changes, n, TableKey(Live, changes[n].table), changes[n].kind.field + "_tsv")
  {
    hide FileTo, Render, Statements;
    var db := states[|states| - 1];
    var k, f := TableKey(Live, changes[n].table), changes[n].kind.field;
    WholeFileRuns(states, next, changes);
    HistoryTidy(states);
    assert !InTheWay(db, changes, n) && TidyTable(k.name, db.tables[k]);
    TsvEnds(f);
    TsvIsFrom(k.name, f, db.tables[k].generated[Tsv(f)]);
    assert FeedsBefore(db, changes, n, k, f, Tsv(f)) <==> !TakenBefore(changes, n, k, Tsv(f));
  }
}
