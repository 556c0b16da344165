/** What running the ready part of a migration does to the planned schema, and to the next apply. */
module MigrationProofs {
  import opened Wrappers
  import opened Config
  import opened Catalog
  import opened Ddl
  import opened DdlFacts
  import opened Plan
  import opened Apply
  import opened ApplySafety
  import opened Convergence
  import opened Migration

  predicate LiveRetype(ch: SchemaChange) {
    ch.env == Live && ch.kind.TypeChange?
  }

  /**
   What a retype needs no review for: any type a field can declare becoming text, an integer becoming a
   number, a date a timestamp, and a text a list of one.
   */
  lemma ReviewedExactly(have: PgType, want: PgType)
    requires have != want
    ensures !ClassifyCast(have, want).reviewRequired <==>
      || (want == Text && exists t: FieldType :: PgTypeOf(t) == have)
      || (have == Integer && want == Numeric)
      || (have == Date && want == Timestamptz)
      || (have == Text && want == TextArray)
  {
    assert PgTypeOf(FUuid) == Uuid && PgTypeOf(FNumeric) == Numeric && PgTypeOf(FInt) == Integer;
    assert PgTypeOf(FTimestamptz) == Timestamptz && PgTypeOf(FDate) == Date && PgTypeOf(FBoolean) == Boolean;
    assert PgTypeOf(FJson) == Jsonb;
  }

  predicate Lossless(ch: SchemaChange) {
    LiveRetype(ch) && !ReviewRequired(ch)
  }

  /** No declared table names both `f` and `f_tsv`. */
  ghost predicate NoDeclaredTsv(cfg: Config) {
    forall n, d: DeclaredTable, f | n in cfg.collections && d in DeclaredTables(n, cfg.collections[n], cfg.multiple)
        && DeclaresName(d, f) ::
      !DeclaresName(d, Tsv(f))
  }

  /** A retyped column's `<field>_tsv`, if it is generated, is computed from the field, and nothing rests on it. */
  ghost predicate OwnsTsv(db: Db, ch: SchemaChange)
    requires LiveRetype(ch)
  {
    var key, tsv := TableKey(Live, ch.table), Tsv(ch.kind.field);
    && key in db.tables
    && var t := db.tables[key];
    && (tsv in t.generated ==> t.generated[tsv] == ch.kind.field)
    && !FeedsGenerated(t, tsv) && t.identity != Some(tsv)
  }

  /** One of the collections has its live view under this name. */
  predicate ViewedAs(collections: seq<string>, v: ViewKey) {
    exists i :: 0 <= i < |collections| && v == ViewOf(Live, collections[i])
  }

  /** The views that are there once the file's own `drop view` lines have run. */
  ghost predicate LeftStanding(db: Db, changes: seq<SchemaChange>, v: ViewKey) {
    v in db.views && !ViewedAs(Touched(LiveChanges(changes)), v)
  }

  ghost predicate Unread(db: Db, changes: seq<SchemaChange>, ref: ColumnRef) {
    forall v :: LeftStanding(db, changes, v) ==> ref !in db.views[v]
  }

  /**
   Nothing left standing is in the way: no view reads the search column that goes, and of a column that is
   cast neither a view nor a generated column but its own search column is computed.
   */
  ghost predicate Free(db: Db, changes: seq<SchemaChange>, ch: SchemaChange)
    requires LiveRetype(ch)
  {
    var key, f := TableKey(Live, ch.table), ch.kind.field;
    && key in db.tables
    && var t := db.tables[key];
    && (Tsv(f) in t.columns ==> Unread(db, changes, ColumnRef(key, Tsv(f))))
    && (Lossless(ch) ==>
          && Unread(db, changes, ColumnRef(key, f)) && f !in t.generated
          && forall g :: g in t.generated && t.generated[g] == f ==> g == Tsv(f))
  }

  ghost predicate AllFree(db: Db, changes: seq<SchemaChange>, some: seq<SchemaChange>) {
    forall ch :: ch in some && LiveRetype(ch) ==> Free(db, changes, ch)
  }

  /** A dataset's `<field>_tsv` is the search column of the field, and no declared column is called that. */
  ghost predicate SearchNamesFree(db: Db, next: Config, changes: seq<SchemaChange>) {
    && NoDeclaredTsv(next)
    && forall ch :: ch in changes && LiveRetype(ch) && TableKey(Live, ch.table) in db.tables
                    && Tsv(ch.kind.field) in db.tables[TableKey(Live, ch.table)].columns ==>
      ch.table.Main?
  }

  /** No retyped column is named like the search column of another. */
  ghost predicate RetypesApart(changes: seq<SchemaChange>) {
    forall a, b | a in changes && b in changes && LiveRetype(a) && LiveRetype(b) ::
      a.table == b.table ==> a.kind.field != Tsv(b.kind.field)
  }

  ghost predicate AllOwnTsv(db: Db, changes: seq<SchemaChange>) {
    forall ch :: ch in changes && LiveRetype(ch) ==> OwnsTsv(db, ch)
  }

  // ----- how far the migration has come

  /** One of the first changes drops this column as a search column. */
  ghost predicate TsvDropped(done: seq<SchemaChange>, key: TableKey, c: string) {
    exists ch :: ch in done && LiveRetype(ch) && key == TableKey(Live, ch.table) && c == Tsv(ch.kind.field)
  }

  /** One of the first changes has cast this column in place. */
  ghost predicate CastDone(done: seq<SchemaChange>, key: TableKey, c: string, want: PgType, using: Using) {
    exists ch :: ch in done && Lossless(ch) && key == TableKey(Live, ch.table) && c == ch.kind.field
                 && want == ch.kind.want && using == ClassifyCast(ch.kind.have, ch.kind.want).using
  }

  ghost predicate NotCast(done: seq<SchemaChange>, key: TableKey, c: string) {
    forall ch :: ch in done && Lossless(ch) && key == TableKey(Live, ch.table) ==> c != ch.kind.field
  }

  /** `u` is `t` with the search columns of `done` dropped and its lossless casts carried out. */
  ghost predicate Migrated(t: Table, u: Table, done: seq<SchemaChange>, key: TableKey) {
    && (forall c :: c in u.columns <==> c in t.columns && !TsvDropped(done, key, c))
    && (forall g :: g in u.generated <==> g in t.generated && !TsvDropped(done, key, g))
    && (forall g :: g in u.generated ==> u.generated[g] == t.generated[g])
    && u.identity == t.identity && u.primaryKey == t.primaryKey
    && |u.rows| == |t.rows|
    && (forall c :: c in u.columns ==> MigratedColumn(t, u, done, key, c))
  }

  ghost predicate MigratedColumn(t: Table, u: Table, done: seq<SchemaChange>, key: TableKey, c: string)
    requires c in u.columns && c in t.columns && |u.rows| == |t.rows|
  {
    && (NotCast(done, key, c) ==>
          u.columns[c] == t.columns[c] && forall i :: 0 <= i < |t.rows| ==> Cell(u.rows[i], c) == Cell(t.rows[i], c))
    && forall want, using :: CastDone(done, key, c, want, using) ==>
         u.columns[c] == want && forall i :: 0 <= i < |t.rows| ==> Cell(u.rows[i], c) == Cast(Cell(t.rows[i], c), using)
  }

  ghost predicate MigratedDb(db: Db, now: Db, done: seq<SchemaChange>) {
    && now.tables.Keys == db.tables.Keys && now.registry == db.registry
    && (forall k :: k in db.tables ==> Migrated(db.tables[k], now.tables[k], done, k))
    && (forall v :: v in now.views ==> v in db.views && now.views[v] == db.views[v])
  }

  // ----- one change

  function AfterChange(t: Table, ch: SchemaChange): Table
    requires LiveRetype(ch)
  {
    var u := if Tsv(ch.kind.field) in t.columns then DropColumnFrom(t, Tsv(ch.kind.field)) else t;
    if Lossless(ch)
    then u.(columns := u.columns[ch.kind.field := ch.kind.want],
            rows := CastColumn(u.rows, ch.kind.field, ClassifyCast(ch.kind.have, ch.kind.want).using))
    else u
  }

  lemma TsvDiffers(f: string)
    ensures Tsv(f) != f
  {
    assert |Tsv(f)| == |f| + 4;
  }

  lemma ReadyLines(ch: SchemaChange)
    requires LiveRetype(ch)
    ensures ReadyOnly(LinesOf(ch)) ==
            [DropColumn(TableKey(Live, ch.table), Tsv(ch.kind.field))] + if Lossless(ch) then [RetypeOf(ch)] else []
  {
    var lines := LinesOf(ch);
    assert lines[..1] == [lines[0]] && [lines[0]][..0] == [];
    assert ReadyOnly(lines[..1]) == [lines[0].s];
  }

  lemma {:induction false} CommentedOnly(lines: seq<Line>)
    requires forall l :: l in lines ==> l.Commented?
    ensures ReadyOnly(lines) == []
  {
    if lines != [] {
      assert lines[|lines| - 1] in lines;
      CommentedOnly(lines[..|lines| - 1]);
    }
  }

  /** What Postgres asks of the statements of one change. */
  ghost predicate Legal(now: Db, ch: SchemaChange)
    requires LiveRetype(ch) && TableKey(Live, ch.table) in now.tables
  {
    var key, f := TableKey(Live, ch.table), ch.kind.field;
    var u := now.tables[key];
    && (Tsv(f) in u.columns ==> !ViewReads(now, ColumnRef(key, Tsv(f))) && !FeedsGenerated(u, Tsv(f)))
    && (Lossless(ch) ==>
          && !ViewReads(now, ColumnRef(key, f)) && f !in u.generated
          && forall g :: g in u.generated && u.generated[g] == f ==> g == Tsv(f) && Tsv(f) in u.columns)
  }

  /** The statements of one change run exactly when they are legal. */
  lemma ChangeRuns(now: Db, ch: SchemaChange)
    requires LiveRetype(ch) && TableKey(Live, ch.table) in now.tables
    requires ch.kind.field in now.tables[TableKey(Live, ch.table)].columns
    ensures var key := TableKey(Live, ch.table);
      ExecAll(ReadyOnly(LinesOf(ch)), now)
      == if Legal(now, ch) then Some(now.(tables := now.tables[key := AfterChange(now.tables[key], ch)]))
          else Option.None
  {
    var key, f := TableKey(Live, ch.table), ch.kind.field;
    var t := now.tables[key];
    TsvDiffers(f);
    ReadyLines(ch);
    var drop := DropColumn(key, Tsv(f));
    TsvDropRuns(now, ch);
    ExecSingle(drop, now);
    if Lossless(ch) {
      ExecAppend([drop], [RetypeOf(ch)], now);
      if Exec(drop, now).Some? {
        var mid := Exec(drop, now).value;
        ExecSingle(RetypeOf(ch), mid);
        RetypeRuns(now, mid, ch);
        assert now.tables[key := mid.tables[key]][key := AfterChange(t, ch)] == now.tables[key := AfterChange(t, ch)];
      }
    }
  }

  /** Dropping the search column touches nothing else. */
  lemma TsvDropRuns(now: Db, ch: SchemaChange)
    requires LiveRetype(ch) && TableKey(Live, ch.table) in now.tables
    ensures var key := TableKey(Live, ch.table); var f := ch.kind.field;
      var t, r := now.tables[key], Exec(DropColumn(key, Tsv(f)), now);
      && (r.Some? <==> (Tsv(f) in t.columns ==> !ViewReads(now, ColumnRef(key, Tsv(f))) && !FeedsGenerated(t, Tsv(f))))
      && (r.Some? ==>
          r.value == now.(tables := now.tables[key := if Tsv(f) in t.columns then DropColumnFrom(t, Tsv(f)) else t]))
  {
    var key := TableKey(Live, ch.table);
    assert now.tables[key := now.tables[key]] == now.tables;
  }

  lemma RetypeRuns(now: Db, mid: Db, ch: SchemaChange)
    requires Lossless(ch) && TableKey(Live, ch.table) in now.tables
    requires ch.kind.field in now.tables[TableKey(Live, ch.table)].columns
    requires var key := TableKey(Live, ch.table); var t := now.tables[key];
      var tsv := Tsv(ch.kind.field);
      mid == now.(tables := now.tables[key := if tsv in t.columns then DropColumnFrom(t, tsv) else t])
    ensures var key, f := TableKey(Live, ch.table), ch.kind.field; var t := now.tables[key];
      Exec(RetypeOf(ch), mid) ==
        if !ViewReads(now, ColumnRef(key, f)) && f !in t.generated
           && (forall g :: g in t.generated && t.generated[g] == f ==> g == Tsv(f) && Tsv(f) in t.columns)
        then Some(mid.(tables := mid.tables[key := AfterChange(t, ch)])) else Option.None
  {
    var key, f := TableKey(Live, ch.table), ch.kind.field;
    TsvDiffers(f);
    assert ViewReads(mid, ColumnRef(key, f)) <==> ViewReads(now, ColumnRef(key, f));
    var t, u := now.tables[key], mid.tables[key];
    assert FeedsGenerated(u, f) <==>
        exists g :: g in t.generated && t.generated[g] == f && !(g == Tsv(f) && Tsv(f) in t.columns) by {
      if g :| g in t.generated && t.generated[g] == f && !(g == Tsv(f) && Tsv(f) in t.columns) {
        assert g in u.generated && u.generated[g] == f;
      }
    }
  }

  // ----- the effect accumulates

  lemma TsvDroppedMore(done: seq<SchemaChange>, ch: SchemaChange, key: TableKey, c: string)
    ensures TsvDropped(done + [ch], key, c) <==>
            TsvDropped(done, key, c) || (LiveRetype(ch) && key == TableKey(Live, ch.table) && c == Tsv(ch.kind.field))
  {}

  lemma CastDoneMore(done: seq<SchemaChange>, ch: SchemaChange, key: TableKey, c: string, want: PgType, using: Using)
    ensures CastDone(done + [ch], key, c, want, using) <==>
            || CastDone(done, key, c, want, using)
            || (Lossless(ch) && key == TableKey(Live, ch.table) && c == ch.kind.field
                && want == ch.kind.want && using == ClassifyCast(ch.kind.have, ch.kind.want).using)
    ensures NotCast(done + [ch], key, c) <==>
            NotCast(done, key, c) && !(Lossless(ch) && key == TableKey(Live, ch.table) && c == ch.kind.field)
  {
    assert ch in done + [ch];
  }

  /** Changes of one column are one change. */
  ghost predicate OneCast(changes: seq<SchemaChange>) {
    forall a, b | a in changes && b in changes && LiveRetype(a) && LiveRetype(b) ::
      a.table == b.table && a.kind.field == b.kind.field ==> a.kind == b.kind
  }

  lemma CastTwice(v: Value, using: Using)
    ensures Cast(Cast(v, using), using) == Cast(v, using)
  {}

  lemma MigratedElsewhere(t: Table, u: Table, done: seq<SchemaChange>, ch: SchemaChange, key: TableKey)
    requires Migrated(t, u, done, key) && (LiveRetype(ch) ==> key != TableKey(Live, ch.table))
    ensures Migrated(t, u, done + [ch], key)
  {
    forall c ensures TsvDropped(done + [ch], key, c) <==> TsvDropped(done, key, c) {
      TsvDroppedMore(done, ch, key, c);
    }
    forall c | c in u.columns ensures MigratedColumn(t, u, done + [ch], key, c) {
      assert MigratedColumn(t, u, done, key, c);
      forall want, using ensures CastDone(done + [ch], key, c, want, using) <==> CastDone(done, key, c, want, using) {
        CastDoneMore(done, ch, key, c, want, using);
      }
      CastDoneMore(done, ch, key, c, Text, InPlace);
    }
  }

  lemma CellAfter(t: Table, ch: SchemaChange, c: string, i: nat)
    requires LiveRetype(ch) && i < |t.rows| && c != Tsv(ch.kind.field)
    ensures |AfterChange(t, ch).rows| == |t.rows|
    ensures Cell(AfterChange(t, ch).rows[i], c) ==
            if Lossless(ch) && c == ch.kind.field
            then Cast(Cell(t.rows[i], c), ClassifyCast(ch.kind.have, ch.kind.want).using)
            else Cell(t.rows[i], c)
  {}

  lemma MigratedColumnMore(t: Table, u: Table, done: seq<SchemaChange>, ch: SchemaChange, c: string)
    requires LiveRetype(ch) && c in t.columns && c in u.columns && |u.rows| == |t.rows| && c != Tsv(ch.kind.field)
    requires MigratedColumn(t, u, done, TableKey(Live, ch.table), c) && OneCast(done + [ch])
    ensures c in AfterChange(u, ch).columns && |AfterChange(u, ch).rows| == |t.rows|
    ensures MigratedColumn(t, AfterChange(u, ch), done + [ch], TableKey(Live, ch.table), c)
  {
    var key := TableKey(Live, ch.table);
    var v := AfterChange(u, ch);
    var cast := ClassifyCast(ch.kind.have, ch.kind.want).using;
    forall i | 0 <= i < |t.rows|
      ensures Cell(v.rows[i], c) == if Lossless(ch) && c == ch.kind.field then Cast(Cell(u.rows[i], c), cast)
        else Cell(u.rows[i], c)
    {
      CellAfter(u, ch, c, i);
    }
    CastDoneMore(done, ch, key, c, Text, InPlace);
    forall want, using | CastDone(done + [ch], key, c, want, using)
      ensures v.columns[c] == want
      ensures forall i :: 0 <= i < |t.rows| ==> Cell(v.rows[i], c) == Cast(Cell(t.rows[i], c), using)
    {
      CastDoneMore(done, ch, key, c, want, using);
      if Lossless(ch) && c == ch.kind.field {
        CastsAgree(done, ch, key, want, using);
        if !NotCast(done, key, c) {
          var earlier :| earlier in done && Lossless(earlier) && key == TableKey(Live, earlier.table)
              && c == earlier.kind.field;
          assert earlier in done + [ch] && ch in done + [ch] && earlier.kind == ch.kind;
          assert CastDone(done, key, c, want, using);
          forall i | 0 <= i < |t.rows| ensures Cell(v.rows[i], c) == Cast(Cell(t.rows[i], c), using) {
            CastTwice(Cell(t.rows[i], c), using);
          }
        }
      }
    }
  }

  lemma CastsAgree(done: seq<SchemaChange>, ch: SchemaChange, key: TableKey, want: PgType, using: Using)
    requires OneCast(done + [ch]) && Lossless(ch) && key == TableKey(Live, ch.table)
    requires CastDone(done + [ch], key, ch.kind.field, want, using)
    ensures want == ch.kind.want && using == ClassifyCast(ch.kind.have, ch.kind.want).using
  {
    var earlier :| earlier in done + [ch] && Lossless(earlier) && key == TableKey(Live, earlier.table)
        && ch.kind.field == earlier.kind.field
               && want == earlier.kind.want && using == ClassifyCast(earlier.kind.have, earlier.kind.want).using;
    assert ch in done + [ch];
  }

  lemma MigratedHere(t: Table, u: Table, done: seq<SchemaChange>, ch: SchemaChange)
    requires LiveRetype(ch) && Migrated(t, u, done, TableKey(Live, ch.table)) && OneCast(done + [ch])
    requires ch.kind.field in u.columns && t.identity != Some(Tsv(ch.kind.field))
    requires forall g :: g in t.generated ==> g in t.columns
    ensures Migrated(t, AfterChange(u, ch), done + [ch], TableKey(Live, ch.table))
  {
    hide MigratedColumn;
    hide OneCast;
    var key, f := TableKey(Live, ch.table), ch.kind.field;
    var v := AfterChange(u, ch);
    TsvDiffers(f);
    forall c ensures TsvDropped(done + [ch], key, c) <==> TsvDropped(done, key, c) || c == Tsv(f) {
      TsvDroppedMore(done, ch, key, c);
    }
    forall c ensures c in v.columns <==> c in u.columns && c != Tsv(f) {}
    forall g ensures g in v.generated <==> g in u.generated && g != Tsv(f) {}
    forall c | c in v.columns ensures MigratedColumn(t, v, done + [ch], key, c) {
      MigratedColumnMore(t, u, done, ch, c);
    }
  }

  // ----- the whole file

  /** What the main results ask of the planned database and the config. */
  ghost predicate Migratable(db: Db, next: Config, changes: seq<SchemaChange>) {
    && Keyed(next) && Lists(changes, db, next) && AllOwnTsv(db, changes) && RetypesApart(changes)
    && forall k, g :: k in db.tables && g in db.tables[k].generated ==> g in db.tables[k].columns
  }

  lemma RetypeFacts(db: Db, next: Config, ch: SchemaChange) returns (d: DeclaredTable)
    requires Planned(db, next, ch) && LiveRetype(ch)
    ensures Compared(db, next, ch.collection, Live, d) && d.table == ch.table
    ensures Declares(d, ch.kind.field, ch.kind.want) && ch.kind.have != ch.kind.want
    ensures var t := db.tables[TableKey(Live, ch.table)];
      ch.kind.field in t.columns && t.columns[ch.kind.field] == ch.kind.have
  {
    d :| Compared(db, next, ch.collection, ch.env, d) && d.table == ch.table
      && TableDiff(db.tables[TableKey(ch.env, d.table)], ch.collection, next.collections[ch.collection], d, ch.kind);
  }

  /** Two retypes on one table come from one collection's one declaration. */
  lemma RetypesAgree(db: Db, next: Config, changes: seq<SchemaChange>, a: SchemaChange, b: SchemaChange)
    requires Migratable(db, next, changes) && a in changes && b in changes
    requires LiveRetype(a) && LiveRetype(b) && a.table == b.table
    ensures a.kind.field != Tsv(b.kind.field)
    ensures a.kind.field == b.kind.field ==> a.kind == b.kind
  {
    var d := RetypeFacts(db, next, a);
    var e := RetypeFacts(db, next, b);
    assert d == e;
    if a.kind.field == b.kind.field {
      DeclaredOnce(a.collection, next.collections[a.collection], next.multiple, d, a.kind.field, a.kind.want,
          b.kind.want);
    }
  }

  lemma {:induction false} LiveChangesAre(changes: seq<SchemaChange>)
    ensures forall ch :: ch in LiveChanges(changes) <==> ch in changes && Rendered(ch)
  {
    if changes != [] {
      LiveChangesAre(changes[..|changes| - 1]);
    }
  }

  function DropViews(collections: seq<string>): seq<Statement> {
    seq(|collections|, i requires 0 <= i < |collections| => DropView(ViewOf(Live, collections[i])))
  }

  lemma {:induction false} ViewLinesReady(collections: seq<string>)
    ensures ReadyOnly(ViewLines(collections)) == DropViews(collections)
  {
    if collections != [] {
      var n := |collections| - 1;
      ViewLinesReady(collections[..n]);
      assert ViewLines(collections)[..n] == ViewLines(collections[..n]);
      assert DropViews(collections) == DropViews(collections[..n]) + [DropView(ViewOf(Live, collections[n]))];
    }
  }

  lemma ViewedPush(collections: seq<string>, v: ViewKey)
    requires collections != []
    ensures var n := |collections| - 1;
      ViewedAs(collections, v) <==> ViewedAs(collections[..n], v) || v == ViewOf(Live, collections[n])
  {
    var n := |collections| - 1;
    if ViewedAs(collections[..n], v) {
      var i :| 0 <= i < n && v == ViewOf(Live, collections[..n][i]);
      assert v == ViewOf(Live, collections[i]);
    }
    if ViewedAs(collections, v) {
      var i :| 0 <= i <= n && v == ViewOf(Live, collections[i]);
      assert i < n ==> collections[..n][i] == collections[i];
    }
  }

  lemma {:induction false} ViewsDropped(collections: seq<string>, db: Db)
    ensures ExecAll(DropViews(collections), db).Some?
    ensures var after := ExecAll(DropViews(collections), db).value;
      && after.tables == db.tables && after.registry == db.registry
      && (forall v :: v in after.views <==> v in db.views && !ViewedAs(collections, v))
      && (forall v :: v in after.views ==> after.views[v] == db.views[v])
  {
    if collections != [] {
      var n := |collections| - 1;
      ViewsDropped(collections[..n], db);
      assert DropViews(collections)[..n] == DropViews(collections[..n]);
      forall v
        ensures ViewedAs(collections, v) <==> ViewedAs(collections[..n], v) || v == ViewOf(Live, collections[n])
      {
        ViewedPush(collections, v);
      }
    }
  }

  lemma NothingDone(db: Db, now: Db)
    requires now.tables == db.tables && now.registry == db.registry
    requires forall v :: v in now.views ==> v in db.views && now.views[v] == db.views[v]
    ensures MigratedDb(db, now, [])
  {}

  lemma OneCastOf(db: Db, next: Config, changes: seq<SchemaChange>, some: seq<SchemaChange>)
    requires Migratable(db, next, changes) && forall c :: c in some ==> c in changes
    ensures OneCast(some)
  {
    forall a, b | a in some && b in some && LiveRetype(a) && LiveRetype(b)
      ensures a.table == b.table && a.kind.field == b.kind.field ==> a.kind == b.kind
    {
      if a.table == b.table {
        RetypesAgree(db, next, changes, a, b);
      }
    }
  }

  lemma NotDroppedYet(db: Db, next: Config, changes: seq<SchemaChange>, done: seq<SchemaChange>, ch: SchemaChange)
    requires Migratable(db, next, changes) && ch in changes && LiveRetype(ch)
    requires forall c :: c in done ==> c in changes
    ensures !TsvDropped(done, TableKey(Live, ch.table), ch.kind.field)
  {}

  /** What has run so far: changes of the plan, none of them obstructed, with the file's views gone. */
  ghost predicate Underway(db: Db, now: Db, changes: seq<SchemaChange>, done: seq<SchemaChange>) {
    && MigratedDb(db, now, done) && (forall c :: c in done ==> c in changes) && AllFree(db, changes, done)
    && forall v :: v in now.views <==> LeftStanding(db, changes, v)
  }

  lemma TsvDroppedFor(done: seq<SchemaChange>, key: TableKey, c: string) returns (ch: SchemaChange)
    requires TsvDropped(done, key, c)
    ensures ch in done && LiveRetype(ch) && key == TableKey(Live, ch.table) && c == Tsv(ch.kind.field)
  {
    ch :| ch in done && LiveRetype(ch) && key == TableKey(Live, ch.table) && c == Tsv(ch.kind.field);
  }

  lemma TsvInjective(f: string, g: string)
    requires Tsv(f) == Tsv(g)
    ensures f == g
  {
    assert f == Tsv(f)[..|f|] && g == Tsv(g)[..|g|];
  }

  /** A dropped search column was free to go, so the same one still is. */
  lemma DroppedWasUnread(db: Db, now: Db, changes: seq<SchemaChange>, done: seq<SchemaChange>, ch: SchemaChange)
    requires LiveRetype(ch) && Underway(db, now, changes, done) && TableKey(Live, ch.table) in db.tables
    requires TsvDropped(done, TableKey(Live, ch.table), Tsv(ch.kind.field))
    requires Tsv(ch.kind.field) in db.tables[TableKey(Live, ch.table)].columns
    ensures Unread(db, changes, ColumnRef(TableKey(Live, ch.table), Tsv(ch.kind.field)))
  {
    var other := TsvDroppedFor(done, TableKey(Live, ch.table), Tsv(ch.kind.field));
    TsvInjective(other.kind.field, ch.kind.field);
    assert Free(db, changes, other);
  }

  lemma ReadNow(db: Db, now: Db, changes: seq<SchemaChange>, done: seq<SchemaChange>, ref: ColumnRef)
    requires Underway(db, now, changes, done)
    ensures ViewReads(now, ref) <==> !Unread(db, changes, ref)
  {
    if ViewReads(now, ref) {
      var v :| v in now.views && ref in now.views[v];
      assert LeftStanding(db, changes, v);
    }
    if !Unread(db, changes, ref) {
      var v :| LeftStanding(db, changes, v) && ref in db.views[v];
      assert v in now.views;
    }
  }

  lemma DroppedIsOwnTsv(db: Db, changes: seq<SchemaChange>, done: seq<SchemaChange>, key: TableKey, g: string)
    requires AllOwnTsv(db, changes) && (forall c :: c in done ==> c in changes) && TsvDropped(done, key, g)
    requires key in db.tables && g in db.tables[key].generated
    ensures g == Tsv(db.tables[key].generated[g])
  {
    var ch := TsvDroppedFor(done, key, g);
    assert OwnsTsv(db, ch);
  }

  /** What generates what from the column is as it was, its own search column aside. */
  lemma FeedsNow(db: Db, now: Db, changes: seq<SchemaChange>, done: seq<SchemaChange>, ch: SchemaChange, g: string)
    requires LiveRetype(ch) && Underway(db, now, changes, done) && AllOwnTsv(db, changes)
    requires TableKey(Live, ch.table) in db.tables && g != Tsv(ch.kind.field)
    ensures var t, u := db.tables[TableKey(Live, ch.table)], now.tables[TableKey(Live, ch.table)];
      g in t.generated && t.generated[g] == ch.kind.field <==> g in u.generated && u.generated[g] == ch.kind.field
  {
    var key := TableKey(Live, ch.table);
    assert Migrated(db.tables[key], now.tables[key], done, key);
    if g in db.tables[key].generated && TsvDropped(done, key, g) {
      DroppedIsOwnTsv(db, changes, done, key, g);
    }
  }

  /** The step is legal now exactly when nothing left standing was in its way from the start. */
  lemma LegalIsFree(db: Db, now: Db, changes: seq<SchemaChange>, done: seq<SchemaChange>, ch: SchemaChange)
    requires LiveRetype(ch) && AllOwnTsv(db, changes) && OwnsTsv(db, ch) && Underway(db, now, changes, done)
    requires ch.kind.field in db.tables[TableKey(Live, ch.table)].columns
    requires forall g :: g in db.tables[TableKey(Live, ch.table)].generated ==>
      g in db.tables[TableKey(Live, ch.table)].columns
    requires !TsvDropped(done, TableKey(Live, ch.table), ch.kind.field)
    ensures var key := TableKey(Live, ch.table);
      key in now.tables && ch.kind.field in now.tables[key].columns && (Legal(now, ch) <==> Free(db, changes, ch))
  {
    hide LeftStanding;
    hide Unread;
    hide MigratedColumn;
    hide AllFree;
    hide AllOwnTsv;
    var key, f := TableKey(Live, ch.table), ch.kind.field;
    var t, u := db.tables[key], now.tables[key];
    assert Migrated(t, u, done, key);
    ReadNow(db, now, changes, done, ColumnRef(key, f));
    ReadNow(db, now, changes, done, ColumnRef(key, Tsv(f)));
    if Tsv(f) in t.columns && TsvDropped(done, key, Tsv(f)) {
      DroppedWasUnread(db, now, changes, done, ch);
    }
    assert !FeedsGenerated(u, Tsv(f));
    forall g | g != Tsv(f)
      ensures g in t.generated && t.generated[g] == f <==> g in u.generated && u.generated[g] == f
    {
      FeedsNow(db, now, changes, done, ch, g);
    }
  }

  lemma StepRuns(db: Db, next: Config, changes: seq<SchemaChange>, now: Db, done: seq<SchemaChange>, ch: SchemaChange)
    requires Migratable(db, next, changes) && ch in changes && LiveRetype(ch) && Underway(db, now, changes, done)
    ensures var r := ExecAll(ReadyOnly(LinesOf(ch)), now);
      && (r.Some? <==> Free(db, changes, ch))
      && (r.Some? ==> MigratedDb(db, r.value, done + [ch]) && r.value.views == now.views)
  {
    var d := RetypeFacts(db, next, ch);
    assert OwnsTsv(db, ch);
    NotDroppedYet(db, next, changes, done, ch);
    LegalIsFree(db, now, changes, done, ch);
    ChangeRuns(now, ch);
    OneCastOf(db, next, changes, done + [ch]);
    if Legal(now, ch) {
      StepKeeps(db, now, done, ch, ExecAll(ReadyOnly(LinesOf(ch)), now).value);
    }
  }

  lemma KeyKeeps(db: Db, now: Db, done: seq<SchemaChange>, ch: SchemaChange, k: TableKey, u: Table)
    requires LiveRetype(ch) && MigratedDb(db, now, done) && OneCast(done + [ch]) && k in db.tables
    requires var t := db.tables[k];
      t.identity != Some(Tsv(ch.kind.field)) && forall g :: g in t.generated ==> g in t.columns
    requires k == TableKey(Live, ch.table) && ch.kind.field in now.tables[k].columns
    requires u == AfterChange(now.tables[k], ch)
    ensures Migrated(db.tables[k], u, done + [ch], k)
  {
    assert Migrated(db.tables[k], now.tables[k], done, k);
    MigratedHere(db.tables[k], now.tables[k], done, ch);
  }

  lemma StepKeeps(db: Db, now: Db, done: seq<SchemaChange>, ch: SchemaChange, after: Db)
    requires LiveRetype(ch) && MigratedDb(db, now, done) && OneCast(done + [ch])
      && TableKey(Live, ch.table) in db.tables
    requires var t := db.tables[TableKey(Live, ch.table)];
      t.identity != Some(Tsv(ch.kind.field)) && forall g :: g in t.generated ==> g in t.columns
    requires ch.kind.field in now.tables[TableKey(Live, ch.table)].columns
    requires var key := TableKey(Live, ch.table);
      after == now.(tables := now.tables[key := AfterChange(now.tables[key], ch)])
    ensures MigratedDb(db, after, done + [ch])
  {
    hide Migrated;
    hide AfterChange;
    hide OneCast;
    var key := TableKey(Live, ch.table);
    KeyKeeps(db, now, done, ch, key, after.tables[key]);
    forall k | k in db.tables && k != key ensures Migrated(db.tables[k], after.tables[k], done + [ch], k) {
      assert Migrated(db.tables[k], now.tables[k], done, k);
      MigratedElsewhere(db.tables[k], now.tables[k], done, ch, k);
      assert after.tables[k] == now.tables[k];
    }
  }

  lemma SkipKeeps(db: Db, now: Db, done: seq<SchemaChange>, ch: SchemaChange)
    requires !LiveRetype(ch) && MigratedDb(db, now, done)
    ensures MigratedDb(db, now, done + [ch])
  {
    forall k | k in db.tables ensures Migrated(db.tables[k], now.tables[k], done + [ch], k) {
      MigratedElsewhere(db.tables[k], now.tables[k], done, ch, k);
    }
  }

  lemma LinesRun(db: Db, next: Config, changes: seq<SchemaChange>, now: Db, done: seq<SchemaChange>, ch: SchemaChange)
    requires Migratable(db, next, changes) && ch in changes && Rendered(ch) && Underway(db, now, changes, done)
    ensures var r := ExecAll(ReadyOnly(LinesOf(ch)), now);
      && (r.Some? <==> AllFree(db, changes, done + [ch]))
      && (r.Some? ==> Underway(db, r.value, changes, done + [ch]))
  {
    hide Migratable;
    hide Free;
    hide LeftStanding;
    hide AllFree;
    FreeMore(db, changes, done, ch);
    if LiveRetype(ch) {
      StepRuns(db, next, changes, now, done, ch);
    } else {
      CommentedOnly(LinesOf(ch));
      SkipKeeps(db, now, done, ch);
    }
  }

  lemma FreeMore(db: Db, changes: seq<SchemaChange>, done: seq<SchemaChange>, ch: SchemaChange)
    requires AllFree(db, changes, done)
    ensures AllFree(db, changes, done + [ch]) <==> (LiveRetype(ch) ==> Free(db, changes, ch))
    ensures (forall c :: c in done ==> c in changes) && ch in changes ==> forall c :: c in done + [ch] ==> c in changes
  {
    assert forall c :: c in done + [ch] <==> c in done || c == ch;
  }

  function AfterLines(live: seq<SchemaChange>, start: Db): Option<Db> {
    ExecAll(ReadyOnly(ChangeLines(live)), start)
  }

  lemma OneMore(live: seq<SchemaChange>, last: SchemaChange, start: Db)
    ensures AfterLines(live + [last], start) ==
      match AfterLines(live, start) case None => Option.None case Some(now) => ExecAll(ReadyOnly(LinesOf(last)), now)
  {
    assert (live + [last])[..|live|] == live;
    ReadyAppend(ChangeLines(live), LinesOf(last));
    ExecAppend(ReadyOnly(ChangeLines(live)), ReadyOnly(LinesOf(last)), start);
  }

  /** The lines of the first changes run exactly when nothing left standing is in the way of any of them. */
  lemma {:induction false} ChangesRun(
      db: Db, next: Config, changes: seq<SchemaChange>, start: Db, live: seq<SchemaChange>)
    requires Migratable(db, next, changes) && Underway(db, start, changes, [])
    requires forall c :: c in live ==> c in changes && Rendered(c)
    ensures AfterLines(live, start).Some? <==> AllFree(db, changes, live)
    ensures AfterLines(live, start).Some? ==> Underway(db, AfterLines(live, start).value, changes, live)
  {
    if live == [] {
      assert AfterLines(live, start) == Some(start);
    } else {
      var before, last := live[..|live| - 1], live[|live| - 1];
      assert live == before + [last] && last in live;
      ChangesRun(db, next, changes, start, before);
      OneMore(before, last, start);
      if AfterLines(before, start).Some? {
        LinesRun(db, next, changes, AfterLines(before, start).value, before, last);
      }
    }
  }

  /**
   Main result: the ready part of the file runs if and only if nothing left standing after its view drops is
   in the way of a retyped column or its search column; and then the whole does what it says.
   */
  lemma MigrationRuns(db: Db, next: Config, changes: seq<SchemaChange>)
    requires Migratable(db, next, changes)
    ensures Migrate(changes, db).Some? <==> AllFree(db, changes, changes)
    ensures Migrate(changes, db).Some? ==> MigratedDb(db, Migrate(changes, db).value, LiveChanges(changes))
  {
    var live := LiveChanges(changes);
    LiveChangesAre(changes);
    ReadyAppend(ViewLines(Touched(live)), ChangeLines(live));
    ViewLinesReady(Touched(live));
    ViewsDropped(Touched(live), db);
    var start := ExecAll(DropViews(Touched(live)), db).value;
    NothingDone(db, start);
    ChangesRun(db, next, changes, start, live);
    ExecAppend(DropViews(Touched(live)), ReadyOnly(ChangeLines(live)), db);
  }

  // ----- planning after the migration

  /** The migration ran, and left this. */
  ghost predicate RanFrom(db: Db, next: Config, changes: seq<SchemaChange>, after: Db) {
    Migratable(db, next, changes) && Migrate(changes, db) == Some(after)
  }

  lemma Ran(db: Db, next: Config, changes: seq<SchemaChange>, after: Db)
    requires RanFrom(db, next, changes, after)
    ensures MigratedDb(db, after, LiveChanges(changes))
    ensures forall ch :: ch in LiveChanges(changes) <==> ch in changes && Rendered(ch)
  {
    MigrationRuns(db, next, changes);
    LiveChangesAre(changes);
  }

  /** A retype of this very table is about a column its declaration names. */
  lemma RetypeDeclared(
      db: Db, next: Config, changes: seq<SchemaChange>, d: DeclaredTable, name: string, ch: SchemaChange)
    requires Migratable(db, next, changes) && ch in changes && LiveRetype(ch)
    requires Compared(db, next, name, Live, d) && ch.table == d.table
    ensures ch.collection == name && Declares(d, ch.kind.field, ch.kind.want) && DeclaresName(d, ch.kind.field)
  {
    var e := RetypeFacts(db, next, ch);
    assert e == d;
  }

  /** The search column a retype drops is neither declared nor stray. */
  lemma SearchColumnKnown(
      db: Db, next: Config, changes: seq<SchemaChange>, d: DeclaredTable, name: string, ch: SchemaChange)
    requires Migratable(db, next, changes) && SearchNamesFree(db, next, changes) && ch in changes && LiveRetype(ch)
    requires Compared(db, next, name, Live, d) && ch.table == d.table
    ensures !DeclaresName(d, Tsv(ch.kind.field))
    ensures Tsv(ch.kind.field) in db.tables[TableKey(Live, d.table)].columns ==> Tsv(ch.kind.field) in d.structural
  {
    RetypeDeclared(db, next, changes, d, name, ch);
    if Tsv(ch.kind.field) in db.tables[TableKey(Live, d.table)].columns {
      var j := DeclaredField(next.collections[name], next.multiple, name, ch.kind.field);
      TsvIsStructural(next.collections[name], j);
    }
  }

  /** A column of a compared table that is declared, or is no search column of a retyped one, stays. */
  lemma ColumnStays(
      db: Db, next: Config, changes: seq<SchemaChange>, after: Db, d: DeclaredTable, name: string, env: Env, f: string)
    requires RanFrom(db, next, changes, after) && SearchNamesFree(db, next, changes)
    requires Compared(db, next, name, env, d) && (DeclaresName(d, f) || f !in d.structural)
    ensures var key := TableKey(env, d.table);
      && key in after.tables
      && (f in after.tables[key].columns <==> f in db.tables[key].columns)
  {
    Ran(db, next, changes, after);
    var key := TableKey(env, d.table);
    var live := LiveChanges(changes);
    assert Migrated(db.tables[key], after.tables[key], live, key);
    if TsvDropped(live, key, f) {
      var ch :| ch in live && LiveRetype(ch) && key == TableKey(Live, ch.table) && f == Tsv(ch.kind.field);
      SearchColumnKnown(db, next, changes, d, name, ch);
    }
  }

  /** A column that stays has its old type and values, or those of the one lossless retype of it. */
  lemma ColumnAfter(t: Table, u: Table, live: seq<SchemaChange>, key: TableKey, f: string)
    returns (cause: Option<SchemaChange>)
    requires Migrated(t, u, live, key) && f in u.columns
    ensures cause.None? ==>
      && NotCast(live, key, f) && u.columns[f] == t.columns[f]
      && forall i :: 0 <= i < |t.rows| ==> Cell(u.rows[i], f) == Cell(t.rows[i], f)
    ensures cause.Some? ==> var ch := cause.value;
      && ch in live && Lossless(ch) && key == TableKey(Live, ch.table) && f == ch.kind.field
      && u.columns[f] == ch.kind.want
      && forall i :: 0 <= i < |t.rows| ==>
           Cell(u.rows[i], f) == Cast(Cell(t.rows[i], f), ClassifyCast(ch.kind.have, ch.kind.want).using)
  {
    assert MigratedColumn(t, u, live, key, f);
    if NotCast(live, key, f) {
      cause := Option.None;
    } else {
      var ch :| ch in live && Lossless(ch) && key == TableKey(Live, ch.table) && f == ch.kind.field;
      assert CastDone(live, key, f, ch.kind.want, ClassifyCast(ch.kind.have, ch.kind.want).using);
      cause := Some(ch);
    }
  }

  /** The type of a column after the migration: a lossless retype's target, or what it was. */
  lemma TypeAfter(
      db: Db, next: Config, changes: seq<SchemaChange>, after: Db, d: DeclaredTable, name: string, env: Env, f: string)
    requires RanFrom(db, next, changes, after) && Compared(db, next, name, env, d)
    requires TableKey(env, d.table) in after.tables && f in after.tables[TableKey(env, d.table)].columns
    ensures var key := TableKey(env, d.table);
      && f in db.tables[key].columns
      && (after.tables[key].columns[f] == db.tables[key].columns[f] || Declares(d, f, after.tables[key].columns[f]))
      && (!DeclaresName(d, f) ==> after.tables[key].columns[f] == db.tables[key].columns[f])
  {
    Ran(db, next, changes, after);
    var key := TableKey(env, d.table);
    var cause := ColumnAfter(db.tables[key], after.tables[key], LiveChanges(changes), key, f);
    if cause.Some? {
      RetypeDeclared(db, next, changes, d, name, cause.value);
    }
  }

  lemma TypeKept(db: Db, next: Config, changes: seq<SchemaChange>, after: Db, ch: SchemaChange)
    requires RanFrom(db, next, changes, after) && Planned(db, next, ch) && ch.kind.TypeChange?
    requires var key := TableKey(ch.env, ch.table); key in after.tables && ch.kind.field in after.tables[key].columns
    ensures after.tables[TableKey(ch.env, ch.table)].columns[ch.kind.field]
            == if Lossless(ch) then ch.kind.want else ch.kind.have
  {
    Ran(db, next, changes, after);
    var key, f := TableKey(ch.env, ch.table), ch.kind.field;
    var live := LiveChanges(changes);
    CastIffLossless(db, next, changes, ch);
    assert key in db.tables && Migrated(db.tables[key], after.tables[key], live, key);
    assert MigratedColumn(db.tables[key], after.tables[key], live, key, f);
    if Lossless(ch) {
      assert CastDone(live, key, f, ch.kind.want, ClassifyCast(ch.kind.have, ch.kind.want).using);
    }
  }

  lemma RetypeStillPlanned(
      db: Db, next: Config, changes: seq<SchemaChange>, after: Db, ch: SchemaChange, d: DeclaredTable)
    requires SearchNamesFree(db, next, changes)
    requires RanFrom(db, next, changes, after) && Compared(db, next, ch.collection, ch.env, d) && d.table == ch.table
    requires ch.kind.TypeChange? && TableKey(ch.env, d.table) in after.tables
    ensures var key := TableKey(ch.env, d.table);
      ColumnDiff(after.tables[key], d, ch.kind) <==> ColumnDiff(db.tables[key], d, ch.kind) && !Lossless(ch)
  {
    var key := TableKey(ch.env, d.table);
    var f := ch.kind.field;
    if ColumnDiff(db.tables[key], d, ch.kind) {
      assert Drifted(db, next, ch);
      ColumnStays(db, next, changes, after, d, ch.collection, ch.env, f);
      TypeKept(db, next, changes, after, ch);
    }
    if ColumnDiff(after.tables[key], d, ch.kind) {
      NewRetypeIsOld(db, next, changes, after, ch, d);
    }
  }

  lemma NewRetypeIsOld(db: Db, next: Config, changes: seq<SchemaChange>, after: Db, ch: SchemaChange, d: DeclaredTable)
    requires RanFrom(db, next, changes, after) && Compared(db, next, ch.collection, ch.env, d) && d.table == ch.table
    requires ch.kind.TypeChange? && TableKey(ch.env, d.table) in after.tables
    requires ColumnDiff(after.tables[TableKey(ch.env, d.table)], d, ch.kind)
    ensures ColumnDiff(db.tables[TableKey(ch.env, d.table)], d, ch.kind)
  {
    var f := ch.kind.field;
    TypeAfter(db, next, changes, after, d, ch.collection, ch.env, f);
    if Declares(d, f, ch.kind.have) {
      DeclaredOnce(ch.collection, next.collections[ch.collection], next.multiple, d, f, ch.kind.want, ch.kind.have);
    }
  }

  lemma CastIffLossless(db: Db, next: Config, changes: seq<SchemaChange>, ch: SchemaChange)
    requires Migratable(db, next, changes) && Planned(db, next, ch) && ch.kind.TypeChange?
    ensures NotCast(LiveChanges(changes), TableKey(ch.env, ch.table), ch.kind.field) <==> !Lossless(ch)
  {
    LiveChangesAre(changes);
    var live, key := LiveChanges(changes), TableKey(ch.env, ch.table);
    assert ch in changes;
    if Lossless(ch) {
      assert ch in live;
    } else if !NotCast(live, key, ch.kind.field) {
      var other :| other in live && Lossless(other) && key == TableKey(Live, other.table)
          && ch.kind.field == other.kind.field;
      RetypesAgree(db, next, changes, ch, other);
    }
  }

  lemma StrayStillPlanned(
      db: Db, next: Config, changes: seq<SchemaChange>, after: Db, ch: SchemaChange, d: DeclaredTable)
    requires SearchNamesFree(db, next, changes)
    requires RanFrom(db, next, changes, after) && Compared(db, next, ch.collection, ch.env, d) && d.table == ch.table
    requires ch.kind.DropColumnChange? && TableKey(ch.env, d.table) in after.tables
    ensures var key := TableKey(ch.env, d.table);
      ColumnDiff(after.tables[key], d, ch.kind) <==> ColumnDiff(db.tables[key], d, ch.kind)
  {
    var key := TableKey(ch.env, d.table);
    var f := ch.kind.field;
    if !DeclaresName(d, f) && f !in d.structural {
      ColumnStays(db, next, changes, after, d, ch.collection, ch.env, f);
      if f in db.tables[key].columns {
        TypeAfter(db, next, changes, after, d, ch.collection, ch.env, f);
      }
    }
  }

  lemma DriftAfter(db: Db, next: Config, changes: seq<SchemaChange>, after: Db, ch: SchemaChange, d: DeclaredTable)
    requires SearchNamesFree(db, next, changes)
    requires RanFrom(db, next, changes, after) && Compared(db, next, ch.collection, ch.env, d) && d.table == ch.table
    requires Destructive(ch)
    ensures var key := TableKey(ch.env, d.table);
      && key in after.tables
      && (TableDiff(after.tables[key], ch.collection, next.collections[ch.collection], d, ch.kind) <==>
          TableDiff(db.tables[key], ch.collection, next.collections[ch.collection], d, ch.kind) && !Lossless(ch))
  {
    Ran(db, next, changes, after);
    var key := TableKey(ch.env, d.table);
    assert Migrated(db.tables[key], after.tables[key], LiveChanges(changes), key);
    match ch.kind {
      case TypeChange(_, _, _) => RetypeStillPlanned(db, next, changes, after, ch, d);
      case DropColumnChange(_, _) => StrayStillPlanned(db, next, changes, after, ch, d);
      case _ =>
    }
  }

  /** Main result: of the destructive changes, exactly the lossless live retypes are gone. */
  lemma PlanAfterMigration(db: Db, next: Config, changes: seq<SchemaChange>, after: Db, ch: SchemaChange)
    requires SearchNamesFree(db, next, changes)
    requires RanFrom(db, next, changes, after) && Destructive(ch)
    ensures Planned(after, next, ch) <==> Planned(db, next, ch) && !Lossless(ch)
  {
    Ran(db, next, changes, after);
    assert Dropped(after, next, ch) <==> Dropped(db, next, ch);
    if Drifted(after, next, ch) {
      var d: DeclaredTable :| Compared(after, next, ch.collection, ch.env, d) && d.table == ch.table
        && TableDiff(after.tables[TableKey(ch.env, d.table)], ch.collection, next.collections[ch.collection], d,
            ch.kind);
      assert Compared(db, next, ch.collection, ch.env, d);
      DriftAfter(db, next, changes, after, ch, d);
    }
    if Drifted(db, next, ch) {
      var d: DeclaredTable :| Compared(db, next, ch.collection, ch.env, d) && d.table == ch.table
        && TableDiff(db.tables[TableKey(ch.env, d.table)], ch.collection, next.collections[ch.collection], d, ch.kind);
      DriftAfter(db, next, changes, after, ch, d);
      assert Compared(after, next, ch.collection, ch.env, d);
    }
  }

  /** Main result: the next apply refuses exactly over populated live tables that still need review. */
  lemma MigrationUnblocks(
      db: Db, next: Config, changes: seq<SchemaChange>, after: Db, again: seq<SchemaChange>, matching: set<string>)
    requires SearchNamesFree(db, next, changes)
    requires RanFrom(db, next, changes, after) && Lists(again, after, next)
    ensures HasRefused(Applied(after, next, again, matching)) <==>
            exists ch :: Planned(db, next, ch) && ReviewRequired(ch) && Blocks(db, ch)
  {
    Ran(db, next, changes, after);
    RefusesExactly(after, next, again, matching);
    forall ch ensures Blocks(after, ch) <==> Blocks(db, ch) {
      if TableKey(Live, ch.table) in db.tables {
        assert Migrated(db.tables[TableKey(Live, ch.table)], after.tables[TableKey(Live, ch.table)],
                        LiveChanges(changes), TableKey(Live, ch.table));
      }
    }
    forall ch | Destructive(ch) && ch.env == Live
      ensures Planned(after, next, ch) <==> Planned(db, next, ch) && ReviewRequired(ch)
    {
      PlanAfterMigration(db, next, changes, after, ch);
      if Planned(db, next, ch) && Dropped(db, next, ch) {
        assert ch.kind == DropCollection;
      }
    }
  }

  // ----- the data

  /** One of the file's ready statements wraps this column's values into one-element arrays. */
  ghost predicate Wrapped(changes: seq<SchemaChange>, key: TableKey, c: string) {
    exists ch :: ch in changes && LiveRetype(ch) && key == TableKey(Live, ch.table) && c == ch.kind.field
                 && ch.kind.have == Text && ch.kind.want == TextArray
  }

  /**
   What the ready statements do to a column: it is lost exactly when it carries the name of a retyped column's
   search column; otherwise it is wrapped, exactly if it is retyped from text to text[], or every row keeps its value.
   */
  lemma MigrationKeepsRows(db: Db, next: Config, changes: seq<SchemaChange>, after: Db, key: TableKey, c: string)
    requires RanFrom(db, next, changes, after) && key in db.tables && c in db.tables[key].columns
    ensures key in after.tables && |after.tables[key].rows| == |db.tables[key].rows|
    ensures c !in after.tables[key].columns <==>
            exists ch :: ch in changes && LiveRetype(ch) && key == TableKey(Live, ch.table) && c == Tsv(ch.kind.field)
    ensures c in after.tables[key].columns ==> forall i :: 0 <= i < |db.tables[key].rows| ==>
            var v := Cell(db.tables[key].rows[i], c);
            Cell(after.tables[key].rows[i], c) == if Wrapped(changes, key, c) then Cast(v, WrapArray) else v
  {
    Ran(db, next, changes, after);
    assert Migrated(db.tables[key], after.tables[key], LiveChanges(changes), key);
    LostIsSearchName(changes, key, c);
    if c in after.tables[key].columns {
      var cause := ColumnAfter(db.tables[key], after.tables[key], LiveChanges(changes), key, c);
      WrappedCause(db, next, changes, key, c, cause);
    }
  }

  /** The one lossless retype of a column wraps it, or leaves its values alone. */
  lemma WrappedCause(
      db: Db, next: Config, changes: seq<SchemaChange>, key: TableKey, c: string, cause: Option<SchemaChange>)
    requires Migratable(db, next, changes)
    requires cause.None? ==> NotCast(LiveChanges(changes), key, c)
    requires cause.Some? ==> var ch := cause.value;
      ch in LiveChanges(changes) && Lossless(ch) && key == TableKey(Live, ch.table) && c == ch.kind.field
    ensures cause.None? ==> !Wrapped(changes, key, c)
    ensures cause.Some? ==>
      var using := ClassifyCast(cause.value.kind.have, cause.value.kind.want).using;
      using == if Wrapped(changes, key, c) then WrapArray else InPlace
  {
    LiveChangesAre(changes);
    if Wrapped(changes, key, c) {
      var ch :| ch in changes && LiveRetype(ch) && key == TableKey(Live, ch.table) && c == ch.kind.field
                && ch.kind.have == Text && ch.kind.want == TextArray;
      assert ch in LiveChanges(changes) && Lossless(ch);
      RetypesAgree(db, next, changes, ch, cause.value);
    }
  }

  lemma LostIsSearchName(changes: seq<SchemaChange>, key: TableKey, c: string)
    ensures TsvDropped(LiveChanges(changes), key, c) <==>
            exists ch :: ch in changes && LiveRetype(ch) && key == TableKey(Live, ch.table) && c == Tsv(ch.kind.field)
  {
    LiveChangesAre(changes);
    if ch :| ch in changes && LiveRetype(ch) && key == TableKey(Live, ch.table) && c == Tsv(ch.kind.field) {
      assert ch in LiveChanges(changes);
    }
  }

  // ----- a moved primary key

  /** A pk change of the collection's live table that the next apply would refuse over. */
  ghost predicate PkBlocked(db: Db, next: Config, name: string) {
    exists ch: SchemaChange :: ch.collection == name && ch.kind.PkChange? && Planned(db, next, ch) && Blocks(db, ch)
  }

  /** Without the identity index the planner reads the table's own key, `_rev`. */
  lemma PkMoveReplanned(db: Db, next: Config, ch: SchemaChange, after: Db)
    requires Planned(db, next, ch) && ch.kind.PkChange? && Blocks(db, ch)
    requires db.tables[TableKey(Live, ch.table)].primaryKey == Some("_rev")
    requires Exec(DropIdentity(TableKey(Live, ch.table)), db) == Some(after)
    ensures PkBlocked(after, next, ch.collection) <==> ch.kind.wantPk != "_rev"
  {
    var key := TableKey(Live, ch.table);
    var d: DeclaredTable :| Compared(db, next, ch.collection, ch.env, d) && d.table == ch.table
      && TableDiff(db.tables[TableKey(ch.env, d.table)], ch.collection, next.collections[ch.collection], d, ch.kind);
    if ch.kind.wantPk != "_rev" {
      var moved := ch.(kind := PkChange("_rev", ch.kind.wantPk));
      assert Compared(after, next, ch.collection, Live, d);
      assert IdentityDiff(after.tables[key], ch.collection, next.collections[ch.collection], d, moved.kind);
      assert Drifted(after, next, moved);
    }
  }
}
