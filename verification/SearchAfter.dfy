/**
 What becomes of a search column when its field is retyped: the migration drops it for the next apply to
 recreate, which works exactly when the column is text afterwards.
 */
module SearchAfter {
  import opened Wrappers
  import opened Config
  import opened Catalog
  import opened Ddl
  import opened DdlFacts
  import opened Rules
  import opened Plan
  import opened Apply
  import ApplySafety
  import opened Convergence
  import opened Idempotence
  import opened PlannersAgree
  import opened Migration
  import opened MigrationProofs
  import opened Pipeline
  import References

  /** A retype of the plan, and the database the migration of a history's last state leaves. */
  ghost predicate Retyped(states: seq<Db>, next: Config, changes: seq<SchemaChange>, after: Db, ch: SchemaChange) {
    && History(states) && SchemaRules(next) && NoTsvFields(next)
    && Lists(changes, states[|states| - 1], next) && Migrate(changes, states[|states| - 1]) == Some(after)
    && ch in changes && LiveRetype(ch)
  }

  /** The retyped column is there with its new type if the cast needed no review, without its search column. */
  lemma ColumnsAfter(states: seq<Db>, next: Config, changes: seq<SchemaChange>, after: Db, ch: SchemaChange)
    returns (d: DeclaredTable)
    requires Retyped(states, next, changes, after, ch)
    ensures Compared(after, next, ch.collection, Live, d) && d.table == ch.table
      && Declares(d, ch.kind.field, ch.kind.want)
    ensures var t, f := after.tables[TableKey(Live, ch.table)], ch.kind.field;
      && Tsv(f) !in t.columns && f in t.columns
      && t.columns[f] == if Lossless(ch) then ch.kind.want else ch.kind.have
  {
    hide Tidy;
    hide NoTsvFields;
    hide Migratable;
    hide SearchNamesFree;
    var db := states[|states| - 1];
    HistoryTidy(states);
    TidyMigratable(db, next, changes);
    d := RetypeFacts(db, next, ch);
    Ran(db, next, changes, after);
    var key, f := TableKey(Live, ch.table), ch.kind.field;
    assert Migrated(db.tables[key], after.tables[key], LiveChanges(changes), key);
    LostIsSearchName(changes, key, Tsv(f));
    assert DeclaresName(d, f);
    ColumnStays(db, next, changes, after, d, ch.collection, Live, f);
    TypeKept(db, next, changes, after, ch);
  }

  /** Main result: after the migration the search column can be added again exactly if the column is text. */
  lemma SearchReadded(states: seq<Db>, next: Config, changes: seq<SchemaChange>, after: Db, ch: SchemaChange)
    requires Retyped(states, next, changes, after, ch)
    ensures Exec(AddColumn(TableKey(Live, ch.table), TsvColumn(ch.kind.field)), after).Some? <==>
            (if Lossless(ch) then ch.kind.want else ch.kind.have) == Text
  {
    var d := ColumnsAfter(states, next, changes, after, ch);
  }

  predicate Searchable(c: Collection, f: string) {
    exists j :: 0 <= j < |c.fields| && c.fields[j].name == f && c.fields[j].field.searchable
  }

  /**
   Main result: so a searchable vocabulary that becomes multi-valued, retyped from text to text[] without review,
   leaves a database on which no apply of the same config finishes.
   */
  lemma WidenedNeverApplies(
      states: seq<Db>, next: Config, changes: seq<SchemaChange>, after: Db, ch: SchemaChange,
      again: seq<SchemaChange>, matching: set<string>)
    requires Retyped(states, next, changes, after, ch) && Lossless(ch) && ch.kind.want != Text && Apart(next)
    requires ch.table == Main(ch.collection) && ch.collection in next.collections
    requires Searchable(next.collections[ch.collection], ch.kind.field)
    requires Lists(again, after, next)
    ensures Applied(after, next, again, matching).failure.Some?
  {
    var d := ColumnsAfter(states, next, changes, after, ch);
    RetypedIsSeen(states, next, changes, after, ch);
    if Applied(after, next, again, matching).failure.None? {
      WidenedIsStuck(next, after, ch, d, again, matching);
    }
  }

  /** A table of a history's state that the planner finds is where its statements land. */
  lemma RetypedIsSeen(states: seq<Db>, next: Config, changes: seq<SchemaChange>, after: Db, ch: SchemaChange)
    requires Retyped(states, next, changes, after, ch)
    ensures Seen(ch.table)
  {
    References.HistoryIsDeployment(states);
    References.DeploymentKeepsReferences(states);
    References.HavingKeysIsSound(states[|states| - 1]);
    var d := RetypeFacts(states[|states| - 1], next, ch);
  }

  /** Without its search column and with the field no longer text, the table stops every apply. */
  ghost predicate Stuck(after: Db, next: Config, ch: SchemaChange, d: DeclaredTable) {
    && SchemaRules(next) && NoTsvFields(next) && LiveRetype(ch) && ch.kind.want != Text && Apart(next)
    && Compared(after, next, ch.collection, Live, d) && d.table == ch.table == Main(ch.collection)
    && Landed(Live, d.table) == TableKey(Live, ch.table) && Declares(d, ch.kind.field, ch.kind.want)
    && var t, f := after.tables[TableKey(Live, ch.table)], ch.kind.field;
       Tsv(f) !in t.columns && f in t.columns && t.columns[f] == ch.kind.want
  }

  lemma WidenedIsStuck(
      next: Config, after: Db, ch: SchemaChange, d: DeclaredTable, again: seq<SchemaChange>, matching: set<string>)
    requires Stuck(after, next, ch, d) && Searchable(next.collections[ch.collection], ch.kind.field)
    requires Lists(again, after, next)
    ensures Applied(after, next, again, matching).failure.Some?
  {
    hide Applied;
    hide Sourced;
    hide Built;
    hide Viewed;
    hide Base;
    hide ApplySafety.Grown;
    var done := Applied(after, next, again, matching).db;
    if Applied(after, next, again, matching).failure.None? {
      FinishedSettles(after, next, again, matching);
      NoSearchColumn(after, next, again, done, ch, d);
      assert Built(next, ch.collection, done);
      SearchPresent(next, done, ch.collection, Live, Tsv(ch.kind.field));
    }
  }

  /** Neither a table that survives settling nor one built afresh has the field as text to search. */
  lemma NoSearchColumn(after: Db, next: Config, again: seq<SchemaChange>, done: Db, ch: SchemaChange, d: DeclaredTable)
    requires Stuck(after, next, ch, d) && Blocked(after, again) == []
    requires Sourced(next, Base(after, again), done) && ApplySafety.Grown(Base(after, again), done)
    ensures var key := TableKey(Live, ch.table); key in done.tables ==> Tsv(ch.kind.field) !in done.tables[key].columns
  {
    var key, f, name := TableKey(Live, ch.table), ch.kind.field, ch.collection;
    if key in done.tables && Tsv(f) in done.tables[key].columns {
      ResolvedTables(after, again);
      assert SourcedTable(next, Base(after, again), key, done.tables[key]);
      TsvUndeclared(next, name, d, f);
      var j := SearchFed(next, Base(after, again), Live, name, done.tables[key].columns, Tsv(f));
      TsvInjective(next.collections[name].fields[j].name, f);
      if key !in Base(after, again).tables {
        NewFieldType(next, Base(after, again), name, d, done.tables[key].columns, f, ch.kind.want);
      }
    }
  }

  /** A declared column of a table built afresh has its declared type. */
  lemma NewFieldType(
      next: Config, base: Db, name: string, d: DeclaredTable, cols: map<string, PgType>, f: string, want: PgType)
    requires SchemaRules(next) && Apart(next) && name in next.collections && f in cols
    requires d in DeclaredTables(name, next.collections[name], next.multiple) && Declares(d, f, want)
    requires Introduced(next, base, Landed(Live, d.table), cols, f) && Landed(Live, d.table) !in base.tables
    ensures cols[f] == want
  {
    IntroducedFits(next, base, name, Live, d, cols, f);
    assert DeclaresName(d, f);
    DeclaredOnce(name, next.collections[name], next.multiple, d, f, want, cols[f]);
  }

  lemma TsvUndeclared(next: Config, name: string, d: DeclaredTable, f: string)
    requires NoTsvFields(next) && name in next.collections
      && d in DeclaredTables(name, next.collections[name], next.multiple)
    ensures !DeclaresName(d, Tsv(f)) && Tsv(f) !in next.collections[name].taxonomies
    ensures Tsv(f) !in REV_COLUMNS + {"workspace_id"}
  {
    TsvEnds(f);
    OwnNotTsv(f);
    if DeclaresName(d, Tsv(f)) {
      DeclaredNamesTidy(next, name, d, Tsv(f));
    }
  }
}
