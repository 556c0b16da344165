/** Published datasets whose fields change, on which the migration does what the README reports. */
module RetypeWitnesses {
  import opened Wrappers
  import opened Config
  import opened Catalog
  import opened Ddl
  import opened DdlFacts
  import opened Rules
  import opened Plan
  import opened Apply
  import opened ApplySafety
  import opened Convergence
  import opened Idempotence
  import opened PlannersAgree
  import opened Migration
  import opened MigrationProofs
  import opened Pipeline
  import opened References
  import opened SmallRuns
  import SearchAfter

  // ----- the configs

  /** Two fields, with `id` or with `code` for the primary key. */
  function Coded(byCode: bool): Collection {
    Collection(Dataset, [StoredField("id", FUuid, !byCode), StoredField("code", FUuid, byCode)], [], [], false)
  }

  /** A searchable bound vocabulary. */
  const TOPICAL: Collection := Collection(
    Dataset, [StoredField("id", FUuid, true), FieldEntry("topic", Field(FText, false, true, Stored))], ["topic"], [],
        false)

  /** A field of this type beside one named as its search column would be. */
  function Noted(t: FieldType): Collection {
    Collection(
      Dataset,
      [StoredField("id", FUuid, true), StoredField("note", t, false), StoredField("note_tsv", FText, false)],
      [], [], false)
  }

  // ----- a moved primary key

  lemma CodedIsChecked(byCode: bool)
    ensures Checked(Coded(byCode)) && DistinctFields(Coded(byCode)) && NoTsvFields(Single("docs", Coded(byCode), {}))
    ensures PkField(Coded(byCode)) == Some(if byCode then "code" else "id")
  {
    var f := Coded(byCode).fields;
    assert f[0].name == "id" && f[1].name == "code" && |f| == 2;
    assert FieldChecked(Coded(byCode), f[0]) && FieldChecked(Coded(byCode), f[1]);
    assert f[1..] == [f[1]] && FirstPk([f[1]]) == if byCode then Some("code") else Option.None;
    assert !EndsTsv("id") && !EndsTsv("code");
  }

  lemma CodedIsPlain()
    ensures Plain("docs", Coded(false), {})
  {
    var f := Coded(false).fields;
    CodedIsChecked(false);
    Lettered("id");
    Lettered("code");
    assert f[0].name == "id" && f[1].name == "code" && |f| == 2 && StoresField(Coded(false), "id");
  }

  /** With the commented statement carried out, the move stays refused, whatever plan is made. */
  lemma PkMoveWitness() returns (states: seq<Db>, ch: SchemaChange, after: Db)
    ensures History(states) && SchemaRules(Single("docs", Coded(true), {}))
    ensures ch.kind == PkChange("id", "code") && Planned(states[|states| - 1], Single("docs", Coded(true), {}), ch)
      && Blocks(states[|states| - 1], ch)
    ensures Exec(DropIdentity(TableKey(Live, ch.table)), states[|states| - 1]) == Some(after)
    ensures forall again, matching :: Lists(again, after, Single("docs", Coded(true), {})) ==>
      HasRefused(Applied(after, Single("docs", Coded(true), {}), again, matching))
  {
    hide Applied;
    hide History;
    hide Plain;
    hide Planned;
    hide Blocks;
    hide Published;
    hide Exec;
    var prev, next := Single("docs", Coded(false), {}), Single("docs", Coded(true), {});
    CodedIsChecked(false);
    CodedIsChecked(true);
    CodedIsPlain();
    SingleRules("docs", Coded(true), {});
    states := Publish("docs", Coded(false), {}, map[], {});
    ch, after := PkMovePlanned(states);
    forall again, matching | Lists(again, after, next) ensures HasRefused(Applied(after, next, again, matching)) {
      PkMoveStaysRefused(states, next, ch, after, again, matching);
    }
  }

  lemma CodedIdentity(states: seq<Db>)
    requires Published(Single("docs", Coded(false), {}), "docs", map[], {}, states)
    ensures MainKey(Live, "docs") in states[2].tables && states[2].tables[MainKey(Live, "docs")].identity == Some("id")
  {
    hide FirstApply;
    hide FirstState;
    hide Checked;
    hide NoTsvFields;
    var prev := Single("docs", Coded(false), {});
    CodedIsChecked(false);
    FirstFacts(prev, {}, states[1]);
    IdentityShape(prev, {}, states[1], "docs", Live);
  }

  lemma PkMovePlanned(states: seq<Db>) returns (ch: SchemaChange, after: Db)
    requires Published(Single("docs", Coded(false), {}), "docs", map[], {}, states)
    ensures ch == SchemaChange("docs", Live, Main("docs"), PkChange("id", "code")) && |states| == 3
    ensures Planned(states[2], Single("docs", Coded(true), {}), ch) && Blocks(states[2], ch)
    ensures Exec(DropIdentity(TableKey(Live, ch.table)), states[2]) == Some(after)
  {
    hide FirstApply;
    hide Checked;
    hide NoTsvFields;
    hide StoredColumns;
    hide DatasetStructural;
    var next := Single("docs", Coded(true), {});
    CodedIsChecked(true);
    DocsIsLower();
    CodedIdentity(states);
    var d := DatasetTable("docs", Coded(true), {});
    ch := SchemaChange("docs", Live, Main("docs"), PkChange("id", "code"));
    assert Compared(states[2], next, "docs", Live, d);
    assert IdentityDiff(states[2].tables[MainKey(Live, "docs")], "docs", Coded(true), d, ch.kind);
    assert Drifted(states[2], next, ch);
    after := Exec(DropIdentity(TableKey(Live, ch.table)), states[2]).value;
  }

  // ----- a searchable vocabulary that becomes multi-valued

  lemma TopicalIsChecked(multiple: set<string>)
    ensures Checked(TOPICAL) && DistinctFields(TOPICAL) && NoTsvFields(Single("docs", TOPICAL, multiple))
  {
    var f := TOPICAL.fields;
    assert f[0].name == "id" && f[1].name == "topic" && |f| == 2;
    assert |Tsv("topic")| == 9 && !HasField(TOPICAL, Tsv("topic"));
    assert HasField(TOPICAL, "topic");
    assert FieldChecked(TOPICAL, f[0]) && FieldChecked(TOPICAL, f[1]);
    assert forall t :: t in TOPICAL.taxonomies ==> t == "topic";
    assert SlugShaped("topic") && "topic" !in RESERVED_SLUGS;
    assert !EndsTsv("id") && !EndsTsv("topic");
  }

  lemma TopicalIsPlain()
    ensures Plain("docs", TOPICAL, {})
  {
    hide Checked;
    var f := TOPICAL.fields;
    TopicalIsChecked({});
    assert f[0].name == "id" && f[1].name == "topic" && |f| == 2;
    assert |Tsv("topic")| == 9 && TOPICAL.taxonomies == ["topic"];
    Lettered("id");
    Lettered("topic");
    assert IdentityField(TOPICAL) == "id" && StoresField(TOPICAL, "id");
  }

  const WIDENING: SchemaChange := SchemaChange("docs", Live, Main("docs"), TypeChange("topic", Text, TextArray))

  lemma TopicalRedeclared(states: seq<Db>)
    requires Published(Single("docs", TOPICAL, {}), "docs", map[], {}, states)
    ensures Redeclared("docs", TOPICAL, {}, TOPICAL, {"topic"}, states)
  {
    hide Plain;
    hide Checked;
    hide Published;
    TopicalIsPlain();
    TopicalIsChecked({});
    DocsIsLower();
    PublishedIsRedeclared("docs", TOPICAL, {}, TOPICAL, {"topic"}, map[], {}, states);
  }

  lemma WideningPlanned(states: seq<Db>)
    requires Published(Single("docs", TOPICAL, {}), "docs", map[], {}, states)
    ensures |states| == 3 && Planned(states[2], Single("docs", TOPICAL, {"topic"}), WIDENING) && Lossless(WIDENING)
  {
    hide Redeclared;
    hide Planned;
    hide FirstApply;
    TopicalRedeclared(states);
    assert TOPICAL.fields[1].name == "topic" && TOPICAL.taxonomies == ["topic"];
    RetypePlanned("docs", TOPICAL, {}, TOPICAL, {"topic"}, states, 1);
  }

  /** Nothing is in the way of a migration of the one dataset. */
  lemma TopicalMigrates(states: seq<Db>, changes: seq<SchemaChange>)
    requires History(states) && Published(Single("docs", TOPICAL, {}), "docs", map[], {}, states)
    requires Lists(changes, states[2], Single("docs", TOPICAL, {"topic"}))
    ensures Migrate(changes, states[2]).Some?
  {
    hide History;
    hide FirstApply;
    hide Migrate;
    hide Checked;
    hide NoTsvFields;
    hide Migratable;
    hide SearchNamesFree;
    hide Free;
    hide Tidy;
    var db, next := states[2], Single("docs", TOPICAL, {"topic"});
    TopicalIsChecked({"topic"});
    SingleRules("docs", TOPICAL, {"topic"});
    HistoryTidy(states);
    TidyMigratable(db, next, changes);
    MigrationRuns(db, next, changes);
    forall ch | ch in changes && LiveRetype(ch) ensures Free(db, changes, ch) {
      TopicalFree(states, changes, ch);
    }
  }

  lemma TopicalFree(states: seq<Db>, changes: seq<SchemaChange>, ch: SchemaChange)
    requires Published(Single("docs", TOPICAL, {}), "docs", map[], {}, states) && Tidy(states[2])
    requires Lists(changes, states[2], Single("docs", TOPICAL, {"topic"})) && ch in changes && LiveRetype(ch)
    ensures Free(states[2], changes, ch)
  {
    hide FirstApply;
    hide Redeclared;
    hide Plain;
    hide Checked;
    hide NoTsvFields;
    hide Planned;
    hide Unread;
    var db, f := states[2], ch.kind.field;
    var next := Single("docs", TOPICAL, {"topic"});
    TopicalIsPlain();
    TopicalIsChecked({"topic"});
    DocsIsLower();
    TopicalRedeclared(states);
    var j := RetypeIsOf("docs", TOPICAL, {}, TOPICAL, {"topic"}, states, ch);
    RetypeOwnsTsv(db, next, ch);
    NothingInTheWay("docs", TOPICAL, {}, states[1], db, changes, ch, f);
    NothingInTheWay("docs", TOPICAL, {}, states[1], db, changes, ch, Tsv(f));
    TidySearches(Main("docs"), db.tables[TableKey(Live, ch.table)]);
  }

  /** What a tidy dataset generates are search columns, each of the field it is named after. */
  lemma TidySearches(name: TableName, t: Table)
    requires TidyTable(name, t) && name.Main?
    ensures forall g :: g in t.generated ==> EndsTsv(g) && g == Tsv(t.generated[g])
  {
    forall g | g in t.generated ensures EndsTsv(g) && g == Tsv(t.generated[g]) {
      TsvEnds(t.generated[g]);
    }
  }

  /** No plan of the config leads to an apply that returns. */
  ghost predicate NeverApplies(db: Db, cfg: Config)
    requires Covers(cfg, cfg.names)
  {
    forall again, matching :: Lists(again, db, cfg) ==> Applied(db, cfg, again, matching).failure.Some?
  }

  /** The migration of this plan runs, the search column cannot be added again, and no apply goes through after it. */
  ghost predicate StopsApplies(db: Db, next: Config, changes: seq<SchemaChange>)
    requires Covers(next, next.names)
  {
    var after := Migrate(changes, db);
    && after.Some? && Exec(AddColumn(TableKey(Live, Main("docs")), TsvColumn("topic")), after.value).None?
    && NeverApplies(after.value, next)
  }

  /** A searchable vocabulary becomes multi-valued while its dataset holds a live document. */
  lemma WidenedWitness() returns (states: seq<Db>)
    ensures |states| == 3 && History(states) && SchemaRules(Single("docs", TOPICAL, {"topic"}))
    ensures Planned(states[2], Single("docs", TOPICAL, {"topic"}), WIDENING) && Lossless(WIDENING)
      && Populated(states[2], TableKey(Live, WIDENING.table))
    ensures forall changes :: Lists(changes, states[2], Single("docs", TOPICAL, {"topic"})) ==>
      StopsApplies(states[2], Single("docs", TOPICAL, {"topic"}), changes)
  {
    hide History;
    hide FirstApply;
    hide Planned;
    hide Plain;
    hide Checked;
    hide NoTsvFields;
    hide StopsApplies;
    var next := Single("docs", TOPICAL, {"topic"});
    TopicalIsPlain();
    TopicalIsChecked({});
    SingleRules("docs", TOPICAL, {"topic"});
    DocsIsLower();
    states := Publish("docs", TOPICAL, {}, map[], {});
    WideningPlanned(states);
    forall changes | Lists(changes, states[2], next) ensures StopsApplies(states[2], next, changes) {
      TopicalMigrates(states, changes);
      WidenedStops(states, changes, Migrate(changes, states[2]).value);
    }
  }

  lemma WidenedStops(states: seq<Db>, changes: seq<SchemaChange>, after: Db)
    requires History(states) && Published(Single("docs", TOPICAL, {}), "docs", map[], {}, states)
    requires Lists(changes, states[2], Single("docs", TOPICAL, {"topic"})) && Migrate(changes, states[2]) == Some(after)
    ensures StopsApplies(states[2], Single("docs", TOPICAL, {"topic"}), changes)
  {
    hide History;
    hide Applied;
    hide Migrate;
    hide NoTsvFields;
    hide FirstApply;
    hide Checked;
    hide Planned;
    hide Exec;
    var next := Single("docs", TOPICAL, {"topic"});
    TopicalIsChecked({"topic"});
    SingleRules("docs", TOPICAL, {"topic"});
    WideningPlanned(states);
    assert WIDENING in changes;
    assert TOPICAL.fields[1].name == "topic";
    SearchAfter.SearchReadded(states, next, changes, after, WIDENING);
    forall again, matching | Lists(again, after, next) ensures Applied(after, next, again, matching).failure.Some? {
      SearchAfter.WidenedNeverApplies(states, next, changes, after, WIDENING, again, matching);
    }
  }

  // ----- a declared column called like a search column

  lemma NotedIsChecked(t: FieldType)
    ensures Checked(Noted(t)) && DistinctFields(Noted(t)) && IdentityField(Noted(t)) == "id"
  {
    var f := Noted(t).fields;
    assert f[0].name == "id" && f[1].name == "note" && f[2].name == "note_tsv" && |f| == 3;
    assert FieldChecked(Noted(t), f[0]) && FieldChecked(Noted(t), f[1]) && FieldChecked(Noted(t), f[2]);
  }

  lemma NotedIsPlain(t: FieldType)
    ensures Plain("docs", Noted(t), {})
  {
    hide Checked;
    var f := Noted(t).fields;
    NotedIsChecked(t);
    assert f[0].name == "id" && f[1].name == "note" && f[2].name == "note_tsv" && |f| == 3;
    Lettered("id");
    Lettered("note");
    Lettered("note_tsv");
    assert StoresField(Noted(t), "id");
  }

  ghost predicate Ungenerated(db: Db) {
    forall k :: k in db.tables ==> db.tables[k].generated == map[]
  }

  predicate AddsPlain(s: Statement) {
    match s
    case CreateTable(_, columns, _) => forall i :: 0 <= i < |columns| ==> columns[i].generator.None?
    case AddColumn(_, c) => c.generator.None?
    case CreateIdentity(_, _) => true
    case CreateIndex(_, _, _, _) => true
    case _ => false
  }

  lemma {:induction false} NoneGenerated(columns: seq<Column>)
    requires forall i :: 0 <= i < |columns| ==> columns[i].generator.None?
    ensures GeneratedColumns(columns) == map[]
  {
    if columns != [] {
      NoneGenerated(columns[..|columns| - 1]);
    }
  }

  lemma {:induction false} PlainBatch(ss: seq<Statement>, db: Db)
    requires (forall s :: s in ss ==> AddsPlain(s)) && Ungenerated(db) && ExecAll(ss, db).Some?
    ensures Ungenerated(ExecAll(ss, db).value)
  {
    if ss != [] {
      var s, mid := ss[|ss| - 1], ExecAll(ss[..|ss| - 1], db).value;
      assert s in ss;
      PlainBatch(ss[..|ss| - 1], db);
      if s.CreateTable? {
        NoneGenerated(s.columns);
      }
      OthersUntouched(s, mid);
    }
  }

  lemma NotedBatch(env: Env, t: FieldType)
    ensures forall s :: s in DatasetBatch(env, "docs", Noted(t), {}) ==> AddsPlain(s)
  {
    var key, c := MainKey(env, "docs"), Noted(t);
    FieldAltersFrom(key, c.fields, []);
    SearchAltersFrom(key, "docs", c.fields);
    assert VocabAlters(key, "docs", [], {}) == [];
    forall i | 0 <= i < |c.fields| ensures !c.fields[i].field.searchable {
      assert i == 0 || i == 1 || i == 2;
    }
  }

  lemma NotedGeneratesNothing(first: Db)
    requires FirstApply(Single("docs", Noted(FInt), {}), {}, first)
    ensures Ungenerated(first)
  {
    var cfg, c := Single("docs", Noted(FInt), {}), Noted(FInt);
    SingleRun(EMPTY, "docs", c, {}, {});
    NotedIsPlain(FInt);
    TablesRun("docs", c, {}, {});
    NotedBatch(Dev, FInt);
    NotedBatch(Live, FInt);
    PlainBatch(DatasetBatch(Dev, "docs", c, {}), EMPTY);
    var made := ExecAll(DatasetBatch(Dev, "docs", c, {}), EMPTY).value;
    PlainBatch(DatasetBatch(Live, "docs", c, {}), made);
    var tabled := TablesOf(Start(EMPTY), cfg, "docs", {});
    ThreeKeepTables(tabled, ViewBatch(Dev, "docs", c, {}), ViewBatch(Live, "docs", c, {}), "docs", c);
  }

  const RENOTING: SchemaChange := SchemaChange("docs", Live, Main("docs"), TypeChange("note", Integer, Text))

  const NOTE: Row := map["note" := Scalar("3"), "note_tsv" := Scalar("kept")]

  /** The published notes, whose tables hold no generated column. */
  ghost predicate NotesPublished(states: seq<Db>) {
    && Published(Single("docs", Noted(FInt), {}), "docs", NOTE, {}, states) && Ungenerated(states[2])
    && Redeclared("docs", Noted(FInt), {}, Noted(FText), {}, states)
  }

  lemma NotesAre(states: seq<Db>)
    requires Published(Single("docs", Noted(FInt), {}), "docs", NOTE, {}, states)
    ensures NotesPublished(states)
  {
    hide Plain;
    hide Checked;
    hide FirstApply;
    hide Redeclared;
    NotedIsPlain(FInt);
    NotedIsChecked(FText);
    DocsIsLower();
    PublishedIsRedeclared("docs", Noted(FInt), {}, Noted(FText), {}, NOTE, {}, states);
    NotedGeneratesNothing(states[1]);
  }

  /** The one live retype is that of the note. */
  lemma OnlyNoteRetyped(states: seq<Db>, ch: SchemaChange)
    requires NotesPublished(states) && LiveRetype(ch) && Planned(states[2], Single("docs", Noted(FText), {}), ch)
    ensures ch.kind.field == "note" && ch.table == Main("docs") && ch.collection == "docs"
  {
    hide Redeclared;
    hide Published;
    hide Planned;
    hide Ungenerated;
    var p, n := Noted(FInt), Noted(FText);
    assert n.fields[1].name == "note" && forall j :: 0 <= j < 3 ==> BothStore(p, n, j);
    assert TypeAt(p, {}, 0) == TypeAt(n, {}, 0) && TypeAt(p, {}, 2) == TypeAt(n, {}, 2);
    var j := RetypeIsOf("docs", p, {}, n, {}, states, ch);
  }

  lemma RenotingPlanned(states: seq<Db>)
    requires NotesPublished(states)
    ensures |states| == 3 && Planned(states[2], Single("docs", Noted(FText), {}), RENOTING)
  {
    hide Redeclared;
    hide FirstApply;
    hide Planned;
    hide Ungenerated;
    var p, n := Noted(FInt), Noted(FText);
    assert n.fields[1].name == "note" && BothStore(p, n, 1);
    assert TypeAt(p, {}, 1) == Integer && TypeAt(n, {}, 1) == Text;
    RetypePlanned("docs", p, {}, n, {}, states, 1);
  }

  lemma NotesIdentity(states: seq<Db>)
    requires NotesPublished(states)
    ensures MainKey(Live, "docs") in states[2].tables && states[2].tables[MainKey(Live, "docs")].identity == Some("id")
  {
    hide FirstApply;
    hide FirstState;
    hide Plain;
    hide Checked;
    hide Ungenerated;
    NotedIsChecked(FInt);
    IdentityShape(Single("docs", Noted(FInt), {}), {}, states[1], "docs", Live);
  }

  lemma NotesMigratable(states: seq<Db>, changes: seq<SchemaChange>)
    requires NotesPublished(states) && Lists(changes, states[2], Single("docs", Noted(FText), {}))
    ensures Migratable(states[2], Single("docs", Noted(FText), {}), changes)
  {
    hide Redeclared;
    hide FirstApply;
    hide Planned;
    hide Checked;
    var db, next := states[2], Single("docs", Noted(FText), {});
    NotedIsChecked(FText);
    SingleRules("docs", Noted(FText), {});
    NotesIdentity(states);
    DocsIsLower();
    assert |Tsv("note")| == 8;
    forall ch | ch in changes && LiveRetype(ch) ensures OwnsTsv(db, ch) && ch.kind.field == "note" {
      OnlyNoteRetyped(states, ch);
    }
  }

  lemma NotesMigrate(states: seq<Db>, changes: seq<SchemaChange>)
    requires NotesPublished(states) && Lists(changes, states[2], Single("docs", Noted(FText), {}))
    ensures Migrate(changes, states[2]).Some?
    ensures RanFrom(states[2], Single("docs", Noted(FText), {}), changes, Migrate(changes, states[2]).value)
  {
    hide Redeclared;
    hide FirstApply;
    hide Planned;
    hide Migrate;
    hide Plain;
    hide Migratable;
    hide Unread;
    var db, next := states[2], Single("docs", Noted(FText), {});
    NotedIsPlain(FInt);
    DocsIsLower();
    NotesIdentity(states);
    NotesMigratable(states, changes);
    MigrationRuns(db, next, changes);
    forall ch | ch in changes && LiveRetype(ch) ensures Free(db, changes, ch) {
      OnlyNoteRetyped(states, ch);
      NothingInTheWay("docs", Noted(FInt), {}, states[1], db, changes, ch, "note");
      NothingInTheWay("docs", Noted(FInt), {}, states[1], db, changes, ch, Tsv("note"));
    }
  }

  /** The migration of this plan runs, and the column is gone after it. */
  ghost predicate LosesNote(db: Db, changes: seq<SchemaChange>) {
    var key, after := TableKey(Live, Main("docs")), Migrate(changes, db);
    after.Some? && key in after.value.tables && "note_tsv" !in after.value.tables[key].columns
  }

  /** A retype drops the column the config declares beside the retyped one, with what the live document has in it. */
  lemma DeclaredSearchNameWitness() returns (states: seq<Db>)
    ensures |states| == 3 && Deployment(states) && SchemaRules(Single("docs", Noted(FText), {}))
    ensures var key := TableKey(Live, Main("docs")); var db := states[2];
      && key in db.tables && db.tables[key].rows == [NOTE] && "note_tsv" in db.tables[key].columns
      && Declares(DatasetTable("docs", Noted(FText), {}), "note_tsv", Text)
    ensures Planned(states[2], Single("docs", Noted(FText), {}), RENOTING)
    ensures forall changes :: Lists(changes, states[2], Single("docs", Noted(FText), {})) ==>
      LosesNote(states[2], changes)
  {
    hide Deployment;
    hide FirstApply;
    hide FirstState;
    hide Planned;
    hide Plain;
    hide Checked;
    hide LosesNote;
    hide Ungenerated;
    NotedIsPlain(FInt);
    NotedIsChecked(FText);
    SingleRules("docs", Noted(FText), {});
    DocsIsLower();
    states := Publish("docs", Noted(FInt), {}, NOTE, {});
    NotesAre(states);
    RenotingPlanned(states);
    NoteHeld(states);
    forall changes | Lists(changes, states[2], Single("docs", Noted(FText), {})) ensures LosesNote(states[2], changes) {
      NoteLost(states, changes);
    }
  }

  lemma NoteHeld(states: seq<Db>)
    requires NotesPublished(states)
    ensures MainKey(Live, "docs") in states[2].tables
      && "note_tsv" in states[2].tables[MainKey(Live, "docs")].columns
    ensures Declares(DatasetTable("docs", Noted(FText), {}), "note_tsv", Text)
  {
    hide FirstApply;
    hide FirstState;
    hide Plain;
    hide Checked;
    hide Ungenerated;
    assert Noted(FInt).fields[2].name == "note_tsv" && Noted(FText).fields[2].name == "note_tsv";
    StoredColumnIs("docs", Noted(FInt), {}, states[1], Live, 2);
    StoredIsDeclared(Noted(FText), {}, "docs", 2);
  }

  lemma NoteLost(states: seq<Db>, changes: seq<SchemaChange>)
    requires NotesPublished(states) && Lists(changes, states[2], Single("docs", Noted(FText), {}))
    ensures LosesNote(states[2], changes)
  {
    hide Migrate;
    hide Published;
    hide Redeclared;
    hide Ungenerated;
    hide Planned;
    hide RanFrom;
    var next, key := Single("docs", Noted(FText), {}), TableKey(Live, Main("docs"));
    DocsIsLower();
    NotesMigrate(states, changes);
    RenotingPlanned(states);
    NoteHeld(states);
    assert Tsv("note") == "note_tsv";
    assert RENOTING in changes && LiveRetype(RENOTING);
    MigrationKeepsRows(states[2], next, changes, Migrate(changes, states[2]).value, key, "note_tsv");
  }
}
