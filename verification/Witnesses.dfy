/** Datasets, each reached by the modelled code, on which it does what the README reports. */
module Witnesses {
  import opened Wrappers
  import opened Config
  import opened Catalog
  import opened Ddl
  import opened DdlFacts
  import opened Rules
  import opened Plan
  import opened Apply
  import opened ApplySafety
  import opened Convergence
  import opened Idempotence
  import opened PlannersAgree
  import opened Migration
  import opened Forgetting
  import opened References
  import opened SmallRuns
  import IndexNames
  import TableNames
  import Upgrade
  import Fresh

  // ----- the configs

  const KEYED: Collection := Collection(Dataset, [StoredField("id", FUuid, true)], [], [], false)

  const AUTHORED: Collection :=
    Collection(Dataset, [StoredField("id", FUuid, true), StoredField("author", FText, false)], [], [], false)

  /** The same, with an index over the second field. */
  const INDEXED: Collection :=
    Collection(Dataset, [StoredField("id", FUuid, true), StoredField("author", FText, false)], [], [["author"]], false)

  /** No field marked pk, none called id. */
  const UNKEYED: Collection := Collection(Dataset, [StoredField("author", FText, false)], [], [], false)

  /** A searchable field joined from a sibling. */
  const JOINED: Collection := Collection(
    Dataset,
    [StoredField("id", FUuid, true), StoredField("author", FUuid, false),
     FieldEntry("byline", Field(FText, false, true, Joined(Main("people"), "name", "author")))],
    [], [], false)

  /** A relation with the name of a bound vocabulary. */
  const RELATED: Collection := Collection(
    Dataset, [StoredField("id", FUuid, true), FieldEntry("topic", Field(FText, false, false, Related))], ["topic"], [],
        false)

  /** A searchable field joined under the name of a bookkeeping column. */
  const LOGGED: Collection := Collection(
    Dataset,
    [StoredField("id", FUuid, true), StoredField("parent", FUuid, false),
     FieldEntry("workspace_id", Field(FText, false, true, Joined(Main("docs"), "id", "parent")))],
    [], [], false)

  // ----- a new field with its index

  lemma KeyedIsPlain(name: string)
    ensures Plain(name, KEYED, {}) && IdentityField(KEYED) == "id"
  {
    var f := KEYED.fields;
    Lettered("id");
    assert f[0].name == "id" && StoresField(KEYED, "id");
  }

  lemma KeyedBatch(env: Env, name: string)
    ensures DatasetBatch(env, name, KEYED, {}) == Upgrade.Head(MainKey(env, name), name, KEYED, {})
  {
    var key := MainKey(env, name);
    var f := KEYED.fields;
    assert |f| == 1 && f[..0] == [] && f[0].field.pk && !f[0].field.searchable;
    assert FieldAlters(key, f[..0], []) == [] && SearchAlters(key, name, f[..0]) == [];
    assert FieldAlters(key, f, []) == [] && SearchAlters(key, name, f) == [];
  }

  lemma KeyedMade(made: Db)
    requires ExecAll(DatasetBatch(Dev, "docs", KEYED, {}), EMPTY) == Some(made)
    ensures var key := MainKey(Dev, "docs");
      key in made.tables && made.tables[key].indexes.Keys == {HistoryIndexName("docs")}
  {
    KeyedBatch(Dev, "docs");
    Fresh.HeadRuns(EMPTY, MainKey(Dev, "docs"), "docs", KEYED, {});
  }

  /** What the live statements add to leaves the dev table alone. */
  lemma KeyedDevTable(made: Db, db: Db)
    requires ExecAll(DatasetBatch(Dev, "docs", KEYED, {}), EMPTY) == Some(made)
    requires ExecAll(DatasetBatch(Live, "docs", KEYED, {}), made) == Some(db)
    ensures var key := MainKey(Dev, "docs");
      key in db.tables && db.tables[key].indexes.Keys == {HistoryIndexName("docs")}
  {
    KeyedMade(made);
    DatasetBatchBuilds(Live, "docs", KEYED, {});
    BatchMakesOwn(DatasetBatch(Live, "docs", KEYED, {}), Live, "docs", made);
    TableBatchGrows(Live, "docs", KEYED, {});
    ExecAllGrows(DatasetBatch(Live, "docs", KEYED, {}), made);
  }

  lemma KeyedApplied(db: Db)
    requires db == Applied(EMPTY, Single("docs", KEYED, {}), [], {}).db
    ensures var key := MainKey(Dev, "docs");
      key in db.tables && db.tables[key].indexes.Keys == {HistoryIndexName("docs")}
  {
    var cfg := Single("docs", KEYED, {});
    KeyedIsPlain("docs");
    TablesRun("docs", KEYED, {}, {});
    SingleRun(EMPTY, "docs", KEYED, {}, {});
    var tabled := TablesOf(Start(EMPTY), cfg, "docs", {});
    ThreeKeepTables(tabled, ViewBatch(Dev, "docs", KEYED, {}), ViewBatch(Live, "docs", KEYED, {}), "docs", KEYED);
    var made := ExecAll(DatasetBatch(Dev, "docs", KEYED, {}), EMPTY).value;
    KeyedDevTable(made, tabled.db);
  }

  /** A column nobody declared and the DDL does not lay down is not there. */
  lemma NoAuthorLaid()
    ensures var d := DatasetTable("docs", KEYED, {});
      !DeclaresName(d, "author") && Laid(KEYED, {}, d, "author") == Option.None
  {
    Lettered("author");
    OwnTypes(Main("docs"));
    if DeclaresName(DatasetTable("docs", KEYED, {}), "author") {
      var j := DeclaredField(KEYED, {}, "docs", "author");
    }
  }

  lemma NoAuthorYet(db: Db)
    requires SchemaRules(Single("docs", KEYED, {})) && FirstState(Single("docs", KEYED, {}), {}, db)
    ensures MainKey(Dev, "docs") in db.tables && "author" !in db.tables[MainKey(Dev, "docs")].columns
  {
    NoAuthorLaid();
    ColumnShape(Single("docs", KEYED, {}), {}, db, "docs", Dev, DatasetTable("docs", KEYED, {}), "author");
  }

  lemma AuthorIndexIsNew(t: Table)
    requires t.indexes.Keys == {HistoryIndexName("docs")}
    ensures |INDEXED.indexes| == 1 && INDEXED.indexes[0] == ["author"]
    ensures IndexName("docs", INDEXED.indexes[0]) !in t.indexes
  {
    assert JoinNames(["author"]) == "author";
    assert |IndexName("docs", ["author"])| != |HistoryIndexName("docs")|;
    assert IndexName("docs", ["author"]) !in t.indexes.Keys;
  }

  lemma IndexedRules()
    ensures SchemaRules(Single("docs", INDEXED, {}))
  {
    var f := INDEXED.fields;
    assert f[0].name == "id" && f[1].name == "author" && StoresField(INDEXED, "author");
    assert INDEXED.indexes[0] == ["author"];
  }

  /** On what an apply of one keyed dataset leaves, adding a field and an index over it in one edit throws. */
  lemma NewFieldIndexWitness() returns (db: Db)
    ensures Finished(EMPTY, Single("docs", KEYED, {}), [], {})
      && db == Applied(EMPTY, Single("docs", KEYED, {}), [], {}).db
    ensures SchemaRules(Single("docs", INDEXED, {}))
    ensures TablesOf(Start(db), Single("docs", INDEXED, {}), "docs", {}).failure.Some?
  {
    var prev, next := Single("docs", KEYED, {}), Single("docs", INDEXED, {});
    KeyedIsPlain("docs");
    OneDatasetFinishes("docs", KEYED, {}, {});
    db := Applied(EMPTY, prev, [], {}).db;
    KeyedApplied(db);
    FirstFacts(prev, {}, db);
    NoAuthorYet(db);
    AuthorIndexIsNew(db.tables[MainKey(Dev, "docs")]);
    Upgrade.NewFieldIndexFails(prev, next, {}, db, Start(db), "docs", "author", 0);
    IndexedRules();
  }

  // ----- datasets that cannot be created

  /** If its dev statements fail on an empty database, a config of one dataset is never applied. */
  lemma SingleThrows(name: string, c: Collection, multiple: set<string>, matching: set<string>)
    requires c.kind == Dataset && ExecAll(DatasetBatch(Dev, name, c, multiple), EMPTY).None?
    ensures Applied(EMPTY, Single(name, c, multiple), [], matching).failure.Some?
  {
    SingleRun(EMPTY, name, c, multiple, matching);
  }

  lemma UnkeyedRules()
    ensures SchemaRules(Single("docs", UNKEYED, {})) && !Fresh.IdentityThere(UNKEYED)
  {
    var f := UNKEYED.fields;
    assert f[0].name == "author" && !f[0].field.pk && f[1..] == [];
    assert FieldChecked(UNKEYED, f[0]);
    assert IdentityField(UNKEYED) == "id";
    Lettered("id");
  }

  lemma UnkeyedWitness()
    ensures SchemaRules(Single("docs", UNKEYED, {}))
      && Applied(EMPTY, Single("docs", UNKEYED, {}), [], {}).failure.Some?
  {
    UnkeyedRules();
    Fresh.FreshRuns(EMPTY, Dev, "docs", UNKEYED, {});
    SingleThrows("docs", UNKEYED, {}, {});
  }

  lemma JoinedIsChecked()
    ensures Checked(JOINED) && DistinctFields(JOINED)
  {
    var f := JOINED.fields;
    assert f[0].name == "id" && f[1].name == "author" && f[2].name == "byline" && |f| == 3;
    NoTsvHere(f[0].name, f[1].name, f[2].name);
    assert !HasField(JOINED, Tsv("byline"));
    assert FieldChecked(JOINED, f[0]) && FieldChecked(JOINED, f[1]) && FieldChecked(JOINED, f[2]);
  }

  lemma JoinedSearchWitness()
    ensures SchemaRules(Single("docs", JOINED, {})) && Applied(EMPTY, Single("docs", JOINED, {}), [], {}).failure.Some?
  {
    hide Applied;
    hide DatasetBatch;
    hide Checked;
    JoinedIsChecked();
    SingleRules("docs", JOINED, {});
    Lettered("byline");
    assert !Fresh.Searches("docs", JOINED, {}, JOINED.fields[2]);
    Fresh.FreshRuns(EMPTY, Dev, "docs", JOINED, {});
    SingleThrows("docs", JOINED, {}, {});
  }

  lemma NoTsvHere(a: string, b: string, c: string)
    requires a == "id" && b == "author" && c == "byline"
    ensures Tsv(c) != a && Tsv(c) != b && Tsv(c) != c
  {
    assert |Tsv(c)| == 10;
  }

  // ----- columns the next plan wants dropped

  /** The apply finishes, the next plan wants a column dropped, and with a live document no apply goes through. */
  ghost predicate Strays(c: Collection, states: seq<Db>, ch: SchemaChange) {
    var cfg := Single("docs", c, {});
    && SchemaRules(cfg) && Published(cfg, "docs", map[], {}, states) && Deployment(states)
    && Planned(states[1], cfg, ch) && ch.kind.DropColumnChange? && Destructive(ch)
    && forall plan, matching :: Lists(plan, states[2], cfg) ==> HasRefused(Applied(states[2], cfg, plan, matching))
  }

  lemma StrayFound(c: Collection, f: string) returns (states: seq<Db>, ch: SchemaChange)
    requires Plain("docs", c, {}) && Stray(Single("docs", c, {}), "docs", f)
    ensures Strays(c, states, ch) && ch.kind.field == f
  {
    hide Applied;
    hide Stray;
    var cfg := Single("docs", c, {});
    DocsIsLower();
    SingleRules("docs", c, {});
    states := Publish("docs", c, {}, map[], {});
    FirstFacts(cfg, {}, states[1]);
    ch := StrayRemains(states[1], cfg, {}, "docs", Live, f);
    forall plan, matching | Lists(plan, states[2], cfg)
      ensures HasRefused(Applied(states[2], cfg, plan, matching))
    {
      StrayRefuses(states[1], states[2], cfg, {}, matching, "docs", f, plan);
    }
  }

  lemma RelatedIsChecked()
    ensures Checked(RELATED) && DistinctFields(RELATED)
  {
    var f := RELATED.fields;
    assert f[0].name == "id" && f[1].name == "topic" && |f| == 2;
    assert HasField(RELATED, "topic");
    assert FieldChecked(RELATED, f[0]) && FieldChecked(RELATED, f[1]);
    assert forall t :: t in RELATED.taxonomies ==> t == "topic";
    assert SlugShaped("topic") && "topic" !in RESERVED_SLUGS;
  }

  lemma RelatedIsPlain()
    ensures Plain("docs", RELATED, {})
  {
    hide Checked;
    var f := RELATED.fields;
    RelatedIsChecked();
    assert f[0].name == "id" && f[1].name == "topic" && |f| == 2;
    Lettered("id");
    Lettered("topic");
    assert IdentityField(RELATED) == "id" && StoresField(RELATED, "id");
  }

  lemma TopicIsStray()
    ensures Stray(Single("docs", RELATED, {}), "docs", "topic")
  {
    var f := RELATED.fields;
    assert RELATED.taxonomies[0] == "topic";
    assert f[0].name == "id" && f[1].name == "topic" && !f[1].field.storage.Stored?;
    Lettered("topic");
    forall i | 0 <= i < |f| && f[i].field.storage.Stored? ensures Tsv(f[i].name) != "topic" {
      assert i == 0 && |Tsv("id")| == 6;
    }
    if DeclaresName(DatasetTable("docs", RELATED, {}), "topic") {
      var j := DeclaredField(RELATED, {}, "docs", "topic");
    }
  }

  /** A relation named like a bound vocabulary. */
  lemma UnstoredBindingWitness() returns (states: seq<Db>, ch: SchemaChange)
    ensures Strays(RELATED, states, ch) && ch.kind.field == "topic"
  {
    RelatedIsPlain();
    TopicIsStray();
    states, ch := StrayFound(RELATED, "topic");
  }

  lemma LoggedIsChecked()
    ensures Checked(LOGGED) && DistinctFields(LOGGED)
  {
    var f := LOGGED.fields;
    assert f[0].name == "id" && f[1].name == "parent" && f[2].name == "workspace_id" && |f| == 3;
    assert |Tsv("workspace_id")| == 16;
    assert !HasField(LOGGED, Tsv("workspace_id"));
    assert FieldChecked(LOGGED, f[0]) && FieldChecked(LOGGED, f[1]) && FieldChecked(LOGGED, f[2]);
  }

  lemma LoggedIsPlain()
    ensures Plain("docs", LOGGED, {})
  {
    var f := LOGGED.fields;
    LoggedIsChecked();
    DocsIsLower();
    Lettered("id");
    Lettered("parent");
    assert f[0].name == "id" && f[1].name == "parent" && f[2].name == "workspace_id" && |f| == 3;
    assert StoresField(LOGGED, "id") && StoresField(LOGGED, "parent") && IdentityField(LOGGED) == "id";
    assert Joins("docs", LOGGED, f[0]) && Joins("docs", LOGGED, f[1]) && Joins("docs", LOGGED, f[2]);
  }

  lemma LoggedTsvIsStray()
    ensures Stray(Single("docs", LOGGED, {}), "docs", Tsv("workspace_id"))
  {
    var f := LOGGED.fields;
    assert f[2].field.searchable && f[2].name == "workspace_id";
    assert SearchesInto(LOGGED, Tsv("workspace_id"));
    OwnNotTsv("workspace_id");
    forall i | 0 <= i < |f| && f[i].field.storage.Stored? ensures Tsv(f[i].name) != Tsv("workspace_id") {
      Upgrade.SameTsv(f[i].name, "workspace_id");
      assert f[0].name == "id" && f[1].name == "parent";
    }
    if DeclaresName(DatasetTable("docs", LOGGED, {}), Tsv("workspace_id")) {
      var j := DeclaredField(LOGGED, {}, "docs", Tsv("workspace_id"));
      LoggedIsChecked();
      assert FieldChecked(LOGGED, f[2]) && HasField(LOGGED, Tsv("workspace_id"));
    }
  }

  /** A searchable field joined under the name `workspace_id`: its search column is the next plan's to drop. */
  lemma LoggedSearchWitness() returns (states: seq<Db>, ch: SchemaChange)
    ensures Strays(LOGGED, states, ch) && ch.kind.field == Tsv("workspace_id")
  {
    LoggedIsPlain();
    LoggedTsvIsStray();
    states, ch := StrayFound(LOGGED, Tsv("workspace_id"));
  }

  // ----- a collection dropped through its migration

  /** On a database a deployment reaches, the statements offered for a dropped collection leave its ACL row. */
  lemma DroppedAclWitness() returns (states: seq<Db>, ch: SchemaChange, after: Db)
    ensures Deployment(states) && Planned(states[|states| - 1], NOTHING, ch) && Blocks(states[|states| - 1], ch)
    ensures LinesOf(ch) == [Commented(DropTable(TableKey(Live, ch.table))), Commented(Unregister(ch.collection))]
    ensures ExecAll([DropTable(TableKey(Live, ch.table)), Unregister(ch.collection)], states[|states| - 1])
      == Some(after)
    ensures Keyed(NOTHING) && Lists([], after, NOTHING)
    ensures AclEntry(Live, ch.collection, "1") in Applied(after, NOTHING, [], {}).db.acl
  {
    hide Applied;
    hide FirstApply;
    hide Deployment;
    KeyedIsPlain("docs");
    DocsIsLower();
    states := Publish("docs", KEYED, {}, map[], {AclEntry(Live, "docs", "1")});
    var db := states[2];
    ch := SchemaChange("docs", Live, Main("docs"), DropCollection);
    assert Dropped(db, NOTHING, ch);
    after := CollectionDropped(db, Main("docs"));
    MigratedDropStaysBehind(db, NOTHING, ch, after, [], {});
  }

  // ----- a structural index with the infix

  lemma InfixNamed()
    ensures Seen(Main("a_ix_b")) && Owned("a_ix_b" + "_")
  {
    assert !TableNames.HasCapital("a_ix_b");
    TableNames.FoldKeeps("a_ix_b");
    IndexNames.OwnedAt("a_ix_b" + "_", 1);
  }

  /** The unique index behind a dataset's identity is the planner's to drop. */
  lemma StructuralIndexWitness() returns (db: Db, ch: SchemaChange)
    ensures SchemaRules(Single("a_ix_b", KEYED, {})) && FirstApply(Single("a_ix_b", KEYED, {}), {}, db)
    ensures Planned(db, Single("a_ix_b", KEYED, {}), ch) && ch.kind == DropIndexChange(CurrentIndexName("a_ix_b"))
  {
    hide Applied;
    hide Finished;
    hide Sourced;
    hide Settled;
    hide Planned;
    hide Plain;
    hide Owned;
    hide Checked;
    var cfg := Single("a_ix_b", KEYED, {});
    KeyedIsPlain("a_ix_b");
    OneDatasetFinishes("a_ix_b", KEYED, {}, {});
    db := Applied(EMPTY, cfg, [], {}).db;
    FirstFacts(cfg, {}, db);
    InfixNamed();
    IndexNames.StructuralDropPlanned(cfg, {}, db, Dev, "a_ix_b", "a_ix_b", "current_idx");
    assert "a_ix_b" + "_" + "current_idx" == CurrentIndexName("a_ix_b");
    ch := SchemaChange("a_ix_b", Dev, Main("a_ix_b"), DropIndexChange("a_ix_b" + "_" + "current_idx"));
  }

  // ----- a dataset whose name holds a capital

  lemma AuthoredIsPlain()
    ensures Plain("Docs", AUTHORED, {}) && AUTHORED.fields[..1] == KEYED.fields
  {
    var f := AUTHORED.fields;
    Lettered("id");
    Lettered("author");
    assert f[0].name == "id" && f[1].name == "author" && |f| == 2 && StoresField(AUTHORED, "id");
  }

  lemma DocsIsUnseen()
    ensures !Seen(Main("Docs"))
  {
    assert Fold("Docs")[0] == 'd';
  }

  /** The planner reports nothing for it. */
  lemma NothingPlanned(db: Db, ch: SchemaChange)
    requires Sound(db) && db.registry.Keys == {"Docs"}
    ensures !Planned(db, Single("Docs", KEYED, {}), ch)
  {
    var next := Single("Docs", KEYED, {});
    DocsIsUnseen();
    PlannedWhereSeen(db, next, ch);
    assert forall n :: n in db.registry ==> n in db.registry.Keys;
  }

  /** The statements of the smaller config have nothing to do. */
  lemma KeyedBuilt(states: seq<Db>)
    requires Published(Single("Docs", AUTHORED, {}), "Docs", map[], {}, states) && Sound(states[2])
    ensures Built(Single("Docs", KEYED, {}), "Docs", states[2])
  {
    hide FirstApply;
    hide Sourced;
    hide Viewed;
    hide DatasetBatch;
    var prev, next, db := Single("Docs", AUTHORED, {}), Single("Docs", KEYED, {}), states[2];
    FirstFacts(prev, {}, states[1]);
    DocsIsUnseen();
    forall env
      ensures AllSatisfied(TableBatch(env, "Docs", KEYED, {}), db) && !LacksRevisions(db, env, "Docs", KEYED)
    {
      KeyedBatch(env, "Docs");
      Upgrade.SettledStands(prev, {}, states[1], env, "Docs");
      assert Upgrade.Standing(db, MainKey(env, "Docs"), "Docs");
    }
  }

  lemma KeyedReadable(states: seq<Db>, env: Env)
    requires Published(Single("Docs", AUTHORED, {}), "Docs", map[], {}, states)
    ensures Readable(states[2], ViewUses(env, "Docs", KEYED, {}))
  {
    hide FirstApply;
    hide Plain;
    hide Built;
    hide Sourced;
    hide ViewUses;
    var prev := Single("Docs", AUTHORED, {});
    AuthoredIsPlain();
    FirstFacts(prev, {}, states[1]);
    ViewReadable(prev, "Docs", env, states[1]);
    KeyedUsesLess(env);
  }

  lemma KeyedUsesLess(env: Env)
    ensures ViewUses(env, "Docs", KEYED, {}) <= ViewUses(env, "Docs", AUTHORED, {})
  {
    AuthoredIsPlain();
    var key := MainKey(env, "Docs");
    assert AUTHORED.fields[..|AUTHORED.fields| - 1] == KEYED.fields;
    assert FieldsUses(env, key, KEYED.fields) <= FieldsUses(env, key, AUTHORED.fields);
  }

  lemma CapitalApplies(states: seq<Db>)
    requires Published(Single("Docs", AUTHORED, {}), "Docs", map[], {}, states) && Sound(states[2])
    ensures var r := Applied(states[2], Single("Docs", KEYED, {}), [], {});
      r.failure.None? && r.db.tables == states[2].tables
  {
    hide TablesOf;
    hide ViewUses;
    var next, db := Single("Docs", KEYED, {}), states[2];
    KeyedBuilt(states);
    QuietTables(next, db, Start(db), "Docs", {});
    forall env ensures Readable(db, ViewUses(env, "Docs", KEYED, {})) {
      KeyedReadable(states, env);
    }
    var tabled := TablesOf(Start(db), next, "Docs", {});
    ViewsRun(next, "Docs", tabled);
    ThreeKeepTables(tabled, ViewBatch(Dev, "Docs", KEYED, {}), ViewBatch(Live, "Docs", KEYED, {}), "Docs", KEYED);
    SingleRun(db, "Docs", KEYED, {}, {});
  }

  lemma AuthorRemoved() returns (ch: SchemaChange)
    ensures PlannedBetween(Single("Docs", AUTHORED, {}), Single("Docs", KEYED, {}), ch)
    ensures Destructive(ch) && BriefOf(ch) == Brief("Docs", Removed("author"))
  {
    var prev, next := Single("Docs", AUTHORED, {}), Single("Docs", KEYED, {});
    var before, d := DatasetTable("Docs", AUTHORED, {}), DatasetTable("Docs", KEYED, {});
    assert AUTHORED.fields[1].name == "author";
    StoredIsDeclared(AUTHORED, {}, "Docs", 1);
    if DeclaresName(d, "author") {
      var j := DeclaredField(KEYED, {}, "Docs", "author");
    }
    ch := SchemaChange("Docs", Live, Main("Docs"), DropColumnChange("author", Text));
    assert ConfigColumnDiff(before, d, ch.kind);
    assert ConfigDrift(prev, next, ch);
  }

  /**
   The config drops a column of a populated live table. Comparing the configs reports it; planning against the
   database reports nothing at all, and apply returns with the table as it was.
   */
  lemma CapitalWitness() returns (states: seq<Db>)
    ensures Deployment(states)
    ensures var prev, next, db := Single("Docs", AUTHORED, {}), Single("Docs", KEYED, {}), states[|states| - 1];
      && SchemaRules(prev) && SchemaRules(next) && Populated(db, MainKey(Live, "Docs"))
      && ConfigReports(prev, next, Brief("Docs", Removed("author")))
      && Lists([], db, next) && Applied(db, next, [], {}).failure.None?
      && Applied(db, next, [], {}).db.tables == db.tables
      && "author" in db.tables[MainKey(Live, "Docs")].columns
  {
    hide Applied;
    hide Deployment;
    var prev, next := Single("Docs", AUTHORED, {}), Single("Docs", KEYED, {});
    AuthoredIsPlain();
    KeyedIsPlain("Docs");
    SingleRules("Docs", AUTHORED, {});
    SingleRules("Docs", KEYED, {});
    states := Publish("Docs", AUTHORED, {}, map[], {});
    DeploymentKeepsReferences(states);
    HavingKeysIsSound(states[2]);
    var ch := AuthorRemoved();
    forall other ensures !Planned(states[2], next, other) {
      NothingPlanned(states[2], other);
    }
    CapitalApplies(states);
    AuthorThere(states[1]);
  }

  lemma AuthorThere(first: Db)
    requires FirstApply(Single("Docs", AUTHORED, {}), {}, first)
    ensures MainKey(Live, "Docs") in first.tables && "author" in first.tables[MainKey(Live, "Docs")].columns
  {
    var prev := Single("Docs", AUTHORED, {});
    AuthoredIsPlain();
    FirstFacts(prev, {}, first);
    assert AUTHORED.fields[1].name == "author";
    StoredIsDeclared(AUTHORED, {}, "Docs", 1);
    ColumnPresent(prev, first, "Docs", Live, DatasetTable("Docs", AUTHORED, {}), "author");
  }
}
