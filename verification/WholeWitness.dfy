/** A searchable field is removed while its dataset holds a live document: what the whole file comes to. */
module WholeWitness {
  import opened Wrappers
  import opened Config
  import opened Catalog
  import opened Ddl
  import opened Plan
  import opened PlannersAgree
  import opened Pipeline
  import opened Rules
  import opened SmallRuns
  import opened RetypeWitnesses
  import opened WholeFile
  import TablesLeft
  import Witnesses

  const TOPIC_GONE: SchemaChange := SchemaChange("docs", Live, Main("docs"), DropColumnChange("topic", Text))

  const SEARCH_GONE: SchemaChange :=
    SchemaChange("docs", Live, Main("docs"), DropColumnChange("topic_tsv", Tsvector))

  /** The config that declares `id` alone. */
  const BARE: Config := Single("docs", Witnesses.KEYED, {})

  /** `a` stands in the list where `b` has not come yet. */
  ghost predicate ListedBefore(changes: seq<SchemaChange>, a: SchemaChange, b: SchemaChange) {
    exists n :: 0 <= n < |changes| && changes[n] == a && forall m :: 0 <= m < n ==> changes[m] != b
  }

  lemma TopicColumns(states: seq<Db>)
    requires Published(Single("docs", TOPICAL, {}), "docs", map[], {}, states)
    ensures var k := TableKey(Live, Main("docs"));
      && k in states[2].tables
      && "topic" in states[2].tables[k].columns && states[2].tables[k].columns["topic"] == Text
      && "topic_tsv" in states[2].tables[k].columns && states[2].tables[k].columns["topic_tsv"] == Tsvector
  {
    hide FirstApply, TablesLeft.DatasetHas, Checked;
    TopicalIsPlain();
    DocsIsLower();
    SingleRules("docs", TOPICAL, {});
    TopicalHas();
    TablesLeft.DatasetColumns(Single("docs", TOPICAL, {}), {}, states[1], "docs", Live);
  }

  lemma TopicalHas()
    ensures TablesLeft.DatasetHas(TOPICAL, {}, "topic", Text)
    ensures TablesLeft.DatasetHas(TOPICAL, {}, "topic_tsv", Tsvector)
  {
    var f := TOPICAL.fields;
    assert f[0].name == "id" && f[1].name == "topic" && |f| == 2;
    assert "topic" + "_tsv" == "topic_tsv" && |"topic_tsv"| == 9;
    assert TOPICAL.taxonomies == ["topic"];
    assert StoresField(TOPICAL, "topic") && !StoresField(TOPICAL, "topic_tsv");
  }

  lemma BareDeclares(c: string)
    ensures DeclaresName(DatasetTable("docs", Witnesses.KEYED, {}), c) <==> c == "id"
    ensures "topic" !in DatasetTable("docs", Witnesses.KEYED, {}).structural
    ensures "topic_tsv" !in DatasetTable("docs", Witnesses.KEYED, {}).structural
  {
    TablesLeft.DatasetDeclaresName("docs", Witnesses.KEYED, {}, c);
    var f := Witnesses.KEYED.fields;
    assert f[0].name == "id" && |f| == 1;
    assert Tsv("id") == "id_tsv" && |"id_tsv"| == 6 && |"topic_tsv"| == 9;
    assert forall n :: n in TsvNames(f) ==> n == "id_tsv";
  }

  lemma BothPlanned(states: seq<Db>)
    requires Published(Single("docs", TOPICAL, {}), "docs", map[], {}, states)
    ensures Planned(states[2], BARE, TOPIC_GONE) && Planned(states[2], BARE, SEARCH_GONE)
  {
    hide FirstApply;
    TopicColumns(states);
    BareDeclares("topic");
    BareDeclares("topic_tsv");
    var d := DatasetTable("docs", Witnesses.KEYED, {});
    var t := states[2].tables[TableKey(Live, Main("docs"))];
    assert Compared(states[2], BARE, "docs", Live, d);
    assert ColumnDiff(t, d, TOPIC_GONE.kind) && ColumnDiff(t, d, SEARCH_GONE.kind);
    assert Drifted(states[2], BARE, TOPIC_GONE) && Drifted(states[2], BARE, SEARCH_GONE);
  }

  /** No other planned change takes either column. */
  lemma TakersAre(states: seq<Db>, ch: SchemaChange)
    requires Published(Single("docs", TOPICAL, {}), "docs", map[], {}, states) && Planned(states[2], BARE, ch)
    ensures Takes(ch, TableKey(Live, Main("docs")), "topic") ==> ch == TOPIC_GONE
    ensures Takes(ch, TableKey(Live, Main("docs")), "topic_tsv") ==> ch == SEARCH_GONE
  {
    hide FirstApply;
    TopicColumns(states);
    if ch.env == Live && ch.table == Main("docs") && (ch.kind.DropColumnChange? || ch.kind.TypeChange?) {
      var d: DeclaredTable :| Compared(states[2], BARE, ch.collection, ch.env, d) && d.table == ch.table
        && TableDiff(states[2].tables[TableKey(ch.env, d.table)], ch.collection, BARE.collections[ch.collection], d,
                     ch.kind);
      assert d == DatasetTable("docs", Witnesses.KEYED, {});
      BareDeclares(ch.kind.field);
      if ch.kind.TypeChange? {
        assert |"id" + "_tsv"| == 6 && |"topic"| == 5 && |"topic_tsv"| == 9;
      }
    }
  }

  /** The first place of a change in a list. */
  lemma FirstPlace(changes: seq<SchemaChange>, a: SchemaChange, n: nat) returns (first: nat)
    requires n < |changes| && changes[n] == a
    ensures first <= n && changes[first] == a && forall m :: 0 <= m < first ==> changes[m] != a
  {
    first := 0;
    while changes[first] != a
      invariant first <= n && forall m :: 0 <= m < first ==> changes[m] != a
      decreases n - first
    {
      first := first + 1;
    }
  }

  lemma FieldFirstFails(states: seq<Db>, changes: seq<SchemaChange>)
    requires History(states) && Published(Single("docs", TOPICAL, {}), "docs", map[], {}, states)
    requires Keyed(BARE) && NoTsvFields(BARE) && Lists(changes, states[2], BARE)
    requires ListedBefore(changes, TOPIC_GONE, SEARCH_GONE)
    ensures RunWhole(changes, states[2]).None?
  {
    hide History, FirstApply, Takes, RunWhole, Planned, NoTsvFields;
    var k := TableKey(Live, Main("docs"));
    var n :| 0 <= n < |changes| && changes[n] == TOPIC_GONE && forall m :: 0 <= m < n ==> changes[m] != SEARCH_GONE;
    var first := FirstPlace(changes, TOPIC_GONE, n);
    TopicColumns(states);
    forall m | 0 <= m < first ensures !Takes(changes[m], k, "topic") && !Takes(changes[m], k, "topic_tsv") {
      assert changes[m] in changes;
      TakersAre(states, changes[m]);
    }
    assert "topic" + "_tsv" == "topic_tsv";
    if RunWhole(changes, states[2]).Some? {
      SearchColumnFirst(states, BARE, changes, first);
    }
  }

  /**
   Both columns are planned to go, and every list of the plan that has the field before its search column gives
   a file that does not run through.
   */
  lemma SearchRemovedWitness() returns (states: seq<Db>)
    ensures |states| == 3 && History(states) && SchemaRules(BARE)
    ensures Planned(states[2], BARE, TOPIC_GONE) && Planned(states[2], BARE, SEARCH_GONE)
      && Populated(states[2], TableKey(Live, Main("docs")))
    ensures forall changes :: Lists(changes, states[2], BARE) && ListedBefore(changes, TOPIC_GONE, SEARCH_GONE) ==>
      RunWhole(changes, states[2]).None?
  {
    hide History, FirstApply, RunWhole, Planned, Plain, Checked, ListedBefore;
    TopicalIsPlain();
    TopicalIsChecked({});
    DocsIsLower();
    BareChecked();
    states := Publish("docs", TOPICAL, {}, map[], {});
    BothPlanned(states);
    forall changes | Lists(changes, states[2], BARE) && ListedBefore(changes, TOPIC_GONE, SEARCH_GONE)
      ensures RunWhole(changes, states[2]).None?
    {
      FieldFirstFails(states, changes);
    }
  }

  lemma BareChecked()
    ensures SchemaRules(BARE) && Keyed(BARE) && NoTsvFields(BARE)
  {
    Witnesses.KeyedIsPlain("docs");
    SingleRules("docs", Witnesses.KEYED, {});
    assert !EndsTsv("id");
  }
}
