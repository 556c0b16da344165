/**
 When the statements for a dataset that has no table yet run to the end. The identity index falls back to
 a column `id` when no field is marked pk, so a dataset with neither cannot be created; and a search column
 is added for every searchable field, also for a joined one that has no column to be computed from.
 */
module Fresh {
  import opened Wrappers
  import opened Config
  import opened Catalog
  import opened Ddl
  import opened DdlFacts
  import opened Rules
  import opened Convergence
  import opened Idempotence
  import opened Migration
  import opened Upgrade

  predicate OwnName(f: string) {
    f in REV_COLUMNS + {"workspace_id"}
  }

  /** No stored field takes the name of a revision column or of `workspace_id`. */
  predicate StoredApart(fields: seq<FieldEntry>) {
    forall i :: 0 <= i < |fields| && fields[i].field.storage.Stored? ==> !OwnName(fields[i].name)
  }

  /** The identity field has a column: it is stored, or is joined under the name of a bookkeeping one. */
  predicate IdentityThere(c: Collection) {
    StoresField(c, IdentityField(c)) || OwnName(IdentityField(c))
  }

  /** The bookkeeping columns that hold text. */
  const TEXT_OWN: set<string> := {"workspace_id", "_rev_by", "_rev_op", "_rev_status"}

  /**
   A searchable field has text to search: it is a stored text column, or one that is not stored carries the name
   of a text bookkeeping column. If its search column is a vocabulary's, that one has to be an array, or a
   declared index has to carry the search index's name.
   */
  ghost predicate Searches(name: string, c: Collection, multiple: set<string>, e: FieldEntry) {
    e.field.searchable ==>
      if Tsv(e.name) in c.taxonomies
      then Tsv(e.name) in multiple || Named(name, c.indexes, SearchIndexName(name, e.name))
      else if e.field.storage.Stored? then FieldPgType(e, c.taxonomies, multiple) == Text
      else e.name in TEXT_OWN
  }

  /** `workspace_id` is text, over which no term index can be built. */
  predicate TermsLand(c: Collection, multiple: set<string>) {
    !("workspace_id" in c.taxonomies && "workspace_id" in multiple)
  }

  // ----- the created table

  /** The columns `create table` makes: the revision columns and the stored fields. */
  ghost predicate CreatedColumns(t: Table, c: Collection, multiple: set<string>) {
    && (forall i :: 0 <= i < |REV_DDL| ==>
          REV_DDL[i].name in t.columns && t.columns[REV_DDL[i].name] == REV_DDL[i].pgType)
    && (forall n :: n in t.columns <==> n in REV_COLUMNS + {"workspace_id"} || StoresField(c, n))
    && (forall i :: 0 <= i < |c.fields| && c.fields[i].field.storage.Stored? ==>
          c.fields[i].name in t.columns
              && t.columns[c.fields[i].name] == FieldPgType(c.fields[i], c.taxonomies, multiple))
  }

  predicate HasColumn(columns: seq<DeclaredColumn>, n: string) {
    exists k :: 0 <= k < |columns| && columns[k].name == n
  }

  predicate HasStored(fields: seq<FieldEntry>, n: string) {
    exists j :: 0 <= j < |fields| && fields[j].name == n && fields[j].field.storage.Stored?
  }

  lemma {:induction false} StoredNames(
      fields: seq<FieldEntry>, taxonomies: seq<string>, multiple: set<string>, n: string)
    ensures HasColumn(StoredColumns(fields, taxonomies, multiple), n) <==> HasStored(fields, n)
  {
    if fields != [] {
      var m := |fields| - 1;
      var e := fields[m];
      StoredNames(fields[..m], taxonomies, multiple, n);
      var front := StoredColumns(fields[..m], taxonomies, multiple);
      ColumnPush(front, ColumnOf(e, taxonomies, multiple), n);
      StoredPush(fields[..m], e, n);
      assert fields == fields[..m] + [e];
      assert front + [] == front;
    }
  }

  lemma ColumnPush(columns: seq<DeclaredColumn>, col: DeclaredColumn, n: string)
    ensures HasColumn(columns + [col], n) <==> HasColumn(columns, n) || col.name == n
  {
    var all := columns + [col];
    assert all[|columns|] == col;
    if HasColumn(columns, n) {
      var k :| 0 <= k < |columns| && columns[k].name == n;
      assert all[k].name == n;
    }
  }

  lemma StoredPush(fields: seq<FieldEntry>, e: FieldEntry, n: string)
    ensures HasStored(fields + [e], n) <==> HasStored(fields, n) || (e.name == n && e.field.storage.Stored?)
  {
    var all := fields + [e];
    assert all[|fields|] == e;
    if HasStored(fields, n) {
      var k :| 0 <= k < |fields| && fields[k].name == n && fields[k].field.storage.Stored?;
      assert all[k] == fields[k];
    }
  }

  lemma Unnamed(columns: seq<DeclaredColumn>, n: string)
    requires !HasColumn(columns, n)
    ensures forall k :: 0 <= k < |columns| ==> columns[k].name != n
  {}

  lemma {:induction false} StoredDistinct(fields: seq<FieldEntry>, taxonomies: seq<string>, multiple: set<string>)
    requires forall i, j :: 0 <= i < j < |fields| ==> fields[i].name != fields[j].name
    ensures forall i, j :: 0 <= i < j < |StoredColumns(fields, taxonomies, multiple)| ==>
      StoredColumns(fields, taxonomies, multiple)[i].name != StoredColumns(fields, taxonomies, multiple)[j].name
  {
    if fields != [] {
      var n := |fields| - 1;
      StoredDistinct(fields[..n], taxonomies, multiple);
      StoredNames(fields[..n], taxonomies, multiple, fields[n].name);
      var front := StoredColumns(fields[..n], taxonomies, multiple);
      assert !HasStored(fields[..n], fields[n].name);
      Unnamed(front, fields[n].name);
    }
  }

  lemma ListDistinct(c: Collection, multiple: set<string>)
    requires DistinctFields(c) && StoredApart(c.fields)
    ensures Distinct(Names(REV_DDL + DataColumns(StoredColumns(c.fields, c.taxonomies, multiple))))
  {
    var stored := StoredColumns(c.fields, c.taxonomies, multiple);
    RevNames();
    StoredDistinct(c.fields, c.taxonomies, multiple);
    forall k | 0 <= k < |stored| ensures !OwnName(stored[k].name) {
      StoredNames(c.fields, c.taxonomies, multiple, stored[k].name);
      assert HasColumn(stored, stored[k].name);
    }
    ApartDistinct(REV_DDL, stored);
  }

  /** A stored field of such a name is listed twice, which `create table` refuses. */
  lemma ListClash(c: Collection, multiple: set<string>)
    requires !StoredApart(c.fields)
    ensures !Distinct(Names(REV_DDL + DataColumns(StoredColumns(c.fields, c.taxonomies, multiple))))
  {
    var stored := StoredColumns(c.fields, c.taxonomies, multiple);
    var i :| 0 <= i < |c.fields| && c.fields[i].field.storage.Stored? && OwnName(c.fields[i].name);
    RevNames();
    StoredNames(c.fields, c.taxonomies, multiple, c.fields[i].name);
    var r :| 0 <= r < |REV_DDL| && REV_DDL[r].name == c.fields[i].name;
    var k :| 0 <= k < |stored| && stored[k].name == c.fields[i].name;
    TwiceListed(REV_DDL, stored, r, k);
  }

  lemma TwiceListed(head: seq<Column>, cols: seq<DeclaredColumn>, r: nat, k: nat)
    requires r < |head| && k < |cols| && head[r].name == cols[k].name
    ensures !Distinct(Names(head + DataColumns(cols)))
  {
    var names := Names(head + DataColumns(cols));
    assert names[r] == names[|head| + k];
  }

  /** A list with distinct names, then columns with distinct other names. */
  lemma ApartDistinct(head: seq<Column>, stored: seq<DeclaredColumn>)
    requires Distinct(Names(head)) && forall i, j :: 0 <= i < j < |stored| ==> stored[i].name != stored[j].name
    requires forall i, k :: 0 <= i < |head| && 0 <= k < |stored| ==> head[i].name != stored[k].name
    ensures Distinct(Names(head + DataColumns(stored)))
  {
    var all := head + DataColumns(stored);
    forall i, j | 0 <= i < j < |all| ensures Names(all)[i] != Names(all)[j] {
      if j < |head| {
        assert Names(head)[i] != Names(head)[j];
      } else if i < |head| {
        assert all[i] == head[i] && all[j].name == stored[j - |head|].name;
      } else {
        assert all[i].name == stored[i - |head|].name && all[j].name == stored[j - |head|].name;
      }
    }
  }

  lemma CreateMakes(c: Collection, multiple: set<string>)
    requires DistinctFields(c) && StoredApart(c.fields)
    ensures CreatedColumns(NewTable(REV_DDL + DataColumns(StoredColumns(c.fields, c.taxonomies, multiple)),
      Some("_rev")), c, multiple)
  {
    var all := REV_DDL + DataColumns(StoredColumns(c.fields, c.taxonomies, multiple));
    ListDistinct(c, multiple);
    TypesFrom(all);
    OwnMade(all);
    NamesMade(c, multiple, all);
    TypesMade(c, multiple, all);
  }

  lemma OwnMade(all: seq<Column>)
    requires REV_DDL <= all && Distinct(Names(all))
    ensures forall i :: 0 <= i < |REV_DDL| ==>
      REV_DDL[i].name in Types(all) && Types(all)[REV_DDL[i].name] == REV_DDL[i].pgType
  {
    TypesFrom(all);
    forall i | 0 <= i < |REV_DDL|
      ensures REV_DDL[i].name in Types(all) && Types(all)[REV_DDL[i].name] == REV_DDL[i].pgType
    {
      assert all[i] == REV_DDL[i];
    }
  }

  lemma NamesMade(c: Collection, multiple: set<string>, all: seq<Column>)
    requires all == REV_DDL + DataColumns(StoredColumns(c.fields, c.taxonomies, multiple)) && Distinct(Names(all))
    ensures forall n :: n in Types(all) <==> n in REV_COLUMNS + {"workspace_id"} || StoresField(c, n)
  {
    TypesFrom(all);
    forall n ensures n in Types(all) <==> n in REV_COLUMNS + {"workspace_id"} || StoresField(c, n) {
      ListedOrNot(REV_DDL, StoredColumns(c.fields, c.taxonomies, multiple), n);
      RevNames();
      StoredNames(c.fields, c.taxonomies, multiple, n);
      assert HasStored(c.fields, n) <==> StoresField(c, n);
    }
  }

  /** A name on the list is in its fixed part or among the data columns. */
  lemma ListedOrNot(head: seq<Column>, stored: seq<DeclaredColumn>, n: string)
    ensures var all := head + DataColumns(stored);
      (exists i :: 0 <= i < |all| && all[i].name == n) <==>
      (exists i :: 0 <= i < |head| && head[i].name == n) || HasColumn(stored, n)
  {
    var all := head + DataColumns(stored);
    if k :| |head| <= k < |all| && all[k].name == n {
      assert stored[k - |head|].name == n;
    }
    if i :| 0 <= i < |head| && head[i].name == n {
      assert all[i].name == n;
    }
    if HasColumn(stored, n) {
      var k :| 0 <= k < |stored| && stored[k].name == n;
      assert all[|head| + k].name == n;
    }
  }

  lemma TypesMade(c: Collection, multiple: set<string>, all: seq<Column>)
    requires all == REV_DDL + DataColumns(StoredColumns(c.fields, c.taxonomies, multiple)) && Distinct(Names(all))
    ensures forall i :: 0 <= i < |c.fields| && c.fields[i].field.storage.Stored? ==>
      c.fields[i].name in Types(all) && Types(all)[c.fields[i].name] == FieldPgType(c.fields[i], c.taxonomies, multiple)
  {
    var stored := StoredColumns(c.fields, c.taxonomies, multiple);
    TypesFrom(all);
    forall i | 0 <= i < |c.fields| && c.fields[i].field.storage.Stored?
      ensures c.fields[i].name in Types(all)
        && Types(all)[c.fields[i].name] == FieldPgType(c.fields[i], c.taxonomies, multiple)
    {
      StoredColumnsFrom(c.fields, c.taxonomies, multiple);
      assert ColumnOf(c.fields[i], c.taxonomies, multiple) in stored;
      var k :| 0 <= k < |stored| && stored[k] == ColumnOf(c.fields[i], c.taxonomies, multiple);
      assert all[|REV_DDL| + k].name == c.fields[i].name && all[|REV_DDL| + k].pgType == stored[k].pgType;
    }
  }

  // ----- the fixed statements

  ghost predicate Ready(t: Table, c: Collection, multiple: set<string>, name: string, pk: string) {
    && CreatedColumns(t, c, multiple) && t.identity == Some(pk) && t.indexes.Keys == {HistoryIndexName(name)}
  }

  lemma IdentityNeedsColumn(t: Table, c: Collection, multiple: set<string>)
    requires CreatedColumns(t, c, multiple) && t.identity.None? && t.rows == []
    ensures CreateIdentityOn(t, IdentityField(c)).Some? <==> IdentityThere(c)
  {}

  /** Creating the table and its two structural indexes works exactly when the identity field has a column. */
  lemma HeadRuns(db: Db, key: TableKey, name: string, c: Collection, multiple: set<string>)
    requires key !in db.tables && DistinctFields(c)
    ensures var r := ExecAll(Head(key, name, c, multiple), db);
      && (r.Some? <==> StoredApart(c.fields) && IdentityThere(c))
      && (r.Some? ==> key in r.value.tables && Ready(r.value.tables[key], c, multiple, name, IdentityField(c)))
  {
    var pk := IdentityField(c);
    var create, ws, id := DatasetCreate(key, name, c, multiple), AddColumn(key, WORKSPACE), CreateIdentity(key, pk);
    FourRun(create, ws, id, HistoryIndex(key, name, pk), db);
    if StoredApart(c.fields) {
      ListDistinct(c, multiple);
      CreateMakes(c, multiple);
      var made := Exec(create, db).value;
      assert "workspace_id" in made.tables[key].columns;
      assert made.tables[key := made.tables[key]] == made.tables;
      assert Exec(ws, made) == Some(made);
      IdentityNeedsColumn(made.tables[key], c, multiple);
      if IdentityThere(c) {
        HistoryRuns(Exec(id, made).value, key, name, c, multiple, pk);
      }
    } else {
      ListClash(c, multiple);
    }
  }

  lemma HistoryRuns(db: Db, key: TableKey, name: string, c: Collection, multiple: set<string>, pk: string)
    requires key in db.tables && CreatedColumns(db.tables[key], c, multiple) && pk == IdentityField(c)
      && IdentityThere(c)
    requires db.tables[key].identity == Some(pk) && db.tables[key].indexes == map[]
    ensures var r := Exec(HistoryIndex(key, name, pk), db);
      r.Some? && key in r.value.tables && Ready(r.value.tables[key], c, multiple, name, pk)
  {}

  lemma FourRun(a: Statement, b: Statement, c: Statement, d: Statement, db: Db)
    ensures ExecAll([a, b, c, d], db) ==
      match Exec(a, db)
      case None => Option.None
      case Some(x) =>
        match Exec(b, x)
        case None => Option.None
        case Some(y) =>
          match Exec(c, y)
          case None => Option.None
          case Some(z) => Exec(d, z)
  {
    assert [a, b, c, d][..3] == [a, b, c] && [a, b, c][..2] == [a, b];
    ExecTwo(a, b, db);
  }

  // ----- indexes, terms and searches

  lemma FreshIndexes(t: Table, c: Collection, multiple: set<string>, name: string, pk: string)
    requires Ready(t, c, multiple, name, pk) && pk == IdentityField(c) && IdentityThere(c)
    requires forall i, f :: 0 <= i < |c.indexes| && f in c.indexes[i] ==> StoresField(c, f)
    ensures IndexesReady(t, name, c.indexes, pk)
  {
    forall i | 0 <= i < |c.indexes| ensures IndexReady(t, name, c.indexes, pk, i) {
      assert AllPresent(t.columns, IndexColumns(c.indexes[i], pk));
    }
  }

  /** What the table is once its declared indexes are there. */
  ghost predicate Made(t: Table, name: string, c: Collection, multiple: set<string>, have: set<string>) {
    && CreatedColumns(t, c, multiple)
    && forall x :: x in have <==> x == HistoryIndexName(name) || Named(name, c.indexes, x)
  }

  lemma OwnText(t: Table, c: Collection, multiple: set<string>, f: string)
    requires CreatedColumns(t, c, multiple) && OwnName(f)
    ensures f in t.columns && (t.columns[f] == Text <==> f in TEXT_OWN)
  {
    RevNames();
    var i :| 0 <= i < |REV_DDL| && REV_DDL[i].name == f;
  }

  /** No term index is called like the history index or a declared one. */
  lemma WorkspaceTermIsNew(name: string, indexes: seq<seq<string>>)
    ensures var x := TermIndexName(name, "workspace_id"); x != HistoryIndexName(name) && !Named(name, indexes, x)
  {
    var x := TermIndexName(name, "workspace_id");
    assert x[|name| + 1] == 'w';
    assert HistoryIndexName(name)[|name| + 1] == 'h';
    forall i | 0 <= i < |indexes| ensures IndexName(name, indexes[i]) != x {
      assert IndexName(name, indexes[i])[|name| + 1] == 'i';
    }
  }

  /** A bound vocabulary's name is a bookkeeping column's only if it is `workspace_id`. */
  lemma OwnSlug(c: Collection, slug: string)
    requires Checked(c) && slug in c.taxonomies && OwnName(slug)
    ensures slug == "workspace_id"
  {
    if slug in REV_COLUMNS {
      RevUnderscored(slug);
    }
  }

  lemma StoredVocab(t: Table, c: Collection, multiple: set<string>, slug: string)
    requires CreatedColumns(t, c, multiple) && slug in c.taxonomies && slug in t.columns && !OwnName(slug)
    ensures t.columns[slug] == VocabType(slug, multiple)
  {
    var i :| 0 <= i < |c.fields| && c.fields[i].name == slug && c.fields[i].field.storage.Stored?;
  }

  lemma TermsOnCreated(t: Table, name: string, c: Collection, multiple: set<string>, have: set<string>)
    requires Checked(c) && Made(t, name, c, multiple, have)
    ensures AllVocabLands(t.columns, have, name, c.taxonomies, multiple) <==> TermsLand(c, multiple)
  {
    WorkspaceTermIsNew(name, c.indexes);
    OwnText(t, c, multiple, "workspace_id");
    if TermsLand(c, multiple) {
      forall s | s in c.taxonomies ensures VocabLands(t.columns, have, name, multiple, s) {
        if s in t.columns && s in multiple {
          if OwnName(s) {
            OwnSlug(c, s);
          } else {
            StoredVocab(t, c, multiple, s);
          }
        }
      }
    } else {
      assert !VocabLands(t.columns, have, name, multiple, "workspace_id");
    }
  }

  lemma HistoryIsNoSearch(name: string, f: string)
    ensures SearchIndexName(name, f) != HistoryIndexName(name)
  {
    var x, y := SearchIndexName(name, f), HistoryIndexName(name);
    assert x[|x| - 5] == 'v' && y[|y| - 5] == 'y';
  }

  /** Over a created table a searchable field lands exactly when it has text to search. */
  lemma LandsOnCreated(t: Table, name: string, c: Collection, multiple: set<string>, have: set<string>, i: nat)
    requires c.kind == Dataset && Checked(c) && DistinctFields(c) && StoredApart(c.fields) && i < |c.fields|
    requires Made(t, name, c, multiple, have)
    ensures SearchLands(t.columns, have, name, c, multiple, c.fields[i]) <==>
      Searches(name, c, multiple, c.fields[i])
  {
    var e := c.fields[i];
    if e.field.searchable {
      assert FieldChecked(c, e);
      OwnNotTsv(e.name);
      HistoryIsNoSearch(name, e.name);
      if Tsv(e.name) in c.taxonomies {
        if Tsv(e.name) in t.columns {
          StoredVocab(t, c, multiple, Tsv(e.name));
        }
      } else {
        NotLate(t, c, multiple, Tsv(e.name));
        TextLate(t, c, multiple, i);
      }
    }
  }

  /** A name that no field carries is no column by then. */
  lemma NotLate(t: Table, c: Collection, multiple: set<string>, f: string)
    requires CreatedColumns(t, c, multiple) && !HasField(c, f) && f !in c.taxonomies && !OwnName(f)
    ensures LateType(t.columns, c, multiple, f) == Option.None
  {
    assert !StoresField(c, f);
    forall i ensures !Altered(c, f, i) {}
  }

  lemma TextLate(t: Table, c: Collection, multiple: set<string>, i: nat)
    requires c.kind == Dataset && Checked(c) && DistinctFields(c) && StoredApart(c.fields) && i < |c.fields|
    requires CreatedColumns(t, c, multiple) && c.fields[i].field.searchable
    ensures var e := c.fields[i];
      LateType(t.columns, c, multiple, e.name) == Some(Text) <==>
        if e.field.storage.Stored? then FieldPgType(e, c.taxonomies, multiple) == Text else e.name in TEXT_OWN
  {
    var e := c.fields[i];
    assert FieldChecked(c, e);
    if !e.field.storage.Stored? {
      assert e.name !in c.taxonomies && !StoresField(c, e.name);
      forall j ensures !Altered(c, e.name, j) {}
      if OwnName(e.name) {
        OwnText(t, c, multiple, e.name);
      }
    }
  }

  // ----- the whole batch

  /**
   Main result: on a database without the table, a dataset's statements run to the end if and only if no stored
   field is called like a bookkeeping column, its identity field has a column, be it the declared pk or a field
   named id, no multi-valued vocabulary is called `workspace_id`, and every searchable field has text to search.
   Parsing refuses none of the failures.
   */
  lemma FreshRuns(db: Db, env: Env, name: string, c: Collection, multiple: set<string>)
    requires c.kind == Dataset && Checked(c) && DistinctFields(c) && MainKey(env, name) !in db.tables
    ensures ExecAll(DatasetBatch(env, name, c, multiple), db).Some? <==>
      && StoredApart(c.fields) && IdentityThere(c) && TermsLand(c, multiple)
      && forall i :: 0 <= i < |c.fields| ==> Searches(name, c, multiple, c.fields[i])
  {
    var key, pk := MainKey(env, name), IdentityField(c);
    var head, idx := Head(key, name, c, multiple), IndexStatements(key, name, c.indexes, pk);
    HeadRuns(db, key, name, c, multiple);
    BatchIs(env, name, c, multiple);
    ExecAppend(head, idx, db);
    ExecAppend(head + idx, Tail(key, name, c, multiple), db);
    if ExecAll(head, db).Some? {
      var made := ExecAll(head, db).value;
      FreshIndexes(made.tables[key], c, multiple, name, pk);
      IndexesRun(made, key, name, c.indexes, pk);
      FreshTailRuns(made, ExecAll(idx, made).value, key, name, c, multiple);
    }
  }

  lemma FreshTailRuns(made: Db, built: Db, key: TableKey, name: string, c: Collection, multiple: set<string>)
    requires c.kind == Dataset && Checked(c) && DistinctFields(c) && StoredApart(c.fields)
    requires key in made.tables && Ready(made.tables[key], c, multiple, name, IdentityField(c))
    requires Indexed(made, built, key, name, c.indexes, IdentityField(c))
    ensures ExecAll(Tail(key, name, c, multiple), built).Some? <==>
      TermsLand(c, multiple) && forall i :: 0 <= i < |c.fields| ==> Searches(name, c, multiple, c.fields[i])
  {
    var t := built.tables[key];
    CheckedIsBound(c);
    assert Made(t, name, c, multiple, t.indexes.Keys);
    TailRuns(built, key, name, c, multiple);
    TermsOnCreated(t, name, c, multiple, t.indexes.Keys);
    forall i | 0 <= i < |c.fields|
      ensures SearchLands(t.columns, t.indexes.Keys, name, c, multiple, c.fields[i]) <==>
        Searches(name, c, multiple, c.fields[i])
    {
      LandsOnCreated(t, name, c, multiple, t.indexes.Keys, i);
    }
  }
}
