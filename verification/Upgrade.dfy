/**
 When the statements for a dataset that already has a table run to the end. The declared indexes come
 before the columns the table is still missing, so an index over a field added in the same edit fails.
 */
module Upgrade {
  import opened Wrappers
  import opened Config
  import opened Catalog
  import opened Ddl
  import opened Rules
  import opened Convergence
  import opened Idempotence
  import opened Migration
  import Apply

  type Columns = map<string, PgType>

  /** What an earlier apply of some dataset under this name left, identity and history index included. */
  ghost predicate Standing(db: Db, key: TableKey, name: string) {
    && key in db.tables
    && db.tables[key].identity.Some? && HistoryIndexName(name) in db.tables[key].indexes
    && "workspace_id" in db.tables[key].columns
  }

  // ----- the declared indexes

  predicate AllPresent(columns: Columns, over: seq<string>) {
    forall c :: c in over ==> c in columns
  }

  /** Declared index `i` exists, or an entry up to it with the same name can be built over what is there. */
  ghost predicate IndexReady(t: Table, name: string, indexes: seq<seq<string>>, pk: string, i: nat)
    requires i < |indexes|
  {
    || IndexName(name, indexes[i]) in t.indexes
    || exists j :: && 0 <= j <= i && IndexName(name, indexes[j]) == IndexName(name, indexes[i])
                   && AllPresent(t.columns, IndexColumns(indexes[j], pk))
  }

  ghost predicate IndexesReady(t: Table, name: string, indexes: seq<seq<string>>, pk: string) {
    forall i :: 0 <= i < |indexes| ==> IndexReady(t, name, indexes, pk, i)
  }

  /** Index statements touch nothing but the index list, and every name so far is in it. */
  ghost predicate Indexed(db: Db, after: Db, key: TableKey, name: string, indexes: seq<seq<string>>, pk: string) {
    && key in db.tables && key in after.tables
    && after.tables[key].columns == db.tables[key].columns
    && forall x :: x in after.tables[key].indexes <==> x in db.tables[key].indexes || Named(name, indexes, x)
  }

  ghost predicate Named(name: string, indexes: seq<seq<string>>, x: string) {
    exists i :: 0 <= i < |indexes| && IndexName(name, indexes[i]) == x
  }

  lemma IndexStatementsStep(key: TableKey, name: string, indexes: seq<seq<string>>, pk: string)
    requires indexes != []
    ensures var n := |indexes| - 1;
      IndexStatements(key, name, indexes, pk)
      == IndexStatements(key, name, indexes[..n], pk)
          + [CreateIndex(key, IndexName(name, indexes[n]), IndexColumns(indexes[n], pk), false)]
  {}

  /** The index statements run exactly when every index is ready. */
  lemma {:induction false} IndexesRun(db: Db, key: TableKey, name: string, indexes: seq<seq<string>>, pk: string)
    requires key in db.tables
    ensures var r := ExecAll(IndexStatements(key, name, indexes, pk), db);
      && (r.Some? <==> IndexesReady(db.tables[key], name, indexes, pk))
      && (r.Some? ==> Indexed(db, r.value, key, name, indexes, pk))
  {
    if indexes != [] {
      var n := |indexes| - 1;
      var front := indexes[..n];
      var ss := IndexStatements(key, name, indexes, pk);
      IndexesRun(db, key, name, front, pk);
      IndexStatementsStep(key, name, indexes, pk);
      assert ss[..|ss| - 1] == IndexStatements(key, name, front, pk);
      ReadyOfFront(db.tables[key], name, indexes, pk);
      var r := ExecAll(IndexStatements(key, name, front, pk), db);
      if r.Some? {
        OneIndexRuns(db, r.value, key, name, indexes, pk);
      }
    }
  }

  lemma ReadyOfFront(t: Table, name: string, indexes: seq<seq<string>>, pk: string)
    requires indexes != []
    ensures IndexesReady(t, name, indexes, pk) <==>
      IndexesReady(t, name, indexes[..|indexes| - 1], pk) && IndexReady(t, name, indexes, pk, |indexes| - 1)
  {
    var front := indexes[..|indexes| - 1];
    forall i | 0 <= i < |front| ensures IndexReady(t, name, front, pk, i) <==> IndexReady(t, name, indexes, pk, i) {
      assert forall j :: 0 <= j <= i ==> front[j] == indexes[j];
    }
  }

  lemma OneIndexRuns(db: Db, mid: Db, key: TableKey, name: string, indexes: seq<seq<string>>, pk: string)
    requires indexes != [] && key in db.tables
    requires var front := indexes[..|indexes| - 1];
      Indexed(db, mid, key, name, front, pk) && IndexesReady(db.tables[key], name, front, pk)
    ensures var n := |indexes| - 1;
      var r := Exec(CreateIndex(key, IndexName(name, indexes[n]), IndexColumns(indexes[n], pk), false), mid);
      && (r.Some? <==> IndexReady(db.tables[key], name, indexes, pk, n))
      && (r.Some? ==> Indexed(db, r.value, key, name, indexes, pk))
  {
    var n := |indexes| - 1;
    ReadyMeans(db.tables[key], mid.tables[key], name, indexes, pk);
    var s := CreateIndex(key, IndexName(name, indexes[n]), IndexColumns(indexes[n], pk), false);
    if Exec(s, mid).Some? {
      IndexedStep(db, mid, Exec(s, mid).value, key, name, indexes, pk);
    }
  }

  /** With the earlier ones built, the last index is ready exactly when it is there or its columns are. */
  lemma ReadyMeans(t: Table, built: Table, name: string, indexes: seq<seq<string>>, pk: string)
    requires indexes != [] && IndexesReady(t, name, indexes[..|indexes| - 1], pk)
    requires forall x :: x in built.indexes <==> x in t.indexes || Named(name, indexes[..|indexes| - 1], x)
    ensures var n := |indexes| - 1;
      IndexReady(t, name, indexes, pk, n) <==>
        IndexName(name, indexes[n]) in built.indexes || AllPresent(t.columns, IndexColumns(indexes[n], pk))
  {
    var n := |indexes| - 1;
    var x, front := IndexName(name, indexes[n]), indexes[..n];
    if x in built.indexes && x !in t.indexes {
      var i :| 0 <= i < n && IndexName(name, front[i]) == x;
      assert IndexReady(t, name, front, pk, i);
      var j :| 0 <= j <= i && IndexName(name, front[j]) == x && AllPresent(t.columns, IndexColumns(front[j], pk));
      assert indexes[j] == front[j];
    }
    if IndexReady(t, name, indexes, pk, n) && x !in t.indexes {
      var j :| 0 <= j <= n && IndexName(name, indexes[j]) == x && AllPresent(t.columns, IndexColumns(indexes[j], pk));
      assert j < n ==> front[j] == indexes[j];
    }
  }

  lemma IndexedStep(db: Db, mid: Db, after: Db, key: TableKey, name: string, indexes: seq<seq<string>>, pk: string)
    requires indexes != [] && Indexed(db, mid, key, name, indexes[..|indexes| - 1], pk)
    requires var n := |indexes| - 1;
      && key in after.tables && after.tables[key].columns == mid.tables[key].columns
      && after.tables[key].indexes.Keys == mid.tables[key].indexes.Keys + {IndexName(name, indexes[n])}
    ensures Indexed(db, after, key, name, indexes, pk)
  {
    var n := |indexes| - 1;
    var front := indexes[..n];
    forall x ensures x in after.tables[key].indexes <==> x in db.tables[key].indexes || Named(name, indexes, x) {
      assert x in after.tables[key].indexes.Keys <==>
          x in mid.tables[key].indexes.Keys || x == IndexName(name, indexes[n]);
      if Named(name, indexes, x) {
        var i :| 0 <= i < |indexes| && IndexName(name, indexes[i]) == x;
        assert i < n ==> front[i] == indexes[i];
      }
      if Named(name, front, x) {
        var i :| 0 <= i < |front| && IndexName(name, front[i]) == x;
        assert indexes[i] == front[i];
      }
      assert IndexName(name, indexes[n]) == x ==> Named(name, indexes, x);
    }
  }

  // ----- the missing columns

  /** The field's column is one `fieldAlters` adds. */
  predicate Alters(e: FieldEntry, taxonomies: seq<string>) {
    e.field.storage.Stored? && !e.field.pk && e.name !in taxonomies
  }

  /** `cols` gained what `fieldAlters` adds and nothing else; what it had keeps its type. */
  ghost predicate FieldsAdded(before: Columns, cols: Columns, fields: seq<FieldEntry>, taxonomies: seq<string>) {
    && (forall f :: f in before ==> f in cols && cols[f] == before[f])
    && (forall i :: 0 <= i < |fields| && Alters(fields[i], taxonomies) ==> fields[i].name in cols)
    && (forall f :: f in cols && f !in before ==>
          exists i :: 0 <= i < |fields| && Alters(fields[i], taxonomies) && fields[i].name == f
              && cols[f] == PgTypeOf(fields[i].field.ftype))
  }

  function FieldAlter(key: TableKey, e: FieldEntry, taxonomies: seq<string>): seq<Statement> {
    if Alters(e, taxonomies) then [AddColumn(key, Bare(e.name, PgTypeOf(e.field.ftype)))] else []
  }

  lemma OneField(db: Db, key: TableKey, e: FieldEntry, taxonomies: seq<string>)
    requires key in db.tables
    ensures var r := ExecAll(FieldAlter(key, e, taxonomies), db);
      && r.Some? && key in r.value.tables && r.value.tables[key].indexes == db.tables[key].indexes
      && r.value.tables[key].columns ==
           if Alters(e, taxonomies) && e.name !in db.tables[key].columns
           then db.tables[key].columns[e.name := PgTypeOf(e.field.ftype)]
           else db.tables[key].columns
  {
    if Alters(e, taxonomies) {
      var ss := FieldAlter(key, e, taxonomies);
      assert ss[..0] == [];
    }
  }

  lemma {:induction false} FieldAltersRun(db: Db, key: TableKey, fields: seq<FieldEntry>, taxonomies: seq<string>)
    requires key in db.tables
    ensures var r := ExecAll(FieldAlters(key, fields, taxonomies), db);
      r.Some? && key in r.value.tables && r.value.tables[key].indexes == db.tables[key].indexes
          && FieldsAdded(db.tables[key].columns, r.value.tables[key].columns, fields, taxonomies)
  {
    if fields != [] {
      var n := |fields| - 1;
      var front := FieldAlters(key, fields[..n], taxonomies);
      FieldAltersRun(db, key, fields[..n], taxonomies);
      var mid := ExecAll(front, db).value;
      OneField(mid, key, fields[n], taxonomies);
      ExecAppend(front, FieldAlter(key, fields[n], taxonomies), db);
      assert FieldAlters(key, fields, taxonomies) == front + FieldAlter(key, fields[n], taxonomies);
      var after := ExecAll(FieldAlter(key, fields[n], taxonomies), mid).value;
      FieldsStep(db.tables[key].columns, mid.tables[key].columns, after.tables[key].columns, fields, taxonomies);
    }
  }

  lemma FieldsStep(before: Columns, mid: Columns, cols: Columns, fields: seq<FieldEntry>, taxonomies: seq<string>)
    requires fields != [] && FieldsAdded(before, mid, fields[..|fields| - 1], taxonomies)
    requires var e := fields[|fields| - 1];
      if Alters(e, taxonomies) && e.name !in mid then cols == mid[e.name := PgTypeOf(e.field.ftype)] else cols == mid
    ensures FieldsAdded(before, cols, fields, taxonomies)
  {
    var n := |fields| - 1;
    forall f | f in cols && f !in before
      ensures exists i ::
        && 0 <= i < |fields| && Alters(fields[i], taxonomies) && fields[i].name == f
        && cols[f] == PgTypeOf(fields[i].field.ftype)
    {
      if f in mid {
        var i :| 0 <= i < n && Alters(fields[..n][i], taxonomies) && fields[..n][i].name == f
            && mid[f] == PgTypeOf(fields[..n][i].field.ftype);
        assert fields[i] == fields[..n][i];
      } else {
        assert fields[n].name == f;
      }
    }
    forall i | 0 <= i < |fields| && Alters(fields[i], taxonomies) ensures fields[i].name in cols {
      assert i < n ==> fields[i] == fields[..n][i];
    }
  }

  ghost predicate VocabsAdded(before: Columns, cols: Columns, taxonomies: seq<string>, multiple: set<string>) {
    && (forall f :: f in before ==> f in cols && cols[f] == before[f])
    && (forall t :: t in taxonomies ==> t in cols)
    && (forall f :: f in cols && f !in before ==> f in taxonomies && cols[f] == VocabType(f, multiple))
  }

  /** The names of the term indexes of the multi-valued vocabularies. */
  function TermNames(prefix: string, taxonomies: seq<string>, multiple: set<string>): set<string> {
    set t | t in taxonomies && t in multiple :: TermIndexName(prefix, t)
  }

  /** The term index of a multi-valued vocabulary is there, or its column is missing or can be indexed. */
  predicate VocabLands(before: Columns, have: set<string>, prefix: string, multiple: set<string>, slug: string) {
    slug in multiple ==> TermIndexName(prefix, slug) in have || slug !in before || Ginnable(before[slug])
  }

  ghost predicate AllVocabLands(
      before: Columns, have: set<string>, prefix: string, taxonomies: seq<string>, multiple: set<string>) {
    forall t :: t in taxonomies ==> VocabLands(before, have, prefix, multiple, t)
  }

  lemma SameTermIndex(prefix: string, a: string, b: string)
    requires TermIndexName(prefix, a) == TermIndexName(prefix, b)
    ensures a == b
  {
    var x, y := TermIndexName(prefix, a), TermIndexName(prefix, b);
    assert x[|prefix| + 1..|x| - 4] == a && y[|prefix| + 1..|y| - 4] == b;
  }

  /** The vocabulary alters run exactly when every term index lands. */
  lemma {:induction false} VocabAltersRun(
      db: Db, key: TableKey, prefix: string, taxonomies: seq<string>, multiple: set<string>)
    requires key in db.tables
    ensures var r, t := ExecAll(VocabAlters(key, prefix, taxonomies, multiple), db), db.tables[key];
      && (r.Some? <==> AllVocabLands(t.columns, t.indexes.Keys, prefix, taxonomies, multiple))
      && (r.Some? ==> key in r.value.tables && VocabsDone(t, r.value.tables[key], prefix, taxonomies, multiple))
  {
    if taxonomies != [] {
      var n := |taxonomies| - 1;
      var front, slug := VocabAlters(key, prefix, taxonomies[..n], multiple), taxonomies[n];
      assert taxonomies == taxonomies[..n] + [slug];
      VocabAltersRun(db, key, prefix, taxonomies[..n], multiple);
      ExecAppend(front, VocabStep(key, prefix, slug, multiple), db);
      assert VocabAlters(key, prefix, taxonomies, multiple) == front + VocabStep(key, prefix, slug, multiple);
      if ExecAll(front, db).Some? {
        var mid := ExecAll(front, db).value;
        OneVocab(mid, key, prefix, slug, multiple);
        VocabLandsNow(db.tables[key], mid.tables[key], prefix, taxonomies, multiple);
        if ExecAll(VocabStep(key, prefix, slug, multiple), mid).Some? {
          var after := ExecAll(VocabStep(key, prefix, slug, multiple), mid).value;
          VocabsStep(db.tables[key], mid.tables[key], after.tables[key], prefix, taxonomies, multiple);
        }
      }
    }
  }

  /** The table gained the vocabularies' columns and term indexes and nothing else. */
  ghost predicate VocabsDone(t: Table, u: Table, prefix: string, taxonomies: seq<string>, multiple: set<string>) {
    && VocabsAdded(t.columns, u.columns, taxonomies, multiple)
    && u.indexes.Keys == t.indexes.Keys + TermNames(prefix, taxonomies, multiple)
  }

  /** With the earlier ones done, the last vocabulary lands exactly when it would have on the table as it was. */
  lemma VocabLandsNow(t: Table, mid: Table, prefix: string, taxonomies: seq<string>, multiple: set<string>)
    requires taxonomies != [] && VocabsDone(t, mid, prefix, taxonomies[..|taxonomies| - 1], multiple)
    requires AllVocabLands(t.columns, t.indexes.Keys, prefix, taxonomies[..|taxonomies| - 1], multiple)
    ensures var slug := taxonomies[|taxonomies| - 1];
      VocabLands(mid.columns, mid.indexes.Keys, prefix, multiple, slug) <==>
      VocabLands(t.columns, t.indexes.Keys, prefix, multiple, slug)
  {
    var n := |taxonomies| - 1;
    var slug, x := taxonomies[n], TermIndexName(prefix, taxonomies[n]);
    if x in TermNames(prefix, taxonomies[..n], multiple) {
      var s :| s in taxonomies[..n] && s in multiple && TermIndexName(prefix, s) == x;
      SameTermIndex(prefix, s, slug);
    }
  }

  function VocabStep(key: TableKey, prefix: string, slug: string, multiple: set<string>): seq<Statement> {
    [AddColumn(key, Bare(slug, VocabType(slug, multiple)))] + if slug in multiple then [TermIndex(key, prefix, slug)]
        else []
  }

  lemma VocabsStep(t: Table, mid: Table, u: Table, prefix: string, taxonomies: seq<string>, multiple: set<string>)
    requires taxonomies != [] && VocabsDone(t, mid, prefix, taxonomies[..|taxonomies| - 1], multiple)
    requires var slug := taxonomies[|taxonomies| - 1];
      && u.columns == (if slug in mid.columns then mid.columns else mid.columns[slug := VocabType(slug, multiple)])
      && u.indexes.Keys == mid.indexes.Keys + if slug in multiple then {TermIndexName(prefix, slug)} else {}
    ensures VocabsDone(t, u, prefix, taxonomies, multiple)
  {
    hide TermNames;
    var n := |taxonomies| - 1;
    assert taxonomies == taxonomies[..n] + [taxonomies[n]];
    TermNamesPush(prefix, taxonomies[..n], taxonomies[n], multiple);
  }

  lemma TermNamesPush(prefix: string, front: seq<string>, slug: string, multiple: set<string>)
    ensures TermNames(prefix, front + [slug], multiple)
         == TermNames(prefix, front, multiple) + if slug in multiple then {TermIndexName(prefix, slug)} else {}
  {
    hide TermIndexName;
    assert forall t :: t in front + [slug] <==> t in front || t == slug;
  }

  lemma OneVocab(db: Db, key: TableKey, prefix: string, slug: string, multiple: set<string>)
    requires key in db.tables
    ensures var r, t := ExecAll(VocabStep(key, prefix, slug, multiple), db), db.tables[key];
      && (r.Some? <==> VocabLands(t.columns, t.indexes.Keys, prefix, multiple, slug))
      && (r.Some? ==>
            && key in r.value.tables
            && r.value.tables[key].columns ==
                 (if slug in t.columns then t.columns else t.columns[slug := VocabType(slug, multiple)])
            && r.value.tables[key].indexes.Keys ==
                 t.indexes.Keys + if slug in multiple then {TermIndexName(prefix, slug)} else {})
  {
    var add := AddColumn(key, Bare(slug, VocabType(slug, multiple)));
    var mid := Exec(add, db).value;
    assert slug in mid.tables[key].columns;
    if slug in multiple {
      ExecTwo(add, TermIndex(key, prefix, slug), db);
      assert [add] + [TermIndex(key, prefix, slug)] == [add, TermIndex(key, prefix, slug)];
      TermIndexRuns(mid, key, prefix, slug);
    } else {
      assert [add] + [] == [add];
      Apply.ExecSingle(add, db);
    }
  }

  lemma TermIndexRuns(db: Db, key: TableKey, prefix: string, slug: string)
    requires key in db.tables && slug in db.tables[key].columns
    ensures var r, t := Exec(TermIndex(key, prefix, slug), db), db.tables[key];
      && (r.Some? <==> TermIndexName(prefix, slug) in t.indexes || Ginnable(t.columns[slug]))
      && (r.Some? ==>
            && key in r.value.tables && r.value.tables[key].columns == t.columns
            && r.value.tables[key].indexes.Keys == t.indexes.Keys + {TermIndexName(prefix, slug)})
  {
    assert [slug][0] in [slug];
  }

  // ----- the search columns

  /** The search column is there and indexed or can be, or the column it is computed from is there and is text. */
  predicate SearchReady(columns: Columns, have: set<string>, name: string, e: FieldEntry) {
    e.field.searchable ==>
      if Tsv(e.name) in columns then SearchIndexName(name, e.name) in have || Ginnable(columns[Tsv(e.name)])
      else e.name in columns && columns[e.name] == Text
  }

  ghost predicate AllSearchReady(columns: Columns, have: set<string>, name: string, fields: seq<FieldEntry>) {
    forall i :: 0 <= i < |fields| ==> SearchReady(columns, have, name, fields[i])
  }

  predicate DistinctNames(fields: seq<FieldEntry>) {
    forall i, j :: 0 <= i < j < |fields| ==> fields[i].name != fields[j].name
  }

  /** A field named as the search column of another has its column already. */
  ghost predicate SearchNamesFixed(columns: Columns, fields: seq<FieldEntry>) {
    forall i, j |
      0 <= i < |fields| && 0 <= j < |fields| && fields[j].field.searchable && fields[i].name == Tsv(fields[j].name) ::
      fields[i].name in columns
  }

  predicate SearchNamed(name: string, fields: seq<FieldEntry>, x: string) {
    exists i :: 0 <= i < |fields| && fields[i].field.searchable && x == SearchIndexName(name, fields[i].name)
  }

  /** The table gained search columns and search indexes and nothing else. */
  ghost predicate SearchesDone(t: Table, u: Table, name: string, fields: seq<FieldEntry>) {
    && (forall f :: f in t.columns ==> f in u.columns && u.columns[f] == t.columns[f])
    && (forall f :: f in u.columns && f !in t.columns ==>
          exists i :: 0 <= i < |fields| && fields[i].field.searchable && f == Tsv(fields[i].name))
    && forall x :: x in u.indexes.Keys <==> x in t.indexes.Keys || SearchNamed(name, fields, x)
  }

  lemma SameTsv(a: string, b: string)
    ensures Tsv(a) == Tsv(b) ==> a == b
  {
    assert Tsv(a)[..|Tsv(a)| - 4] == a && Tsv(b)[..|Tsv(b)| - 4] == b;
  }

  lemma SameSearchIndex(name: string, a: string, b: string)
    requires SearchIndexName(name, a) == SearchIndexName(name, b)
    ensures a == b
  {
    var x, y := SearchIndexName(name, a), SearchIndexName(name, b);
    assert x[|name| + 1..|x| - 8] == a && y[|name| + 1..|y| - 8] == b;
  }

  function SearchStep(key: TableKey, name: string, e: FieldEntry): seq<Statement> {
    if e.field.searchable then [AddColumn(key, TsvColumn(e.name)), SearchIndex(key, name, e.name)] else []
  }

  /** The search alters run exactly when every searchable field is ready. */
  lemma {:induction false} SearchAltersRun(db: Db, key: TableKey, name: string, fields: seq<FieldEntry>)
    requires key in db.tables && DistinctNames(fields) && SearchNamesFixed(db.tables[key].columns, fields)
    ensures var r, t := ExecAll(SearchAlters(key, name, fields), db), db.tables[key];
      && (r.Some? <==> AllSearchReady(t.columns, t.indexes.Keys, name, fields))
      && (r.Some? ==> key in r.value.tables && SearchesDone(t, r.value.tables[key], name, fields))
  {
    if fields != [] {
      var n := |fields| - 1;
      var front, step := SearchAlters(key, name, fields[..n]), SearchStep(key, name, fields[n]);
      assert forall i :: 0 <= i < n ==> fields[..n][i] == fields[i];
      SearchAltersRun(db, key, name, fields[..n]);
      ExecAppend(front, step, db);
      assert SearchAlters(key, name, fields) == front + step;
      ReadyPush(db.tables[key].columns, db.tables[key].indexes.Keys, name, fields);
      if ExecAll(front, db).Some? {
        var mid := ExecAll(front, db).value;
        OneSearch(mid, key, name, fields[n]);
        SearchReadyNow(db.tables[key], mid.tables[key], name, fields);
        if ExecAll(step, mid).Some? {
          SearchesStep(db.tables[key], mid.tables[key], ExecAll(step, mid).value.tables[key], name, fields);
        }
      }
    }
  }

  lemma ReadyPush(columns: Columns, have: set<string>, name: string, fields: seq<FieldEntry>)
    requires fields != []
    ensures AllSearchReady(columns, have, name, fields) <==>
      AllSearchReady(columns, have, name, fields[..|fields| - 1])
      && SearchReady(columns, have, name, fields[|fields| - 1])
  {
    assert forall i :: 0 <= i < |fields| - 1 ==> fields[..|fields| - 1][i] == fields[i];
  }

  lemma OneSearch(db: Db, key: TableKey, name: string, e: FieldEntry)
    requires key in db.tables
    ensures var r, t := ExecAll(SearchStep(key, name, e), db), db.tables[key];
      && (r.Some? <==> SearchReady(t.columns, t.indexes.Keys, name, e))
      && (r.Some? ==>
            && key in r.value.tables
            && r.value.tables[key].columns ==
                 (if e.field.searchable && Tsv(e.name) !in t.columns then t.columns[Tsv(e.name) := Tsvector]
                  else t.columns)
            && r.value.tables[key].indexes.Keys ==
                 t.indexes.Keys + if e.field.searchable then {SearchIndexName(name, e.name)} else {})
  {
    if e.field.searchable {
      ExecTwo(AddColumn(key, TsvColumn(e.name)), SearchIndex(key, name, e.name), db);
      if Exec(AddColumn(key, TsvColumn(e.name)), db).Some? {
        SearchIndexRuns(Exec(AddColumn(key, TsvColumn(e.name)), db).value, key, name, e.name);
      }
    }
  }

  lemma SearchIndexRuns(db: Db, key: TableKey, name: string, f: string)
    requires key in db.tables && Tsv(f) in db.tables[key].columns
    ensures var r, t := Exec(SearchIndex(key, name, f), db), db.tables[key];
      && (r.Some? <==> SearchIndexName(name, f) in t.indexes || Ginnable(t.columns[Tsv(f)]))
      && (r.Some? ==>
            && key in r.value.tables && r.value.tables[key].columns == t.columns
            && r.value.tables[key].indexes.Keys == t.indexes.Keys + {SearchIndexName(name, f)})
  {
    assert [Tsv(f)][0] in [Tsv(f)];
  }

  /** With the earlier ones done, the last field is ready exactly when it was on the table as it was. */
  lemma SearchReadyNow(t: Table, mid: Table, name: string, fields: seq<FieldEntry>)
    requires fields != [] && DistinctNames(fields) && SearchNamesFixed(t.columns, fields)
    requires SearchesDone(t, mid, name, fields[..|fields| - 1])
    ensures var e := fields[|fields| - 1];
      SearchReady(mid.columns, mid.indexes.Keys, name, e) <==> SearchReady(t.columns, t.indexes.Keys, name, e)
  {
    var n := |fields| - 1;
    var front, e := fields[..n], fields[n];
    if e.field.searchable {
      if Tsv(e.name) in mid.columns && Tsv(e.name) !in t.columns {
        var i :| 0 <= i < n && front[i].field.searchable && Tsv(e.name) == Tsv(front[i].name);
        SameTsv(e.name, fields[i].name);
      }
      forall i | 0 <= i < n && front[i].field.searchable && e.name == Tsv(front[i].name)
        ensures e.name in t.columns
      {
        assert fields[i] == front[i];
      }
      if SearchNamed(name, front, SearchIndexName(name, e.name)) {
        var i :| 0 <= i < n && front[i].field.searchable
                 && SearchIndexName(name, e.name) == SearchIndexName(name, front[i].name);
        SameSearchIndex(name, e.name, fields[i].name);
      }
    }
  }

  lemma SearchesStep(t: Table, mid: Table, u: Table, name: string, fields: seq<FieldEntry>)
    requires fields != [] && SearchesDone(t, mid, name, fields[..|fields| - 1])
    requires var e := fields[|fields| - 1];
      && u.columns == (if e.field.searchable && Tsv(e.name) !in mid.columns then mid.columns[Tsv(e.name) := Tsvector]
                       else mid.columns)
      && u.indexes.Keys == mid.indexes.Keys + if e.field.searchable then {SearchIndexName(name, e.name)} else {}
    ensures SearchesDone(t, u, name, fields)
  {
    var n := |fields| - 1;
    var front := fields[..n];
    forall f | f in u.columns && f !in t.columns
      ensures exists i :: 0 <= i < |fields| && fields[i].field.searchable && f == Tsv(fields[i].name)
    {
      if f in mid.columns {
        var i :| 0 <= i < n && front[i].field.searchable && f == Tsv(front[i].name);
        assert f == Tsv(fields[i].name);
      } else {
        assert f == Tsv(fields[n].name);
      }
    }
    forall x ensures x in u.indexes.Keys <==> x in t.indexes.Keys || SearchNamed(name, fields, x) {
      NamedPush(name, fields, x);
    }
  }

  lemma NamedPush(name: string, fields: seq<FieldEntry>, x: string)
    requires fields != []
    ensures var n := |fields| - 1;
      SearchNamed(name, fields, x) <==>
      SearchNamed(name, fields[..n], x) || (fields[n].field.searchable && x == SearchIndexName(name, fields[n].name))
  {
    var n := |fields| - 1;
    var front := fields[..n];
    if SearchNamed(name, front, x) {
      var i :| 0 <= i < n && front[i].field.searchable && x == SearchIndexName(name, front[i].name);
      assert fields[i] == front[i];
    }
    if SearchNamed(name, fields, x) {
      var i :| 0 <= i <= n && fields[i].field.searchable && x == SearchIndexName(name, fields[i].name);
      assert i < n ==> front[i] == fields[i];
    }
  }

  // ----- the whole batch

  /** What the rules say of names of search columns: a field may have one if it is a vocabulary's. */
  ghost predicate SearchNamesBound(c: Collection) {
    forall i, j | 0 <= i < |c.fields| && 0 <= j < |c.fields| && c.fields[j].field.searchable
                  && c.fields[i].name == Tsv(c.fields[j].name) ::
      c.fields[i].name in c.taxonomies
  }

  lemma CheckedIsBound(c: Collection)
    requires c.kind == Dataset && Checked(c)
    ensures SearchNamesBound(c)
  {
    forall i, j | 0 <= i < |c.fields| && 0 <= j < |c.fields| && c.fields[j].field.searchable
      && c.fields[i].name == Tsv(c.fields[j].name)
      ensures c.fields[i].name in c.taxonomies
    {
      assert FieldChecked(c, c.fields[j]) && HasField(c, Tsv(c.fields[j].name));
    }
  }

  predicate Altered(c: Collection, f: string, i: int) {
    0 <= i < |c.fields| && Alters(c.fields[i], c.taxonomies) && c.fields[i].name == f
  }

  /** The type a column has once the field and vocabulary alters are done, if it is there then. */
  ghost function LateType(before: Columns, c: Collection, multiple: set<string>, f: string): Option<PgType> {
    if f in before then Some(before[f])
    else if f in c.taxonomies then Some(VocabType(f, multiple))
    else if i :| Altered(c, f, i) then Some(PgTypeOf(c.fields[i].field.ftype))
    else Option.None
  }

  /**
   A searchable field's search column, where a column of that name is there by then, is indexed already, by name,
   or can be; where none is, the field's own column is there by then and is text.
   */
  ghost predicate SearchLands(
      before: Columns, have: set<string>, name: string, c: Collection, multiple: set<string>, e: FieldEntry) {
    e.field.searchable ==>
      match LateType(before, c, multiple, Tsv(e.name))
      case None => LateType(before, c, multiple, e.name) == Some(Text)
      case Some(t) =>
        || SearchIndexName(name, e.name) in have
        || (Tsv(e.name) in c.taxonomies && Tsv(e.name) in multiple)
        || Ginnable(t)
  }

  ghost predicate AllSearchLands(
      before: Columns, have: set<string>, name: string, c: Collection, multiple: set<string>) {
    forall i :: 0 <= i < |c.fields| ==> SearchLands(before, have, name, c, multiple, c.fields[i])
  }

  lemma LateTypeIs(before: Columns, mid: Columns, cols: Columns, c: Collection, multiple: set<string>, f: string)
    requires DistinctFields(c)
    requires FieldsAdded(before, mid, c.fields, c.taxonomies) && VocabsAdded(mid, cols, c.taxonomies, multiple)
    ensures LateType(before, c, multiple, f) == if f in cols then Some(cols[f]) else Option.None
  {
    if f !in before && f in mid {
      var j :| 0 <= j < |c.fields| && Alters(c.fields[j], c.taxonomies) && c.fields[j].name == f
               && mid[f] == PgTypeOf(c.fields[j].field.ftype);
      assert Altered(c, f, j);
      forall i | Altered(c, f, i) ensures i == j {}
    } else if f !in before && f !in c.taxonomies {
      forall i ensures !Altered(c, f, i) {}
    }
  }

  /** A multi-valued vocabulary called like a search column has the very index the search column would get. */
  lemma SearchNameOfTerm(name: string, e: string, slug: string)
    ensures TermIndexName(name, slug) == SearchIndexName(name, e) <==> slug == Tsv(e)
  {
    assert SearchIndexName(name, e) == TermIndexName(name, Tsv(e)) by {
      assert name + "_" + (e + "_tsv") + "_idx" == name + "_" + e + "_tsv_idx";
    }
    if TermIndexName(name, slug) == SearchIndexName(name, e) {
      SameTermIndex(name, slug, Tsv(e));
    }
  }

  lemma LandsIsReady(
      before: Columns, have: set<string>, mid: Columns, cols: Columns, late: set<string>, name: string,
      c: Collection, multiple: set<string>, e: FieldEntry)
    requires DistinctFields(c)
    requires FieldsAdded(before, mid, c.fields, c.taxonomies) && VocabsAdded(mid, cols, c.taxonomies, multiple)
    requires late == have + TermNames(name, c.taxonomies, multiple)
    ensures SearchReady(cols, late, name, e) <==> SearchLands(before, have, name, c, multiple, e)
  {
    LateTypeIs(before, mid, cols, c, multiple, Tsv(e.name));
    LateTypeIs(before, mid, cols, c, multiple, e.name);
    var x := SearchIndexName(name, e.name);
    SearchNameOfTerm(name, e.name, Tsv(e.name));
    if x in TermNames(name, c.taxonomies, multiple) {
      var slug :| slug in c.taxonomies && slug in multiple && TermIndexName(name, slug) == x;
      SearchNameOfTerm(name, e.name, slug);
    }
  }

  /** Fields come before vocabularies, and add none of their columns. */
  lemma VocabsLandLater(
      before: Columns, mid: Columns, have: set<string>, prefix: string, c: Collection, multiple: set<string>)
    requires FieldsAdded(before, mid, c.fields, c.taxonomies)
    ensures AllVocabLands(mid, have, prefix, c.taxonomies, multiple) <==>
      AllVocabLands(before, have, prefix, c.taxonomies, multiple)
  {
    forall t | t in c.taxonomies
      ensures VocabLands(mid, have, prefix, multiple, t) <==> VocabLands(before, have, prefix, multiple, t)
    {
      assert t in mid <==> t in before;
    }
  }

  /** The part of the batch that finds its work already done. */
  function Head(key: TableKey, name: string, c: Collection, multiple: set<string>): seq<Statement> {
    [DatasetCreate(key, name, c, multiple),
     AddColumn(key, WORKSPACE),
     CreateIdentity(key, IdentityField(c)),
     HistoryIndex(key, name, IdentityField(c))]
  }

  lemma HeadIsDone(db: Db, key: TableKey, name: string, c: Collection, multiple: set<string>)
    requires Standing(db, key, name)
    ensures ExecAll(Head(key, name, c, multiple), db) == Some(db)
  {
    BatchNoOp(Head(key, name, c, multiple), db);
  }

  /** The alters that follow the indexes run exactly when every term index and every searchable field lands. */
  lemma TailRuns(db: Db, key: TableKey, name: string, c: Collection, multiple: set<string>)
    requires key in db.tables && DistinctFields(c) && SearchNamesBound(c)
    ensures var cols, have := db.tables[key].columns, db.tables[key].indexes.Keys;
      ExecAll(Tail(key, name, c, multiple), db).Some? <==>
      AllVocabLands(cols, have, name, c.taxonomies, multiple) && AllSearchLands(cols, have, name, c, multiple)
  {
    var a, b := FieldAlters(key, c.fields, c.taxonomies), VocabAlters(key, name, c.taxonomies, multiple);
    var s := SearchAlters(key, name, c.fields);
    FieldAltersRun(db, key, c.fields, c.taxonomies);
    var mid := ExecAll(a, db).value;
    VocabAltersRun(mid, key, name, c.taxonomies, multiple);
    ExecAppend(a, b, db);
    ExecAppend(a + b, s, db);
    var t, u := db.tables[key], mid.tables[key];
    VocabsLandLater(t.columns, u.columns, t.indexes.Keys, name, c, multiple);
    if ExecAll(b, mid).Some? {
      SearchTailRuns(db, mid, ExecAll(b, mid).value, key, name, c, multiple);
    }
  }

  lemma SearchTailRuns(db: Db, mid: Db, late: Db, key: TableKey, name: string, c: Collection, multiple: set<string>)
    requires DistinctFields(c) && SearchNamesBound(c)
    requires key in db.tables && key in mid.tables && key in late.tables
    requires FieldsAdded(db.tables[key].columns, mid.tables[key].columns, c.fields, c.taxonomies)
    requires mid.tables[key].indexes == db.tables[key].indexes
    requires VocabsDone(mid.tables[key], late.tables[key], name, c.taxonomies, multiple)
    ensures var t := db.tables[key];
      ExecAll(SearchAlters(key, name, c.fields), late).Some? <==>
      AllSearchLands(t.columns, t.indexes.Keys, name, c, multiple)
  {
    var t, u, v := db.tables[key], mid.tables[key], late.tables[key];
    SearchAltersRun(late, key, name, c.fields);
    forall i | 0 <= i < |c.fields|
      ensures SearchReady(v.columns, v.indexes.Keys, name, c.fields[i]) <==>
        SearchLands(t.columns, t.indexes.Keys, name, c, multiple, c.fields[i])
    {
      LandsIsReady(t.columns, t.indexes.Keys, u.columns, v.columns, v.indexes.Keys, name, c, multiple, c.fields[i]);
    }
  }

  /** The names of the indexes there are once the declared ones are built. */
  function IndexesAfter(t: Table, name: string, indexes: seq<seq<string>>): set<string> {
    t.indexes.Keys + set i | 0 <= i < |indexes| :: IndexName(name, indexes[i])
  }

  /**
   Main result: on a dataset's existing table the statements run to the end if and only if each declared index
   is already there or can be built over the columns the table had before, each multi-valued vocabulary's term
   index is there or its column can be indexed, and every searchable field lands: its search column is there and
   indexable, or it is computed from text. A field and an index over it, added in one edit, do not go through.
   */
  lemma UpgradeRuns(db: Db, env: Env, name: string, c: Collection, multiple: set<string>)
    requires c.kind == Dataset && Checked(c) && DistinctFields(c) && Standing(db, MainKey(env, name), name)
    ensures var t := db.tables[MainKey(env, name)];
      var have := IndexesAfter(t, name, c.indexes);
      ExecAll(DatasetBatch(env, name, c, multiple), db).Some? <==>
        && IndexesReady(t, name, c.indexes, IdentityField(c))
        && AllVocabLands(t.columns, have, name, c.taxonomies, multiple)
        && AllSearchLands(t.columns, have, name, c, multiple)
  {
    var key, pk := MainKey(env, name), IdentityField(c);
    CheckedIsBound(c);
    BatchSplits(db, env, name, c, multiple);
    IndexesRun(db, key, name, c.indexes, pk);
    var idx := IndexStatements(key, name, c.indexes, pk);
    if ExecAll(idx, db).Some? {
      var mid := ExecAll(idx, db).value;
      IndexedNames(db, mid, key, name, c.indexes, pk);
      TailRuns(mid, key, name, c, multiple);
    }
  }

  lemma IndexedNames(db: Db, after: Db, key: TableKey, name: string, indexes: seq<seq<string>>, pk: string)
    requires Indexed(db, after, key, name, indexes, pk)
    ensures after.tables[key].indexes.Keys == IndexesAfter(db.tables[key], name, indexes)
  {
    forall x ensures x in after.tables[key].indexes.Keys <==> x in IndexesAfter(db.tables[key], name, indexes) {
      assert x in after.tables[key].indexes <==> x in db.tables[key].indexes || Named(name, indexes, x);
    }
  }

  function Tail(key: TableKey, name: string, c: Collection, multiple: set<string>): seq<Statement> {
    FieldAlters(key, c.fields, c.taxonomies) + VocabAlters(key, name, c.taxonomies, multiple)
        + SearchAlters(key, name, c.fields)
  }

  /** On a standing table the batch is its index statements and then its alters. */
  lemma BatchSplits(db: Db, env: Env, name: string, c: Collection, multiple: set<string>)
    requires Standing(db, MainKey(env, name), name)
    ensures var key := MainKey(env, name);
      ExecAll(DatasetBatch(env, name, c, multiple), db) ==
        match ExecAll(IndexStatements(key, name, c.indexes, IdentityField(c)), db)
        case None => Option.None
        case Some(mid) => ExecAll(Tail(key, name, c, multiple), mid)
  {
    var key := MainKey(env, name);
    var head, idx, tail := Head(key, name, c, multiple), IndexStatements(key, name, c.indexes, IdentityField(c)),
        Tail(key, name, c, multiple);
    HeadIsDone(db, key, name, c, multiple);
    ExecAppend(head, idx, db);
    ExecAppend(head + idx, tail, db);
    BatchIs(env, name, c, multiple);
  }

  lemma BatchIs(env: Env, name: string, c: Collection, multiple: set<string>)
    ensures var key := MainKey(env, name);
      DatasetBatch(env, name, c, multiple)
      == Head(key, name, c, multiple) + IndexStatements(key, name, c.indexes, IdentityField(c))
          + Tail(key, name, c, multiple)
  {}

  /** What a finished apply leaves is a table of this kind. */
  lemma SettledStands(cfg: Config, matching: set<string>, db: Db, env: Env, name: string)
    requires Settled(cfg, matching, db) && name in cfg.collections && cfg.collections[name].kind == Dataset
    requires !(cfg.collections[name].external && env == Live)
    ensures Standing(db, MainKey(env, name), name)
  {
    var c := cfg.collections[name];
    var key := MainKey(env, name);
    var batch := TableBatch(env, name, c, cfg.multiple);
    assert Built(cfg, name, db);
    assert batch[1] in batch && batch[2] in batch && batch[3] in batch;
    assert Satisfied(batch[1], db) && Satisfied(batch[2], db) && Satisfied(batch[3], db);
  }

  /** So apply throws on it, with the collection's tables left as they were. */
  lemma NewFieldIndexFails(
      prev: Config, next: Config, matching: set<string>, db: Db, r: Apply.Run, name: string, f: string, k: nat)
    requires Settled(prev, matching, db) && r == Apply.Start(db)
    requires name in prev.collections && prev.collections[name].kind == Dataset
    requires name in next.collections && next.collections[name].kind == Dataset
    requires k < |next.collections[name].indexes| && f in next.collections[name].indexes[k]
    requires MainKey(Dev, name) in db.tables
    requires var t := db.tables[MainKey(Dev, name)];
      && f !in t.columns
      && IndexName(name, next.collections[name].indexes[k]) !in t.indexes
      && forall j :: 0 <= j < k ==>
           IndexName(name, next.collections[name].indexes[j]) != IndexName(name, next.collections[name].indexes[k])
    ensures Apply.TablesOf(r, next, name, matching).failure.Some?
    ensures Apply.TablesOf(r, next, name, matching).db == db
  {
    var c, key := next.collections[name], MainKey(Dev, name);
    var pk := IdentityField(c);
    SettledStands(prev, matching, db, Dev, name);
    assert f in IndexColumns(c.indexes[k], pk);
    assert !IndexReady(db.tables[key], name, c.indexes, pk, k);
    BatchSplits(db, Dev, name, c, next.multiple);
    IndexesRun(db, key, name, c.indexes, pk);
  }
}
