/** Membership facts about the lists in `Ddl`: which field put which column or statement there. */
module DdlFacts {
  import opened Config
  import opened Catalog
  import opened Ddl

  lemma {:induction false} StoredColumnsFrom(fields: seq<FieldEntry>, taxonomies: seq<string>, multiple: set<string>)
    ensures forall col :: col in StoredColumns(fields, taxonomies, multiple) <==>
        exists j :: && 0 <= j < |fields| && fields[j].field.storage.Stored?
                    && col == ColumnOf(fields[j], taxonomies, multiple)
  {
    if fields != [] {
      StoredColumnsFrom(fields[..|fields| - 1], taxonomies, multiple);
    }
  }

  lemma {:induction false} MetadataColumnsFrom(fields: seq<FieldEntry>, taxonomies: seq<string>)
    ensures forall col :: col in MetadataColumns(fields, taxonomies) <==>
        exists j :: && 0 <= j < |fields| && IsMetadata(fields[j], taxonomies) && col == MetadataColumn(fields[j])
  {
    if fields != [] {
      MetadataColumnsFrom(fields[..|fields| - 1], taxonomies);
    }
  }

  lemma {:induction false} FieldAltersFrom(key: TableKey, fields: seq<FieldEntry>, taxonomies: seq<string>)
    ensures forall s :: s in FieldAlters(key, fields, taxonomies) <==>
        exists j :: && 0 <= j < |fields| && fields[j].field.storage.Stored? && !fields[j].field.pk
                    && fields[j].name !in taxonomies
                    && s == AddColumn(key, Bare(fields[j].name, PgTypeOf(fields[j].field.ftype)))
  {
    if fields != [] {
      FieldAltersFrom(key, fields[..|fields| - 1], taxonomies);
    }
  }

  lemma {:induction false} MetadataAltersFrom(key: TableKey, fields: seq<FieldEntry>, taxonomies: seq<string>)
    ensures forall s :: s in MetadataAlters(key, fields, taxonomies) <==>
        exists j :: && 0 <= j < |fields| && IsMetadata(fields[j], taxonomies)
                    && s == AddColumn(key, Bare(fields[j].name, PgTypeOf(fields[j].field.ftype)))
  {
    if fields != [] {
      MetadataAltersFrom(key, fields[..|fields| - 1], taxonomies);
    }
  }

  lemma {:induction false} VocabAltersFrom(
      key: TableKey, prefix: string, taxonomies: seq<string>, multiple: set<string>)
    ensures forall s :: s in VocabAlters(key, prefix, taxonomies, multiple) <==>
        exists j :: && 0 <= j < |taxonomies|
                    && (|| s == AddColumn(key, Bare(taxonomies[j], VocabType(taxonomies[j], multiple)))
                        || (taxonomies[j] in multiple && s == TermIndex(key, prefix, taxonomies[j])))
  {
    if taxonomies != [] {
      VocabAltersFrom(key, prefix, taxonomies[..|taxonomies| - 1], multiple);
    }
  }

  lemma {:induction false} SearchAltersFrom(key: TableKey, name: string, fields: seq<FieldEntry>)
    ensures forall s :: s in SearchAlters(key, name, fields) <==>
        exists j :: && 0 <= j < |fields| && fields[j].field.searchable
                    && (|| s == AddColumn(key, TsvColumn(fields[j].name))
                        || s == SearchIndex(key, name, fields[j].name))
  {
    if fields != [] {
      SearchAltersFrom(key, name, fields[..|fields| - 1]);
    }
  }

  /** No declared table names one column with two types. */
  lemma DeclaredOnce(
      name: string, c: Collection, multiple: set<string>, d: DeclaredTable, f: string, s: PgType, t: PgType)
    requires DistinctFields(c) && d in DeclaredTables(name, c, multiple)
    requires Declares(d, f, s) && Declares(d, f, t)
    ensures s == t
  {
    StoredColumnsFrom(c.fields, c.taxonomies, multiple);
    MetadataColumnsFrom(c.fields, c.taxonomies);
    var i :| 0 <= i < |d.columns| && d.columns[i].name == f && d.columns[i].pgType == s;
    var j :| 0 <= j < |d.columns| && d.columns[j].name == f && d.columns[j].pgType == t;
    if c.kind == Dataset {
      assert d.columns[i] in d.columns && d.columns[j] in d.columns;
    } else if d.table == Files(name) {
      FilesColumn(c, multiple, d.columns[i]);
      FilesColumn(c, multiple, d.columns[j]);
    }
  }

  lemma FilesColumn(c: Collection, multiple: set<string>, col: DeclaredColumn)
    requires col in TermColumns(c.taxonomies, multiple) + MetadataColumns(c.fields, c.taxonomies)
    ensures || (col.name in c.taxonomies && col.pgType == VocabType(col.name, multiple))
            || (exists j :: 0 <= j < |c.fields| && IsMetadata(c.fields[j], c.taxonomies)
                            && col == MetadataColumn(c.fields[j]))
  {
    MetadataColumnsFrom(c.fields, c.taxonomies);
  }

  /** The search column of a stored field is structural, whether or not the field is searchable. */
  lemma TsvIsStructural(c: Collection, j: nat)
    requires j < |c.fields| && c.fields[j].field.storage.Stored?
    ensures Tsv(c.fields[j].name) in DatasetStructural(c)
  {
    assert Tsv(c.fields[j].name) in TsvNames(c.fields);
  }

  lemma OwnNotTsv(f: string)
    ensures Tsv(f) !in REV_COLUMNS + {"workspace_id"}
  {
    assert Tsv(f)[|Tsv(f)| - 1] == 'v' && Tsv(f)[|Tsv(f)| - 2] == 's';
  }

  lemma RevUnderscored(n: string)
    requires n in REV_COLUMNS
    ensures n != "" && n[0] == '_'
  {}

  // ----- every table statement builds, on a table of its own collection

  predicate Builds(s: Statement) {
    s.CreateTable? || s.AddColumn? || s.CreateIdentity? || s.CreateIndex?
  }

  /** One of the tables a collection's statements land on. */
  predicate OwnKey(key: TableKey, env: Env, name: string) {
    key == MainKey(env, name) || key == TableKey(env, Files(name)) || key == TableKey(env, Documents(name))
  }

  ghost predicate BuildsFor(ss: seq<Statement>, env: Env, name: string) {
    forall s :: s in ss ==> Builds(s) && OwnKey(s.key, env, name)
  }

  /** Statements that build, on these tables. */
  ghost predicate BuildsOn(ss: seq<Statement>, keys: set<TableKey>) {
    forall s :: s in ss ==> Builds(s) && s.key in keys
  }

  lemma OnBoth(a: seq<Statement>, b: seq<Statement>, keys: set<TableKey>)
    requires BuildsOn(a, keys) && BuildsOn(b, keys)
    ensures BuildsOn(a + b, keys)
  {}

  /** Statements of a dataset land on its one table. */
  lemma DatasetBatchBuilds(env: Env, name: string, c: Collection, multiple: set<string>)
    ensures BuildsOn(DatasetBatch(env, name, c, multiple), {MainKey(env, name)})
    ensures BuildsFor(DatasetBatch(env, name, c, multiple), env, name)
  {
    hide FieldAlters;
    hide VocabAlters;
    hide SearchAlters;
    var key, pk := MainKey(env, name), IdentityField(c);
    var head := [DatasetCreate(key, name, c, multiple), AddColumn(key, WORKSPACE), CreateIdentity(key, pk),
                 HistoryIndex(key, name, pk)];
    var a, b := IndexStatements(key, name, c.indexes, pk), FieldAlters(key, c.fields, c.taxonomies);
    var v, t := VocabAlters(key, name, c.taxonomies, multiple), SearchAlters(key, name, c.fields);
    assert BuildsOn(head, {key}) && BuildsOn(a, {key});
    assert BuildsOn(b, {key}) by { FieldAltersFrom(key, c.fields, c.taxonomies); }
    assert BuildsOn(v, {key}) by { VocabAltersFrom(key, name, c.taxonomies, multiple); }
    assert BuildsOn(t, {key}) by { SearchAltersFrom(key, name, c.fields); }
    OnBoth(head, a, {key});
    OnBoth(head + a, b, {key});
    OnBoth(head + a + b, v, {key});
    OnBoth(head + a + b + v, t, {key});
  }

  /** Those of a file collection on its two, under its very name. */
  lemma FileBatchBuilds(env: Env, name: string, c: Collection, multiple: set<string>)
    ensures BuildsOn(FileBatch(env, name, c, multiple), {TableKey(env, Files(name)), TableKey(env, Documents(name))})
    ensures BuildsFor(FileBatch(env, name, c, multiple), env, name)
  {
    hide VocabAlters;
    hide MetadataAlters;
    hide FilesUpgrades;
    hide DocumentsBatch;
    var key, docs := TableKey(env, Files(name)), TableKey(env, Documents(name));
    var head := [FilesCreate(key, c, multiple), AddColumn(key, WORKSPACE)];
    var v, m := VocabAlters(key, name + "__files", c.taxonomies, multiple), MetadataAlters(key, c.fields, c.taxonomies);
    assert BuildsOn(head, {key, docs});
    assert BuildsOn(v, {key, docs}) by { VocabAltersFrom(key, name + "__files", c.taxonomies, multiple); }
    assert BuildsOn(m, {key, docs}) by { MetadataAltersFrom(key, c.fields, c.taxonomies); }
    FixedBuilds(key, docs, name);
    OnBoth(head, v, {key, docs});
    OnBoth(head + v, m, {key, docs});
    OnBoth(head + v + m, FilesUpgrades(key, name), {key, docs});
    OnBoth(head + v + m + FilesUpgrades(key, name), DocumentsBatch(docs, name), {key, docs});
  }

  lemma FixedBuilds(key: TableKey, docs: TableKey, name: string)
    ensures BuildsOn(FilesUpgrades(key, name), {key, docs}) && BuildsOn(DocumentsBatch(docs, name), {key, docs})
  {}

  lemma TableBatchBuilds(env: Env, name: string, c: Collection, multiple: set<string>)
    ensures BuildsFor(TableBatch(env, name, c, multiple), env, name)
  {
    DatasetBatchBuilds(env, name, c, multiple);
    FileBatchBuilds(env, name, c, multiple);
  }
}
