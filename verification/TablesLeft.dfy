/**
 What stands in the database once collections have been applied, column by column and index by index: the
 bookkeeping columns by name and type, the fields, bindings and search columns, and what every index is over.
 */
module TablesLeft {
  import opened Wrappers
  import opened Config
  import opened Catalog
  import opened Ddl
  import opened DdlFacts
  import opened Rules
  import opened Plan
  import opened Apply
  import opened Convergence
  import opened Idempotence
  import opened PlannersAgree

  // ----- columns

  /** The bookkeeping columns every table of a kind has, whatever its collection declares. */
  function OwnType(table: TableName, n: string): Option<PgType> {
    match table
    case Main(_) =>
      if n == "_rev" then Some(Uuid)
      else if n in {"_rev_seq", "_rev_base"} then Some(Bigint)
      else if n == "_rev_at" then Some(Timestamptz)
      else if n == "_rev_fields" then Some(TextArray)
      else if n == "_current" then Some(Boolean)
      else if n in {"_rev_by", "_rev_op", "_rev_status", "workspace_id"} then Some(Text)
      else Option.None
    case Files(_) =>
      if n == "id" then Some(Uuid)
      else if n == "updated_at" then Some(Timestamptz)
      else if n == "byte_size" then Some(Integer)
      else if n == "blob" then Some(Bytea)
      else if n in {"workspace_id", "title", "path", "owner", "checksum", "origin", "content_type", "blob_checksum"}
      then Some(Text)
      else Option.None
    case Documents(_) =>
      if n in {"id", "file_id"} then Some(Uuid)
      else if n in {"workspace_id", "content"} then Some(Text)
      else if n == "document_seq" then Some(Integer)
      else if n == "tsv" then Some(Tsvector)
      else if n == "embedding" then Some(Vector)
      else Option.None
  }

  /** A vocabulary that takes several terms is kept as a list. */
  function TermType(slug: string, multiple: set<string>): PgType {
    if slug in multiple then TextArray else Text
  }

  predicate StoredAs(c: Collection, multiple: set<string>, f: string, t: PgType) {
    exists i :: && 0 <= i < |c.fields| && c.fields[i].name == f && c.fields[i].field.storage.Stored?
                && t == if f in c.taxonomies then TermType(f, multiple) else PgTypeOf(c.fields[i].field.ftype)
  }

  /** A dataset has a column `f` of type `t`. */
  predicate DatasetHas(c: Collection, multiple: set<string>, f: string, t: PgType) {
    if StoresField(c, f) then StoredAs(c, multiple, f, t)
    else if OwnType(Main(""), f).Some? then t == OwnType(Main(""), f).value
    else if f in c.taxonomies then t == TermType(f, multiple)
    else
      && t == Tsvector
      && exists i :: 0 <= i < |c.fields| && c.fields[i].field.searchable && f == c.fields[i].name + "_tsv"
  }

  lemma OwnTypeIs(table: TableName, n: string)
    ensures OwnType(table, n) ==
            if n in Types(OwnColumns(table)) then Some(Types(OwnColumns(table))[n]) else Option.None
  {
    hide Types, OwnColumns, OwnType;
    OwnTypes(table);
    OwnTypeNames(table, n);
    OwnTypeFits(table);
    if n in Types(OwnColumns(table)) {
      var cols := OwnColumns(table);
      OwnNameListed(table, n);
      var i :| 0 <= i < |cols| && cols[i].name == n;
    }
  }

  lemma OwnTypeNames(table: TableName, n: string)
    ensures OwnType(table, n).Some? <==> n in OwnNames(table)
  {}

  lemma OwnNameListed(table: TableName, n: string)
    requires n in OwnNames(table)
    ensures exists i :: 0 <= i < |OwnColumns(table)| && OwnColumns(table)[i].name == n
  {
    match table
    case Main(_) =>
      RevNames();
      var i :| 0 <= i < |REV_DDL| && REV_DDL[i].name == n;
      assert OwnColumns(table)[i].name == n;
    case Files(_) =>
      FilesOwnNames();
      var i :| 0 <= i < |OwnColumns(Files(""))| && OwnColumns(Files(""))[i].name == n;
      assert OwnColumns(table)[i].name == n;
    case Documents(_) =>
      DocumentsOwnNames();
      var i :| 0 <= i < |DOCUMENTS_DDL| && DOCUMENTS_DDL[i].name == n;
      assert OwnColumns(table)[i].name == n;
  }

  lemma OwnTypeFits(table: TableName)
    ensures forall i :: 0 <= i < |OwnColumns(table)| ==>
      OwnType(table, OwnColumns(table)[i].name) == Some(OwnColumns(table)[i].pgType)
  {
    match table
    case Main(_) => MainTypes();
    case Files(_) => FilesTypes();
    case Documents(_) => DocumentsTypes();
  }

  lemma MainTypes()
    ensures forall i :: 0 <= i < |REV_DDL| ==> OwnType(Main(""), REV_DDL[i].name) == Some(REV_DDL[i].pgType)
  {}

  lemma FilesTypes()
    ensures var cols := OwnColumns(Files(""));
      forall i :: 0 <= i < |cols| ==> OwnType(Files(""), cols[i].name) == Some(cols[i].pgType)
  {}

  lemma DocumentsTypes()
    ensures forall i :: 0 <= i < |DOCUMENTS_DDL| ==>
      OwnType(Documents(""), DOCUMENTS_DDL[i].name) == Some(DOCUMENTS_DDL[i].pgType)
  {}

  lemma {:induction false} StoredDeclares(fields: seq<FieldEntry>, taxonomies: seq<string>, multiple: set<string>,
                                          f: string, t: PgType)
    ensures (exists j :: && 0 <= j < |StoredColumns(fields, taxonomies, multiple)|
                         && StoredColumns(fields, taxonomies, multiple)[j].name == f
                         && StoredColumns(fields, taxonomies, multiple)[j].pgType == t) <==>
            exists i :: && 0 <= i < |fields| && fields[i].name == f && fields[i].field.storage.Stored?
                        && t == if f in taxonomies then TermType(f, multiple) else PgTypeOf(fields[i].field.ftype)
  {
    if fields != [] {
      var n := |fields| - 1;
      StoredDeclares(fields[..n], taxonomies, multiple, f, t);
      var front, all := StoredColumns(fields[..n], taxonomies, multiple), StoredColumns(fields, taxonomies, multiple);
      assert forall i :: 0 <= i < n ==> fields[..n][i] == fields[i];
      assert forall j :: 0 <= j < |front| ==> all[j] == front[j];
      if fields[n].field.storage.Stored? {
        assert all[|front|] == ColumnOf(fields[n], taxonomies, multiple);
      }
    }
  }

  lemma DatasetDeclares(name: string, c: Collection, multiple: set<string>, f: string, t: PgType)
    ensures Declares(DatasetTable(name, c, multiple), f, t) <==> StoredAs(c, multiple, f, t)
  {
    StoredDeclares(c.fields, c.taxonomies, multiple, f, t);
  }

  lemma DatasetDeclaresName(name: string, c: Collection, multiple: set<string>, f: string)
    ensures DeclaresName(DatasetTable(name, c, multiple), f) <==> StoresField(c, f)
  {
    var d := DatasetTable(name, c, multiple);
    if DeclaresName(d, f) {
      var i :| 0 <= i < |d.columns| && d.columns[i].name == f;
      DatasetDeclares(name, c, multiple, f, d.columns[i].pgType);
    }
    if StoresField(c, f) {
      var i :| 0 <= i < |c.fields| && c.fields[i].name == f && c.fields[i].field.storage.Stored?;
      var t := if f in c.taxonomies then TermType(f, multiple) else PgTypeOf(c.fields[i].field.ftype);
      assert StoredAs(c, multiple, f, t);
      DatasetDeclares(name, c, multiple, f, t);
    }
  }

  lemma LaidIs(name: string, c: Collection, multiple: set<string>, f: string)
    ensures Laid(c, multiple, DatasetTable(name, c, multiple), f) ==
            if OwnType(Main(""), f).Some? then OwnType(Main(""), f)
            else if f in c.taxonomies then Some(TermType(f, multiple))
            else if exists i :: 0 <= i < |c.fields| && c.fields[i].field.searchable && f == c.fields[i].name + "_tsv"
            then Some(Tsvector) else Option.None
  {
    OwnTypeIs(Main(name), f);
  }

  /** Main result: after a first apply a dataset's table has exactly these columns, each of this type. */
  lemma DatasetColumns(prev: Config, matching: set<string>, db: Db, name: string, env: Env)
    requires SchemaRules(prev) && FirstApply(prev, matching, db)
    requires name in prev.collections && prev.collections[name].kind == Dataset
    requires !(prev.collections[name].external && env == Live)
    ensures TableKey(env, Main(Fold(name))) in db.tables
    ensures var cols := db.tables[TableKey(env, Main(Fold(name)))].columns;
      forall f, t :: f in cols && cols[f] == t <==> DatasetHas(prev.collections[name], prev.multiple, f, t)
  {
    hide SchemaRules, FirstState, FirstApply, DatasetHas;
    var c := prev.collections[name];
    FirstFacts(prev, matching, db);
    DatasetColumn(prev, matching, db, name, env, "", Text);
    forall f, t
      ensures var cols := db.tables[TableKey(env, Main(Fold(name)))].columns;
        f in cols && cols[f] == t <==> DatasetHas(c, prev.multiple, f, t)
    {
      DatasetColumn(prev, matching, db, name, env, f, t);
    }
  }

  lemma DatasetColumn(prev: Config, matching: set<string>, db: Db, name: string, env: Env, f: string, t: PgType)
    requires SchemaRules(prev) && FirstState(prev, matching, db)
    requires name in prev.collections && prev.collections[name].kind == Dataset
    requires !(prev.collections[name].external && env == Live)
    ensures MainKey(env, name) in db.tables
    ensures var cols := db.tables[MainKey(env, name)].columns;
      f in cols && cols[f] == t <==> DatasetHas(prev.collections[name], prev.multiple, f, t)
  {
    hide SchemaRules, FirstState, Laid, DatasetTable;
    var c := prev.collections[name];
    var d := DatasetTable(name, c, prev.multiple);
    DeclaresItself(prev, name, env);
    ColumnShape(prev, matching, db, name, env, d, f);
    DatasetDeclares(name, c, prev.multiple, f, t);
    DatasetDeclaresName(name, c, prev.multiple, f);
    LaidIs(name, c, prev.multiple, f);
    if DeclaresName(d, f) && f in db.tables[MainKey(env, name)].columns {
      TypeOnce(prev, name, d, f, t, db.tables[MainKey(env, name)].columns[f]);
    }
  }

  lemma DeclaresItself(prev: Config, name: string, env: Env)
    requires name in prev.collections && prev.collections[name].kind == Dataset
    requires !(prev.collections[name].external && env == Live)
    ensures var d := DatasetTable(name, prev.collections[name], prev.multiple);
      Declaring(prev, name, env, d) && Landed(env, d.table) == MainKey(env, name)
  {}

  lemma TypeOnce(prev: Config, name: string, d: DeclaredTable, f: string, s: PgType, t: PgType)
    requires SchemaRules(prev) && name in prev.collections
    requires d in DeclaredTables(name, prev.collections[name], prev.multiple) && Declares(d, f, t)
    ensures Declares(d, f, s) <==> s == t
  {
    if Declares(d, f, s) {
      DeclaredOnce(name, prev.collections[name], prev.multiple, d, f, s, t);
    }
  }

  // ----- columns of a file collection

  /** A field that is kept with the file: not a fixed one, not a binding's, no uuid or json. */
  predicate KeptAs(c: Collection, f: string, t: PgType) {
    && f !in {"title", "content", "path", "owner", "updated_at"} && f !in c.taxonomies
    && exists i :: && 0 <= i < |c.fields| && c.fields[i].name == f && c.fields[i].field.ftype !in {FUuid, FJson}
                   && t == PgTypeOf(c.fields[i].field.ftype)
  }

  /** A file collection's files have a column `f` of type `t`. */
  ghost predicate FilesHave(c: Collection, multiple: set<string>, f: string, t: PgType) {
    if f in c.taxonomies then t == TermType(f, multiple)
    else if exists s :: KeptAs(c, f, s) then KeptAs(c, f, t)
    else OwnType(Files(""), f) == Some(t)
  }

  lemma FilesDeclare(name: string, c: Collection, multiple: set<string>, f: string, t: PgType)
    ensures Declares(FilesTable(name, c, multiple), f, t) <==>
            (f in c.taxonomies && t == TermType(f, multiple)) || KeptAs(c, f, t)
    ensures KeptAs(c, f, t) ==> f !in c.taxonomies
  {
    var terms, kept := TermColumns(c.taxonomies, multiple), MetadataColumns(c.fields, c.taxonomies);
    var d := FilesTable(name, c, multiple);
    MetadataColumnsFrom(c.fields, c.taxonomies);
    if Declares(d, f, t) {
      var i :| 0 <= i < |d.columns| && d.columns[i].name == f && d.columns[i].pgType == t;
      if i < |terms| {
        assert terms[i].name == c.taxonomies[i];
      } else {
        assert d.columns[i] in kept;
      }
    }
    if f in c.taxonomies && t == TermType(f, multiple) {
      var i :| 0 <= i < |c.taxonomies| && c.taxonomies[i] == f;
      assert d.columns[i] == terms[i];
    }
    if KeptAs(c, f, t) {
      var i :| 0 <= i < |c.fields| && c.fields[i].name == f && c.fields[i].field.ftype !in {FUuid, FJson}
               && t == PgTypeOf(c.fields[i].field.ftype);
      assert MetadataColumn(c.fields[i]) in kept;
      var j :| 0 <= j < |kept| && kept[j] == MetadataColumn(c.fields[i]);
      assert d.columns[|terms| + j] == kept[j];
    }
  }

  lemma FilesDeclareName(name: string, c: Collection, multiple: set<string>, f: string)
    ensures DeclaresName(FilesTable(name, c, multiple), f) <==> f in c.taxonomies || exists s :: KeptAs(c, f, s)
  {
    var d := FilesTable(name, c, multiple);
    if DeclaresName(d, f) {
      var i :| 0 <= i < |d.columns| && d.columns[i].name == f;
      assert Declares(d, f, d.columns[i].pgType);
      FilesDeclare(name, c, multiple, f, d.columns[i].pgType);
    }
    if f in c.taxonomies {
      FilesDeclare(name, c, multiple, f, TermType(f, multiple));
    }
    if s :| KeptAs(c, f, s) {
      FilesDeclare(name, c, multiple, f, s);
    }
  }

  lemma FileColumn(prev: Config, matching: set<string>, db: Db, name: string, env: Env, f: string, t: PgType)
    requires SchemaRules(prev) && FirstState(prev, matching, db)
    requires name in prev.collections && prev.collections[name].kind == File
    requires !(prev.collections[name].external && env == Live)
    ensures TableKey(env, Files(name)) in db.tables
    ensures var cols := db.tables[TableKey(env, Files(name))].columns;
      f in cols && cols[f] == t <==> FilesHave(prev.collections[name], prev.multiple, f, t)
  {
    hide SchemaRules, FirstState, OwnType, KeptAs, TermType, Types, OwnColumns;
    var c := prev.collections[name];
    var d := FilesTable(name, c, prev.multiple);
    assert Declaring(prev, name, env, d);
    ColumnShape(prev, matching, db, name, env, d, f);
    FilesDeclare(name, c, prev.multiple, f, t);
    FilesDeclareName(name, c, prev.multiple, f);
    OwnTypeIs(Files(name), f);
    OwnTypeShared(name, f);
    if DeclaresName(d, f) && f in db.tables[TableKey(env, Files(name))].columns {
      TypeOnce(prev, name, d, f, t, db.tables[TableKey(env, Files(name))].columns[f]);
    }
  }

  lemma OwnTypeShared(name: string, f: string)
    ensures OwnType(Files(name), f) == OwnType(Files(""), f)
    ensures OwnType(Documents(name), f) == OwnType(Documents(""), f)
  {}

  lemma DocumentColumn(prev: Config, matching: set<string>, db: Db, name: string, env: Env, f: string, t: PgType)
    requires SchemaRules(prev) && FirstState(prev, matching, db)
    requires name in prev.collections && prev.collections[name].kind == File
    requires !(prev.collections[name].external && env == Live)
    ensures TableKey(env, Documents(name)) in db.tables
    ensures var cols := db.tables[TableKey(env, Documents(name))].columns;
      f in cols && cols[f] == t <==> OwnType(Documents(""), f) == Some(t)
  {
    hide SchemaRules, FirstState, OwnType, Types, OwnColumns;
    assert Declaring(prev, name, env, DocumentsTable(name));
    ColumnShape(prev, matching, db, name, env, DocumentsTable(name), f);
    OwnTypeIs(Documents(name), f);
    OwnTypeShared(name, f);
  }

  /** The same for the two tables of a file collection. */
  lemma FileColumns(prev: Config, matching: set<string>, db: Db, name: string, env: Env)
    requires SchemaRules(prev) && FirstApply(prev, matching, db)
    requires name in prev.collections && prev.collections[name].kind == File
    requires !(prev.collections[name].external && env == Live)
    ensures TableKey(env, Files(name)) in db.tables && TableKey(env, Documents(name)) in db.tables
    ensures var cols := db.tables[TableKey(env, Files(name))].columns;
      forall f, t :: f in cols && cols[f] == t <==> FilesHave(prev.collections[name], prev.multiple, f, t)
    ensures var cols := db.tables[TableKey(env, Documents(name))].columns;
      forall f, t :: f in cols && cols[f] == t <==> OwnType(Documents(""), f) == Some(t)
  {
    hide SchemaRules, FirstState, FirstApply, FilesHave, OwnType;
    FirstFacts(prev, matching, db);
    FileColumn(prev, matching, db, name, env, "", Text);
    DocumentColumn(prev, matching, db, name, env, "", Text);
    forall f, t
      ensures var cols := db.tables[TableKey(env, Files(name))].columns;
        f in cols && cols[f] == t <==> FilesHave(prev.collections[name], prev.multiple, f, t)
      ensures var cols := db.tables[TableKey(env, Documents(name))].columns;
        f in cols && cols[f] == t <==> OwnType(Documents(""), f) == Some(t)
    {
      FileColumn(prev, matching, db, name, env, f, t);
      DocumentColumn(prev, matching, db, name, env, f, t);
    }
  }

  // ----- indexes

  /** The index is one of the collection's own on this table, over these columns. */
  predicate IndexHas(
      c: Collection, multiple: set<string>, name: string, table: TableName, i: string, over: seq<string>)
  {
    match table
    case Main(_) =>
      var pk := if PkField(c).Some? then PkField(c).value else "id";
      || (i == name + "_history_idx" && over == ["workspace_id", pk, "_rev_seq"])
      || (exists j :: && 0 <= j < |c.indexes| && i == name + "_ix_" + JoinNames(c.indexes[j])
                      && over == ["workspace_id"] + c.indexes[j] + (if pk in c.indexes[j] then [] else [pk])
                                 + ["_current", "_rev_op"])
      || (exists j :: && 0 <= j < |c.taxonomies| && c.taxonomies[j] in multiple
                      && i == name + "_" + c.taxonomies[j] + "_idx" && over == [c.taxonomies[j]])
      || (exists j :: && 0 <= j < |c.fields| && c.fields[j].field.searchable
                      && i == name + "_" + c.fields[j].name + "_tsv_idx" && over == [c.fields[j].name + "_tsv"])
    case Files(_) =>
      || (i == name + "__files_blob_checksum_idx" && over == ["blob_checksum"])
      || (exists j :: && 0 <= j < |c.taxonomies| && c.taxonomies[j] in multiple
                      && i == name + "__files" + "_" + c.taxonomies[j] + "_idx" && over == [c.taxonomies[j]])
    case Documents(_) =>
      || (i == name + "__documents_tsv_idx" && over == ["tsv"])
      || (i == name + "__documents_embedding_idx" && over == ["embedding"])
  }

  lemma DatasetIndexes(env: Env, name: string, c: Collection, multiple: set<string>, s: Statement)
    requires s in DatasetBatch(env, name, c, multiple) && s.CreateIndex?
    ensures s.key == MainKey(env, name) && IndexHas(c, multiple, name, s.key.name, s.index, s.over)
  {
    var key, pk := MainKey(env, name), IdentityField(c);
    FieldAltersFrom(key, c.fields, c.taxonomies);
    VocabAltersFrom(key, name, c.taxonomies, multiple);
    SearchAltersFrom(key, name, c.fields);
    if s in IndexStatements(key, name, c.indexes, pk) {
      var j :| 0 <= j < |c.indexes| && s == IndexStatements(key, name, c.indexes, pk)[j];
    }
  }

  lemma FileIndexes(env: Env, name: string, c: Collection, multiple: set<string>, s: Statement)
    requires s in FileBatch(env, name, c, multiple) && s.CreateIndex?
    ensures s.key.name in {Files(name), Documents(name)} && IndexHas(c, multiple, name, s.key.name, s.index, s.over)
  {
    var key := TableKey(env, Files(name));
    VocabAltersFrom(key, name + "__files", c.taxonomies, multiple);
    MetadataAltersFrom(key, c.fields, c.taxonomies);
  }

  lemma BatchIndexes(env: Env, name: string, c: Collection, multiple: set<string>, s: Statement)
    requires s in TableBatch(env, name, c, multiple) && s.CreateIndex?
    ensures IndexHas(c, multiple, name, s.key.name, s.index, s.over) && OwnKey(s.key, env, name)
  {
    TableBatchBuilds(env, name, c, multiple);
    if c.kind == Dataset {
      DatasetIndexes(env, name, c, multiple, s);
    } else {
      FileIndexes(env, name, c, multiple, s);
    }
  }

  // ----- where the indexes come from

  /** Every index was in `base` over the same columns, or is its collection's own. */
  ghost predicate IndexesFit(cfg: Config, base: Db, db: Db) {
    forall key, i :: key in db.tables && i in db.tables[key].indexes ==>
      IndexFits(cfg, base, key, i, db.tables[key].indexes[i])
  }

  ghost predicate IndexFits(cfg: Config, base: Db, key: TableKey, i: string, over: seq<string>) {
    || (key in base.tables && i in base.tables[key].indexes && base.tables[key].indexes[i] == over)
    || exists n :: Owns(cfg, key, n) && IndexHas(cfg.collections[n], cfg.multiple, n, key.name, i, over)
  }

  /** One statement adds at most the index it creates. */
  lemma IndexesAfter(s: Statement, db: Db)
    requires Builds(s) && Exec(s, db).Some?
    ensures var after := Exec(s, db).value;
      forall key, i :: key in after.tables && i in after.tables[key].indexes ==>
        || (key in db.tables && i in db.tables[key].indexes
            && db.tables[key].indexes[i] == after.tables[key].indexes[i])
        || (s.CreateIndex? && key == s.key && i == s.index && after.tables[key].indexes[i] == s.over)
  {}

  lemma IndexStep(cfg: Config, base: Db, env: Env, name: string, s: Statement, db: Db)
    requires name in cfg.collections && IndexesFit(cfg, base, db) && Exec(s, db).Some?
    requires s in TableBatch(env, name, cfg.collections[name], cfg.multiple)
    ensures IndexesFit(cfg, base, Exec(s, db).value)
  {
    hide IndexHas, Exec, TableBatch;
    TableBatchBuilds(env, name, cfg.collections[name], cfg.multiple);
    IndexesAfter(s, db);
    if s.CreateIndex? {
      BatchIndexes(env, name, cfg.collections[name], cfg.multiple, s);
      assert Owns(cfg, s.key, name);
    }
    var after := Exec(s, db).value;
    forall key, i | key in after.tables && i in after.tables[key].indexes
      ensures IndexFits(cfg, base, key, i, after.tables[key].indexes[i])
    {
      if !(s.CreateIndex? && key == s.key && i == s.index && after.tables[key].indexes[i] == s.over) {
        assert IndexFits(cfg, base, key, i, db.tables[key].indexes[i]);
      }
    }
  }

  lemma {:induction false} IndexBatch(cfg: Config, base: Db, env: Env, name: string, ss: seq<Statement>, db: Db)
    requires name in cfg.collections && IndexesFit(cfg, base, db) && ExecAll(ss, db).Some?
    requires forall s :: s in ss ==> s in TableBatch(env, name, cfg.collections[name], cfg.multiple)
    ensures IndexesFit(cfg, base, ExecAll(ss, db).value)
  {
    hide IndexesFit, Exec, TableBatch;
    if ss != [] {
      var n := |ss| - 1;
      IndexBatch(cfg, base, env, name, ss[..n], db);
      assert ss[n] in ss;
      IndexStep(cfg, base, env, name, ss[n], ExecAll(ss[..n], db).value);
    }
  }

  lemma IndexSend(cfg: Config, base: Db, r: Run, env: Env, name: string)
    requires name in cfg.collections && IndexesFit(cfg, base, r.db)
    ensures IndexesFit(cfg, base, Send(r, TableBatch(env, name, cfg.collections[name], cfg.multiple)).db)
  {
    hide IndexesFit, TableBatch;
    var batch := TableBatch(env, name, cfg.collections[name], cfg.multiple);
    if r.failure.None? && ExecAll(batch, r.db).Some? {
      IndexBatch(cfg, base, env, name, batch, r.db);
    }
  }

  lemma {:induction false} IndexTables(cfg: Config, base: Db, r: Run, names: seq<string>, matching: set<string>)
    requires Covers(cfg, names) && IndexesFit(cfg, base, r.db)
    ensures IndexesFit(cfg, base, AllTables(r, cfg, names, matching).db)
  {
    hide IndexesFit, TableBatch;
    if names != [] {
      var before, name := names[..|names| - 1], names[|names| - 1];
      IndexTables(cfg, base, r, before, matching);
      var c := cfg.collections[name];
      var mid := AllTables(r, cfg, before, matching);
      var checked := CheckRevisions(CheckRevisions(mid, Dev, name, c), Live, name, c);
      IndexSend(cfg, base, checked, Dev, name);
      IndexSend(cfg, base, Send(checked, TableBatch(Dev, name, c, cfg.multiple)), Live, name);
    }
  }

  /**
   Main result: after an apply, finished or not, every index of every table was there before over the same
   columns, or is one the collection whose table it is asks for, over just these columns in this order.
   */
  lemma IndexesLeft(db: Db, cfg: Config, plan: seq<SchemaChange>, matching: set<string>)
    requires Keyed(cfg)
    ensures IndexesFit(cfg, db, Applied(db, cfg, plan, matching).db)
  {
    var resolved := Resolve(Start(db), plan);
    assert IndexesFit(cfg, db, resolved.db) by {
      if Blocked(db, plan) == [] {
        ResolvedTables(db, plan);
      }
    }
    IndexTables(cfg, db, resolved, cfg.names, matching);
    AllViewsKeepTables(AllTables(resolved, cfg, cfg.names, matching), cfg, cfg.names);
  }
}
