/**
 What a collection's tables and views are supposed to look like, and the statements that make them
 so. The functions are the specification; the loops of `ddl.ts` that push them one by one are in `DdlBuild`.
 */
module Ddl {
  import opened Wrappers
  import opened Config
  import opened Catalog

  datatype DeclaredColumn = DeclaredColumn(name: string, pgType: PgType, pk: bool)

  /** `columns` can hold data a config change would strand; `structural` belongs to the DDL. */
  datatype DeclaredTable = DeclaredTable(table: TableName, columns: seq<DeclaredColumn>, structural: set<string>)

  const REV_COLUMNS: set<string> := {
    "_rev", "_rev_seq", "_rev_at", "_rev_by", "_rev_op", "_rev_status", "_rev_fields", "_rev_base", "_current"}

  const FILE_FIELDS: set<string> := {"title", "content", "path", "owner", "updated_at"}

  const FILES_STRUCTURAL: set<string> := {
    "id", "workspace_id", "title", "path", "owner", "checksum", "updated_at",
    "content_type", "byte_size", "blob", "origin", "blob_checksum"}

  const DOCUMENTS_STRUCTURAL: set<string> := {
    "id", "workspace_id", "file_id", "document_seq", "content", "tsv", "embedding"}

  predicate MetadataType(t: FieldType) {
    t != FUuid && t != FJson
  }

  function VocabType(slug: string, multiple: set<string>): PgType {
    if slug in multiple then TextArray else Text
  }

  function FieldPgType(e: FieldEntry, taxonomies: seq<string>, multiple: set<string>): PgType {
    if e.name in taxonomies then VocabType(e.name, multiple) else PgTypeOf(e.field.ftype)
  }

  function Tsv(name: string): string {
    name + "_tsv"
  }

  // ----- declared tables

  function ColumnOf(e: FieldEntry, taxonomies: seq<string>, multiple: set<string>): DeclaredColumn {
    DeclaredColumn(e.name, FieldPgType(e, taxonomies, multiple), e.field.pk)
  }

  function StoredColumns(fields: seq<FieldEntry>, taxonomies: seq<string>, multiple: set<string>): seq<DeclaredColumn> {
    if fields == [] then []
    else
      var e := fields[|fields| - 1];
      StoredColumns(fields[..|fields| - 1], taxonomies, multiple)
      + if e.field.storage.Stored?
        then [ColumnOf(e, taxonomies, multiple)]
        else []
  }

  function TsvNames(fields: seq<FieldEntry>): set<string> {
    set i | 0 <= i < |fields| && fields[i].field.storage.Stored? :: Tsv(fields[i].name)
  }

  function TermColumns(taxonomies: seq<string>, multiple: set<string>): seq<DeclaredColumn> {
    seq(|taxonomies|, i requires 0 <= i < |taxonomies| =>
      DeclaredColumn(taxonomies[i], VocabType(taxonomies[i], multiple), false))
  }

  predicate IsMetadata(e: FieldEntry, taxonomies: seq<string>) {
    e.name !in FILE_FIELDS && e.name !in taxonomies && MetadataType(e.field.ftype)
  }

  function MetadataColumn(e: FieldEntry): DeclaredColumn {
    DeclaredColumn(e.name, PgTypeOf(e.field.ftype), false)
  }

  /** `fileMetadataFields` in config/schema.ts, with their column types. */
  function MetadataColumns(fields: seq<FieldEntry>, taxonomies: seq<string>): seq<DeclaredColumn> {
    if fields == [] then []
    else
      var e := fields[|fields| - 1];
      MetadataColumns(fields[..|fields| - 1], taxonomies)
      + if IsMetadata(e, taxonomies) then [MetadataColumn(e)] else []
  }

  function DatasetStructural(c: Collection): set<string> {
    {"workspace_id"} + REV_COLUMNS + TsvNames(c.fields)
  }

  function DatasetTable(name: string, c: Collection, multiple: set<string>): DeclaredTable {
    DeclaredTable(Main(name), StoredColumns(c.fields, c.taxonomies, multiple), DatasetStructural(c))
  }

  function FilesTable(name: string, c: Collection, multiple: set<string>): DeclaredTable {
    DeclaredTable(Files(name), TermColumns(c.taxonomies, multiple) + MetadataColumns(c.fields, c.taxonomies),
                  FILES_STRUCTURAL)
  }

  function DocumentsTable(name: string): DeclaredTable {
    DeclaredTable(Documents(name), [], DOCUMENTS_STRUCTURAL)
  }

  function DeclaredTables(name: string, c: Collection, multiple: set<string>): seq<DeclaredTable> {
    match c.kind
    case Dataset => [DatasetTable(name, c, multiple)]
    case File => [FilesTable(name, c, multiple), DocumentsTable(name)]
  }

  predicate DeclaresName(d: DeclaredTable, name: string) {
    exists i :: 0 <= i < |d.columns| && d.columns[i].name == name
  }

  predicate Declares(d: DeclaredTable, name: string, t: PgType) {
    exists i :: 0 <= i < |d.columns| && d.columns[i].name == name && d.columns[i].pgType == t
  }

  // ----- table statements

  function Bare(name: string, t: PgType): Column {
    Column(name, t, Null, Option.None)
  }

  function DataColumns(columns: seq<DeclaredColumn>): seq<Column> {
    seq(|columns|, i requires 0 <= i < |columns| => Bare(columns[i].name, columns[i].pgType))
  }

  const WORKSPACE: Column := Column("workspace_id", Text, Scalar("default"), Option.None)

  const REV_DDL: seq<Column> := [
    Bare("_rev", Uuid), Bare("_rev_seq", Bigint), Bare("_rev_at", Timestamptz), Bare("_rev_by", Text),
    Bare("_rev_op", Text), Bare("_rev_status", Text), Bare("_rev_fields", TextArray),
    Bare("_rev_base", Bigint), Column("_current", Boolean, Scalar("false"), Option.None), WORKSPACE]

  function JoinNames(names: seq<string>): string {
    if names == [] then ""
    else if |names| == 1 then names[0]
    else JoinNames(names[..|names| - 1]) + "_" + names[|names| - 1]
  }

  /** `indexName` in config/collection.ts. */
  function IndexName(collection: string, fields: seq<string>): string {
    collection + "_ix_" + JoinNames(fields)
  }

  /** The field the identity index is built on: the declared pk, or `id` when there is none. */
  function IdentityField(c: Collection): string {
    match PkField(c)
    case None => "id"
    case Some(f) => f
  }

  /** workspace_id leads, the pk trails unless already named, and the predicate reads two more. */
  function IndexColumns(fields: seq<string>, pk: string): seq<string> {
    ["workspace_id"] + fields + (if pk in fields then [] else [pk]) + ["_current", "_rev_op"]
  }

  function IndexStatements(key: TableKey, name: string, indexes: seq<seq<string>>, pk: string): seq<Statement> {
    seq(|indexes|, i requires 0 <= i < |indexes| =>
      CreateIndex(key, IndexName(name, indexes[i]), IndexColumns(indexes[i], pk), false))
  }

  function FieldAlters(key: TableKey, fields: seq<FieldEntry>, taxonomies: seq<string>): seq<Statement> {
    if fields == [] then []
    else
      var e := fields[|fields| - 1];
      FieldAlters(key, fields[..|fields| - 1], taxonomies)
      + if e.field.storage.Stored? && !e.field.pk && e.name !in taxonomies
        then [AddColumn(key, Bare(e.name, PgTypeOf(e.field.ftype)))]
        else []
  }

  function TermIndexName(prefix: string, slug: string): string {
    prefix + "_" + slug + "_idx"
  }

  function SearchIndexName(name: string, field: string): string {
    name + "_" + field + "_tsv_idx"
  }

  function HistoryIndexName(name: string): string {
    name + "_history_idx"
  }

  function TermIndex(key: TableKey, prefix: string, slug: string): Statement {
    CreateIndex(key, TermIndexName(prefix, slug), [slug], true)
  }

  function VocabAlters(key: TableKey, prefix: string, taxonomies: seq<string>, multiple: set<string>): seq<Statement> {
    if taxonomies == [] then []
    else
      var slug := taxonomies[|taxonomies| - 1];
      VocabAlters(key, prefix, taxonomies[..|taxonomies| - 1], multiple)
      + [AddColumn(key, Bare(slug, VocabType(slug, multiple)))]
      + if slug in multiple then [TermIndex(key, prefix, slug)] else []
  }

  function TsvColumn(name: string): Column {
    Column(Tsv(name), Tsvector, Null, Some(TsvOf(name)))
  }

  function SearchIndex(key: TableKey, name: string, field: string): Statement {
    CreateIndex(key, SearchIndexName(name, field), [Tsv(field)], true)
  }

  function SearchAlters(key: TableKey, name: string, fields: seq<FieldEntry>): seq<Statement> {
    if fields == [] then []
    else
      var e := fields[|fields| - 1];
      SearchAlters(key, name, fields[..|fields| - 1])
      + if e.field.searchable
        then [AddColumn(key, TsvColumn(e.name)),
              SearchIndex(key, name, e.name)]
        else []
  }

  /** A dataset's table, where statements that do not quote its name land. */
  function MainKey(env: Env, name: string): TableKey {
    TableKey(env, Main(Fold(name)))
  }

  /** The table that statements about a declared table land on. */
  function Landed(env: Env, table: TableName): TableKey {
    match table
    case Main(c) => MainKey(env, c)
    case _ => TableKey(env, table)
  }

  /** The table is found under the collection's own name: that name is quoted, or holds no capital. */
  predicate Seen(table: TableName) {
    table.Main? ==> Fold(table.collection) == table.collection
  }

  /** Another dataset's table lies where this collection's is looked up: their names differ in case alone. */
  ghost predicate Taken(cfg: Config, name: string) {
    exists n :: n in cfg.collections && n != name && cfg.collections[n].kind == Dataset && Fold(n) == name
  }

  /** Nor are view names quoted. */
  function ViewOf(env: Env, name: string): ViewKey {
    ViewKey(env, Fold(name))
  }

  function DatasetCreate(key: TableKey, name: string, c: Collection, multiple: set<string>): Statement {
    CreateTable(key, REV_DDL + DataColumns(StoredColumns(c.fields, c.taxonomies, multiple)), Some("_rev"))
  }

  function HistoryIndex(key: TableKey, name: string, pk: string): Statement {
    CreateIndex(key, HistoryIndexName(name), ["workspace_id", pk, "_rev_seq"], false)
  }

  /** The declared indexes come before the columns a pre-existing table is still missing. */
  function DatasetBatch(env: Env, name: string, c: Collection, multiple: set<string>): seq<Statement> {
    var key := MainKey(env, name);
    var pk := IdentityField(c);
    [DatasetCreate(key, name, c, multiple),
     AddColumn(key, WORKSPACE),
     CreateIdentity(key, pk),
     HistoryIndex(key, name, pk)]
    + IndexStatements(key, name, c.indexes, pk)
    + FieldAlters(key, c.fields, c.taxonomies)
    + VocabAlters(key, name, c.taxonomies, multiple)
    + SearchAlters(key, name, c.fields)
  }

  function MetadataAlters(key: TableKey, fields: seq<FieldEntry>, taxonomies: seq<string>): seq<Statement> {
    if fields == [] then []
    else
      var e := fields[|fields| - 1];
      MetadataAlters(key, fields[..|fields| - 1], taxonomies)
      + if IsMetadata(e, taxonomies) then [AddColumn(key, Bare(e.name, PgTypeOf(e.field.ftype)))] else []
  }

  const FILES_HEAD: seq<Column> := [Bare("id", Uuid), WORKSPACE, Bare("title", Text), Bare("path", Text)]

  const FILES_TAIL: seq<Column> := [
    Bare("owner", Text), Bare("checksum", Text), Bare("updated_at", Timestamptz), Bare("origin", Text)]

  const FILES_LATER: seq<Column> := [
    Bare("content_type", Text), Bare("byte_size", Integer), Bare("blob", Bytea),
    Column("origin", Text, Scalar("index"), Option.None),
    Column("blob_checksum", Text, Null, Some(ChecksumOf("blob")))]

  const DOCUMENTS_DDL: seq<Column> := [
    Bare("id", Uuid), WORKSPACE, Bare("file_id", Uuid), Bare("document_seq", Integer), Bare("content", Text),
    Column("tsv", Tsvector, Null, Some(TsvOf("content"))), Bare("embedding", Vector)]

  function FilesCreate(key: TableKey, c: Collection, multiple: set<string>): Statement {
    CreateTable(
      key,
      FILES_HEAD + DataColumns(TermColumns(c.taxonomies, multiple))
      + DataColumns(MetadataColumns(c.fields, c.taxonomies)) + FILES_TAIL,
      Some("id"))
  }

  function FilesUpgrades(key: TableKey, name: string): seq<Statement> {
    [AddColumn(key, FILES_LATER[0]), AddColumn(key, FILES_LATER[1]), AddColumn(key, FILES_LATER[2]),
     AddColumn(key, FILES_LATER[3]), AddColumn(key, FILES_LATER[4]),
     CreateIndex(key, name + "__files_blob_checksum_idx", ["blob_checksum"], false)]
  }

  function DocumentsBatch(docs: TableKey, name: string): seq<Statement> {
    [CreateTable(docs, DOCUMENTS_DDL, Some("id")),
     AddColumn(docs, WORKSPACE),
     CreateIndex(docs, name + "__documents_tsv_idx", ["tsv"], true),
     CreateIndex(docs, name + "__documents_embedding_idx", ["embedding"], false)]
  }

  function FileBatch(env: Env, name: string, c: Collection, multiple: set<string>): seq<Statement> {
    var key := TableKey(env, Files(name));
    [FilesCreate(key, c, multiple), AddColumn(key, WORKSPACE)]
    + VocabAlters(key, name + "__files", c.taxonomies, multiple)
    + MetadataAlters(key, c.fields, c.taxonomies)
    + FilesUpgrades(key, name)
    + DocumentsBatch(TableKey(env, Documents(name)), name)
  }

  /** `tableDDL`: an external collection has no live table of its own. */
  function TableBatch(env: Env, name: string, c: Collection, multiple: set<string>): seq<Statement> {
    if c.external && env == Live then []
    else match c.kind
      case Dataset => DatasetBatch(env, name, c, multiple)
      case File => FileBatch(env, name, c, multiple)
  }

  // ----- views

  function JoinUses(env: Env, key: TableKey, s: Storage): set<ColumnRef>
    requires s.Joined?
  {
    {ColumnRef(TableKey(env, s.table), s.column), ColumnRef(TableKey(env, s.table), "id"), ColumnRef(key, s.on)}
  }

  function FieldUses(env: Env, key: TableKey, e: FieldEntry): set<ColumnRef> {
    match e.field.storage
    case Joined(_, _, _) => JoinUses(env, key, e.field.storage)
    case Related => {}
    case Stored =>
      {ColumnRef(key, e.name)} + if e.field.searchable then {ColumnRef(key, Tsv(e.name))} else {}
  }

  function FieldsUses(env: Env, key: TableKey, fields: seq<FieldEntry>): set<ColumnRef> {
    if fields == [] then {}
    else FieldsUses(env, key, fields[..|fields| - 1]) + FieldUses(env, key, fields[|fields| - 1])
  }

  function ColumnsOf(key: TableKey, names: set<string>): set<ColumnRef> {
    set n | n in names :: ColumnRef(key, n)
  }

  function DeclaredUses(key: TableKey, columns: seq<DeclaredColumn>): set<ColumnRef> {
    set i | 0 <= i < |columns| :: ColumnRef(key, columns[i].name)
  }

  /** The columns a collection's view selects, joins on or filters by. */
  function ViewUses(env: Env, name: string, c: Collection, multiple: set<string>): set<ColumnRef> {
    match c.kind
    case Dataset =>
      if c.external && env == Live then {}   // reads the foreign table only
      else
        var key := MainKey(env, name);
        FieldsUses(env, key, c.fields) + ColumnsOf(key, {"workspace_id", "_current", "_rev_op"})
    case File =>
      var key := TableKey(env, Files(name));
      DeclaredUses(key, TermColumns(c.taxonomies, multiple))
      + DeclaredUses(key, MetadataColumns(c.fields, c.taxonomies))
      + ColumnsOf(key, {"id", "title", "path", "owner", "updated_at", "checksum", "workspace_id"})
      + ColumnsOf(TableKey(env, Documents(name)), DOCUMENTS_STRUCTURAL)
  }

  /** A view is dropped and recreated, never replaced, in one query string. */
  function ViewBatch(env: Env, name: string, c: Collection, multiple: set<string>): seq<Statement> {
    [DropView(ViewOf(env, name)), CreateView(ViewOf(env, name), ViewUses(env, name, c, multiple))]
  }
}
