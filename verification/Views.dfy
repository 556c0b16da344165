/**
 What a collection's view reads once an apply has finished, column by column, and what Postgres therefore
 refuses to drop while the view stands.
 */
module Views {
  import opened Wrappers
  import opened Config
  import opened Catalog
  import opened Ddl
  import opened Plan
  import opened Apply
  import opened Idempotence

  /** A dataset's view shows the current revision that is no deletion, in the session's workspace. */
  const ROW_FILTER: set<string> := {"workspace_id", "_current", "_rev_op"}

  const FILE_COLUMNS: set<string> := {
    "id", "title", "path", "owner", "updated_at", "checksum", "workspace_id"}

  const CHUNK_COLUMNS: set<string> := {
    "id", "document_seq", "content", "tsv", "embedding", "file_id", "workspace_id"}

  /** What a field adds to its dataset's view. */
  predicate FieldReads(env: Env, key: TableKey, e: FieldEntry, ref: ColumnRef) {
    match e.field.storage
    case Stored => ref.table == key && (ref.column == e.name || (e.field.searchable && ref.column == e.name + "_tsv"))
    case Joined(table, column, on) =>
      || (ref.table == TableKey(env, table) && ref.column in {column, "id"})
      || (ref.table == key && ref.column == on)
    case Related => false
  }

  predicate DatasetReads(env: Env, name: string, c: Collection, ref: ColumnRef) {
    || (ref.table == MainKey(env, name) && ref.column in ROW_FILTER)
    || exists i :: 0 <= i < |c.fields| && FieldReads(env, MainKey(env, name), c.fields[i], ref)
  }

  /** A field of a file collection that is kept as metadata: not a fixed one, not a binding's, no uuid or json. */
  predicate MetadataOf(c: Collection, column: string) {
    && column !in {"title", "content", "path", "owner", "updated_at"} && column !in c.taxonomies
    && exists i :: 0 <= i < |c.fields| && c.fields[i].name == column && c.fields[i].field.ftype !in {FUuid, FJson}
  }

  predicate FileReads(env: Env, name: string, c: Collection, ref: ColumnRef) {
    || (ref.table == TableKey(env, Documents(name)) && ref.column in CHUNK_COLUMNS)
    || (ref.table == TableKey(env, Files(name))
        && (ref.column in FILE_COLUMNS || ref.column in c.taxonomies || MetadataOf(c, ref.column)))
  }

  // ----- the columns one by one

  lemma {:induction false} FieldsUsesAre(env: Env, key: TableKey, fields: seq<FieldEntry>, ref: ColumnRef)
    ensures ref in FieldsUses(env, key, fields) <==>
            exists i :: 0 <= i < |fields| && FieldReads(env, key, fields[i], ref)
  {
    if fields != [] {
      var n := |fields| - 1;
      FieldsUsesAre(env, key, fields[..n], ref);
      assert forall i :: 0 <= i < n ==> fields[..n][i] == fields[i];
    }
  }

  lemma {:induction false} MetadataColumnsAre(fields: seq<FieldEntry>, taxonomies: seq<string>, column: string)
    ensures (exists i :: 0 <= i < |MetadataColumns(fields, taxonomies)| &&
                         MetadataColumns(fields, taxonomies)[i].name == column) <==>
            exists i :: 0 <= i < |fields| && fields[i].name == column && IsMetadata(fields[i], taxonomies)
  {
    if fields != [] {
      var n := |fields| - 1;
      var front, all := MetadataColumns(fields[..n], taxonomies), MetadataColumns(fields, taxonomies);
      MetadataColumnsAre(fields[..n], taxonomies, column);
      assert forall i :: 0 <= i < n ==> fields[..n][i] == fields[i];
      assert forall i :: 0 <= i < |front| ==> all[i] == front[i];
      if IsMetadata(fields[n], taxonomies) {
        assert all[|front|].name == fields[n].name;
      }
    }
  }

  lemma DeclaredUsesAre(key: TableKey, columns: seq<DeclaredColumn>, ref: ColumnRef)
    ensures ref in DeclaredUses(key, columns) <==>
            ref.table == key && exists i :: 0 <= i < |columns| && columns[i].name == ref.column
  {}

  lemma TermColumnsAre(c: Collection, multiple: set<string>, column: string)
    ensures (exists i :: 0 <= i < |TermColumns(c.taxonomies, multiple)| &&
                         TermColumns(c.taxonomies, multiple)[i].name == column) <==> column in c.taxonomies
  {
    if column in c.taxonomies {
      var i :| 0 <= i < |c.taxonomies| && c.taxonomies[i] == column;
      assert TermColumns(c.taxonomies, multiple)[i].name == column;
    }
  }

  lemma ColumnsOfAre(key: TableKey, names: set<string>, ref: ColumnRef)
    ensures ref in ColumnsOf(key, names) <==> ref.table == key && ref.column in names
  {}

  lemma DatasetUsesAre(env: Env, name: string, c: Collection, multiple: set<string>, ref: ColumnRef)
    requires c.kind == Dataset && !(c.external && env == Live)
    ensures ref in ViewUses(env, name, c, multiple) <==> DatasetReads(env, name, c, ref)
  {
    FieldsUsesAre(env, MainKey(env, name), c.fields, ref);
    ColumnsOfAre(MainKey(env, name), ROW_FILTER, ref);
  }

  lemma FileUsesAre(env: Env, name: string, c: Collection, multiple: set<string>, ref: ColumnRef)
    requires c.kind == File
    ensures ref in ViewUses(env, name, c, multiple) <==> FileReads(env, name, c, ref)
  {
    var key := TableKey(env, Files(name));
    DeclaredUsesAre(key, TermColumns(c.taxonomies, multiple), ref);
    TermColumnsAre(c, multiple, ref.column);
    DeclaredUsesAre(key, MetadataColumns(c.fields, c.taxonomies), ref);
    MetadataColumnsAre(c.fields, c.taxonomies, ref.column);
    ColumnsOfAre(key, FILE_COLUMNS, ref);
    ColumnsOfAre(TableKey(env, Documents(name)), DOCUMENTS_STRUCTURAL, ref);
  }

  // ----- after an apply

  /** The column is there, the view reads it, and dropping it is an error. */
  ghost predicate Held(db: Db, view: ViewKey, ref: ColumnRef) {
    && view in db.views && ref in db.views[view]
    && ref.table in db.tables && ref.column in db.tables[ref.table].columns
    && Exec(DropColumn(ref.table, ref.column), db).None?
  }

  lemma ReadIsHeld(db: Db, view: ViewKey, ref: ColumnRef)
    requires view in db.views && Readable(db, db.views[view]) && ref in db.views[view]
    ensures Held(db, view, ref)
  {
    assert ViewReads(db, ref);
  }

  /**
   Main result: after a finished apply a dataset's view reads the columns of its stored fields, their search
   columns, the row filter's columns and what its joins name, and nothing else; none of them can be dropped.
   The live view of an external dataset reads no table of the database.
   */
  lemma DatasetViewHolds(db: Db, cfg: Config, plan: seq<SchemaChange>, matching: set<string>, env: Env, name: string)
    requires Finished(db, cfg, plan, matching) && name in cfg.collections && cfg.collections[name].kind == Dataset
    ensures var after, view := Applied(db, cfg, plan, matching).db, ViewKey(env, Fold(name));
      && view in after.views
      && (cfg.collections[name].external && env == Live ==> after.views[view] == {})
      && (!(cfg.collections[name].external && env == Live) ==>
            forall ref :: if DatasetReads(env, name, cfg.collections[name], ref)
                          then Held(after, view, ref) else ref !in after.views[view])
  {
    var c, after, view := cfg.collections[name], Applied(db, cfg, plan, matching).db, ViewKey(env, Fold(name));
    FinishedSettles(db, cfg, plan, matching);
    assert Viewed(cfg, name, after);
    assert view == ViewOf(env, name);
    if !(c.external && env == Live) {
      forall ref
        ensures if DatasetReads(env, name, c, ref) then Held(after, view, ref) else ref !in after.views[view]
      {
        DatasetUsesAre(env, name, c, cfg.multiple, ref);
        if DatasetReads(env, name, c, ref) {
          ReadIsHeld(after, view, ref);
        }
      }
    }
  }

  /** The same for a file collection's view over its documents and files. */
  lemma FileViewHolds(db: Db, cfg: Config, plan: seq<SchemaChange>, matching: set<string>, env: Env, name: string)
    requires Finished(db, cfg, plan, matching) && name in cfg.collections && cfg.collections[name].kind == File
    ensures var after, view := Applied(db, cfg, plan, matching).db, ViewKey(env, Fold(name));
      && view in after.views
      && forall ref :: if FileReads(env, name, cfg.collections[name], ref)
                       then Held(after, view, ref) else ref !in after.views[view]
  {
    var c, after, view := cfg.collections[name], Applied(db, cfg, plan, matching).db, ViewKey(env, Fold(name));
    FinishedSettles(db, cfg, plan, matching);
    assert Viewed(cfg, name, after);
    assert view == ViewOf(env, name);
    forall ref
      ensures if FileReads(env, name, c, ref) then Held(after, view, ref) else ref !in after.views[view]
    {
      FileUsesAre(env, name, c, cfg.multiple, ref);
      if FileReads(env, name, c, ref) {
        ReadIsHeld(after, view, ref);
      }
    }
  }
}
