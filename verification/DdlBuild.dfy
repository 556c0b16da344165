/**
 The loops of `ddl.ts`: columns, statements and view references pushed one field at a time, each proved
 to build exactly the list `Ddl` specifies.
 */
module DdlBuild {
  import opened Wrappers
  import opened Config
  import opened Catalog
  import opened Ddl

  // ----- declared tables

  method DatasetDeclaredTables(name: string, c: Collection, multiple: set<string>) returns (tables: seq<DeclaredTable>)
    ensures tables == [DatasetTable(name, c, multiple)]
  {
    var columns: seq<DeclaredColumn> := [];
    var structural := {"workspace_id"} + REV_COLUMNS;
    for i := 0 to |c.fields|
      invariant columns == StoredColumns(c.fields[..i], c.taxonomies, multiple)
      invariant structural == {"workspace_id"} + REV_COLUMNS + TsvNames(c.fields[..i])
    {
      var e := c.fields[i];
      assert c.fields[..i + 1] == c.fields[..i] + [e];
      TsvStep(c.fields, i);
      if !e.field.storage.Stored? {
        continue;
      }
      var pgType := if e.name in c.taxonomies then VocabType(e.name, multiple) else PgTypeOf(e.field.ftype);
      columns := columns + [DeclaredColumn(e.name, pgType, e.field.pk)];
      structural := structural + {Tsv(e.name)};
    }
    assert c.fields[..|c.fields|] == c.fields;
    tables := [DeclaredTable(Main(name), columns, structural)];
  }

  lemma TsvStep(fields: seq<FieldEntry>, i: nat)
    requires i < |fields|
    ensures TsvNames(fields[..i + 1])
         == TsvNames(fields[..i]) + if fields[i].field.storage.Stored? then {Tsv(fields[i].name)} else {}
  {
    var all, before := fields[..i + 1], fields[..i];
    forall n | n in TsvNames(before) ensures n in TsvNames(all) {
      var k :| 0 <= k < |before| && before[k].field.storage.Stored? && n == Tsv(before[k].name);
      assert all[k] == before[k];
    }
    forall n | n in TsvNames(all) && !(all[i].field.storage.Stored? && n == Tsv(all[i].name))
      ensures n in TsvNames(before)
    {
      var k :| 0 <= k < |all| && all[k].field.storage.Stored? && n == Tsv(all[k].name);
      assert before[k] == all[k];
    }
    assert all[i] == fields[i];
  }

  method FileDeclaredTables(name: string, c: Collection, multiple: set<string>) returns (tables: seq<DeclaredTable>)
    ensures tables == [FilesTable(name, c, multiple), DocumentsTable(name)]
  {
    var columns: seq<DeclaredColumn> := [];
    for i := 0 to |c.taxonomies|
      invariant columns == TermColumns(c.taxonomies, multiple)[..i]
    {
      columns := columns + [DeclaredColumn(c.taxonomies[i], VocabType(c.taxonomies[i], multiple), false)];
    }
    assert columns == TermColumns(c.taxonomies, multiple);
    var terms := columns;
    for i := 0 to |c.fields|
      invariant columns == terms + MetadataColumns(c.fields[..i], c.taxonomies)
    {
      assert c.fields[..i + 1][..i] == c.fields[..i];
      if IsMetadata(c.fields[i], c.taxonomies) {
        columns := columns + [MetadataColumn(c.fields[i])];
      }
    }
    assert c.fields[..|c.fields|] == c.fields;
    tables := [DeclaredTable(Files(name), columns, FILES_STRUCTURAL),
        DeclaredTable(Documents(name), [], DOCUMENTS_STRUCTURAL)];
  }

  // ----- table statements

  method FieldUpgrades(key: TableKey, c: Collection) returns (ddl: seq<Statement>)
    ensures ddl == FieldAlters(key, c.fields, c.taxonomies)
  {
    ddl := [];
    for i := 0 to |c.fields|
      invariant ddl == FieldAlters(key, c.fields[..i], c.taxonomies)
    {
      var e := c.fields[i];
      assert c.fields[..i + 1][..i] == c.fields[..i];
      if !e.field.storage.Stored? {
        continue;
      }
      if !e.field.pk && e.name !in c.taxonomies {
        ddl := ddl + [AddColumn(key, Bare(e.name, PgTypeOf(e.field.ftype)))];
      }
    }
    assert c.fields[..|c.fields|] == c.fields;
  }

  method VocabUpgrades(key: TableKey, prefix: string, taxonomies: seq<string>, multiple: set<string>)
    returns (ddl: seq<Statement>)
    ensures ddl == VocabAlters(key, prefix, taxonomies, multiple)
  {
    ddl := [];
    for i := 0 to |taxonomies|
      invariant ddl == VocabAlters(key, prefix, taxonomies[..i], multiple)
    {
      var slug := taxonomies[i];
      assert taxonomies[..i + 1][..i] == taxonomies[..i];
      ddl := ddl + [AddColumn(key, Bare(slug, if slug in multiple then TextArray else Text))];
      if slug in multiple {
        ddl := ddl + [TermIndex(key, prefix, slug)];
      }
    }
    assert taxonomies[..|taxonomies|] == taxonomies;
  }

  method SearchUpgrades(key: TableKey, name: string, c: Collection) returns (ddl: seq<Statement>)
    ensures ddl == SearchAlters(key, name, c.fields)
  {
    ddl := [];
    for i := 0 to |c.fields|
      invariant ddl == SearchAlters(key, name, c.fields[..i])
    {
      var e := c.fields[i];
      assert c.fields[..i + 1][..i] == c.fields[..i];
      if !e.field.searchable {
        continue;
      }
      ddl := ddl + [AddColumn(key, TsvColumn(e.name))];
      ddl := ddl + [SearchIndex(key, name, e.name)];
    }
    assert c.fields[..|c.fields|] == c.fields;
  }

  method DeclaredIndexes(key: TableKey, name: string, c: Collection, pk: string) returns (ddl: seq<Statement>)
    ensures ddl == IndexStatements(key, name, c.indexes, pk)
  {
    ddl := [];
    for i := 0 to |c.indexes|
      invariant ddl == IndexStatements(key, name, c.indexes, pk)[..i]
    {
      var fields := c.indexes[i];
      var trailing := if pk in fields then [] else [pk];
      var over := ["workspace_id"] + fields + trailing + ["_current", "_rev_op"];
      ddl := ddl + [CreateIndex(key, IndexName(name, fields), over, false)];
    }
  }

  method DatasetHead(key: TableKey, name: string, columns: seq<DeclaredColumn>, pk: string)
    returns (ddl: seq<Statement>)
    ensures ddl == [CreateTable(key, REV_DDL + DataColumns(columns), Some("_rev")), AddColumn(key, WORKSPACE),
                    CreateIdentity(key, pk), HistoryIndex(key, name, pk)]
  {
    ddl := [CreateTable(key, REV_DDL + DataColumns(columns), Some("_rev"))];
    ddl := ddl + [AddColumn(key, WORKSPACE)];
    ddl := ddl + [CreateIdentity(key, pk)];
    ddl := ddl + [HistoryIndex(key, name, pk)];
  }

  method DatasetTableDdl(env: Env, name: string, c: Collection, multiple: set<string>) returns (ddl: seq<Statement>)
    requires c.kind == Dataset
    ensures ddl == DatasetBatch(env, name, c, multiple)
  {
    var key := MainKey(env, name);
    var declared := DatasetDeclaredTables(name, c, multiple);
    var fieldAlters := FieldUpgrades(key, c);
    var vocabAlters := VocabUpgrades(key, name, c.taxonomies, multiple);
    var searchAlters := SearchUpgrades(key, name, c);
    var declaredPk := PkField(c);
    var pk := if declaredPk.Some? then declaredPk.value else "id";
    ddl := DatasetHead(key, name, declared[0].columns, pk);
    var indexes := DeclaredIndexes(key, name, c, pk);
    ddl := ddl + indexes;
    ddl := ddl + fieldAlters;
    ddl := ddl + vocabAlters;
    ddl := ddl + searchAlters;
  }

  method MetadataUpgrades(key: TableKey, c: Collection) returns (ddl: seq<Statement>)
    ensures ddl == MetadataAlters(key, c.fields, c.taxonomies)
  {
    ddl := [];
    for i := 0 to |c.fields|
      invariant ddl == MetadataAlters(key, c.fields[..i], c.taxonomies)
    {
      var e := c.fields[i];
      assert c.fields[..i + 1][..i] == c.fields[..i];
      if IsMetadata(e, c.taxonomies) {
        ddl := ddl + [AddColumn(key, Bare(e.name, PgTypeOf(e.field.ftype)))];
      }
    }
    assert c.fields[..|c.fields|] == c.fields;
  }

  method FileTableDdl(env: Env, name: string, c: Collection, multiple: set<string>) returns (ddl: seq<Statement>)
    ensures ddl == FileBatch(env, name, c, multiple)
  {
    var key := TableKey(env, Files(name));
    var termAlters := VocabUpgrades(key, name + "__files", c.taxonomies, multiple);
    var metadataAlters := MetadataUpgrades(key, c);
    ddl := [FilesCreate(key, c, multiple), AddColumn(key, WORKSPACE)];
    ddl := ddl + termAlters + metadataAlters;
    ddl := ddl + FilesUpgrades(key, name);
    ddl := ddl + DocumentsBatch(TableKey(env, Documents(name)), name);
  }

  /** `tableDDL`, dispatching on the kind once the external case is out of the way. */
  method TableDdl(env: Env, name: string, c: Collection, multiple: set<string>) returns (ddl: seq<Statement>)
    ensures ddl == TableBatch(env, name, c, multiple)
  {
    if c.external && env == Live {
      return [];
    }
    match c.kind
    case Dataset => ddl := DatasetTableDdl(env, name, c, multiple);
    case File => ddl := FileTableDdl(env, name, c, multiple);
  }

  // ----- views

  /** The select and join lists of a dataset's own view, as the columns they read. */
  method DatasetViewDdl(env: Env, name: string, c: Collection, multiple: set<string>) returns (ddl: seq<Statement>)
    requires c.kind == Dataset && !(c.external && env == Live)
    ensures ddl == ViewBatch(env, name, c, multiple)
  {
    var key := MainKey(env, name);
    var uses: set<ColumnRef> := {};
    for i := 0 to |c.fields|
      invariant uses == FieldsUses(env, key, c.fields[..i])
    {
      var e := c.fields[i];
      assert c.fields[..i + 1][..i] == c.fields[..i];
      match e.field.storage
      case Joined(table, column, on) =>
        var joined := TableKey(env, table);
        uses := uses + {ColumnRef(joined, column), ColumnRef(joined, "id"), ColumnRef(key, on)};
      case Related =>
        continue;
      case Stored =>
        uses := uses + {ColumnRef(key, e.name)};
        if e.field.searchable {
          uses := uses + {ColumnRef(key, Tsv(e.name))};
        }
    }
    assert c.fields[..|c.fields|] == c.fields;
    uses := uses + ColumnsOf(key, {"workspace_id", "_current", "_rev_op"});
    ddl := [DropView(ViewOf(env, name)), CreateView(ViewOf(env, name), uses)];
  }
}
