/**
 The part of warehousd.yml that decides what the database looks like: collections, their stored and
 computed fields, bound vocabularies and declared indexes. Insertion order of objects is kept as
 sequences, because the DDL is emitted in that order.
 */
module Config {
  import opened Wrappers

  /** The column types the planner compares, as `normalizeUdt` spells them. */
  datatype PgType =
    | Uuid | Text | Numeric | Integer | Timestamptz | Date | Boolean | Jsonb | TextArray
    | Bigint | Bytea | Tsvector | Vector

  datatype FieldType = FUuid | FText | FNumeric | FInt | FTimestamptz | FDate | FBoolean | FJson

  /** PG_TYPE in ddl.ts. */
  function PgTypeOf(t: FieldType): PgType {
    match t
    case FUuid => Uuid
    case FText => Text
    case FNumeric => Numeric
    case FInt => Integer
    case FTimestamptz => Timestamptz
    case FDate => Date
    case FBoolean => Boolean
    case FJson => Jsonb
  }

  /**
   A dataset has one table, which statements name after the collection without quoting it; a file collection has
   a `__files` and a `__documents` table, quoted. Keeping the suffix as a constructor states the naming rule that no
   collection name contains a double underscore; see `TableNames` for the names themselves.
   */
  datatype TableName = Main(collection: string) | Files(collection: string) | Documents(collection: string)

  // ----- names that are not quoted

  function FoldChar(c: char): char {
    if 'A' <= c <= 'Z' then (c as int + 32) as char else c
  }

  /** What Postgres makes of a name that is not quoted. */
  function Fold(name: string): (folded: string)
    ensures |folded| == |name|
  {
    seq(|name|, i requires 0 <= i < |name| => FoldChar(name[i]))
  }

  lemma FoldTwice(name: string)
    ensures Fold(Fold(name)) == Fold(name)
  {}

  /** Where a field's value comes from: a column, a sibling table at view time, or query time. */
  datatype Storage =
    | Stored
    | Joined(table: TableName, column: string, on: string)
    | Related

  datatype Field = Field(ftype: FieldType, pk: bool, searchable: bool, storage: Storage)

  datatype FieldEntry = FieldEntry(name: string, field: Field)

  datatype Kind = Dataset | File

  datatype Collection = Collection(
    kind: Kind,
    fields: seq<FieldEntry>,
    taxonomies: seq<string>,
    indexes: seq<seq<string>>,
    external: bool)

  /** `names` is `Object.keys(cfg.collections)`; `multiple` holds the multi-valued vocabularies. */
  datatype Config = Config(
    names: seq<string>,
    collections: map<string, Collection>,
    multiple: set<string>)

  /** No two collections have names that differ only in case. */
  ghost predicate Apart(cfg: Config) {
    forall a, b | a in cfg.collections && b in cfg.collections :: Fold(a) == Fold(b) ==> a == b
  }

  /** The first field marked `pk`, for a dataset; a file collection has none. */
  function PkField(c: Collection): Option<string> {
    if c.kind == File then None else FirstPk(c.fields)
  }

  function FirstPk(fields: seq<FieldEntry>): Option<string> {
    if fields == [] then None
    else if fields[0].field.pk then Some(fields[0].name)
    else FirstPk(fields[1..])
  }

  predicate DistinctFields(c: Collection) {
    forall i, j :: 0 <= i < j < |c.fields| ==> c.fields[i].name != c.fields[j].name
  }

  /** `cfg.collections` and `fields` are objects: their keys are distinct, and `names` lists them. */
  ghost predicate Keyed(cfg: Config) {
    && Distinct(cfg.names)
    && (forall n :: n in cfg.names <==> n in cfg.collections)
    && (forall n :: n in cfg.collections ==> DistinctFields(cfg.collections[n]))
  }

  predicate HasField(c: Collection, name: string) {
    exists i :: 0 <= i < |c.fields| && c.fields[i].name == name
  }

  /** A field that has a column on the collection's own table. */
  predicate StoresField(c: Collection, name: string) {
    exists i :: 0 <= i < |c.fields| && c.fields[i].name == name && c.fields[i].field.storage.Stored?
  }
}
