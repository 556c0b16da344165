/**
 What a parsed config is known to meet. The rules of `config/rules` run before bound vocabularies are
 added as fields, so a vocabulary may still take the name of a search column.
 */
module Rules {
  import opened Config
  import opened Ddl

  /** `TAXONOMY_RESERVED_SLUGS`. */
  const RESERVED_SLUGS: set<string> := FILE_FIELDS
      + {"id", "checksum", "file_id", "document_seq", "tsv", "_rank", "_acl"}

  /** The first letter a vocabulary's slug may have. */
  predicate SlugShaped(t: string) {
    t != "" && 'a' <= t[0] <= 'z'
  }

  /** The rules on one field: `taxonomy/field-constraints`, `relation/exclusive`, the `searchable` rules. */
  predicate FieldChecked(c: Collection, e: FieldEntry) {
    && (e.name in c.taxonomies ==> !e.field.storage.Joined? && !e.field.pk)
    && (e.field.storage.Related? ==> !e.field.pk && !e.field.searchable)
    && (e.field.searchable ==> e.field.ftype == FText && (HasField(c, Tsv(e.name)) ==> Tsv(e.name) in c.taxonomies))
  }

  /** Every bound vocabulary is a field, since the schema adds the missing ones; an index is over stored fields. */
  ghost predicate Checked(c: Collection) {
    && (forall t :: t in c.taxonomies ==> SlugShaped(t) && t !in RESERVED_SLUGS)
    && (c.kind == Dataset ==>
          && (forall t :: t in c.taxonomies ==> HasField(c, t))
          && (forall i :: 0 <= i < |c.fields| ==> FieldChecked(c, c.fields[i]))
          && (forall i, f :: 0 <= i < |c.indexes| && f in c.indexes[i] ==> StoresField(c, f)))
  }

  ghost predicate SchemaRules(cfg: Config) {
    Keyed(cfg) && forall n :: n in cfg.collections ==> Checked(cfg.collections[n])
  }
}
