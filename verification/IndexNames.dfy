/**
 Which indexes the planner takes for declared ones. It goes by the infix `_ix_`, which a structural index has too
 when the name it is built from does.
 */
module IndexNames {
  import opened Config
  import opened Catalog
  import opened Ddl
  import opened DdlFacts
  import opened Plan
  import opened Convergence
  import opened Idempotence

  lemma OwnedAt(index: string, i: nat)
    requires i + 4 <= |index|
    requires index[i] == '_' && index[i + 1] == 'i' && index[i + 2] == 'x' && index[i + 3] == '_'
    ensures Owned(index)
  {
    assert index[i..i + 4] == "_ix_";
    assert InfixAt(index, i);
  }

  lemma InfixChars(index: string, i: nat)
    requires InfixAt(index, i)
    ensures index[i] == '_' && index[i + 1] == 'i' && index[i + 2] == 'x' && index[i + 3] == '_'
  {
    var s := index[i..i + 4];
    assert s[0] == index[i] && s[1] == index[i + 1] && s[2] == index[i + 2] && s[3] == index[i + 3];
  }

  /** An ending that neither holds the infix nor completes one leaves it to what stands before. */
  lemma InfixBefore(prefix: string, rest: string)
    requires !Owned(rest) && !(|rest| >= 3 && rest[0] == 'i' && rest[1] == 'x' && rest[2] == '_')
    ensures Owned(prefix + "_" + rest) <==> Owned(prefix + "_")
  {
    var front, all := prefix + "_", prefix + "_" + rest;
    if Owned(front) {
      var i :| 0 <= i < |front| && InfixAt(front, i);
      InfixChars(front, i);
      OwnedAt(all, i);
    }
    if Owned(all) {
      var i :| 0 <= i < |all| && InfixAt(all, i);
      InfixChars(all, i);
      if i > |prefix| {
        OwnedAt(rest, i - |front|);
      } else {
        OwnedAt(front, i);
      }
    }
  }

  /** The endings of the indexes the DDL names itself. */
  const ENDINGS: set<string> := {"current_idx", "history_idx", "tsv_idx", "idx"}

  lemma EndingsAreFree(rest: string)
    requires rest in ENDINGS
    ensures !Owned(rest) && !(|rest| >= 3 && rest[0] == 'i' && rest[1] == 'x' && rest[2] == '_')
  {
    if i :| 0 <= i < |rest| && InfixAt(rest, i) {
      InfixChars(rest, i);
    }
  }

  /** What an index name of the DDL's own is put together from. */
  predicate Structural(name: string, c: Collection, multiple: set<string>, prefix: string, rest: string) {
    || (prefix == name && rest in {"current_idx", "history_idx"})
    || (rest == "tsv_idx" && exists i ::
          0 <= i < |c.fields| && c.fields[i].field.searchable && prefix == name + "_" + c.fields[i].name)
    || (rest == "idx" && exists t :: t in c.taxonomies && t in multiple && prefix == name + "_" + t)
  }

  /** A built dataset has each of them. */
  lemma StructuralPresent(cfg: Config, db: Db, env: Env, name: string, prefix: string, rest: string)
    requires name in cfg.collections && Built(cfg, name, db) && cfg.collections[name].kind == Dataset
    requires !(cfg.collections[name].external && env == Live)
    requires Structural(name, cfg.collections[name], cfg.multiple, prefix, rest)
    ensures MainKey(env, name) in db.tables && HasIndex(db.tables[MainKey(env, name)], name, prefix + "_" + rest)
  {
    var c, key := cfg.collections[name], MainKey(env, name);
    var batch := DatasetBatch(env, name, c, cfg.multiple);
    if rest == "current_idx" {
      assert name + "_" + "current_idx" == CurrentIndexName(name);
      assert batch[2] == CreateIdentity(key, IdentityField(c));
      BuiltSatisfies(cfg, name, env, batch[2], db);
    } else if rest == "history_idx" {
      assert name + "_" + "history_idx" == HistoryIndexName(name);
      assert batch[3] == HistoryIndex(key, name, IdentityField(c));
      BuiltSatisfies(cfg, name, env, batch[3], db);
    } else if rest == "tsv_idx" {
      SearchIndexThere(cfg, db, env, name, prefix);
    } else {
      TermIndexThere(cfg, db, env, name, prefix);
    }
  }

  lemma SearchIndexThere(cfg: Config, db: Db, env: Env, name: string, prefix: string)
    requires name in cfg.collections && Built(cfg, name, db) && cfg.collections[name].kind == Dataset
    requires !(cfg.collections[name].external && env == Live)
    requires exists i :: 0 <= i < |cfg.collections[name].fields| && cfg.collections[name].fields[i].field.searchable
                         && prefix == name + "_" + cfg.collections[name].fields[i].name
    ensures MainKey(env, name) in db.tables && prefix + "_" + "tsv_idx" in db.tables[MainKey(env, name)].indexes
  {
    var c, key := cfg.collections[name], MainKey(env, name);
    var i :| 0 <= i < |c.fields| && c.fields[i].field.searchable && prefix == name + "_" + c.fields[i].name;
    var s := SearchIndex(key, name, c.fields[i].name);
    assert prefix + "_" + "tsv_idx" == SearchIndexName(name, c.fields[i].name);
    SearchAltersFrom(key, name, c.fields);
    assert s in SearchAlters(key, name, c.fields);
    BuiltSatisfies(cfg, name, env, s, db);
  }

  lemma TermIndexThere(cfg: Config, db: Db, env: Env, name: string, prefix: string)
    requires name in cfg.collections && Built(cfg, name, db) && cfg.collections[name].kind == Dataset
    requires !(cfg.collections[name].external && env == Live)
    requires exists t :: t in cfg.collections[name].taxonomies && t in cfg.multiple && prefix == name + "_" + t
    ensures MainKey(env, name) in db.tables && prefix + "_" + "idx" in db.tables[MainKey(env, name)].indexes
  {
    var c, key := cfg.collections[name], MainKey(env, name);
    var t :| t in c.taxonomies && t in cfg.multiple && prefix == name + "_" + t;
    var s := TermIndex(key, name, t);
    assert prefix + "_" + "idx" == TermIndexName(name, t);
    VocabAltersFrom(key, name, c.taxonomies, cfg.multiple);
    assert s in VocabAlters(key, name, c.taxonomies, cfg.multiple);
    BuiltSatisfies(cfg, name, env, s, db);
  }

  /**
   Main result: after a finished apply the planner wants a structural index of a dataset it finds dropped if and only
   if the name before the index's own ending, underscore included, holds the infix and no declared index is called so.
   */
  lemma StructuralDropPlanned(
      cfg: Config, matching: set<string>, db: Db, env: Env, name: string, prefix: string, rest: string)
    requires Settled(cfg, matching, db) && name in cfg.collections && cfg.collections[name].kind == Dataset
    requires !(cfg.collections[name].external && env == Live) && Seen(Main(name))
    requires Structural(name, cfg.collections[name], cfg.multiple, prefix, rest)
    ensures Planned(db, cfg, SchemaChange(name, env, Main(name), DropIndexChange(prefix + "_" + rest))) <==>
            Owned(prefix + "_") && !WantsIndex(name, cfg.collections[name], prefix + "_" + rest)
  {
    var c, index := cfg.collections[name], prefix + "_" + rest;
    var ch := SchemaChange(name, env, Main(name), DropIndexChange(index));
    StructuralPresent(cfg, db, env, name, prefix, rest);
    EndingsAreFree(rest);
    InfixBefore(prefix, rest);
    var d := DatasetTable(name, c, cfg.multiple);
    assert Compared(db, cfg, name, env, d);
    DropIndexIs(db, cfg, ch, d);
  }

  lemma DropIndexIs(db: Db, cfg: Config, ch: SchemaChange, d: DeclaredTable)
    requires ch.kind.DropIndexChange? && Compared(db, cfg, ch.collection, ch.env, d) && d.table == ch.table
    requires ch.table == Main(ch.collection)
    ensures Planned(db, cfg, ch) <==>
      && OwnsIndex(db.tables[TableKey(ch.env, ch.table)], ch.collection, ch.kind.index)
      && !WantsIndex(ch.collection, cfg.collections[ch.collection], ch.kind.index)
  {
    var t, c := db.tables[TableKey(ch.env, ch.table)], cfg.collections[ch.collection];
    if OwnsIndex(t, ch.collection, ch.kind.index) && !WantsIndex(ch.collection, c, ch.kind.index) {
      assert TableDiff(t, ch.collection, c, d, ch.kind);
      assert Drifted(db, cfg, ch);
    }
  }
}
