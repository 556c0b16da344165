/**
 The two planners. `Planned` says, one change at a time, what `planFromSchema` must report; the
 methods build the list the way `plan.ts` does and are proved to report exactly those changes.
 */
module Plan {
  import opened Wrappers
  import opened Config
  import opened Catalog
  import opened Ddl
  import DdlFacts

  datatype ChangeKind =
    | AddColumnChange(field: string, to: PgType)
    | TypeChange(field: string, have: PgType, want: PgType)
    | DropColumnChange(field: string, had: PgType)
    | PkChange(havePk: string, wantPk: string)
    | DropCollection
    | AddIndexChange(index: string)
    | DropIndexChange(index: string)

  datatype SchemaChange = SchemaChange(collection: string, env: Env, table: TableName, kind: ChangeKind)

  datatype CastPlan = CastPlan(reviewRequired: bool, using: Using)

  const LOSSLESS: set<(PgType, PgType)> := {
    (Integer, Numeric), (Integer, Text), (Numeric, Text), (Uuid, Text), (Boolean, Text), (Date, Text),
    (Timestamptz, Text), (Jsonb, Text), (Date, Timestamptz), (Text, TextArray)}

  function ClassifyCast(have: PgType, want: PgType): CastPlan {
    if have == Text && want == TextArray then CastPlan(false, WrapArray)
    else if have == TextArray && want == Text then CastPlan(true, JoinArray)
    else CastPlan((have, want) !in LOSSLESS, InPlace)
  }

  predicate Destructive(ch: SchemaChange) {
    match ch.kind
    case AddColumnChange(_, _) => false
    case AddIndexChange(_) => false
    case DropIndexChange(_) => false
    case _ => true
  }

  predicate ReviewRequired(ch: SchemaChange) {
    match ch.kind
    case AddColumnChange(_, _) => false
    case AddIndexChange(_) => false
    case TypeChange(_, have, want) => ClassifyCast(have, want).reviewRequired
    case _ => true
  }

  // ----- reflection

  /** The identity index wins over the primary key, which on every dataset is `_rev`. */
  function ReflectPk(t: Table): Option<string> {
    if t.identity.Some? then t.identity else t.primaryKey
  }

  /** `like '%\_ix\_%'`: the infix that marks an index as declared in the config. */
  predicate Owned(index: string) {
    exists i :: 0 <= i < |index| && InfixAt(index, i)
  }

  predicate InfixAt(index: string, i: nat) {
    i + 4 <= |index| && index[i..i + 4] == "_ix_"
  }

  predicate WantsIndex(name: string, c: Collection, index: string) {
    exists i :: 0 <= i < |c.indexes| && IndexName(name, c.indexes[i]) == index
  }

  predicate HasIndex(t: Table, name: string, index: string) {
    index in t.indexes || (t.identity.Some? && index == CurrentIndexName(name))
  }

  /** An index the planner takes for a declared one. */
  predicate OwnsIndex(t: Table, name: string, index: string) {
    HasIndex(t, name, index) && Owned(index)
  }

  // ----- what planFromSchema reports

  /** A declared table of a configured collection that exists and is planned in this environment. */
  ghost predicate Compared(db: Db, cfg: Config, name: string, env: Env, d: DeclaredTable) {
    && name in cfg.collections
    && !(env == Live && cfg.collections[name].external)
    && d in DeclaredTables(name, cfg.collections[name], cfg.multiple)
    && TableKey(env, d.table) in db.tables
  }

  ghost predicate ColumnDiff(t: Table, d: DeclaredTable, kind: ChangeKind) {
    match kind
    case AddColumnChange(f, to) => Declares(d, f, to) && f !in t.columns
    case TypeChange(f, have, want) =>
      Declares(d, f, want) && f in t.columns && t.columns[f] == have && have != want
    case DropColumnChange(f, had) =>
      f in t.columns && t.columns[f] == had && !DeclaresName(d, f) && f !in d.structural
    case _ => false
  }

  ghost predicate IdentityDiff(t: Table, name: string, c: Collection, d: DeclaredTable, kind: ChangeKind) {
    match kind
    case PkChange(have, want) =>
      && d.table == Main(name) && PkField(c) == Some(want) && ReflectPk(t) == Some(have) && have != want
    case AddIndexChange(i) => d.table == Main(name) && WantsIndex(name, c, i) && !OwnsIndex(t, name, i)
    case DropIndexChange(i) => d.table == Main(name) && OwnsIndex(t, name, i) && !WantsIndex(name, c, i)
    case _ => false
  }

  /** One change between one declared table and the table that exists under its name. */
  ghost predicate TableDiff(t: Table, name: string, c: Collection, d: DeclaredTable, kind: ChangeKind) {
    ColumnDiff(t, d, kind) || IdentityDiff(t, name, c, d, kind)
  }

  /** Registered, gone from the config, and still holding this table. */
  ghost predicate Dropped(db: Db, cfg: Config, ch: SchemaChange) {
    && ch.kind == DropCollection
    && ch.collection in db.registry && ch.collection !in cfg.collections
    && ch.table in {Main(ch.collection), Files(ch.collection)}
    && TableKey(ch.env, ch.table) in db.tables
  }

  /** A difference between a configured collection and one of its existing tables. */
  ghost predicate Drifted(db: Db, cfg: Config, ch: SchemaChange) {
    exists d: DeclaredTable ::
      && Compared(db, cfg, ch.collection, ch.env, d)
      && d.table == ch.table
      && TableDiff(db.tables[TableKey(ch.env, d.table)], ch.collection, cfg.collections[ch.collection], d, ch.kind)
  }

  ghost predicate Planned(db: Db, cfg: Config, ch: SchemaChange) {
    Dropped(db, cfg, ch) || Drifted(db, cfg, ch)
  }

  ghost predicate Lists(changes: seq<SchemaChange>, db: Db, cfg: Config) {
    forall ch :: ch in changes <==> Planned(db, cfg, ch)
  }

  // ----- what planFromConfigs reports

  ghost predicate ConfigColumnDiff(before: DeclaredTable, d: DeclaredTable, kind: ChangeKind) {
    match kind
    case AddColumnChange(f, to) => Declares(d, f, to) && !DeclaresName(before, f)
    case TypeChange(f, have, want) => Declares(d, f, want) && Declares(before, f, have) && have != want
    case DropColumnChange(f, had) => Declares(before, f, had) && !DeclaresName(d, f)
    case _ => false
  }

  /** The column differences between two declarations of one table. */
  ghost predicate ConfigDrift(prev: Config, next: Config, ch: SchemaChange)
    requires ch.collection in prev.collections && ch.collection in next.collections
  {
    exists before: DeclaredTable, d: DeclaredTable ::
      && before in DeclaredTables(ch.collection, prev.collections[ch.collection], prev.multiple)
      && d in DeclaredTables(ch.collection, next.collections[ch.collection], next.multiple)
      && before.table == d.table == ch.table && ConfigColumnDiff(before, d, ch.kind)
  }

  predicate ConfigPkMoved(p: Collection, n: Collection, ch: SchemaChange) {
    && ch.kind.PkChange? && ch.table == Main(ch.collection)
    && PkField(p) == Some(ch.kind.havePk) && PkField(n) == Some(ch.kind.wantPk)
    && ch.kind.havePk != ch.kind.wantPk
  }

  ghost predicate PlannedBetween(prev: Config, next: Config, ch: SchemaChange) {
    && ch.env == Live
    && ch.collection in prev.collections
    && if ch.collection !in next.collections
       then ch.kind == DropCollection && ch.table == Main(ch.collection)
       else ConfigDrift(prev, next, ch)
            || ConfigPkMoved(prev.collections[ch.collection], next.collections[ch.collection], ch)
  }

  // ----- planFromSchema

  datatype ActualColumn = ActualColumn(name: string, pgType: PgType)

  method ReflectColumns(t: Table) returns (out: seq<ActualColumn>)
    ensures forall a :: a in out <==> a.name in t.columns && t.columns[a.name] == a.pgType
  {
    out := [];
    var rest := t.columns.Keys;
    while rest != {}
      invariant rest <= t.columns.Keys
      invariant forall a :: a in out <==> a.name in t.columns.Keys - rest && t.columns[a.name] == a.pgType
      decreases |rest|
    {
      var name :| name in rest;
      rest := rest - {name};
      out := out + [ActualColumn(name, t.columns[name])];
    }
  }

  /** What one declared column contributes. */
  ghost predicate ColumnKind(t: Table, col: DeclaredColumn, kind: ChangeKind) {
    if col.name !in t.columns then kind == AddColumnChange(col.name, col.pgType)
    else t.columns[col.name] != col.pgType && kind == TypeChange(col.name, t.columns[col.name], col.pgType)
  }

  method ColumnChanges(t: Table, d: DeclaredTable) returns (kinds: seq<ChangeKind>)
    ensures forall k :: k in kinds <==> ColumnDiff(t, d, k)
  {
    kinds := [];
    for i := 0 to |d.columns|
      invariant forall k :: k in kinds <==> exists j :: 0 <= j < i && ColumnKind(t, d.columns[j], k)
    {
      var col := d.columns[i];
      if col.name !in t.columns {
        kinds := kinds + [AddColumnChange(col.name, col.pgType)];
      } else if t.columns[col.name] != col.pgType {
        kinds := kinds + [TypeChange(col.name, t.columns[col.name], col.pgType)];
      }
    }
    var existing := ReflectColumns(t);
    ghost var declared := kinds;
    for i := 0 to |existing|
      invariant forall k :: k in kinds <==>
          || k in declared
          || exists j :: && 0 <= j < i && k == DropColumnChange(existing[j].name, existing[j].pgType)
                         && !DeclaresName(d, existing[j].name) && existing[j].name !in d.structural
    {
      var c := existing[i];
      if !DeclaresName(d, c.name) && c.name !in d.structural {
        kinds := kinds + [DropColumnChange(c.name, c.pgType)];
      }
    }
    forall k ensures k in kinds <==> ColumnDiff(t, d, k) {
      if k.DropColumnChange? && k in kinds {
        assert k !in declared;
      }
      if k.DropColumnChange? && ColumnDiff(t, d, k) {
        var a := ActualColumn(k.field, k.had);
        assert a in existing;
      }
    }
  }

  method IndexNames(name: string, c: Collection) returns (want: set<string>)
    ensures forall i :: i in want <==> WantsIndex(name, c, i)
  {
    want := {};
    for i := 0 to |c.indexes|
      invariant forall n :: n in want <==> exists j :: 0 <= j < i && IndexName(name, c.indexes[j]) == n
    {
      want := want + {IndexName(name, c.indexes[i])};
    }
  }

  method ListOf(names: set<string>) returns (out: seq<string>)
    ensures forall n :: n in out <==> n in names
  {
    out := [];
    var rest := names;
    while rest != {}
      invariant rest <= names
      invariant forall n :: n in out <==> n in names - rest
      decreases |rest|
    {
      var n :| n in rest;
      rest := rest - {n};
      out := out + [n];
    }
  }

  method IndexChanges(t: Table, name: string, c: Collection) returns (kinds: seq<ChangeKind>)
    ensures forall k :: k in kinds <==>
        || (k.AddIndexChange? && WantsIndex(name, c, k.index) && !OwnsIndex(t, name, k.index))
        || (k.DropIndexChange? && OwnsIndex(t, name, k.index) && !WantsIndex(name, c, k.index))
  {
    kinds := [];
    var want := IndexNames(name, c);
    var names := t.indexes.Keys + if t.identity.Some? then {CurrentIndexName(name)} else {};
    var have := set i | i in names && Owned(i);
    var missing := ListOf(want - have);
    var extra := ListOf(have - want);
    for i := 0 to |missing|
      invariant forall k :: k in kinds <==> k.AddIndexChange? && k.index in missing[..i]
    {
      kinds := kinds + [AddIndexChange(missing[i])];
    }
    for i := 0 to |extra|
      invariant forall k :: k in kinds <==>
          (k.AddIndexChange? && k.index in missing) || (k.DropIndexChange? && k.index in extra[..i])
    {
      kinds := kinds + [DropIndexChange(extra[i])];
    }
    assert missing[..|missing|] == missing && extra[..|extra|] == extra;
    forall k: ChangeKind | k.DropIndexChange?
      ensures k in kinds <==> OwnsIndex(t, name, k.index) && !WantsIndex(name, c, k.index)
    {
      assert k in kinds <==> k.index in have - want;
    }
    forall k: ChangeKind | k.AddIndexChange?
      ensures k in kinds <==> WantsIndex(name, c, k.index) && !OwnsIndex(t, name, k.index)
    {
      assert k in kinds <==> k.index in want - have;
    }
  }

  method IdentityChanges(t: Table, name: string, c: Collection, d: DeclaredTable) returns (kinds: seq<ChangeKind>)
    ensures forall k :: k in kinds <==> IdentityDiff(t, name, c, d, k)
  {
    kinds := [];
    if d.table != Main(name) {
      return;
    }
    var wantPk, havePk := PkField(c), ReflectPk(t);
    if wantPk.Some? && havePk.Some? && havePk.value != wantPk.value {
      kinds := [PkChange(havePk.value, wantPk.value)];
    }
    var indexes := IndexChanges(t, name, c);
    kinds := kinds + indexes;
  }

  method ChangesFor(name: string, env: Env, table: TableName, kinds: seq<ChangeKind>) returns (here: seq<SchemaChange>)
    ensures forall ch :: ch in here <==>
        ch.collection == name && ch.env == env && ch.table == table && ch.kind in kinds
  {
    here := [];
    for i := 0 to |kinds|
      invariant forall ch :: ch in here <==>
          ch.collection == name && ch.env == env && ch.table == table && ch.kind in kinds[..i]
    {
      here := here + [SchemaChange(name, env, table, kinds[i])];
    }
    assert kinds[..|kinds|] == kinds;
  }

  method EnvChanges(db: Db, cfg: Config, name: string, env: Env) returns (changes: seq<SchemaChange>)
    requires name in cfg.collections
    ensures forall ch :: ch in changes <==> ch.collection == name && ch.env == env && Drifted(db, cfg, ch)
  {
    changes := [];
    var c := cfg.collections[name];
    if env == Live && c.external {
      return;
    }
    var declared := DeclaredTables(name, c, cfg.multiple);
    for i := 0 to |declared|
      invariant forall ch :: ch in changes <==>
          && ch.collection == name && ch.env == env
          && exists j :: && 0 <= j < i && declared[j].table == ch.table && TableKey(env, ch.table) in db.tables
                         && TableDiff(db.tables[TableKey(env, ch.table)], name, c, declared[j], ch.kind)
    {
      var d := declared[i];
      if TableKey(env, d.table) in db.tables {
        var t := db.tables[TableKey(env, d.table)];
        var columns := ColumnChanges(t, d);
        var identity := IdentityChanges(t, name, c, d);
        var kinds := columns + identity;
        assert forall k :: k in kinds <==> TableDiff(t, name, c, d, k);
        var here := ChangesFor(name, env, d.table, kinds);
        changes := changes + here;
      }
    }
  }

  method DriftChanges(db: Db, cfg: Config) returns (changes: seq<SchemaChange>)
    requires Keyed(cfg)
    ensures forall ch :: ch in changes <==> Drifted(db, cfg, ch)
  {
    changes := [];
    for i := 0 to |cfg.names|
      invariant forall ch :: ch in changes <==> ch.collection in cfg.names[..i] && Drifted(db, cfg, ch)
    {
      var dev := EnvChanges(db, cfg, cfg.names[i], Dev);
      var live := EnvChanges(db, cfg, cfg.names[i], Live);
      changes := changes + dev + live;
      assert cfg.names[..i + 1] == cfg.names[..i] + [cfg.names[i]];
    }
    assert cfg.names[..|cfg.names|] == cfg.names;
  }

  method EnvDropped(db: Db, name: string, env: Env) returns (changes: seq<SchemaChange>)
    ensures forall ch :: ch in changes <==>
        && ch.collection == name && ch.env == env && ch.kind == DropCollection
        && ch.table in {Main(name), Files(name)} && TableKey(env, ch.table) in db.tables
  {
    changes := [];
    if TableKey(env, Main(name)) in db.tables {
      changes := changes + [SchemaChange(name, env, Main(name), DropCollection)];
    }
    if TableKey(env, Files(name)) in db.tables {
      changes := changes + [SchemaChange(name, env, Files(name), DropCollection)];
    }
  }

  method DroppedTables(db: Db, name: string) returns (changes: seq<SchemaChange>)
    ensures forall ch :: ch in changes <==>
        && ch.collection == name && ch.kind == DropCollection
        && ch.table in {Main(name), Files(name)} && TableKey(ch.env, ch.table) in db.tables
  {
    var dev := EnvDropped(db, name, Dev);
    var live := EnvDropped(db, name, Live);
    changes := dev + live;
  }

  method DroppedChanges(db: Db, cfg: Config) returns (changes: seq<SchemaChange>)
    ensures forall ch :: ch in changes <==> Dropped(db, cfg, ch)
  {
    changes := [];
    var gone := ListOf(db.registry.Keys - cfg.collections.Keys);
    for i := 0 to |gone|
      invariant forall ch :: ch in changes <==> Dropped(db, cfg, ch) && ch.collection in gone[..i]
    {
      var here := DroppedTables(db, gone[i]);
      assert gone[i] in gone;
      assert forall ch :: ch in here <==> Dropped(db, cfg, ch) && ch.collection == gone[i];
      changes := changes + here;
      assert gone[..i + 1] == gone[..i] + [gone[i]];
    }
    assert gone[..|gone|] == gone;
  }

  method PlanFromSchema(db: Db, cfg: Config) returns (changes: seq<SchemaChange>)
    requires Keyed(cfg)
    ensures Lists(changes, db, cfg)
  {
    var drift := DriftChanges(db, cfg);
    var gone := DroppedChanges(db, cfg);
    changes := drift + gone;
  }

  // ----- planFromConfigs

  /** `new Map(columns)` answers the last entry of a name. */
  method LookupType(d: DeclaredTable, name: string) returns (r: Option<PgType>)
    ensures r.Some? ==> Declares(d, name, r.value)
    ensures r.None? <==> !DeclaresName(d, name)
  {
    r := Option.None;
    for i := 0 to |d.columns|
      invariant r.Some? ==> Declares(d, name, r.value)
      invariant r.None? <==> forall j :: 0 <= j < i ==> d.columns[j].name != name
    {
      if d.columns[i].name == name {
        r := Some(d.columns[i].pgType);
      }
    }
  }

  method ConfigColumnChanges(name: string, prev: Config, c: Collection, before: DeclaredTable, d: DeclaredTable)
    returns (kinds: seq<ChangeKind>)
    requires DistinctFields(c) && before in DeclaredTables(name, c, prev.multiple)
    ensures forall k :: k in kinds <==> ConfigColumnDiff(before, d, k)
  {
    kinds := [];
    for i := 0 to |d.columns|
      invariant forall k :: k in kinds <==>
          exists j :: 0 <= j < i && (
            if DeclaresName(before, d.columns[j].name)
            then && k.TypeChange? && k.field == d.columns[j].name && k.want == d.columns[j].pgType
                 && Declares(before, k.field, k.have) && k.have != k.want
            else k == AddColumnChange(d.columns[j].name, d.columns[j].pgType))
    {
      var col := d.columns[i];
      var had := LookupType(before, col.name);
      if had.None? {
        kinds := kinds + [AddColumnChange(col.name, col.pgType)];
      } else {
        forall t | Declares(before, col.name, t) ensures t == had.value {
          DdlFacts.DeclaredOnce(name, c, prev.multiple, before, col.name, t, had.value);
        }
        if had.value != col.pgType {
          kinds := kinds + [TypeChange(col.name, had.value, col.pgType)];
        }
      }
    }
    ghost var compared := kinds;
    for i := 0 to |before.columns|
      invariant forall k :: k in kinds <==>
          || k in compared
          || exists j :: && 0 <= j < i && !DeclaresName(d, before.columns[j].name)
                         && k == DropColumnChange(before.columns[j].name, before.columns[j].pgType)
    {
      if !DeclaresName(d, before.columns[i].name) {
        kinds := kinds + [DropColumnChange(before.columns[i].name, before.columns[i].pgType)];
      }
    }
    forall k ensures k in kinds <==> ConfigColumnDiff(before, d, k) {
      if k.DropColumnChange? {
        assert k !in compared;
      }
    }
  }

  method ConfigDriftChanges(prev: Config, next: Config, name: string) returns (changes: seq<SchemaChange>)
    requires Keyed(prev) && name in prev.collections && name in next.collections
    ensures forall ch :: ch in changes <==> ch.env == Live && ch.collection == name && ConfigDrift(prev, next, ch)
  {
    changes := [];
    var befores := DeclaredTables(name, prev.collections[name], prev.multiple);
    var ds := DeclaredTables(name, next.collections[name], next.multiple);
    for i := 0 to |ds|
      invariant forall ch :: ch in changes <==>
          && ch.env == Live && ch.collection == name
          && exists j, b :: && 0 <= j < i && 0 <= b < |befores|
                            && befores[b].table == ds[j].table == ch.table
                            && ConfigColumnDiff(befores[b], ds[j], ch.kind)
    {
      ghost var done := changes;
      for b := 0 to |befores|
        invariant forall ch :: ch in changes <==>
            || ch in done
            || (&& ch.env == Live && ch.collection == name
                && exists a :: && 0 <= a < b && befores[a].table == ds[i].table == ch.table
                               && ConfigColumnDiff(befores[a], ds[i], ch.kind))
      {
        if befores[b].table == ds[i].table {
          var kinds := ConfigColumnChanges(name, prev, prev.collections[name], befores[b], ds[i]);
          var here := ChangesFor(name, Live, ds[i].table, kinds);
          changes := changes + here;
        }
      }
    }
  }

  method SharedChanges(prev: Config, next: Config, name: string) returns (changes: seq<SchemaChange>)
    requires Keyed(prev) && name in prev.collections && name in next.collections
    ensures forall ch :: ch in changes <==> ch.collection == name && PlannedBetween(prev, next, ch)
  {
    changes := ConfigDriftChanges(prev, next, name);
    var had, want := PkField(prev.collections[name]), PkField(next.collections[name]);
    if had.Some? && want.Some? && had.value != want.value {
      changes := changes + [SchemaChange(name, Live, Main(name), PkChange(had.value, want.value))];
    }
  }

  method PlanFromConfigs(prev: Config, next: Config) returns (changes: seq<SchemaChange>)
    requires Keyed(prev) && Keyed(next)
    ensures forall ch :: ch in changes <==> PlannedBetween(prev, next, ch)
  {
    changes := [];
    for i := 0 to |next.names|
      invariant forall ch :: ch in changes <==>
          ch.collection in next.names[..i] && ch.collection in prev.collections && PlannedBetween(prev, next, ch)
    {
      var name := next.names[i];
      if name in prev.collections {
        var here := SharedChanges(prev, next, name);
        changes := changes + here;
      }
      assert next.names[..i + 1] == next.names[..i] + [name];
    }
    assert next.names[..|next.names|] == next.names;
    ghost var shared := changes;
    for i := 0 to |prev.names|
      invariant forall ch :: ch in changes <==>
          || ch in shared
          || (ch.collection in prev.names[..i] && ch.collection !in next.collections && PlannedBetween(prev, next, ch))
    {
      var name := prev.names[i];
      if name !in next.collections {
        changes := changes + [SchemaChange(name, Live, Main(name), DropCollection)];
      }
      assert prev.names[..i + 1] == prev.names[..i] + [name];
    }
    assert prev.names[..|prev.names|] == prev.names;
  }
}
