/**
 The database `apply` works on, and what one DDL statement does to it.

 `Exec` answers None where Postgres raises an error. Only the facts the planner and the applier
 depend on are kept: columns with types, generated columns, the primary key, the document-identity
 index, the other indexes by name, rows, views with the columns they read, and the registry.
 */
module Catalog {
  import opened Wrappers
  import opened Config

  datatype Env = Dev | Live

  datatype TableKey = TableKey(env: Env, name: TableName)

  datatype ViewKey = ViewKey(env: Env, collection: string)

  datatype ColumnRef = ColumnRef(table: TableKey, column: string)

  /** Values are opaque except where a cast or a generated column looks inside them. */
  datatype Value = Null | Scalar(repr: string) | List(items: seq<string>) | Derived(source: Value)

  type Row = map<string, Value>

  /** What a generated column is computed from. */
  datatype Generator = TsvOf(column: string) | ChecksumOf(column: string)

  datatype Column = Column(name: string, pgType: PgType, fill: Value, generator: Option<Generator>)

  datatype Table = Table(
    columns: map<string, PgType>,
    generated: map<string, string>,
    primaryKey: Option<string>,
    identity: Option<string>,
    indexes: map<string, seq<string>>,
    rows: seq<Row>)

  datatype AclEntry = AclEntry(env: Env, collection: string, document: string)

  datatype Db = Db(
    tables: map<TableKey, Table>,
    views: map<ViewKey, set<ColumnRef>>,
    registry: map<string, Collection>,
    acl: set<AclEntry>)

  /** The USING expression of a cast. */
  datatype Using = InPlace | WrapArray | JoinArray

  datatype Statement =
    | CreateTable(key: TableKey, columns: seq<Column>, primaryKey: Option<string>)
    | AddColumn(key: TableKey, column: Column)
    | CreateIdentity(key: TableKey, field: string)
    | CreateIndex(key: TableKey, index: string, over: seq<string>, gin: bool)
    | DropTable(key: TableKey)
    | DropColumn(key: TableKey, name: string)
    | DropIdentity(key: TableKey)
    | DropIndex(key: TableKey, index: string)
    | Retype(key: TableKey, name: string, to: PgType, using: Using)
    | CreateView(view: ViewKey, uses: set<ColumnRef>)
    | DropView(view: ViewKey)
    | Register(name: string, c: Collection)
    | Unregister(name: string)
    | ClearAcl(env: Env, collection: string)

  function Cell(row: Row, column: string): Value {
    if column in row then row[column] else Null
  }

  predicate Populated(db: Db, key: TableKey) {
    key in db.tables && db.tables[key].rows != []
  }

  // ----- columns of a `create table` list

  function Names(columns: seq<Column>): seq<string> {
    seq(|columns|, i requires 0 <= i < |columns| => columns[i].name)
  }

  function Types(columns: seq<Column>): map<string, PgType> {
    if columns == [] then map[]
    else
      var last := columns[|columns| - 1];
      Types(columns[..|columns| - 1])[last.name := last.pgType]
  }

  function GeneratorSource(g: Generator): string {
    match g
    case TsvOf(c) => c
    case ChecksumOf(c) => c
  }

  /** to_tsvector(coalesce(x, '')) needs text; sha256 needs bytea. */
  function GeneratorInput(g: Generator): PgType {
    match g
    case TsvOf(_) => Text
    case ChecksumOf(_) => Bytea
  }

  function GeneratedColumns(columns: seq<Column>): map<string, string> {
    if columns == [] then map[]
    else
      var last := columns[|columns| - 1];
      var before := GeneratedColumns(columns[..|columns| - 1]);
      if last.generator.Some? then before[last.name := GeneratorSource(last.generator.value)] else before
  }

  function NewTable(columns: seq<Column>, primaryKey: Option<string>): Table {
    Table(Types(columns), GeneratedColumns(columns), primaryKey, None, map[], [])
  }

  // ----- rows

  function FillValue(row: Row, column: Column): Value {
    match column.generator
    case None => column.fill
    case Some(g) => Derived(Cell(row, GeneratorSource(g)))
  }

  function WithColumn(rows: seq<Row>, column: Column): seq<Row> {
    seq(|rows|, i requires 0 <= i < |rows| => rows[i][column.name := FillValue(rows[i], column)])
  }

  function WithoutColumn(rows: seq<Row>, name: string): seq<Row> {
    seq(|rows|, i requires 0 <= i < |rows| => rows[i] - {name})
  }

  function JoinItems(items: seq<string>): string {
    if items == [] then ""
    else if |items| == 1 then items[0]
    else JoinItems(items[..|items| - 1]) + "," + items[|items| - 1]
  }

  /** The value a cast leaves behind. A lossy cast that cannot convert is not modelled as failing. */
  function Cast(v: Value, using: Using): Value {
    match using
    case InPlace => v
    case WrapArray => (match v case Scalar(s) => List([s]) case _ => v)
    case JoinArray => (match v case List(xs) => Scalar(JoinItems(xs)) case _ => v)
  }

  function CastColumn(rows: seq<Row>, name: string, using: Using): seq<Row> {
    seq(|rows|, i requires 0 <= i < |rows| => rows[i][name := Cast(Cell(rows[i], name), using)])
  }

  /** Two current revisions of one document, which the unique identity index refuses. */
  predicate Clashing(a: Row, b: Row, field: string) {
    && Cell(a, "_current") == Scalar("true") && Cell(b, "_current") == Scalar("true")
    && Cell(a, "workspace_id") == Cell(b, "workspace_id")
    && Cell(a, field) == Cell(b, field) != Null
  }

  predicate UniqueIdentity(rows: seq<Row>, field: string) {
    forall i, j :: 0 <= i < j < |rows| ==> !Clashing(rows[i], rows[j], field)
  }

  // ----- dependencies

  predicate ViewReads(db: Db, ref: ColumnRef) {
    exists v :: v in db.views && ref in db.views[v]
  }

  predicate ReadsTable(uses: set<ColumnRef>, key: TableKey) {
    exists r :: r in uses && r.table == key
  }

  predicate FeedsGenerated(t: Table, column: string) {
    exists g :: g in t.generated && t.generated[g] == column
  }

  predicate Readable(db: Db, uses: set<ColumnRef>) {
    forall r :: r in uses ==> r.table in db.tables && r.column in db.tables[r.table].columns
  }

  // ----- one statement

  /** `alter table … add column if not exists`. */
  function AddColumnTo(t: Table, column: Column): Option<Table> {
    if column.name in t.columns then Some(t)
    else if column.generator.Some? &&
         !(GeneratorSource(column.generator.value) in t.columns &&
           t.columns[GeneratorSource(column.generator.value)] == GeneratorInput(column.generator.value))
    then None
    else
      Some(t.(columns := t.columns[column.name := column.pgType],
              generated := if column.generator.Some?
                           then t.generated[column.name := GeneratorSource(column.generator.value)]
                           else t.generated,
              rows := WithColumn(t.rows, column)))
  }

  /** `create unique index if not exists … (workspace_id, field) where _current`. */
  function CreateIdentityOn(t: Table, field: string): Option<Table> {
    if t.identity.Some? then Some(t)
    else if field in t.columns && "workspace_id" in t.columns && "_current" in t.columns
            && UniqueIdentity(t.rows, field)
    then Some(t.(identity := Some(field)))
    else None
  }

  /** The column types a GIN index can be built over without naming an operator class. */
  predicate Ginnable(t: PgType) {
    t in {Tsvector, TextArray, Jsonb}
  }

  /** `create index if not exists`; `over` lists every column the definition and predicate name. */
  function CreateIndexOn(t: Table, index: string, over: seq<string>, gin: bool): Option<Table> {
    if index in t.indexes then Some(t)
    else if forall c :: c in over ==> c in t.columns && (gin ==> Ginnable(t.columns[c]))
    then Some(t.(indexes := t.indexes[index := over]))
    else None
  }

  function DropColumnFrom(t: Table, name: string): Table {
    t.(columns := t.columns - {name},
       generated := t.generated - {name},
       identity := if t.identity == Some(name) then None else t.identity,
       indexes := map i | i in t.indexes && name !in t.indexes[i] :: t.indexes[i],
       rows := WithoutColumn(t.rows, name))
  }

  /** The unique index behind a dataset's identity, created without looking at its name. */
  function CurrentIndexName(name: string): string {
    name + "_current_idx"
  }

  /** `drop index if exists`, by name; the identity index has one too. */
  function DropIndexFrom(t: Table, name: TableName, index: string): Table {
    t.(indexes := t.indexes - {index},
       identity := if name.Main? && index == CurrentIndexName(name.collection) then None else t.identity)
  }

  function Put(db: Db, key: TableKey, t: Option<Table>): Option<Db> {
    if t.Some? then Some(db.(tables := db.tables[key := t.value])) else None
  }

  function Exec(s: Statement, db: Db): Option<Db> {
    match s
    case CreateTable(key, columns, pk) =>
      if key in db.tables then Some(db)
      else if Distinct(Names(columns)) then Put(db, key, Some(NewTable(columns, pk)))
      else None
    case AddColumn(key, column) =>
      if key in db.tables then Put(db, key, AddColumnTo(db.tables[key], column)) else None
    case CreateIdentity(key, field) =>
      if key in db.tables then Put(db, key, CreateIdentityOn(db.tables[key], field)) else None
    case CreateIndex(key, index, over, gin) =>
      if key in db.tables then Put(db, key, CreateIndexOn(db.tables[key], index, over, gin)) else None
    case DropTable(key) =>
      // `if exists … cascade`: views over the table go with it, its foreign keys do too
      Some(db.(tables := db.tables - {key},
               views := map v | v in db.views && !ReadsTable(db.views[v], key) :: db.views[v]))
    case DropColumn(key, name) =>
      if key !in db.tables then None
      else if name !in db.tables[key].columns then Some(db)
      else if ViewReads(db, ColumnRef(key, name)) || FeedsGenerated(db.tables[key], name) then None
      else Put(db, key, Some(DropColumnFrom(db.tables[key], name)))
    case DropIdentity(key) =>
      if key in db.tables then Put(db, key, Some(db.tables[key].(identity := None))) else Some(db)
    case DropIndex(key, index) =>
      if key in db.tables then Put(db, key, Some(DropIndexFrom(db.tables[key], key.name, index))) else Some(db)
    case Retype(key, name, to, using) =>
      if key !in db.tables || name !in db.tables[key].columns then None
      else if ViewReads(db, ColumnRef(key, name)) || FeedsGenerated(db.tables[key], name)
              || name in db.tables[key].generated then None
      else
        var t := db.tables[key];
        Put(db, key, Some(t.(columns := t.columns[name := to], rows := CastColumn(t.rows, name, using))))
    case CreateView(view, uses) =>
      if view in db.views || !Readable(db, uses) then None
      else Some(db.(views := db.views[view := uses]))
    case DropView(view) => Some(db.(views := db.views - {view}))
    case Register(name, c) => Some(db.(registry := db.registry[name := c]))
    case Unregister(name) => Some(db.(registry := db.registry - {name}))
    case ClearAcl(env, collection) =>
      Some(db.(acl := set a | a in db.acl && !(a.env == env && a.collection == collection)))
  }

  /** Statements sent in one query string run in one implicit transaction: all of them or none. */
  function ExecAll(ss: seq<Statement>, db: Db): Option<Db> {
    if ss == [] then Some(db)
    else
      match ExecAll(ss[..|ss| - 1], db)
      case None => None
      case Some(mid) => Exec(ss[|ss| - 1], mid)
  }

  /** The states the connection passes through while a query string runs. */
  function Passed(ss: seq<Statement>, db: Db): seq<Db> {
    if ss == [] then []
    else
      var before := Passed(ss[..|ss| - 1], db);
      match ExecAll(ss, db)
      case None => before
      case Some(after) => before + [after]
  }
}
