/**
 What a list of statements that only drop and cast does to a database, and when it runs through: read off the
 list and the database it starts from.
 */
module Lowering {
  import opened Wrappers
  import opened Config
  import opened Catalog

  /** The statements a migration is made of. */
  predicate Lowers(s: Statement) {
    match s
    case DropView(_) => true
    case DropTable(_) => true
    case DropColumn(_, _) => true
    case DropIdentity(_) => true
    case DropIndex(_, _) => true
    case Retype(_, _, _, _) => true
    case Unregister(_) => true
    case _ => false
  }

  // ----- what it leaves

  /** A view outlives the statements that neither drop it nor a table it reads. */
  ghost predicate Outlives(db: Db, done: set<Statement>, v: ViewKey) {
    && v in db.views && DropView(v) !in done
    && forall k :: DropTable(k) in done ==> !ReadsTable(db.views[v], k)
  }

  ghost predicate LosesIdentity(t: Table, done: set<Statement>, k: TableKey)
    requires t.identity.Some?
  {
    || DropIdentity(k) in done
    || (t.identity.value in t.columns && DropColumn(k, t.identity.value) in done)
    || (k.name.Main? && DropIndex(k, CurrentIndexName(k.name.collection)) in done)
  }

  ghost predicate LosesIndex(t: Table, done: set<Statement>, k: TableKey, i: string)
    requires i in t.indexes
  {
    DropIndex(k, i) in done || exists c :: c in t.columns && c in t.indexes[i] && DropColumn(k, c) in done
  }

  ghost predicate Casts(done: set<Statement>, k: TableKey, c: string, to: PgType, using: Using) {
    Retype(k, c, to, using) in done
  }

  ghost predicate LoweredColumn(t: Table, u: Table, done: set<Statement>, k: TableKey, c: string)
    requires c in t.columns && c in u.columns && |u.rows| == |t.rows|
  {
    && ((forall to, using :: !Casts(done, k, c, to, using)) ==>
          u.columns[c] == t.columns[c] && forall i :: 0 <= i < |t.rows| ==> Cell(u.rows[i], c) == Cell(t.rows[i], c))
    && forall to, using :: Casts(done, k, c, to, using) ==>
         u.columns[c] == to && forall i :: 0 <= i < |t.rows| ==> Cell(u.rows[i], c) == Cast(Cell(t.rows[i], c), using)
  }

  /** `u` is `t` without the dropped columns and indexes, and with the casts carried out. */
  ghost predicate LoweredTable(t: Table, u: Table, done: set<Statement>, k: TableKey) {
    && (forall c :: c in u.columns <==> c in t.columns && DropColumn(k, c) !in done)
    && (forall g :: g in u.generated <==> g in t.generated && DropColumn(k, g) !in done)
    && (forall g :: g in u.generated ==> u.generated[g] == t.generated[g])
    && u.primaryKey == t.primaryKey
    && u.identity == (if t.identity.Some? && !LosesIdentity(t, done, k) then t.identity else Option.None)
    && (forall i :: i in u.indexes <==> i in t.indexes && !LosesIndex(t, done, k, i))
    && (forall i :: i in u.indexes ==> u.indexes[i] == t.indexes[i])
    && |u.rows| == |t.rows|
    && (forall c :: c in u.columns ==> LoweredColumn(t, u, done, k, c))
  }

  ghost predicate Lowered(db: Db, now: Db, done: set<Statement>) {
    && (forall k :: k in now.tables <==> k in db.tables && DropTable(k) !in done)
    && (forall k :: k in now.tables ==> LoweredTable(db.tables[k], now.tables[k], done, k))
    && (forall n :: n in now.registry <==> n in db.registry && Unregister(n) !in done)
    && (forall n :: n in now.registry ==> now.registry[n] == db.registry[n])
    && (forall v :: v in now.views <==> Outlives(db, done, v))
    && (forall v :: v in now.views ==> now.views[v] == db.views[v])
    && now.acl == db.acl
  }

  // ----- when it runs

  ghost predicate Unread(db: Db, done: set<Statement>, ref: ColumnRef) {
    forall v :: Outlives(db, done, v) ==> ref !in db.views[v]
  }

  /** What is generated from the column has been dropped. */
  ghost predicate FeedsNothing(t: Table, done: set<Statement>, k: TableKey, c: string) {
    forall g :: g in t.generated && t.generated[g] == c ==> DropColumn(k, g) in done
  }

  /** Whether the statement runs once those of `done` have. */
  ghost predicate Runs(db: Db, done: set<Statement>, s: Statement) {
    match s
    case DropColumn(k, c) =>
      && k in db.tables && DropTable(k) !in done
      && (c in db.tables[k].columns && DropColumn(k, c) !in done ==>
            Unread(db, done, ColumnRef(k, c)) && FeedsNothing(db.tables[k], done, k, c))
    case Retype(k, c, _, _) =>
      && k in db.tables && DropTable(k) !in done
      && c in db.tables[k].columns && DropColumn(k, c) !in done && c !in db.tables[k].generated
      && Unread(db, done, ColumnRef(k, c)) && FeedsNothing(db.tables[k], done, k, c)
    case _ => true
  }

  /** No column is cast in two ways. */
  ghost predicate OneCast(done: set<Statement>) {
    forall k, c, to, using, other, how :: Casts(done, k, c, to, using) && Casts(done, k, c, other, how) ==>
      to == other && using == how
  }

  ghost predicate GeneratedKept(db: Db) {
    forall k, g :: k in db.tables && g in db.tables[k].generated ==> g in db.tables[k].columns
  }

  // ----- one statement

  lemma NowRead(db: Db, now: Db, done: set<Statement>, k: TableKey, c: string)
    requires Lowered(db, now, done) && k in now.tables
    ensures ViewReads(now, ColumnRef(k, c)) <==> !Unread(db, done, ColumnRef(k, c))
    ensures FeedsGenerated(now.tables[k], c) <==> !FeedsNothing(db.tables[k], done, k, c)
  {
    var ref := ColumnRef(k, c);
    if ViewReads(now, ref) {
      var v :| v in now.views && ref in now.views[v];
      assert Outlives(db, done, v);
    }
    if !Unread(db, done, ref) {
      var v :| Outlives(db, done, v) && ref in db.views[v];
      assert v in now.views;
    }
    NowFeeds(db.tables[k], now.tables[k], done, k, c);
  }

  lemma NowFeeds(t: Table, u: Table, done: set<Statement>, k: TableKey, c: string)
    requires LoweredTable(t, u, done, k)
    ensures FeedsGenerated(u, c) <==> !FeedsNothing(t, done, k, c)
  {
    if !FeedsNothing(t, done, k, c) {
      var g :| g in t.generated && t.generated[g] == c && DropColumn(k, g) !in done;
      assert g in u.generated;
    }
  }

  lemma RunsNow(db: Db, now: Db, done: set<Statement>, s: Statement)
    requires Lowers(s) && Lowered(db, now, done)
    ensures Exec(s, now).Some? <==> Runs(db, done, s)
  {
    match s
    case DropColumn(k, c) =>
      if k in now.tables {
        assert LoweredTable(db.tables[k], now.tables[k], done, k);
        NowRead(db, now, done, k, c);
      }
    case Retype(k, c, _, _) =>
      if k in now.tables {
        assert LoweredTable(db.tables[k], now.tables[k], done, k);
        NowRead(db, now, done, k, c);
      }
    case _ =>
  }

  // ----- one table, one statement

  predicate Alters(s: Statement, k: TableKey) {
    match s
    case DropColumn(key, _) => key == k
    case DropIdentity(key) => key == k
    case DropIndex(key, _) => key == k
    case Retype(key, _, _, _) => key == k
    case _ => false
  }

  lemma LoweredTableKept(t: Table, u: Table, done: set<Statement>, s: Statement, k: TableKey)
    requires LoweredTable(t, u, done, k) && !Alters(s, k)
    ensures LoweredTable(t, u, done + {s}, k)
  {
    hide LoweredColumn, LosesIndex;
    forall c | c in u.columns ensures LoweredColumn(t, u, done + {s}, k, c) {
      ColumnKept(t, u, u, done, s, k, c);
    }
    IndexesKept(t, done, s, k);
  }

  lemma IndexesKept(t: Table, done: set<Statement>, s: Statement, k: TableKey)
    requires !(Alters(s, k) && (s.DropColumn? || s.DropIndex?))
    ensures forall i :: i in t.indexes ==> (LosesIndex(t, done + {s}, k, i) <==> LosesIndex(t, done, k, i))
  {}

  lemma ColumnKept(t: Table, u: Table, v: Table, done: set<Statement>, s: Statement, k: TableKey, c: string)
    requires c in t.columns && c in u.columns && |u.rows| == |t.rows| && LoweredColumn(t, u, done, k, c)
    requires !(s.Retype? && s.key == k && s.name == c)
    requires c in v.columns && v.columns[c] == u.columns[c] && |v.rows| == |u.rows|
    requires forall i :: 0 <= i < |t.rows| ==> Cell(v.rows[i], c) == Cell(u.rows[i], c)
    ensures LoweredColumn(t, v, done + {s}, k, c)
  {
    assert forall to, using :: Casts(done + {s}, k, c, to, using) <==> Casts(done, k, c, to, using);
  }

  lemma LoweredTableDropColumn(t: Table, u: Table, done: set<Statement>, k: TableKey, c: string)
    requires LoweredTable(t, u, done, k) && forall g :: g in t.generated ==> g in t.columns
    ensures LoweredTable(t, if c in u.columns then DropColumnFrom(u, c) else u, done + {DropColumn(k, c)}, k)
  {
    hide LoweredColumn, LosesIndex;
    var s := DropColumn(k, c);
    if c in u.columns {
      ColumnLowered(t, u, done, k, c);
    } else if s in done {
      assert done + {s} == done;
    } else {
      forall d | d in u.columns ensures LoweredColumn(t, u, done + {s}, k, d) {
        ColumnKept(t, u, u, done, s, k, d);
      }
      forall i | i in t.indexes ensures LosesIndex(t, done + {s}, k, i) <==> LosesIndex(t, done, k, i) {
        IndexLost(t, done, k, c, i);
      }
    }
  }

  lemma ColumnLowered(t: Table, u: Table, done: set<Statement>, k: TableKey, c: string)
    requires LoweredTable(t, u, done, k) && c in u.columns
    ensures LoweredTable(t, DropColumnFrom(u, c), done + {DropColumn(k, c)}, k)
  {
    hide LoweredColumn, LosesIndex;
    var s := DropColumn(k, c);
    var v := DropColumnFrom(u, c);
    forall d | d in v.columns ensures LoweredColumn(t, v, done + {s}, k, d) {
      ColumnKept(t, u, v, done, s, k, d);
    }
    forall i | i in t.indexes
      ensures LosesIndex(t, done + {s}, k, i) <==> LosesIndex(t, done, k, i) || c in t.indexes[i]
    {
      IndexLost(t, done, k, c, i);
    }
  }

  lemma IndexLost(t: Table, done: set<Statement>, k: TableKey, c: string, i: string)
    requires i in t.indexes
    ensures LosesIndex(t, done + {DropColumn(k, c)}, k, i) <==>
            LosesIndex(t, done, k, i) || (c in t.columns && c in t.indexes[i])
  {}

  lemma LoweredTableDropIdentity(t: Table, u: Table, done: set<Statement>, k: TableKey)
    requires LoweredTable(t, u, done, k)
    ensures LoweredTable(t, u.(identity := Option.None), done + {DropIdentity(k)}, k)
  {
    hide LoweredColumn, LosesIndex;
    var s := DropIdentity(k);
    var v := u.(identity := Option.None);
    forall d | d in v.columns ensures LoweredColumn(t, v, done + {s}, k, d) {
      ColumnKept(t, u, v, done, s, k, d);
    }
    IndexesKept(t, done, s, k);
  }

  lemma LoweredTableDropIndex(t: Table, u: Table, done: set<Statement>, k: TableKey, index: string)
    requires LoweredTable(t, u, done, k)
    ensures LoweredTable(t, DropIndexFrom(u, k.name, index), done + {DropIndex(k, index)}, k)
  {
    hide LoweredColumn;
    var s := DropIndex(k, index);
    var v := DropIndexFrom(u, k.name, index);
    forall d | d in v.columns ensures LoweredColumn(t, v, done + {s}, k, d) {
      ColumnKept(t, u, v, done, s, k, d);
    }
    forall i | i in t.indexes
      ensures LosesIndex(t, done + {s}, k, i) <==> LosesIndex(t, done, k, i) || i == index
    {}
  }

  lemma LoweredTableRetype(
      t: Table, u: Table, done: set<Statement>, k: TableKey, f: string, to: PgType, using: Using)
    requires LoweredTable(t, u, done, k) && OneCast(done + {Retype(k, f, to, using)}) && f in u.columns
    ensures LoweredTable(
              t, u.(columns := u.columns[f := to], rows := CastColumn(u.rows, f, using)),
              done + {Retype(k, f, to, using)}, k)
  {
    hide LoweredColumn, LosesIndex;
    var s := Retype(k, f, to, using);
    var v := u.(columns := u.columns[f := to], rows := CastColumn(u.rows, f, using));
    forall d | d in v.columns ensures LoweredColumn(t, v, done + {s}, k, d) {
      if d == f {
        CastColumnLowered(t, u, v, done, s, k, f);
      } else {
        ColumnKept(t, u, v, done, s, k, d);
      }
    }
    IndexesKept(t, done, s, k);
  }

  lemma CastTwice(v: Value, using: Using)
    ensures Cast(Cast(v, using), using) == Cast(v, using)
  {}

  /** A column already cast is cast the same way again, which changes nothing. */
  lemma CastColumnLowered(t: Table, u: Table, v: Table, done: set<Statement>, s: Statement, k: TableKey, f: string)
    requires s.Retype? && s.key == k && s.name == f && OneCast(done + {s})
    requires f in t.columns && f in u.columns && |u.rows| == |t.rows| && LoweredColumn(t, u, done, k, f)
    requires v == u.(columns := u.columns[f := s.to], rows := CastColumn(u.rows, f, s.using))
    ensures LoweredColumn(t, v, done + {s}, k, f)
  {
    assert Casts(done + {s}, k, f, s.to, s.using);
    forall i | 0 <= i < |t.rows| ensures Cell(v.rows[i], f) == Cast(Cell(t.rows[i], f), s.using) {
      if Casts(done, k, f, s.to, s.using) {
        CastTwice(Cell(t.rows[i], f), s.using);
      } else {
        forall to, using ensures !Casts(done, k, f, to, using) {
          assert Casts(done, k, f, to, using) ==> Casts(done + {s}, k, f, to, using);
        }
      }
    }
  }

  // ----- the database, one statement

  lemma LoweredStep(db: Db, now: Db, done: set<Statement>, s: Statement)
    requires Lowers(s) && Lowered(db, now, done) && GeneratedKept(db) && OneCast(done + {s}) && Exec(s, now).Some?
    ensures Lowered(db, Exec(s, now).value, done + {s})
  {
    hide LoweredTable, Outlives;
    var after := Exec(s, now).value;
    StepShape(now, s);
    forall k | k in after.tables ensures LoweredTable(db.tables[k], after.tables[k], done + {s}, k) {
      assert LoweredTable(db.tables[k], now.tables[k], done, k);
      if Alters(s, k) {
        AlteredTable(db, now, done, s, k);
      } else {
        LoweredTableKept(db.tables[k], now.tables[k], done, s, k);
      }
    }
    forall v ensures v in after.views <==> Outlives(db, done + {s}, v) {
      assert v in now.views <==> Outlives(db, done, v);
      ViewStep(db, done, s, v);
    }
  }

  /** What one statement leaves of tables, registry and views. */
  lemma StepShape(now: Db, s: Statement)
    requires Lowers(s) && Exec(s, now).Some?
    ensures var after := Exec(s, now).value;
      && (forall k :: k in after.tables <==> k in now.tables && s != DropTable(k))
      && (forall k :: k in after.tables && !Alters(s, k) ==> after.tables[k] == now.tables[k])
      && (forall n :: n in after.registry <==> n in now.registry && s != Unregister(n))
      && (forall n :: n in after.registry ==> after.registry[n] == now.registry[n])
      && (forall v :: v in after.views <==> v in now.views && !TakesView(s, v, now.views[v]))
      && (forall v :: v in after.views ==> after.views[v] == now.views[v])
      && after.acl == now.acl
  {}

  predicate TakesView(s: Statement, v: ViewKey, uses: set<ColumnRef>) {
    s == DropView(v) || (s.DropTable? && ReadsTable(uses, s.key))
  }

  lemma ViewStep(db: Db, done: set<Statement>, s: Statement, v: ViewKey)
    ensures Outlives(db, done + {s}, v) <==> Outlives(db, done, v) && !TakesView(s, v, db.views[v])
  {}

  lemma AlteredTable(db: Db, now: Db, done: set<Statement>, s: Statement, k: TableKey)
    requires Lowers(s) && Alters(s, k) && k in now.tables && k in db.tables && Exec(s, now).Some?
    requires LoweredTable(db.tables[k], now.tables[k], done, k) && GeneratedKept(db) && OneCast(done + {s})
    ensures var after := Exec(s, now).value;
      k in after.tables && LoweredTable(db.tables[k], after.tables[k], done + {s}, k)
  {
    hide LoweredTable;
    var t, u := db.tables[k], now.tables[k];
    match s
    case DropColumn(_, c) => LoweredTableDropColumn(t, u, done, k, c);
    case DropIdentity(_) => LoweredTableDropIdentity(t, u, done, k);
    case DropIndex(_, i) => LoweredTableDropIndex(t, u, done, k, i);
    case Retype(_, f, to, using) => LoweredTableRetype(t, u, done, k, f, to, using);
  }

  // ----- the whole list

  function Done(ss: seq<Statement>): set<Statement> {
    set s | s in ss
  }

  /** Each statement runs once those before it have. */
  ghost predicate AllRun(db: Db, ss: seq<Statement>) {
    forall i :: 0 <= i < |ss| ==> Runs(db, Done(ss[..i]), ss[i])
  }

  lemma AllRunPush(db: Db, ss: seq<Statement>, s: Statement)
    ensures AllRun(db, ss + [s]) <==> AllRun(db, ss) && Runs(db, Done(ss), s)
  {
    var all := ss + [s];
    assert forall i :: 0 <= i < |ss| ==> all[..i] == ss[..i] && all[i] == ss[i];
    assert all[..|ss|] == ss && all[|ss|] == s;
  }

  /** The list runs through exactly when each statement does, and leaves the database it describes. */
  lemma {:induction false} LoweringRuns(db: Db, ss: seq<Statement>)
    requires (forall s :: s in ss ==> Lowers(s)) && GeneratedKept(db) && OneCast(Done(ss))
    ensures ExecAll(ss, db).Some? <==> AllRun(db, ss)
    ensures ExecAll(ss, db).Some? ==> Lowered(db, ExecAll(ss, db).value, Done(ss))
  {
    hide Lowered, Runs, Exec, Lowers, AllRun, OneCast, GeneratedKept;
    if ss == [] {
      NothingToRun(db);
      NothingLowered(db);
      assert Done([]) == {};
    } else {
      var n := |ss| - 1;
      var front, s := ss[..n], ss[n];
      assert ss == front + [s] && s in ss;
      assert Done(ss) == Done(front) + {s};
      OneCastFront(Done(front), s);
      LoweringRuns(db, front);
      AllRunPush(db, front, s);
      if ExecAll(front, db).Some? {
        var now := ExecAll(front, db).value;
        RunsNow(db, now, Done(front), s);
        if Exec(s, now).Some? {
          LoweredStep(db, now, Done(front), s);
        }
      }
    }
  }

  lemma NothingToRun(db: Db)
    ensures AllRun(db, [])
  {}

  lemma OneCastFront(done: set<Statement>, s: Statement)
    requires OneCast(done + {s})
    ensures OneCast(done)
  {
    forall k, c, to, using, other, how | Casts(done, k, c, to, using) && Casts(done, k, c, other, how)
      ensures to == other && using == how
    {
      assert Casts(done + {s}, k, c, to, using) && Casts(done + {s}, k, c, other, how);
    }
  }

  lemma NothingLowered(db: Db)
    ensures Lowered(db, db, {})
  {
    forall k | k in db.tables ensures LoweredTable(db.tables[k], db.tables[k], {}, k) {
      forall c | c in db.tables[k].columns ensures LoweredColumn(db.tables[k], db.tables[k], {}, k, c) {}
    }
  }
}
