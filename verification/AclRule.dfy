/**
 The rule that reads an ACL, in its two forms: the clause on the view's left join, under SQL's three
 truth values, and the check in process over a scalar subquery. Both equal the declared rule on every
 state the writes can reach.
 */
module AclRule {
  import opened Wrappers
  import opened Principals
  import opened Acl

  // ----- SQL

  datatype Truth = True | False | Unknown

  function Or(a: Truth, b: Truth): Truth {
    if a.True? || b.True? then True
    else if a.Unknown? || b.Unknown? then Unknown
    else False
  }

  /** A `text[]` column: None is NULL. */
  type Column = Option<seq<string>>

  /** `array_length(col, 1)`: NULL for NULL and for an empty array. */
  function ArrayLength(c: Column): Option<int> {
    if c.None? || c.value == [] then None else Some(|c.value|)
  }

  function Coalesce(v: Option<int>, default_: int): int {
    if v.Some? then v.value else default_
  }

  predicate Share(xs: seq<string>, ys: seq<string>) {
    exists i, j :: 0 <= i < |xs| && 0 <= j < |ys| && xs[i] == ys[j]
  }

  /** `col && slot`: NULL when the column is. */
  function Overlaps(c: Column, slot: seq<string>): Truth {
    if c.None? then Unknown else if Share(c.value, slot) then True else False
  }

  /** `(coalesce(array_length(_acl, 1), 0) = 0 or _acl && slot)` */
  function AclPredicate(c: Column, slot: seq<string>): Truth {
    Or(if Coalesce(ArrayLength(c), 0) == 0 then True else False, Overlaps(c, slot))
  }

  /** A row survives a WHERE clause only when it is true. */
  predicate Selected(t: Truth) {
    t.True?
  }

  // ----- a document's row

  /** A base row as the view and the write path see it. */
  datatype Document = Document(workspace: string, key: string)

  /** `left join _acl`: the table's primary key leaves at most one match, and no match is NULL. */
  function JoinedAcl(s: Store, env: Env, collection: string, d: Document): Column {
    var k := DocKey(env, d.workspace, collection, d.key);
    if k in s.acl then Some(s.acl[k].principals) else None
  }

  /** The matching rows of `_acl`, as a set. */
  ghost function Matches(s: Store, env: Env, collection: string, d: Document): set<DocKey> {
    set k | k in s.acl && k.env == env && k.workspace == d.workspace && k.collection == collection
        && k.document == d.key
  }

  /** The scalar subquery: NULL without a match, the one match's principals otherwise. */
  ghost predicate SubqueryAcl(s: Store, env: Env, collection: string, d: Document, c: Column) {
    if Matches(s, env, collection, d) == {} then c == None
    else exists k :: k in Matches(s, env, collection, d) && c == Some(s.acl[k].principals)
  }

  /** The two fragments read the same row, and never more than one. */
  lemma JoinIsSubquery(s: Store, env: Env, collection: string, d: Document, c: Column)
    ensures SubqueryAcl(s, env, collection, d, c) <==> c == JoinedAcl(s, env, collection, d)
    ensures |Matches(s, env, collection, d)| <= 1
  {
    var k := DocKey(env, d.workspace, collection, d.key);
    if k in s.acl {
      assert Matches(s, env, collection, d) == {k};
    } else {
      assert Matches(s, env, collection, d) == {};
    }
  }

  // ----- the caller

  /** What `loadPrincipals` may return: the user, then each of the user's group names once, in some order. */
  ghost predicate Loaded(s: Store, workspace: string, user: string, ps: seq<string>) {
    exists gs: seq<string> ::
      && ps == [UserPrincipal(user)] + Prefixed(gs)
      && forall g :: g in gs <==> InGroup(s, workspace, user, g)
  }

  /** Membership from either source. */
  predicate InGroup(s: Store, workspace: string, user: string, g: string) {
    Membership(workspace, user, g, Sso) in s.groups || Membership(workspace, user, g, Manual) in s.groups
  }

  function Prefixed(gs: seq<string>): (r: seq<string>)
    ensures |r| == |gs| && forall i :: 0 <= i < |r| ==> r[i] == GroupPrincipal(gs[i])
  {
    seq(|gs|, i requires 0 <= i < |gs| => GroupPrincipal(gs[i]))
  }

  /** The declared rule: no ACL, or one that names the caller or a group of the caller's. */
  ghost predicate MayRead(s: Store, env: Env, collection: string, d: Document, user: string) {
    var acl := JoinedAcl(s, env, collection, d);
    acl.None? || Names(acl.value, UserPrincipal(user))
    || exists g: string :: InGroup(s, d.workspace, user, g) && Names(acl.value, GroupPrincipal(g))
  }

  predicate Names(acl: seq<string>, p: string) {
    p in acl
  }

  // ----- the invariant

  predicate WellFormed(row: AclRow) {
    && row.principals != [] && Distinct(row.principals)
    && forall i :: 0 <= i < |row.principals| ==> IsPrincipal(row.principals[i])
  }

  ghost predicate Invariant(s: Store) {
    && (forall k :: k in s.acl ==> WellFormed(s.acl[k]))
    && (forall m :: m in s.groups ==> m.group != "")
  }

  /** A request as it arrives, with what it finds around it; most are refused. */
  datatype Write =
    | SetAcl(c: Setting, key: DocKey, user: string, who: Manager_, proposed: Proposed)
    | SetGroups(workspace: string, user: string, groups: seq<string>, source: Source)

  /** What `setDocumentAcl` and `setUserGroups` do to the rows. */
  function Apply(s: Store, w: Write): Store {
    match w
    case SetAcl(c, k, user, who, p) =>
      if Refusal(c, k.workspace, user, who, k.collection, p).Some? then s else AfterSet(s, k, Strings(p), user)
    case SetGroups(ws, u, gs, src) => AfterGroups(s, ws, u, gs, src)
  }

  function Run(ws: seq<Write>): Store {
    if ws == [] then Store(map[], {}) else Apply(Run(ws[..|ws| - 1]), ws[|ws| - 1])
  }

  lemma SetKeepsInvariant(s: Store, k: DocKey, p: Proposed, by_: string)
    requires Invariant(s) && AllPrincipals(p)
    ensures Invariant(AfterSet(s, k, Strings(p), by_))
  {
    var ps := Strings(p);
    DedupeIsTheSet(ps);
    if ps != [] {
      forall i | 0 <= i < |Dedupe(ps)| ensures IsPrincipal(Dedupe(ps)[i]) {
        assert Dedupe(ps)[i] in ps;
      }
      assert WellFormed(AclRow(Dedupe(ps), by_));
    }
  }

  /** After any run of writes, stored rows are non-empty, duplicate-free and well-formed. */
  lemma {:induction false} ReachedRowsAreWellFormed(ws: seq<Write>)
    ensures Invariant(Run(ws))
  {
    if ws != [] {
      ReachedRowsAreWellFormed(ws[..|ws| - 1]);
      var w := ws[|ws| - 1];
      if w.SetAcl? && AllPrincipals(w.proposed) {
        SetKeepsInvariant(Run(ws[..|ws| - 1]), w.key, w.proposed, w.user);
      }
    }
  }

  // ----- whose rows they are

  /** Every element is a principal. */
  ghost predicate Proposes(p: Proposed, principals: set<string>) {
    && p.Some? && (forall i :: 0 <= i < |p.value| ==> p.value[i].Some? && IsPrincipal(p.value[i].value))
    && forall x :: x in principals <==> Some(x) in p.value
  }

  /** The request sets this document's ACL to these principals, and everything about it is in order. */
  ghost predicate Sets(w: Write, key: DocKey, principals: set<string>) {
    && w.SetAcl? && w.key == key && HasAcls(w.c, key.collection) && Entitled(w.c, key.workspace, w.user, w.who)
    && w.c.writable && Proposes(w.proposed, principals)
  }

  ghost predicate SetsIt(w: Write, key: DocKey) {
    exists principals :: Sets(w, key, principals)
  }

  /** What is stored of one document: these principals, in some order, by this account; none is no row. */
  ghost predicate Stored(s: Store, key: DocKey, principals: set<string>, by_: string) {
    if principals == {} then key !in s.acl
    else
      && key in s.acl && s.acl[key].updatedBy == by_
      && forall x :: x in s.acl[key].principals <==> x in principals
  }

  lemma RefusedUnlessInOrder(w: Write)
    requires w.SetAcl?
    ensures Refusal(w.c, w.key.workspace, w.user, w.who, w.key.collection, w.proposed).None? <==> SetsIt(w, w.key)
  {
    GateLetsThrough(w.c, w.key.workspace, w.user, w.who, w.key.collection);
    if Refusal(w.c, w.key.workspace, w.user, w.who, w.key.collection, w.proposed).None? {
      var names := set x | x in Strings(w.proposed);
      StringsAre(w.proposed);
      assert Sets(w, w.key, names);
    }
    if SetsIt(w, w.key) {
      var names :| Sets(w, w.key, names);
      assert AllPrincipals(w.proposed);
    }
  }

  lemma StringsAre(p: Proposed)
    requires AllPrincipals(p)
    ensures forall x :: x in Strings(p) <==> Some(x) in p.value
  {
    forall x | Some(x) in p.value ensures x in Strings(p) {
      var i :| 0 <= i < |p.value| && p.value[i] == Some(x);
      assert Strings(p)[i] == x;
    }
    forall x | x in Strings(p) ensures Some(x) in p.value {
      var i :| 0 <= i < |p.value| && Strings(p)[i] == x;
      assert p.value[i] == Some(x);
    }
  }

  lemma SetStores(s: Store, w: Write, principals: set<string>)
    requires w.SetAcl? && Sets(w, w.key, principals)
    ensures Stored(Apply(s, w), w.key, principals, w.user)
  {
    RefusedUnlessInOrder(w);
    StringsAre(w.proposed);
    DedupeIsTheSet(Strings(w.proposed));
    if Strings(w.proposed) != [] {
      assert Strings(w.proposed)[0] in principals;
    }
  }

  lemma OthersLeave(s: Store, w: Write, key: DocKey)
    requires !SetsIt(w, key)
    ensures key in Apply(s, w).acl <==> key in s.acl
    ensures key in s.acl ==> Apply(s, w).acl[key] == s.acl[key]
  {
    if w.SetAcl? && w.key == key {
      RefusedUnlessInOrder(w);
    }
  }

  /**
   Main result: over any run of requests a document's ACL is what the last request in order set, under the name of
   its caller, who was an admin or a manager of the workspace or a client with its flag; without such a request
   there is no row.
   */
  lemma {:induction false} RowsAreLatest(ws: seq<Write>, key: DocKey)
    ensures (forall i :: 0 <= i < |ws| ==> !SetsIt(ws[i], key)) ==> key !in Run(ws).acl
    ensures forall i, principals ::
      0 <= i < |ws| && Sets(ws[i], key, principals) && (forall j :: i < j < |ws| ==> !SetsIt(ws[j], key)) ==>
        Stored(Run(ws), key, principals, ws[i].user)
  {
    if ws != [] {
      var n := |ws| - 1;
      RowsAreLatest(ws[..n], key);
      forall i, principals | 0 <= i < |ws| && Sets(ws[i], key, principals)
                             && forall j :: i < j < |ws| ==> !SetsIt(ws[j], key)
        ensures Stored(Run(ws), key, principals, ws[i].user)
      {
        if i == n {
          SetStores(Run(ws[..n]), ws[n], principals);
        } else {
          OthersLeave(Run(ws[..n]), ws[n], key);
          assert ws[..n][i] == ws[i] && forall j :: i < j < n ==> !SetsIt(ws[..n][j], key);
        }
      }
      if forall i :: 0 <= i < |ws| ==> !SetsIt(ws[i], key) {
        OthersLeave(Run(ws[..n]), ws[n], key);
        assert forall i :: 0 <= i < n ==> !SetsIt(ws[..n][i], key);
      }
    }
  }

  // ----- the forms agree

  /** As a column value, the SQL clause and the in-process check decide alike, NULL and [] included. */
  lemma ClauseIsCheck(c: Column, slot: seq<string>)
    ensures Selected(AclPredicate(c, slot)) <==> AclAdmits(c, slot)
  {
    if c.Some? && c.value != [] {
      if AclAdmits(c, slot) {
        var i :| 0 <= i < |c.value| && c.value[i] in slot;
        var j :| 0 <= j < |slot| && slot[j] == c.value[i];
      }
    }
  }

  lemma AdmitsIsRule(s: Store, env: Env, collection: string, d: Document, user: string, ps: seq<string>)
    requires Invariant(s) && Loaded(s, d.workspace, user, ps)
    ensures AclAdmits(JoinedAcl(s, env, collection, d), ps) <==> MayRead(s, env, collection, d, user)
  {
    hide Names;
    hide AclAdmits;
    var acl := JoinedAcl(s, env, collection, d);
    if acl.None? {
      NoAclAdmits(ps);
    } else {
      assert WellFormed(s.acl[DocKey(env, d.workspace, collection, d.key)]);
      var gs :| ps == [UserPrincipal(user)] + Prefixed(gs) && forall g :: g in gs <==> InGroup(s, d.workspace, user, g);
      if AclAdmits(acl, ps) {
        AdmitsNames(acl.value, user, gs, ps);
      }
      if Names(acl.value, UserPrincipal(user)) {
        assert ps[0] == UserPrincipal(user);
        NamedIsAdmitted(acl.value, ps, 0);
      }
      if g: string :| InGroup(s, d.workspace, user, g) && Names(acl.value, GroupPrincipal(g)) {
        var j :| 0 <= j < |gs| && gs[j] == g;
        assert ps[j + 1] == Prefixed(gs)[j] == GroupPrincipal(g);
        NamedIsAdmitted(acl.value, ps, j + 1);
      }
    }
  }

  lemma NoAclAdmits(ps: seq<string>)
    ensures AclAdmits(None, ps)
  {}

  lemma NamedIsAdmitted(acl: seq<string>, ps: seq<string>, i: nat)
    requires i < |ps| && Names(acl, ps[i])
    ensures AclAdmits(Some(acl), ps)
  {}

  lemma AdmitsNames(acl: seq<string>, user: string, gs: seq<string>, ps: seq<string>)
    requires acl != [] && ps == [UserPrincipal(user)] + Prefixed(gs) && AclAdmits(Some(acl), ps)
    ensures Names(acl, UserPrincipal(user)) || exists g :: g in gs && Names(acl, GroupPrincipal(g))
  {
    var i :| 0 <= i < |acl| && acl[i] in ps;
    var j :| 0 <= j < |ps| && ps[j] == acl[i];
    if j > 0 {
      assert ps[j] == Prefixed(gs)[j - 1] && gs[j - 1] in gs;
    }
  }

  /**
   Main result: after any run of writes, the clause on the read path's left join and the check over the
   write path's subquery admit a caller exactly when the declared rule does.
   */
  lemma FormsAgree(
      ws: seq<Write>, env: Env, collection: string, d: Document, user: string, ps: seq<string>, subquery: Column)
    requires Loaded(Run(ws), d.workspace, user, ps)
    requires SubqueryAcl(Run(ws), env, collection, d, subquery)
    ensures Selected(AclPredicate(JoinedAcl(Run(ws), env, collection, d), ps)) <==>
      MayRead(Run(ws), env, collection, d, user)
    ensures AclAdmits(subquery, ps) <==> MayRead(Run(ws), env, collection, d, user)
  {
    ReachedRowsAreWellFormed(ws);
    JoinIsSubquery(Run(ws), env, collection, d, subquery);
    ClauseIsCheck(JoinedAcl(Run(ws), env, collection, d), ps);
    AdmitsIsRule(Run(ws), env, collection, d, user, ps);
  }

  // ----- what a write does to who may read

  /**
   Main result: after an ACL is set, exactly the callers it lists may read that document, an empty list
   making it public; the list's order and repetitions do not matter, and no other document changes.
   */
  lemma SetDecidesAccess(s: Store, k: DocKey, p: Proposed, by_: string, user: string)
    requires AllPrincipals(p)
    ensures var after := AfterSet(s, k, Strings(p), by_);
      && (MayRead(after, k.env, k.collection, Document(k.workspace, k.document), user) <==>
            Strings(p) == [] || Names(Strings(p), UserPrincipal(user))
            || exists g: string :: InGroup(s, k.workspace, user, g) && Names(Strings(p), GroupPrincipal(g)))
      && forall other: DocKey | other != k ::
           JoinedAcl(after, other.env, other.collection, Document(other.workspace, other.document))
           == JoinedAcl(s, other.env, other.collection, Document(other.workspace, other.document))
  {
    var ps := Strings(p);
    DedupeIsTheSet(ps);
    var after := AfterSet(s, k, ps, by_);
    assert forall x: string :: Names(Dedupe(ps), x) <==> Names(ps, x);
    assert forall g: string :: InGroup(after, k.workspace, user, g) <==> InGroup(s, k.workspace, user, g);
  }

  /** Naming a user in an ACL never admits a group that happens to have that user's id as its name. */
  lemma NamespacesHold(s: Store, env: Env, collection: string, d: Document, user: string, name: string)
    requires JoinedAcl(s, env, collection, d) == Some([UserPrincipal(name)])
    ensures MayRead(s, env, collection, d, user) <==> user == name
  {
    PrincipalsKeptApart(user, name);
    if MayRead(s, env, collection, d, user) && user != name {
      var g: string :| InGroup(s, d.workspace, user, g) && Names([UserPrincipal(name)], GroupPrincipal(g));
      PrincipalsKeptApart(name, g);
      assert false;
    }
  }
}
