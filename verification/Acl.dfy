/**
 Per-document ACLs and group membership: the `_acl` and `app.user_groups` rows, the verbs that write
 them, and the two forms of the rule that reads them.
 */
module Acl {
  import opened Wrappers
  import opened Principals

  datatype Env = Dev | Live

  datatype DocKey = DocKey(env: Env, workspace: string, collection: string, document: string)

  datatype AclRow = AclRow(principals: seq<string>, updatedBy: string)

  datatype Source = Sso | Manual

  datatype Membership = Membership(workspace: string, user: string, group: string, source: Source)

  /** The rows; `acl` is keyed by its primary key. */
  datatype Store = Store(acl: map<DocKey, AclRow>, groups: set<Membership>)

  // ----- deduplication

  /** `[...new Set(xs)]`: the first occurrence of each element, in order. */
  function Dedupe(xs: seq<string>): seq<string> {
    if xs == [] then []
    else
      var before, x := Dedupe(xs[..|xs| - 1]), xs[|xs| - 1];
      if x in before then before else before + [x]
  }

  lemma {:induction false} DedupeIsTheSet(xs: seq<string>)
    ensures Distinct(Dedupe(xs))
    ensures forall x :: x in Dedupe(xs) <==> x in xs
    ensures Dedupe(xs) == [] <==> xs == []
  {
    if xs != [] {
      var n := |xs| - 1;
      DedupeIsTheSet(xs[..n]);
      assert xs == xs[..n] + [xs[n]];
    }
  }

  function NonEmpty(gs: seq<string>): seq<string> {
    if gs == [] then []
    else NonEmpty(gs[..|gs| - 1]) + if gs[|gs| - 1] == "" then [] else [gs[|gs| - 1]]
  }

  lemma {:induction false} NonEmptyKeeps(gs: seq<string>)
    ensures forall g :: g in NonEmpty(gs) <==> g in gs && g != ""
  {
    if gs != [] {
      var n := |gs| - 1;
      NonEmptyKeeps(gs[..n]);
      assert gs == gs[..n] + [gs[n]];
    }
  }

  // ----- the writes as functions

  function AfterSet(s: Store, key: DocKey, principals: seq<string>, by_: string): Store {
    if principals == [] then s.(acl := s.acl - {key})
    else s.(acl := s.acl[key := AclRow(Dedupe(principals), by_)])
  }

  function AfterGroups(s: Store, workspace: string, user: string, groups: seq<string>, source: Source): Store {
    s.(groups := Others(s.groups, workspace, user, source)
                 + set g | g in groups && g != "" :: Membership(workspace, user, g, source))
  }

  /** The rows a replacement of one source's groups for one user leaves. */
  function Others(groups: set<Membership>, workspace: string, user: string, source: Source): set<Membership> {
    set m | m in groups && !(m.workspace == workspace && m.user == user && m.source == source)
  }

  function Rows(workspace: string, user: string, names: seq<string>, source: Source): set<Membership> {
    set g | g in names :: Membership(workspace, user, g, source)
  }

  /** The names to insert: non-empty, each once. */
  function Wanted(groups: seq<string>): seq<string> {
    Dedupe(NonEmpty(groups))
  }

  lemma WantedAreThose(groups: seq<string>)
    ensures forall g :: g in Wanted(groups) <==> g in groups && g != ""
  {
    DedupeIsTheSet(NonEmpty(groups));
    NonEmptyKeeps(groups);
  }

  // ----- who may manage an ACL

  datatype Role = Member | Manager | Admin

  datatype Manager_ = Console | Client(clientId: string)

  /** What a request finds around it: the config, the roles, the client flags, and whether writing and auditing work. */
  datatype Setting = Setting(
    collections: map<string, CollectionInfo>,
    roles: map<(string, string), Role>,
    managers: set<(string, string)>,
    writable: bool,
    audits: bool)

  datatype CollectionInfo = CollectionInfo(acl: bool, key: Option<string>)

  datatype Reason = UnknownCollection | InvalidIntent | AclDenied | NotWritable | AuditFailed

  datatype Outcome = Accepted(principals: seq<string>) | Denied(reason: Reason)

  predicate MayManage(c: Setting, workspace: string, user: string, who: Manager_) {
    match who
    case Console => (workspace, user) in c.roles && c.roles[(workspace, user)] in {Admin, Manager}
    case Client(id) => (id, workspace) in c.managers
  }

  function Gate(c: Setting, workspace: string, user: string, who: Manager_, collection: string): Option<Reason> {
    if collection !in c.collections then Some(UnknownCollection)
    else if !c.collections[collection].acl then Some(InvalidIntent)
    else if c.collections[collection].key.None? then Some(InvalidIntent)
    else if !MayManage(c, workspace, user, who) then Some(AclDenied)
    else None
  }

  /** The role the account has in the workspace, or the flag of the client for it, lets the caller manage ACLs. */
  ghost predicate Entitled(c: Setting, workspace: string, user: string, who: Manager_) {
    || (who == Console && (workspace, user) in c.roles && c.roles[(workspace, user)] != Member)
    || exists m :: m in c.managers && who == Client(m.0) && m.1 == workspace
  }

  /** The collection exists, declares ACLs, and its documents have a key to be named by. */
  ghost predicate HasAcls(c: Setting, collection: string) {
    collection in c.collections && c.collections[collection].acl && c.collections[collection].key != None
  }

  /** Who gets past the gate, and with what answer the others are turned away. */
  lemma GateLetsThrough(c: Setting, workspace: string, user: string, who: Manager_, collection: string)
    ensures var g := Gate(c, workspace, user, who, collection);
      && (g == None <==> HasAcls(c, collection) && Entitled(c, workspace, user, who))
      && (g == Some(AclDenied) <==> HasAcls(c, collection) && !Entitled(c, workspace, user, who))
      && (g == Some(UnknownCollection) <==> collection !in c.collections)
      && (g == Some(InvalidIntent) <==> collection in c.collections && !HasAcls(c, collection))
  {
    if who.Client? {
      if (who.clientId, workspace) in c.managers {
        var m := (who.clientId, workspace);
        assert m in c.managers && who == Client(m.0);
      }
    }
  }

  /** The caller's list as it arrives: None if it is not an array, and per element None if it is not a string. */
  type Proposed = Option<seq<Option<string>>>

  predicate AllPrincipals(p: Proposed) {
    p.Some? && forall i :: 0 <= i < |p.value| ==> p.value[i].Some? && IsPrincipal(p.value[i].value)
  }

  function Strings(p: Proposed): (r: seq<string>)
    requires AllPrincipals(p)
    ensures |r| == |p.value| && forall i :: 0 <= i < |r| ==> r[i] == p.value[i].value
  {
    seq(|p.value|, i requires 0 <= i < |p.value| => p.value[i].value)
  }

  /** The reason the request is refused before anything is written, if it is. */
  function Refusal(
      c: Setting, workspace: string, user: string, who: Manager_, collection: string, p: Proposed): Option<Reason> {
    if Gate(c, workspace, user, who, collection).Some? then Gate(c, workspace, user, who, collection)
    else if !AllPrincipals(p) then Some(InvalidIntent)
    else if !c.writable then Some(NotWritable)
    else None
  }

  // ----- the verbs

  class AclStore {
    var acl: map<DocKey, AclRow>
    var groups: set<Membership>

    function Value(): Store
      reads this
    {
      Store(acl, groups)
    }

    constructor ()
      ensures Value() == Store(map[], {})
    {
      acl := map[];
      groups := {};
    }

    /**
     Every refusal but the last leaves the rows alone. The audit is written after the row, so a request
     refused because it could not be audited has already taken effect.
     */
    method SetDocumentAcl(
        c: Setting, env: Env, workspace: string, user: string, who: Manager_, collection: string, id: string,
        p: Proposed)
      returns (r: Outcome)
      modifies this`acl
      ensures var refused := Refusal(c, workspace, user, who, collection, p);
        if refused.Some? then r == Denied(refused.value) && Value() == old(Value())
        else
          && Value() == AfterSet(old(Value()), DocKey(env, workspace, collection, id), Strings(p), user)
          && r == if c.audits then Accepted(Dedupe(Strings(p))) else Denied(AuditFailed)
      ensures Value() != old(Value()) || r.Accepted? ==> HasAcls(c, collection) && Entitled(c, workspace, user, who)
      ensures HasAcls(c, collection) && !Entitled(c, workspace, user, who) ==>
        r == Denied(AclDenied) && Value() == old(Value())
    {
      GateLetsThrough(c, workspace, user, who, collection);
      var gate := Gate(c, workspace, user, who, collection);
      if gate.Some? {
        return Denied(gate.value);
      }
      if !AllPrincipals(p) {
        return Denied(InvalidIntent);
      }
      var principals := Dedupe(Strings(p));
      DedupeIsTheSet(Strings(p));
      if !c.writable {
        return Denied(NotWritable);
      }
      var key := DocKey(env, workspace, collection, id);
      if |principals| == 0 {
        acl := acl - {key};
      } else {
        acl := acl[key := AclRow(principals, user)];
      }
      if !c.audits {
        return Denied(AuditFailed);
      }
      r := Accepted(principals);
    }

    method GetDocumentAcl(
        c: Setting, env: Env, workspace: string, user: string, who: Manager_, collection: string, id: string)
      returns (r: Outcome)
      ensures var refused := Gate(c, workspace, user, who, collection);
        var key := DocKey(env, workspace, collection, id);
        r == if refused.Some? then Denied(refused.value)
             else if !c.writable then Denied(NotWritable)
             else if !c.audits then Denied(AuditFailed)
             else Accepted(if key in acl then acl[key].principals else [])
      ensures r.Accepted? ==> HasAcls(c, collection) && Entitled(c, workspace, user, who)
      ensures HasAcls(c, collection) && !Entitled(c, workspace, user, who) ==> r == Denied(AclDenied)
    {
      GateLetsThrough(c, workspace, user, who, collection);
      var gate := Gate(c, workspace, user, who, collection);
      if gate.Some? {
        return Denied(gate.value);
      }
      if !c.writable {
        return Denied(NotWritable);
      }
      var key := DocKey(env, workspace, collection, id);
      var found := if key in acl then acl[key].principals else [];
      r := if c.audits then Accepted(found) else Denied(AuditFailed);
    }

    method SetUserGroups(workspace: string, user: string, gs: seq<string>, source: Source)
      modifies this`groups
      ensures Value() == AfterGroups(old(Value()), workspace, user, gs, source)
    {
      DeleteGroups(workspace, user, source);
      InsertGroups(workspace, user, Wanted(gs), source);
      WantedAreThose(gs);
    }

    method DeleteGroups(workspace: string, user: string, source: Source)
      modifies this`groups
      ensures groups == Others(old(groups), workspace, user, source)
    {
      var todo := groups;
      while todo != {}
        invariant todo <= old(groups)
        invariant groups == Others(old(groups), workspace, user, source) + todo
        decreases |todo|
      {
        var m :| m in todo;
        todo := todo - {m};
        if m.workspace == workspace && m.user == user && m.source == source {
          groups := groups - {m};
        }
      }
    }

    method InsertGroups(workspace: string, user: string, wanted: seq<string>, source: Source)
      modifies this`groups
      ensures groups == old(groups) + Rows(workspace, user, wanted, source)
    {
      for i := 0 to |wanted|
        invariant groups == old(groups) + Rows(workspace, user, wanted[..i], source)
      {
        assert wanted[..i + 1] == wanted[..i] + [wanted[i]];
        groups := groups + {Membership(workspace, user, wanted[i], source)};
      }
      assert wanted[..|wanted|] == wanted;
    }
  }
}
