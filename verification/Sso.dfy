/**
 SSO provisioning: the role is written once per user and provider, group membership is replaced on
 every login whose claim arrived, and the console's own memberships are left alone throughout.
 */
module Sso {
  import opened Wrappers
  import opened Acl

  /** APP_ROLES, lowest first. */
  function Rank(r: Role): nat {
    match r
    case Member => 0
    case Manager => 1
    case Admin => 2
  }

  /** A provider's group map. */
  datatype Provider = Provider(groups: map<string, Role>, default_: Role)

  /** The group claim as it arrives; a list's non-string elements are None. */
  datatype Claim = Absent | Null | Text(value: string) | List(items: seq<Option<string>>) | Other

  function StringsOf(items: seq<Option<string>>): seq<string> {
    if items == [] then []
    else
      var before, last := StringsOf(items[..|items| - 1]), items[|items| - 1];
      if last.Some? then before + [last.value] else before
  }

  function Asserted(c: Claim): seq<string> {
    match c
    case Text(g) => [g]
    case List(items) => StringsOf(items)
    case _ => []
  }

  /** The groups to record, or None when nothing is known and nothing may change. */
  function AssertedGroups(p: Option<Provider>, c: Claim): Option<seq<string>> {
    if p.None? || c.Absent? || c.Null? then None else Some(NonEmpty(Asserted(c)))
  }

  // ----- the role

  predicate Candidate(p: Provider, asserted: seq<string>, r: Role) {
    r == p.default_ || exists g :: g in asserted && g in p.groups && p.groups[g] == r
  }

  /** `r` is the highest of the default role and the roles the asserted groups map to: admin, manager, member. */
  predicate Highest(p: Provider, asserted: seq<string>, r: Role) {
    && Candidate(p, asserted, r)
    && (Candidate(p, asserted, Admin) ==> r == Admin)
    && (Candidate(p, asserted, Manager) ==> r != Member)
  }

  lemma HighestUnique(p: Provider, asserted: seq<string>, q: Role, r: Role)
    requires Highest(p, asserted, q) && Highest(p, asserted, r)
    ensures q == r
  {}

  /** The loop of `roleForSsoUser` as a function of how far it has come. */
  function Best(p: Provider, asserted: seq<string>): Role {
    if asserted == [] then p.default_
    else
      var best, g := Best(p, asserted[..|asserted| - 1]), asserted[|asserted| - 1];
      if g in p.groups && Rank(p.groups[g]) > Rank(best) then p.groups[g] else best
  }

  lemma {:induction false} BestIsHighest(p: Provider, asserted: seq<string>)
    ensures Highest(p, asserted, Best(p, asserted))
  {
    if asserted == [] {
      assert forall q: Role :: Candidate(p, asserted, q) ==> q == p.default_;
    } else {
      var n := |asserted| - 1;
      var front, g := asserted[..n], asserted[n];
      BestIsHighest(p, front);
      assert asserted == front + [g];
      forall q: Role
        ensures Candidate(p, asserted, q) <==> Candidate(p, front, q) || (g in p.groups && p.groups[g] == q)
      {
        if q != p.default_ && Candidate(p, asserted, q) {
          var h :| h in asserted && h in p.groups && p.groups[h] == q;
          assert h in front || h == g;
        }
        if g in p.groups && p.groups[g] == q {
          assert g in asserted;
        }
      }
    }
  }

  /** Only which groups are asserted matters, not their order or repetitions. */
  lemma OrderIsIrrelevant(p: Provider, a: seq<string>, b: seq<string>)
    requires forall g :: g in a <==> g in b
    ensures Best(p, a) == Best(p, b)
  {
    BestIsHighest(p, a);
    BestIsHighest(p, b);
    assert forall q: Role :: Candidate(p, a, q) <==> Candidate(p, b, q);
    HighestUnique(p, a, Best(p, a), Best(p, b));
  }

  method RoleForSsoUser(p: Option<Provider>, c: Claim) returns (r: Role)
    ensures p.None? ==> r == Member
    ensures p.Some? ==> r == Best(p.value, Asserted(c)) && Highest(p.value, Asserted(c), r)
  {
    if p.None? {
      return Member;
    }
    var asserted := Asserted(c);
    r := p.value.default_;
    for i := 0 to |asserted|
      invariant r == Best(p.value, asserted[..i])
    {
      assert asserted[..i + 1][..i] == asserted[..i];
      var g := asserted[i];
      if g in p.value.groups && Rank(p.value.groups[g]) > Rank(r) {
        r := p.value.groups[g];
      }
    }
    assert asserted[..|asserted|] == asserted;
    BestIsHighest(p.value, asserted);
  }

  function ProvisionedRole(p: Option<Provider>, c: Claim): Role {
    if p.None? then Member else Best(p.value, Asserted(c))
  }

  // ----- runs

  /** `provider` is the configuration in force at that login. */
  datatype Event =
    | Login(workspace: string, user: string, providerId: string, provider: Option<Provider>, claim: Claim)
    | ConsoleGroups(workspace: string, user: string, groups: seq<string>)
    | ConsoleRole(workspace: string, user: string, role: Role)

  datatype Accounts = Accounts(
    provisioned: set<(string, string)>,
    roles: map<string, Role>,
    members: map<(string, string), Role>,
    store: Store)

  function Provision(a: Accounts, e: Event): Accounts
    requires e.Login?
  {
    var pair := (e.user, e.providerId);
    if pair in a.provisioned then a
    else
      var role := ProvisionedRole(e.provider, e.claim);
      a.(provisioned := a.provisioned + {pair},
         roles := a.roles[e.user := role],
         members := a.members[(e.workspace, e.user) := role])
  }

  function SyncGroups(s: Store, e: Event): Store
    requires e.Login?
  {
    var gs := AssertedGroups(e.provider, e.claim);
    if gs.None? then s else AfterGroups(s, e.workspace, e.user, gs.value, Source.Sso)
  }

  function After(a: Accounts, e: Event): Accounts {
    match e
    case Login(_, _, _, _, _) =>
      var b := Provision(a, e);
      b.(store := SyncGroups(b.store, e))
    case ConsoleGroups(ws, u, gs) => a.(store := AfterGroups(a.store, ws, u, gs, Manual))
    case ConsoleRole(ws, u, r) => a.(roles := a.roles[u := r], members := a.members[(ws, u) := r])
  }

  const START := Accounts({}, map[], map[], Store(map[], {}))

  function Run(es: seq<Event>): Accounts {
    if es == [] then START else After(Run(es[..|es| - 1]), es[|es| - 1])
  }

  /** The rows the login callback writes, with the membership table behind it. */
  class Directory {
    var provisioned: set<(string, string)>
    var roles: map<string, Role>
    var members: map<(string, string), Role>
    const table: AclStore

    function Value(): Accounts
      reads this, table
    {
      Accounts(provisioned, roles, members, table.Value())
    }

    constructor ()
      ensures Value() == START && fresh(table)
    {
      provisioned := {};
      roles := map[];
      members := map[];
      table := new AclStore();
    }

    /** True exactly once per pair: the insert reports whether it added a row. */
    method FirstProvision(user: string, providerId: string) returns (first: bool)
      modifies this`provisioned
      ensures first <==> (user, providerId) !in old(provisioned)
      ensures provisioned == old(provisioned) + {(user, providerId)}
    {
      first := (user, providerId) !in provisioned;
      provisioned := provisioned + {(user, providerId)};
    }

    method ProvisionUser(workspace: string, user: string, providerId: string, provider: Option<Provider>, claim: Claim)
      modifies this, table
      ensures Value() == After(old(Value()), Login(workspace, user, providerId, provider, claim))
    {
      var first := FirstProvision(user, providerId);
      if first {
        var role := RoleForSsoUser(provider, claim);
        roles := roles[user := role];
        members := members[(workspace, user) := role];
      }
      assert first || provisioned == old(provisioned);
      var groups := AssertedGroups(provider, claim);
      if groups.None? {
        return;
      }
      table.SetUserGroups(workspace, user, groups.value, Source.Sso);
    }
  }

  // ----- membership

  /** The event sets this user's groups from this source. */
  predicate Sets(e: Event, workspace: string, user: string, source: Source) {
    match source
    case Sso =>
      e.Login? && e.workspace == workspace && e.user == user && AssertedGroups(e.provider, e.claim).Some?
    case Manual => e.ConsoleGroups? && e.workspace == workspace && e.user == user
  }

  function SetTo(e: Event): seq<string>
    requires e.Login? || e.ConsoleGroups?
  {
    if e.ConsoleGroups? then e.groups else Asserted(e.claim)
  }

  ghost predicate LastToSet(es: seq<Event>, i: nat, workspace: string, user: string, source: Source) {
    && i < |es| && Sets(es[i], workspace, user, source)
    && forall j :: i < j < |es| ==> !Sets(es[j], workspace, user, source)
  }

  /** One event either sets a source's groups or leaves them alone. */
  lemma GroupsStep(a: Accounts, e: Event, workspace: string, user: string, source: Source, g: string)
    ensures Membership(workspace, user, g, source) in After(a, e).store.groups <==>
      if Sets(e, workspace, user, source) then g in SetTo(e) && g != ""
      else Membership(workspace, user, g, source) in a.store.groups
  {
    if e.Login? && AssertedGroups(e.provider, e.claim).Some? {
      NonEmptyKeeps(Asserted(e.claim));
    }
  }

  /**
   Main result: after any interleaving of logins and console edits, a user's groups from each source are
   exactly the non-empty ones of the last event that set that source, and none if there was no such event.
   For SSO those are the logins whose claim was present; for the console, its own edits.
   */
  lemma {:induction false} MembershipIsLatest(
      es: seq<Event>, workspace: string, user: string, source: Source, g: string)
    ensures Membership(workspace, user, g, source) in Run(es).store.groups <==>
      exists i: nat :: LastToSet(es, i, workspace, user, source) && g in SetTo(es[i]) && g != ""
  {
    if es != [] {
      var n := |es| - 1;
      MembershipIsLatest(es[..n], workspace, user, source, g);
      GroupsStep(Run(es[..n]), es[n], workspace, user, source, g);
      if Sets(es[n], workspace, user, source) {
        assert LastToSet(es, n, workspace, user, source);
        forall i: nat | LastToSet(es, i, workspace, user, source) ensures i == n {
        }
      } else {
        forall i: nat
          ensures LastToSet(es, i, workspace, user, source) <==> LastToSet(es[..n], i, workspace, user, source)
        {
        }
      }
    }
  }

  // ----- the role over runs

  /** The first login of its user through its provider. */
  ghost predicate FirstLogin(es: seq<Event>, i: nat) {
    && i < |es| && es[i].Login?
    && forall j :: 0 <= j < i ==> !(es[j].Login? && es[j].user == es[i].user && es[j].providerId == es[i].providerId)
  }

  ghost predicate WritesRole(es: seq<Event>, i: nat, user: string) {
    i < |es| && es[i].user == user && (es[i].ConsoleRole? || FirstLogin(es, i))
  }

  ghost predicate LastRole(es: seq<Event>, i: nat, user: string) {
    WritesRole(es, i, user) && forall j :: i < j < |es| ==> !WritesRole(es, j, user)
  }

  function RoleWritten(e: Event): Role
    requires e.Login? || e.ConsoleRole?
  {
    if e.ConsoleRole? then e.role else ProvisionedRole(e.provider, e.claim)
  }

  lemma {:induction false} ProvisionedExactly(es: seq<Event>, user: string, providerId: string)
    ensures (user, providerId) in Run(es).provisioned <==>
      exists i :: 0 <= i < |es| && es[i].Login? && es[i].user == user && es[i].providerId == providerId
  {
    if es != [] {
      var n := |es| - 1;
      ProvisionedExactly(es[..n], user, providerId);
      if i :| 0 <= i < |es| && es[i].Login? && es[i].user == user && es[i].providerId == providerId {
        assert i < n ==> es[..n][i] == es[i];
      }
    }
  }

  lemma FirstLoginIsUnprovisioned(es: seq<Event>)
    requires es != [] && es[|es| - 1].Login?
    ensures var n := |es| - 1;
      FirstLogin(es, n) <==> (es[n].user, es[n].providerId) !in Run(es[..n]).provisioned
  {
    var n := |es| - 1;
    ProvisionedExactly(es[..n], es[n].user, es[n].providerId);
    if j :| 0 <= j < n && es[j].Login? && es[j].user == es[n].user && es[j].providerId == es[n].providerId {
      assert es[..n][j] == es[j];
    }
  }

  lemma WritesRolePrefix(es: seq<Event>, n: nat, i: nat, user: string)
    requires i < n <= |es|
    ensures WritesRole(es[..n], i, user) <==> WritesRole(es, i, user)
  {
    assert forall j :: 0 <= j < n ==> es[..n][j] == es[j];
  }

  /**
   Main result: a user's role is the one written by the last console change or first login through a
   provider, whichever came later; no other login writes it. A first login writes the highest of the
   provider's default and its asserted groups' roles.
   */
  lemma {:induction false} RoleIsLatest(es: seq<Event>, user: string)
    ensures user in Run(es).roles <==> exists i: nat :: LastRole(es, i, user)
    ensures forall i: nat :: LastRole(es, i, user) ==>
      user in Run(es).roles && Run(es).roles[user] == RoleWritten(es[i])
  {
    if es != [] {
      var n := |es| - 1;
      RoleIsLatest(es[..n], user);
      if es[n].Login? {
        FirstLoginIsUnprovisioned(es);
      }
      if WritesRole(es, n, user) {
        assert LastRole(es, n, user);
      } else {
        forall i: nat ensures LastRole(es, i, user) <==> LastRole(es[..n], i, user) {
          LastRolePrefix(es, i, user);
        }
      }
    }
  }

  lemma LastRolePrefix(es: seq<Event>, i: nat, user: string)
    requires es != [] && !WritesRole(es, |es| - 1, user)
    ensures LastRole(es, i, user) <==> LastRole(es[..|es| - 1], i, user)
  {
    var n := |es| - 1;
    forall j: nat | j < n ensures WritesRole(es[..n], j, user) <==> WritesRole(es, j, user) {
      WritesRolePrefix(es, n, j, user);
    }
  }

  /** Whoever writes a role writes it to the account and to the workspace membership, which authorization reads. */
  lemma RoleReachesMembership(es: seq<Event>, e: Event)
    requires WritesRole(es + [e], |es|, e.user)
    ensures var after := Run(es + [e]);
      && e.user in after.roles && (e.workspace, e.user) in after.members
      && after.roles[e.user] == after.members[(e.workspace, e.user)] == RoleWritten(e)
  {
    RunPush(es, e);
    if e.Login? {
      FirstLoginIsUnprovisioned(es + [e]);
      assert (es + [e])[..|es|] == es;
    }
  }

  /** What a first login writes. */
  lemma FirstLoginWritesHighest(e: Event)
    requires e.Login? && e.provider.Some?
    ensures Highest(e.provider.value, Asserted(e.claim), RoleWritten(e))
  {
    BestIsHighest(e.provider.value, Asserted(e.claim));
  }

  /** Logging in again through the same provider, whatever it asserts, never changes the role. */
  lemma LaterLoginsKeepRole(es: seq<Event>, e: Event, i: nat)
    requires e.Login? && i < |es| && es[i].Login? && es[i].user == e.user && es[i].providerId == e.providerId
    ensures Run(es + [e]).roles == Run(es).roles && Run(es + [e]).members == Run(es).members
  {
    assert (es + [e])[..|es|] == es;
    ProvisionedExactly(es, e.user, e.providerId);
  }

  /** A promotion made in the console does not survive a first login through another provider. */
  lemma SecondProviderOverrides(workspace: string, user: string)
    ensures exists es: seq<Event>, e: Event ::
      && e.Login? && e.user == user && Run(es).roles == map[user := Admin]
      && (exists i :: 0 <= i < |es| && es[i].Login? && es[i].user == user)
      && Run(es + [e]).roles == map[user := Member]
  {
    hide After;
    hide Run;
    var first, e := Login(workspace, user, "a", None, Absent), Login(workspace, user, "b", None, Absent);
    var es := [first] + [ConsoleRole(workspace, user, Admin)];
    assert es[0] == first;
    PromotedRun(workspace, user, first);
    RunPush(es, e);
    SecondLoginOverrides(Run(es), workspace, user, e);
  }

  /** After a first login and a promotion the account is an admin's, known through one provider. */
  lemma PromotedRun(workspace: string, user: string, first: Event)
    requires first == Login(workspace, user, "a", None, Absent)
    ensures var s := Run([first] + [ConsoleRole(workspace, user, Admin)]);
      s.roles == map[user := Admin] && s.provisioned == {(user, "a")}
  {
    RunPush([], first);
    RunPush([first], ConsoleRole(workspace, user, Admin));
    assert [] + [first] == [first];
    FirstLoginAlone(workspace, user, first);
  }

  lemma SecondLoginOverrides(s: Accounts, workspace: string, user: string, e: Event)
    requires s.roles == map[user := Admin] && s.provisioned == {(user, "a")}
    requires e == Login(workspace, user, "b", None, Absent)
    ensures After(s, e).roles == map[user := Member]
  {}

  lemma RunPush(es: seq<Event>, e: Event)
    ensures Run(es + [e]) == After(Run(es), e)
  {
    assert (es + [e])[..|es|] == es;
  }

  lemma FirstLoginAlone(workspace: string, user: string, e: Event)
    requires e == Login(workspace, user, "a", None, Absent)
    ensures After(START, e).roles == map[user := Member] && After(START, e).provisioned == {(user, "a")}
  {}
}
