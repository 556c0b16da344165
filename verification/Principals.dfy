/** Who a caller is, for a per-document ACL: namespaced strings, so no group name can pass for a user id. */
module Principals {
  import opened Wrappers

  const USER_PREFIX := "user:"
  const GROUP_PREFIX := "group:"

  function UserPrincipal(userId: string): string {
    USER_PREFIX + userId
  }

  function GroupPrincipal(group: string): string {
    GROUP_PREFIX + group
  }

  predicate IsPrincipal(p: string) {
    if USER_PREFIX <= p then |p| > |USER_PREFIX|
    else GROUP_PREFIX <= p && |p| > |GROUP_PREFIX|
  }

  /** Well-formed principals are exactly the two namespaces over non-empty names. */
  lemma PrincipalForms(p: string)
    ensures IsPrincipal(p) <==>
      (exists n: string :: n != "" && p == UserPrincipal(n)) || (exists n: string :: n != "" && p == GroupPrincipal(n))
  {
    if IsPrincipal(p) {
      if USER_PREFIX <= p {
        assert p == UserPrincipal(p[|USER_PREFIX|..]);
      } else {
        assert p == GroupPrincipal(p[|GROUP_PREFIX|..]);
      }
    }
    if n: string :| n != "" && p == GroupPrincipal(n) {
      assert p[0] == 'g' && !(USER_PREFIX <= p) by {
        assert p[0] == GROUP_PREFIX[0];
      }
    }
  }

  /** A principal says which namespace it is from and which name it carries. */
  lemma PrincipalsKeptApart(m: string, n: string)
    ensures UserPrincipal(m) != GroupPrincipal(n)
    ensures UserPrincipal(m) == UserPrincipal(n) ==> m == n
    ensures GroupPrincipal(m) == GroupPrincipal(n) ==> m == n
  {
    assert UserPrincipal(m)[0] == 'u' && GroupPrincipal(n)[0] == 'g';
    assert UserPrincipal(m)[|USER_PREFIX|..] == m && UserPrincipal(n)[|USER_PREFIX|..] == n;
    assert GroupPrincipal(m)[|GROUP_PREFIX|..] == m && GroupPrincipal(n)[|GROUP_PREFIX|..] == n;
  }

  /** `acl.some(p => principals.includes(p))`, with no ACL row and an empty one both public. */
  predicate AclAdmits(acl: Option<seq<string>>, principals: seq<string>) {
    acl.None? || acl.value == [] || exists i :: 0 <= i < |acl.value| && acl.value[i] in principals
  }
}
