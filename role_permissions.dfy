/** `has_permission` of src/utils/permissions.rs (lines 34-40): sort the guild's role permissions
    in place by node length, then ask whether a permission of a held role matches the node. */
module RolePermissions {

  import opened Text
  import opened Permissions

  /** A Discord role id (`RoleId`, a 64-bit snowflake). */
  type RoleId = nat

  /** One row of the guild's permission table: a role and a permission granted to it. */
  datatype RolePermission = RolePermission(roleId: RoleId, permission: Permission)

  /** The sort key: the node's length in bytes, as `node().len()`. */
  function NodeLength(rp: RolePermission): nat
  {
    ByteLen(rp.permission.node)
  }

  predicate SortedByNodeLength(s: seq<RolePermission>)
  {
    forall k, l | 0 <= k < l < |s| :: NodeLength(s[k]) <= NodeLength(s[l])
  }

  /** Some entry of `entries` whose role is among `roles` has a permission matching `node`, by
      `perm.matches(node)` as written (line 39), which indexes the node by its byte length. */
  predicate Grants(roles: seq<RoleId>, entries: seq<RolePermission>, node: string)
  {
    exists i | 0 <= i < |entries| :: entries[i].roleId in roles && MatchesAsWritten(entries[i].permission, node)
  }

  /** The same question asked of the character-indexed matcher. */
  predicate GrantsByCharacter(roles: seq<RoleId>, entries: seq<RolePermission>, node: string)
  {
    exists i | 0 <= i < |entries| :: entries[i].roleId in roles && Matches(entries[i].permission, node)
  }

  /** The `filter(..).map(..).any(..)` chain of lines 36-39, entry by entry in order. */
  function AnyHeldMatches(roles: seq<RoleId>, entries: seq<RolePermission>, node: string): bool
  {
    if entries == [] then false
    else (entries[0].roleId in roles && MatchesAsWritten(entries[0].permission, node)) || AnyHeldMatches(roles, entries[1..], node)
  }

  /** The entries whose role is held. */
  function HeldEntries(roles: seq<RoleId>, entries: seq<RolePermission>): seq<RolePermission>
  {
    if entries == [] then []
    else (if entries[0].roleId in roles then [entries[0]] else []) + HeldEntries(roles, entries[1..])
  }

  // ----- the in-place sort --------------------------------------------------------------------

  /** The first `n` entries of `a` are sorted by node length. */
  predicate SortedPrefix(a: array<RolePermission>, n: int)
    reads a
  {
    forall k, l | 0 <= k < l < n && l < a.Length :: NodeLength(a[k]) <= NodeLength(a[l])
  }

  /** `sort_unstable_by_key(|rp| rp.permission().node().len())` (line 35): the array ends sorted
      by node length and holds the same entries. Which of several equally long entries comes
      first is unspecified, as in the source. */
  method SortByNodeLength(a: array<RolePermission>)
    modifies a
    ensures SortedByNodeLength(a[..])
    ensures multiset(a[..]) == multiset(old(a[..]))
  {
    if a.Length == 0 {
      return;
    }
    for i := 1 to a.Length
      invariant SortedPrefix(a, i)
      invariant multiset(a[..]) == multiset(old(a[..]))
    {
      InsertLast(a, i);
    }
  }

  /** Moves `a[i]` left past every longer entry, so that the first `i + 1` entries are sorted. */
  method InsertLast(a: array<RolePermission>, i: int)
    requires 0 < i < a.Length && SortedPrefix(a, i)
    modifies a
    ensures SortedPrefix(a, i + 1)
    ensures multiset(a[..]) == multiset(old(a[..]))
  {
    var j := i;
    while j > 0 && NodeLength(a[j - 1]) > NodeLength(a[j])
      invariant 0 <= j <= i
      invariant forall k, l | 0 <= k < l <= i && k != j && l != j :: NodeLength(a[k]) <= NodeLength(a[l])
      invariant forall k | j < k <= i :: NodeLength(a[j]) < NodeLength(a[k])
      invariant 0 < j < i ==> NodeLength(a[j - 1]) <= NodeLength(a[j + 1])
      invariant multiset(a[..]) == multiset(old(a[..]))
    {
      Swap(a, j);
      j := j - 1;
    }
  }

  method Swap(a: array<RolePermission>, j: int)
    requires 0 < j < a.Length
    modifies a
    ensures a[..] == old(a[..])[j - 1 := old(a[j])][j := old(a[j - 1])]
    ensures multiset(a[..]) == multiset(old(a[..]))
  {
    a[j - 1], a[j] := a[j], a[j - 1];
  }

  /** `has_permission`: sorts `entries` in place, then answers whether a held role grants `node`. */
  method HasPermission(roles: seq<RoleId>, entries: array<RolePermission>, node: string) returns (granted: bool)
    modifies entries
    ensures SortedByNodeLength(entries[..])
    ensures multiset(entries[..]) == multiset(old(entries[..]))
    ensures granted <==> Grants(roles, old(entries[..]), node)
  {
    SortByNodeLength(entries);
    granted := AnyHeldMatches(roles, entries[..], node);
    AnyHeldMatchesGrants(roles, entries[..], node);
    GrantsIgnoresOrder(roles, entries[..], old(entries[..]), node);
  }

  // ----- properties ---------------------------------------------------------------------------

  /** The `any` chain answers exactly whether some held entry matches. */
  lemma {:induction false} AnyHeldMatchesGrants(roles: seq<RoleId>, entries: seq<RolePermission>, node: string)
    ensures AnyHeldMatches(roles, entries, node) <==> Grants(roles, entries, node)
    decreases |entries|
  {
    if entries != [] {
      AnyHeldMatchesGrants(roles, entries[1..], node);
      if Grants(roles, entries[1..], node) {
        var i :| 0 <= i < |entries[1..]| && entries[1..][i].roleId in roles && MatchesAsWritten(entries[1..][i].permission, node);
        assert entries[i + 1] == entries[1..][i];
      }
      if Grants(roles, entries, node) && !(entries[0].roleId in roles && MatchesAsWritten(entries[0].permission, node)) {
        var i :| 0 <= i < |entries| && entries[i].roleId in roles && MatchesAsWritten(entries[i].permission, node);
        assert entries[1..][i - 1] == entries[i];
      }
    }
  }

  /** Whether a permission is granted does not depend on the order of the entries. */
  lemma GrantsIgnoresOrder(roles: seq<RoleId>, s: seq<RolePermission>, t: seq<RolePermission>, node: string)
    requires multiset(s) == multiset(t)
    ensures Grants(roles, s, node) <==> Grants(roles, t, node)
  {
    if Grants(roles, s, node) {
      var i :| 0 <= i < |s| && s[i].roleId in roles && MatchesAsWritten(s[i].permission, node);
      assert s[i] in multiset(t);
      var k :| 0 <= k < |t| && t[k] == s[i];
    }
    if Grants(roles, t, node) {
      var i :| 0 <= i < |t| && t[i].roleId in roles && MatchesAsWritten(t[i].permission, node);
      assert t[i] in multiset(s);
      var k :| 0 <= k < |s| && s[k] == t[i];
    }
  }

  /** Entries of roles not held never affect the answer: only the held entries count. */
  lemma {:induction false} OnlyHeldEntriesCount(roles: seq<RoleId>, entries: seq<RolePermission>, node: string)
    ensures Grants(roles, entries, node) <==> Grants(roles, HeldEntries(roles, entries), node)
    ensures forall e | e in HeldEntries(roles, entries) :: e in entries && e.roleId in roles
    decreases |entries|
  {
    if entries != [] {
      OnlyHeldEntriesCount(roles, entries[1..], node);
      AnyHeldMatchesGrants(roles, entries, node);
      AnyHeldMatchesGrants(roles, entries[1..], node);
      var rest := HeldEntries(roles, entries[1..]);
      AnyHeldMatchesGrants(roles, rest, node);
      var head := if entries[0].roleId in roles then [entries[0]] else [];
      AnyHeldMatchesGrants(roles, head + rest, node);
      if head != [] {
        assert (head + rest)[0] == entries[0] && (head + rest)[1..] == rest;
      } else {
        assert head + rest == rest;
      }
    }
  }

  /** With no roles, or no entries, nothing is granted. */
  lemma NothingGrantedWithoutRolesOrEntries(roles: seq<RoleId>, entries: seq<RolePermission>, node: string)
    requires roles == [] || entries == []
    ensures !Grants(roles, entries, node)
  {
  }

  /** When every node in the table is ASCII, the answer is the one the character-indexed matcher
      gives. */
  lemma GrantsAgreesOnAscii(roles: seq<RoleId>, entries: seq<RolePermission>, node: string)
    requires forall i | 0 <= i < |entries| :: IsAscii(entries[i].permission.node)
    ensures Grants(roles, entries, node) <==> GrantsByCharacter(roles, entries, node)
  {
    forall i | 0 <= i < |entries|
      ensures MatchesAsWritten(entries[i].permission, node) == Matches(entries[i].permission, node)
    {
      MatchesAgreesOnAscii(entries[i].permission, node);
    }
  }

  /** A role holding the wildcard over `é` is not granted `é.x`, though by character it would be. */
  lemma NonAsciiWildcardRoleMissesChild()
    ensures !Grants([1], [RolePermission(1, Permission("é", true))], "é.x")
    ensures GrantsByCharacter([1], [RolePermission(1, Permission("é", true))], "é.x")
  {
    NonAsciiWildcardMissesChild();
    assert [RolePermission(1, Permission("é", true))][0].permission == Permission("é", true);
  }
}
