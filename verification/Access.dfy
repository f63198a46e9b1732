/** The role decision of auth.js: allow-lists, group claims and the Graph lookup that stands in for an overlong
    claim. */
module Access {
  import opened Prelude

  datatype Role = Admin | ReadOnly | Denied

  datatype Reason = OnList(upn: string) | InGroup(id: string) | NothingConfigured | NoMatch

  datatype Decision = Decision(role: Role, reason: Reason)

  /** `oid` and `upn` are empty when the token has none. */
  datatype User = User(upn: string, oid: string, groups: seq<string>, groupsOverage: bool)

  /** The id of a configured group entry; None stands for an entry without one. */
  type GroupId = Option<string>

  datatype Lists = Lists(allowedUsers: seq<string>, allowedGroups: seq<GroupId>,
                         readonlyUsers: seq<string>, readonlyGroups: seq<GroupId>)

  /** checkMemberGroups for the user at hand: the ids Graph answers with when asked about one, or a failure. */
  type Graph = GroupId -> Option<seq<string>>

  /** isUserInGroup: no list that Graph answers with holds a missing id. */
  predicate Confirms(graph: Graph, id: GroupId) {
    id.Some? && graph(id).Some? && id.value in graph(id).value
  }

  // ----- The code

  /** `groups.find(g => ids.includes(g))`. */
  function FirstClaim(groups: seq<string>, ids: seq<GroupId>): (hit: GroupId)
    ensures hit.Some? ==> hit.value in groups && hit in ids
  {
    if groups == [] then None else if Some(groups[0]) in ids then Some(groups[0]) else FirstClaim(groups[1..], ids)
  }

  /** The first id that Graph confirms. */
  function FirstMember(ids: seq<GroupId>, graph: Graph): (hit: GroupId)
    ensures hit.Some? ==> hit in ids && Confirms(graph, hit)
  {
    if ids == [] then None else if Confirms(graph, ids[0]) then ids[0] else FirstMember(ids[1..], graph)
  }

  /** A group that was found, as its callers test it: an empty id is falsy. */
  predicate Truthy(hit: GroupId) {
    hit.Some? && hit.value != ""
  }

  predicate AsksGraph(user: User) {
    user.groupsOverage && user.oid != ""
  }

  /** matchesGroups. */
  function Hit(user: User, ids: seq<GroupId>, graph: Graph): GroupId {
    var claim := FirstClaim(user.groups, ids);
    if Truthy(claim) then claim else if AsksGraph(user) then FirstMember(ids, graph) else None
  }

  method MatchesGroups(user: User, ids: seq<GroupId>, graph: Graph) returns (hit: GroupId)
    ensures hit == Hit(user, ids, graph)
  {
    if ids == [] {
      NoIds(user.groups);
      return None;
    }
    if user.groups != [] {
      var claim := FindClaim(user.groups, ids);
      if Truthy(claim) {
        return claim;
      }
    }
    if AsksGraph(user) {
      var i := 0;
      while i < |ids|
        invariant 0 <= i <= |ids|
        invariant FirstMember(ids, graph) == FirstMember(ids[i..], graph)
      {
        // A failed lookup is logged, and the next id is tried.
        if Confirms(graph, ids[i]) {
          return ids[i];
        }
        i := i + 1;
      }
    }
    hit := None;
  }

  lemma NoIds(groups: seq<string>)
    ensures FirstClaim(groups, []) == None
  {}

  method FindClaim(groups: seq<string>, ids: seq<GroupId>) returns (hit: GroupId)
    ensures hit == FirstClaim(groups, ids)
  {
    for i := 0 to |groups|
      invariant FirstClaim(groups, ids) == FirstClaim(groups[i..], ids)
    {
      if Some(groups[i]) in ids {
        return Some(groups[i]);
      }
    }
    hit := None;
  }

  predicate OnUserList(user: User, users: seq<string>) {
    user.upn != "" && user.upn in users
  }

  predicate NothingListed(lists: Lists) {
    lists.allowedUsers == [] && lists.allowedGroups == [] && lists.readonlyUsers == [] && lists.readonlyGroups == []
  }

  method Authorize(user: User, lists: Lists, graph: Graph) returns (d: Decision)
    ensures d.role == RoleOf(user, lists, graph)
    ensures d.reason.OnList? ==>
      && d.reason.upn == user.upn != ""
      && d.reason.upn in (if d.role == Admin then lists.allowedUsers else lists.readonlyUsers)
    ensures d.reason.InGroup? ==>
      && d.reason.id != "" && Belongs(user, Some(d.reason.id), graph)
      && Some(d.reason.id) in (if d.role == Admin then lists.allowedGroups else lists.readonlyGroups)
    ensures d.reason.NothingConfigured? ==>
      && d.role == Admin && lists.allowedUsers == [] && lists.readonlyUsers == []
      && lists.allowedGroups == [] && lists.readonlyGroups == []
    ensures d.reason.NoMatch? <==> d.role == Denied
  {
    if OnUserList(user, lists.allowedUsers) {
      return Decision(Admin, OnList(user.upn));
    }
    var adminHit := MatchesGroups(user, lists.allowedGroups, graph);
    if Truthy(adminHit) {
      return Decision(Admin, InGroup(adminHit.value));
    }
    if OnUserList(user, lists.readonlyUsers) {
      return Decision(ReadOnly, OnList(user.upn));
    }
    var readonlyHit := MatchesGroups(user, lists.readonlyGroups, graph);
    if Truthy(readonlyHit) {
      return Decision(ReadOnly, InGroup(readonlyHit.value));
    }
    if NothingListed(lists) {
      return Decision(Admin, NothingConfigured);
    }
    d := Decision(Denied, NoMatch);
  }

  /** The role, branch by branch. */
  function RoleOf(user: User, lists: Lists, graph: Graph): Role {
    if OnUserList(user, lists.allowedUsers) || Truthy(Hit(user, lists.allowedGroups, graph)) then Admin
    else if OnUserList(user, lists.readonlyUsers) || Truthy(Hit(user, lists.readonlyGroups, graph)) then ReadOnly
    else if NothingListed(lists) then Admin
    else Denied
  }

  // ----- What it decides

  /** The user is in one of the groups, by claim or by a Graph lookup that succeeded. */
  predicate InSome(user: User, ids: seq<GroupId>, graph: Graph) {
    exists id :: id in ids && Belongs(user, id, graph)
  }

  predicate Belongs(user: User, id: GroupId, graph: Graph) {
    && id.Some?
    && (id.value in user.groups
        || (user.groupsOverage && user.oid != "" && graph(id).Some? && id.value in graph(id).value))
  }

  /** Neither the token nor Graph names a group by the empty id. */
  predicate NoEmptyIds(user: User, graph: Graph) {
    && "" !in user.groups
    && !(user.groupsOverage && user.oid != "" && graph(Some("")).Some? && "" in graph(Some("")).value)
  }

  lemma {:induction false} ClaimIff(groups: seq<string>, ids: seq<GroupId>)
    ensures FirstClaim(groups, ids).Some? <==> exists g :: g in groups && Some(g) in ids
  {
    if groups == [] {
    } else if Some(groups[0]) !in ids {
      ClaimIff(groups[1..], ids);
      assert forall g :: g in groups && Some(g) in ids ==> g in groups[1..];
    }
  }

  lemma {:induction false} MemberIff(ids: seq<GroupId>, graph: Graph)
    ensures FirstMember(ids, graph).Some? <==> exists id :: id in ids && Confirms(graph, id)
  {
    if ids == [] {
    } else if !Confirms(graph, ids[0]) {
      MemberIff(ids[1..], graph);
      assert forall id :: id in ids && Confirms(graph, id) ==> id in ids[1..];
    }
  }

  lemma HitIff(user: User, ids: seq<GroupId>, graph: Graph)
    requires NoEmptyIds(user, graph)
    ensures Truthy(Hit(user, ids, graph)) <==> InSome(user, ids, graph)
  {
    ClaimIff(user.groups, ids);
    MemberIff(ids, graph);
    hide FirstClaim, FirstMember;
    assert Some("").value == "";
    if InSome(user, ids, graph) {
      var id :| id in ids && Belongs(user, id, graph);
      assert id.value in user.groups ==> Some(id.value) in ids;
    }
  }

  /** A sign-in is matched against every list, whatever its entries, exactly as its groups say, if and only if neither
      its token nor Graph's answers name a group by the empty id: such a group would be found and then counted as
      none. */
  lemma MatchesWhoItShouldIff(user: User, graph: Graph)
    ensures NoEmptyIds(user, graph)
      <==> forall ids :: Truthy(Hit(user, ids, graph)) <==> InSome(user, ids, graph)
  {
    if NoEmptyIds(user, graph) {
      forall ids
        ensures Truthy(Hit(user, ids, graph)) <==> InSome(user, ids, graph)
      {
        HitIff(user, ids, graph);
      }
      hide Hit, InSome, NoEmptyIds;
    } else {
      EmptyIdMissed(user, [Some("")], graph);
    }
  }

  lemma EmptyIdMissed(user: User, ids: seq<GroupId>, graph: Graph)
    requires ids == [Some("")] && !NoEmptyIds(user, graph)
    ensures !Truthy(Hit(user, ids, graph)) && InSome(user, ids, graph)
  {
    assert Some("") in ids && forall id :: id in ids ==> id == Some("");
    hide FirstClaim, FirstMember;
  }

  /** Whatever the lists hold, the role is admin exactly for users on an admin list or in an admin group, or when
      nothing is configured; read-only for the rest of those on a read-only list or in a read-only group; else
      denied. */
  lemma RoleIff(user: User, lists: Lists, graph: Graph)
    requires NoEmptyIds(user, graph)
    ensures var role := RoleOf(user, lists, graph);
      var admin := (user.upn != "" && user.upn in lists.allowedUsers) || InSome(user, lists.allowedGroups, graph);
      var reader := (user.upn != "" && user.upn in lists.readonlyUsers) || InSome(user, lists.readonlyGroups, graph);
      var unset := lists.allowedUsers == [] && lists.allowedGroups == []
                   && lists.readonlyUsers == [] && lists.readonlyGroups == [];
      && (role == Admin <==> admin || unset)
      && (role == ReadOnly <==> !admin && reader)
      && (role == Denied <==> !admin && !reader && !unset)
  {
    HitIff(user, lists.allowedGroups, graph);
    HitIff(user, lists.readonlyGroups, graph);
    NothingMatches(user, graph);
    hide Hit, InSome, OnUserList, NoEmptyIds;
  }

  lemma NothingMatches(user: User, graph: Graph)
    ensures !InSome(user, [], graph) && !OnUserList(user, [])
  {}

  ghost predicate SameMembers<T>(a: seq<T>, b: seq<T>) {
    (forall x :: x in a ==> x in b) && forall x :: x in b ==> x in a
  }

  lemma EmptyTogether<T>(a: seq<T>, b: seq<T>)
    requires SameMembers(a, b)
    ensures a == [] <==> b == []
  {
    if a != [] {
      assert a[0] in b;
    }
    if b != [] {
      assert b[0] in a;
    }
  }

  /** Neither the order of the four lists nor that of the claims, nor repetitions in them, changes the role. */
  lemma OrderDoesNotMatter(u1: User, l1: Lists, u2: User, l2: Lists, graph: Graph)
    requires NoEmptyIds(u1, graph) && u2 == u1.(groups := u2.groups) && SameMembers(u1.groups, u2.groups)
    requires SameMembers(l1.allowedUsers, l2.allowedUsers) && SameMembers(l1.allowedGroups, l2.allowedGroups)
    requires SameMembers(l1.readonlyUsers, l2.readonlyUsers) && SameMembers(l1.readonlyGroups, l2.readonlyGroups)
    ensures RoleOf(u1, l1, graph) == RoleOf(u2, l2, graph)
  {
    EmptyTogether(l1.allowedUsers, l2.allowedUsers);
    EmptyTogether(l1.allowedGroups, l2.allowedGroups);
    EmptyTogether(l1.readonlyUsers, l2.readonlyUsers);
    EmptyTogether(l1.readonlyGroups, l2.readonlyGroups);
    SameGroups(u1, u2, l1.allowedGroups, l2.allowedGroups, graph);
    SameGroups(u1, u2, l1.readonlyGroups, l2.readonlyGroups, graph);
    SameUsers(u1, u2, l1.allowedUsers, l2.allowedUsers);
    SameUsers(u1, u2, l1.readonlyUsers, l2.readonlyUsers);
    hide Hit, OnUserList, SameMembers, Truthy, NoEmptyIds;
  }

  lemma SameUsers(u1: User, u2: User, a: seq<string>, b: seq<string>)
    requires u1.upn == u2.upn && SameMembers(a, b)
    ensures OnUserList(u1, a) <==> OnUserList(u2, b)
  {}

  lemma SameGroups(u1: User, u2: User, a: seq<GroupId>, b: seq<GroupId>, graph: Graph)
    requires NoEmptyIds(u1, graph) && SameMembers(a, b)
    requires u2 == u1.(groups := u2.groups) && SameMembers(u1.groups, u2.groups)
    ensures Truthy(Hit(u1, a, graph)) <==> Truthy(Hit(u2, b, graph))
  {
    hide Hit, Truthy, Confirms;
    assert NoEmptyIds(u2, graph);
    HitIff(u1, a, graph);
    HitIff(u2, b, graph);
    if InSome(u1, a, graph) {
      var id :| id in a && Belongs(u1, id, graph);
      assert id in b && Belongs(u2, id, graph);
    }
    if InSome(u2, b, graph) {
      var id :| id in b && Belongs(u2, id, graph);
      assert id in a && Belongs(u1, id, graph);
    }
  }

  /** Lookups that fail, or that deny, never raise a role. */
  lemma FailuresNeverRaise(user: User, lists: Lists, graph: Graph, worse: Graph)
    requires NoEmptyIds(user, graph) && forall id :: Confirms(worse, id) ==> Confirms(graph, id)
    ensures var low, high := RoleOf(user, lists, worse), RoleOf(user, lists, graph);
      high == Admin || low == Denied || low == high
  {
    FewerHits(user, lists.allowedGroups, graph, worse);
    FewerHits(user, lists.readonlyGroups, graph, worse);
    hide Hit, Truthy, OnUserList, Confirms;
  }

  lemma FewerHits(user: User, ids: seq<GroupId>, graph: Graph, worse: Graph)
    requires NoEmptyIds(user, graph) && forall id :: Confirms(worse, id) ==> Confirms(graph, id)
    ensures Truthy(Hit(user, ids, worse)) ==> Truthy(Hit(user, ids, graph))
  {
    hide Hit, Truthy;
    forall id | Belongs(user, id, worse)
      ensures Belongs(user, id, graph)
    {
      assert Confirms(worse, id) ==> Confirms(graph, id);
    }
    assert Confirms(worse, Some("")) ==> Confirms(graph, Some(""));
    HitIff(user, ids, graph);
    HitIff(user, ids, worse);
    if InSome(user, ids, worse) {
      var id :| id in ids && Belongs(user, id, worse);
      assert Belongs(user, id, graph);
    }
  }
}
