/** The user-management calls as the source runs them: checks in order, then one
    write. Each call is proved against Authority.Performed. */
module AuthorityService {
  import opened Wrappers
  import opened Authority
  import OwnershipRaces

  /** computeEffectivePermissions: merge the role lists and the custom list. */
  method ComputeEffectivePermissions(userType: UserType, rolePermissions: seq<seq<Permission>>,
                                     customPermissions: seq<Permission>)
      returns (merged: seq<Permission>)
    ensures userType == OWNER ==> merged == CATALOG
    ensures userType == MEMBER ==> forall p :: p in merged <==>
              IsPermissionId(p)
              && (p in customPermissions || exists i :: 0 <= i < |rolePermissions| && p in rolePermissions[i])
    ensures userType == MEMBER ==> forall i, j :: 0 <= i < j < |merged| ==> merged[i] != merged[j]
  {
    if userType == OWNER {
      return CATALOG;
    }
    merged := [];
    for i := 0 to |rolePermissions|
      invariant forall p :: p in merged <==> IsPermissionId(p) && exists k :: 0 <= k < i && p in rolePermissions[k]
      invariant forall a, b :: 0 <= a < b < |merged| ==> merged[a] != merged[b]
    {
      var list := rolePermissions[i];
      ghost var before := merged;
      for j := 0 to |list|
        invariant forall p :: p in merged <==> p in before || (IsPermissionId(p) && p in list[..j])
        invariant forall a, b :: 0 <= a < b < |merged| ==> merged[a] != merged[b]
      {
        merged := Add(merged, list[j]);
      }
      assert list[..|list|] == list;
    }
    ghost var before := merged;
    for j := 0 to |customPermissions|
      invariant forall p :: p in merged <==> p in before || (IsPermissionId(p) && p in customPermissions[..j])
      invariant forall a, b :: 0 <= a < b < |merged| ==> merged[a] != merged[b]
    {
      merged := Add(merged, customPermissions[j]);
    }
    assert customPermissions[..|customPermissions|] == customPermissions;
  }

  /** Set.add of a listed permission; the list is the set in insertion order. */
  function Add(merged: seq<Permission>, p: Permission): (r: seq<Permission>)
    ensures forall q :: q in r <==> q in merged || (q == p && IsPermissionId(p))
    ensures (forall a, b :: 0 <= a < b < |merged| ==> merged[a] != merged[b]) ==>
              forall a, b :: 0 <= a < b < |r| ==> r[a] != r[b]
  {
    if IsPermissionId(p) && p !in merged then merged + [p] else merged
  }

  /** The merged list is the effective set the policy lemmas speak of, whatever
      order the roles were loaded in. */
  lemma MergedIsEffective(w: World, m: Member, roleOrder: seq<RoleId>, merged: seq<Permission>)
    requires m.userType == MEMBER
    requires forall i :: 0 <= i < |roleOrder| ==> roleOrder[i] in m.roles && roleOrder[i] in w.roles
    requires forall r :: r in m.roles && r in w.roles ==> r in roleOrder
    requires forall p :: p in merged <==>
               IsPermissionId(p)
               && (p in m.customPermissions
                   || exists i :: 0 <= i < |roleOrder| && p in w.roles[roleOrder[i]].permissions)
    ensures forall p :: p in merged <==> p in Effective(w, m)
  {
    forall p ensures p in merged <==> p in Effective(w, m) {
      CatalogIsComplete(p);
      if p in merged && p !in m.customPermissions {
        var i :| 0 <= i < |roleOrder| && p in w.roles[roleOrder[i]].permissions;
        var r := roleOrder[i];
        assert r in m.roles && r in w.roles && p in w.roles[r].permissions;
      }
      if p in Effective(w, m) && p !in m.customPermissions {
        var r :| r in m.roles && r in w.roles && p in w.roles[r].permissions;
        var i :| 0 <= i < |roleOrder| && roleOrder[i] == r;
      }
    }
  }

  /** findMany's answer: the elements of the set in some order. */
  ghost predicate InSomeOrder(order: seq<RoleId>, ids: set<RoleId>) {
    && (forall i :: 0 <= i < |order| ==> order[i] in ids)
    && (forall r :: r in ids ==> exists i :: 0 <= i < |order| && order[i] == r)
  }

  /** Why a request that the policies do not accept is refused: the first check in
      the source's order that fails. */
  function Refusal(w: World, a: Actor, req: Request): AuthorityError {
    if !ActorHas(a, Needs(req)) then Forbidden
    else if req.CreateUser? then
      if |req.roleIds| > 0 && ActorHas(a, UsersManageRoles) && !RolesInWorkspace(w, a.workspaceId, req.roleIds)
      then Invalid else Forbidden
    else if !req.UpdateUserStatus? && !req.DeleteUser? && !IsOwner(a) && req.id == a.id then Forbidden
    else if !(req.id in w.members && w.members[req.id].workspaceId == a.workspaceId) then UserNotFound
    else if w.members[req.id].userType == OWNER || req.UpdateUserStatus? then Invalid
    else if (req.SetUserRoles? || req.AssignRoles?) && !RolesInWorkspace(w, a.workspaceId, req.roleIds) then Invalid
    else Forbidden
  }

  class UserManagement {
    var world: World

    /** assertCanAssignRoles over the roles findMany returned, in its order. */
    method AssertCanAssignRoles(a: Actor, roleIds: seq<RoleId>, found: seq<RoleId>)
        returns (r: Result<(), AuthorityError>)
      requires InSomeOrder(found, FoundRoles(world, a.workspaceId, roleIds))
      ensures r.Ok? <==> CanAssign(world, a, roleIds)
      ensures r.Err? ==> r.error == if RolesInWorkspace(world, a.workspaceId, roleIds) then Forbidden else Invalid
    {
      if |roleIds| == 0 {
        return Ok(());
      }
      if |FoundRoles(world, a.workspaceId, roleIds)| != |roleIds| {
        return Err(Invalid);
      }
      for i := 0 to |found|
        invariant forall k :: 0 <= k < i ==> MayHandOut(a, world.roles[found[k]])
      {
        var id := found[i];
        var role := world.roles[id];
        assert id in FoundRoles(world, a.workspaceId, roleIds);
        assert !MayHandOut(a, role) ==> !CanAssign(world, a, roleIds);
        if IsAdmin(role) {
          if !IsOwner(a) {
            return Err(Forbidden);
          }
        } else if !IsOwner(a) {
          if !CanGrant(a, role.permissions) {
            return Err(Forbidden);
          }
        }
      }
      return Ok(());
    }

    /** `routed`, `reserved` and `stored` are what the calls out of this model
        answer: that the workspace's persisted shard is the request's own, that
        reserveEmail got the e-mail, and that the shard took the insert. */
    method CreateUser(a: Actor, id: UserId, roleIds: seq<RoleId>, customPermissions: seq<Permission>,
                      found: seq<RoleId>, routed: bool, reserved: bool, stored: bool)
        returns (r: Result<(), AuthorityError>)
      requires id !in world.members     // randomUUID is fresh
      requires InSomeOrder(found, FoundRoles(world, a.workspaceId, roleIds))
      modifies `world
      ensures r.Ok? <==> Accepted(old(world), a, Request.CreateUser(id, roleIds, customPermissions))
                         && a.workspaceId in old(world).owners && routed && reserved && stored
      ensures r.Err? && !Accepted(old(world), a, Request.CreateUser(id, roleIds, customPermissions)) ==>
                r.error == Refusal(old(world), a, Request.CreateUser(id, roleIds, customPermissions))
      ensures r.Err? && Accepted(old(world), a, Request.CreateUser(id, roleIds, customPermissions)) ==>
                r.error == if a.workspaceId in old(world).owners then DependencyDown else WorkspaceNotFound
      ensures world == if r.Ok? then Performed(old(world), a, Request.CreateUser(id, roleIds, customPermissions))
                       else old(world)
      ensures old(OwnersOk(world)) ==> OwnersOk(world)
    {
      if !ActorHas(a, UsersCreate) {
        return Err(Forbidden);
      }
      if |roleIds| > 0 {
        if !ActorHas(a, UsersManageRoles) {
          return Err(Forbidden);
        }
        var assignable := AssertCanAssignRoles(a, roleIds, found);
        if assignable.Err? {
          return assignable;
        }
      }
      if |customPermissions| > 0 {
        if !ActorHas(a, UsersManagePermissions) || !CanGrant(a, customPermissions) {
          return Err(Forbidden);
        }
      }
      if a.workspaceId !in world.owners {
        return Err(WorkspaceNotFound);
      }
      if !routed || !reserved || !stored {
        return Err(DependencyDown);
      }
      var member := Member(a.workspaceId, MEMBER, ACTIVE, AsSet(roleIds), customPermissions);
      world := world.(members := world.members[id := member]);
      return Ok(());
    }

    method UpdateUserStatus(a: Actor, id: UserId, status: UserStatus) returns (r: Result<(), AuthorityError>)
      modifies `world
      ensures world == Performed(old(world), a, Request.UpdateUserStatus(id, status))
      ensures r.Ok? <==> Accepted(old(world), a, Request.UpdateUserStatus(id, status))
      ensures r.Err? ==> r.error == Refusal(old(world), a, Request.UpdateUserStatus(id, status))
    {
      if !ActorHas(a, UsersManageStatus) {
        return Err(Forbidden);
      }
      var target := GetWorkspaceMember(a, id);
      if target.Err? {
        return Err(target.error);
      }
      if target.value.userType == OWNER {
        return Err(Invalid);
      }
      if status == SUSPENDED && id == a.id && a.userType != OWNER {
        return Err(Invalid);
      }
      world := world.(members := world.members[id := target.value.(status := status)]);
      return Ok(());
    }

    method SetUserRoles(a: Actor, id: UserId, roleIds: seq<RoleId>, found: seq<RoleId>)
        returns (r: Result<(), AuthorityError>)
      requires InSomeOrder(found, FoundRoles(world, a.workspaceId, roleIds))
      modifies `world
      ensures world == Performed(old(world), a, Request.SetUserRoles(id, roleIds))
      ensures r.Ok? <==> Accepted(old(world), a, Request.SetUserRoles(id, roleIds))
      ensures r.Err? ==> r.error == Refusal(old(world), a, Request.SetUserRoles(id, roleIds))
    {
      var target := ForAccessChange(a, id, UsersManageRoles);
      if target.Err? {
        return Err(target.error);
      }
      var assignable := AssertCanAssignRoles(a, roleIds, found);
      if assignable.Err? {
        return assignable;
      }
      world := world.(members := world.members[id := target.value.(roles := AsSet(roleIds))]);
      return Ok(());
    }

    method SetUserPermissions(a: Actor, id: UserId, customPermissions: seq<Permission>)
        returns (r: Result<(), AuthorityError>)
      modifies `world
      ensures world == Performed(old(world), a, Request.SetUserPermissions(id, customPermissions))
      ensures r.Ok? <==> Accepted(old(world), a, Request.SetUserPermissions(id, customPermissions))
      ensures r.Err? ==> r.error == Refusal(old(world), a, Request.SetUserPermissions(id, customPermissions))
    {
      var target := ForAccessChange(a, id, UsersManagePermissions);
      if target.Err? {
        return Err(target.error);
      }
      if !CanGrant(a, customPermissions) {
        return Err(Forbidden);
      }
      world := world.(members := world.members[id := target.value.(customPermissions := customPermissions)]);
      return Ok(());
    }

    method AssignRoles(a: Actor, id: UserId, roleIds: seq<RoleId>, found: seq<RoleId>)
        returns (r: Result<(), AuthorityError>)
      requires InSomeOrder(found, FoundRoles(world, a.workspaceId, roleIds))
      modifies `world
      ensures world == Performed(old(world), a, Request.AssignRoles(id, roleIds))
      ensures r.Ok? <==> Accepted(old(world), a, Request.AssignRoles(id, roleIds))
      ensures r.Err? ==> r.error == Refusal(old(world), a, Request.AssignRoles(id, roleIds))
    {
      var target := ForAccessChange(a, id, UsersManageRoles);
      if target.Err? {
        return Err(target.error);
      }
      var assignable := AssertCanAssignRoles(a, roleIds, found);
      if assignable.Err? {
        return assignable;
      }
      world := world.(members := world.members[id := target.value.(roles := target.value.roles + AsSet(roleIds))]);
      return Ok(());
    }

    method RemoveRoles(a: Actor, id: UserId, roleIds: seq<RoleId>) returns (r: Result<(), AuthorityError>)
      modifies `world
      ensures world == Performed(old(world), a, Request.RemoveRoles(id, roleIds))
      ensures r.Ok? <==> Accepted(old(world), a, Request.RemoveRoles(id, roleIds))
      ensures r.Err? ==> r.error == Refusal(old(world), a, Request.RemoveRoles(id, roleIds))
    {
      var target := ForAccessChange(a, id, UsersManageRoles);
      if target.Err? {
        return Err(target.error);
      }
      if !IsOwner(a) {
        var found := FoundRoles(world, a.workspaceId, roleIds);
        if exists x :: x in found && IsAdmin(world.roles[x]) {
          return Err(Forbidden);
        }
      }
      world := world.(members := world.members[id := target.value.(roles := target.value.roles - AsSet(roleIds))]);
      return Ok(());
    }

    /** `marked`, `erased` and `finalized` are what the reservation mark, the shard
        delete and the final release answer. */
    method DeleteUser(a: Actor, id: UserId, marked: bool, erased: bool, finalized: bool)
        returns (r: Result<(), AuthorityError>)
      modifies `world
      ensures r.Ok? <==> Accepted(old(world), a, Request.DeleteUser(id)) && marked && erased && finalized
      ensures r.Err? ==> r.error == if Accepted(old(world), a, Request.DeleteUser(id)) then DependencyDown
                                    else Refusal(old(world), a, Request.DeleteUser(id))
      // a delete that cannot be finalized throws, but the user is gone
      ensures world == if marked && erased then Performed(old(world), a, Request.DeleteUser(id)) else old(world)
      ensures old(OwnersOk(world)) ==> OwnersOk(world)
    {
      if !ActorHas(a, UsersDelete) {
        return Err(Forbidden);
      }
      var target := GetWorkspaceMember(a, id);
      if target.Err? {
        return Err(target.error);
      }
      if target.value.userType == OWNER {
        return Err(Invalid);
      }
      if !marked || !erased {
        return Err(DependencyDown);
      }
      world := world.(members := world.members - {id});
      return if finalized then Ok(()) else Err(DependencyDown);
    }

    /** transferOwnership with nothing committed between its reads and writes. */
    method TransferOwnership(ws: WorkspaceId, current: UserId, next: UserId) returns (r: Result<(), AuthorityError>)
      modifies `world
      ensures old(OwnersOk(world)) ==> OwnersOk(world) && (r.Ok? <==> CanTransfer(old(world), ws, current, next))
      ensures r.Ok? <==> CanTransfer(old(world), ws, current, next)
                         && !OwnershipRaces.IndexRefuses(old(world), current, next)
      ensures world == if r.Ok? then Transferred(old(world), ws, current, next) else old(world)
    {
      if next == current {
        return Err(Invalid);
      }
      if ws !in world.owners {
        return Err(UserNotFound);
      }
      if world.owners[ws] != current {
        return Err(Forbidden);
      }
      if next !in world.members || world.members[next].workspaceId != ws {
        return Err(UserNotFound);
      }
      if world.members[next].status != ACTIVE || world.members[next].userType == OWNER {
        return Err(Invalid);
      }
      if OwnersOk(world) {
        OwnershipStepKeepsOwners(world, Transfer(ws, current, next), Transferred(world, ws, current, next));
      }
      r := WriteTransfer(ws, current, next);
    }

    /** Demote, promote, then set ownerId, in one transaction whose reads may be
        out of date by now. */
    method WriteTransfer(ws: WorkspaceId, current: UserId, next: UserId) returns (r: Result<(), AuthorityError>)
      requires next != current && ws in world.owners     // workspaces are never deleted
      modifies `world
      ensures world == OwnershipRaces.Committed(old(world), OwnershipRaces.TransferWrite(ws, current, next))
      ensures r.Ok? <==> OwnershipRaces.TransferGoesThrough(old(world), current, next)
      // one ACTIVE owner is kept exactly in these cases
      ensures old(OwnersOk(world)) && current in old(world).members && next in old(world).members
              && old(world).members[current].workspaceId == ws && old(world).members[next].workspaceId == ws ==>
                (OwnersOk(world) <==>
                 old(world).members[next].status == ACTIVE || old(world).owners[ws] !in {current, next})
    {
      if current !in world.members || next !in world.members {
        return Err(UserNotFound);     // the update finds no row and the transaction rolls back
      }
      if OwnersOk(world) && world.members[current].workspaceId == ws && world.members[next].workspaceId == ws {
        OwnershipRaces.TransferWriteIsSafeIff(world, ws, current, next);
      }
      var demoted := world.members[current := world.members[current].(userType := MEMBER)];
      if exists u :: u in demoted && u != next && demoted[u].userType == OWNER
                     && demoted[u].workspaceId == demoted[next].workspaceId {
        return Err(OwnerExists);      // the unique index refuses the promotion, and the demotion rolls back too
      }
      assert forall u :: u in world.members && u != current ==> demoted[u] == world.members[u];
      assert !OwnershipRaces.IndexRefuses(world, current, next);
      world := world.(members := demoted);
      world := world.(members := world.members[next := world.members[next].(userType := OWNER)]);
      world := world.(owners := world.owners[ws := next]);
      return Ok(());
    }

    method GetWorkspaceMember(a: Actor, id: UserId) returns (r: Result<Member, AuthorityError>)
      ensures r.Ok? <==> id in world.members && world.members[id].workspaceId == a.workspaceId
      ensures r.Ok? ==> r.value == world.members[id]
      ensures r.Err? ==> r.error == UserNotFound
    {
      if id in world.members && world.members[id].workspaceId == a.workspaceId {
        return Ok(world.members[id]);
      }
      return Err(UserNotFound);
    }

    /** The common start of the four access-changing calls. */
    method ForAccessChange(a: Actor, id: UserId, needed: Permission) returns (r: Result<Member, AuthorityError>)
      ensures r.Ok? <==> ActorHas(a, needed) && (IsOwner(a) || id != a.id) && Manageable(world, a, id)
      ensures r.Ok? ==> r.value == world.members[id]
      ensures r.Err? ==> r.error == if !ActorHas(a, needed) || (!IsOwner(a) && id == a.id) then Forbidden
                                    else if !(id in world.members && world.members[id].workspaceId == a.workspaceId)
                                    then UserNotFound else Invalid
    {
      if !ActorHas(a, needed) {
        return Err(Forbidden);
      }
      if !IsOwner(a) && a.id == id {
        return Err(Forbidden);
      }
      r := GetWorkspaceMember(a, id);
      if r.Ok? && r.value.userType == OWNER {
        r := Err(Invalid);
      }
    }
  }
}
