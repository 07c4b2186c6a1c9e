/** Exactly when a user-management request is accepted, what each accepted
    request does to its target, and what sign-up and transfer leave behind. */
module AuthorityEffects {
  import opened Wrappers
  import opened Authority

  // ----- when a request is accepted ---------------------------------------------------

  /** Every listed id is a role of the workspace, and none is listed twice. */
  ghost predicate ListsRoles(w: World, ws: WorkspaceId, roleIds: seq<RoleId>) {
    && (forall r :: r in roleIds ==> r in w.roles && w.roles[r].workspaceId == ws)
    && (forall i, j :: 0 <= i < j < |roleIds| ==> roleIds[i] != roleIds[j])
  }

  /** Comparing the number of rows found with the number of ids asked for finds out
      both unknown ids and repeated ones. */
  lemma CountingFindsRoles(w: World, ws: WorkspaceId, roleIds: seq<RoleId>)
    ensures RolesInWorkspace(w, ws, roleIds) <==> ListsRoles(w, ws, roleIds)
  {
    if RolesInWorkspace(w, ws, roleIds) {
      AllAreFound(w, ws, roleIds);
      FoundIsAll(w, ws, roleIds);
      FullSizeMeansDistinct(roleIds);
    }
    if ListsRoles(w, ws, roleIds) {
      FoundIsAll(w, ws, roleIds);
      DistinctHaveFullSize(roleIds);
    }
  }

  lemma FoundIsAll(w: World, ws: WorkspaceId, roleIds: seq<RoleId>)
    requires forall r :: r in roleIds ==> r in w.roles && w.roles[r].workspaceId == ws
    ensures FoundRoles(w, ws, roleIds) == AsSet(roleIds)
  {
    forall r ensures r in FoundRoles(w, ws, roleIds) <==> r in AsSet(roleIds) { }
  }

  lemma {:induction false} FullSizeMeansDistinct(ids: seq<RoleId>)
    requires |AsSet(ids)| == |ids|
    ensures forall i, j :: 0 <= i < j < |ids| ==> ids[i] != ids[j]
  {
    if ids != [] {
      SetIsNoLonger(ids[1..]);
      assert AsSet(ids) == {ids[0]} + AsSet(ids[1..]);
      FullSizeMeansDistinct(ids[1..]);
      assert ids[0] !in AsSet(ids[1..]);
      forall i, j | 0 <= i < j < |ids| ensures ids[i] != ids[j] {
        assert ids[j] == ids[1..][j - 1];
        if i > 0 { assert ids[i] == ids[1..][i - 1]; }
      }
    }
  }

  lemma {:induction false} DistinctHaveFullSize(ids: seq<RoleId>)
    requires forall i, j :: 0 <= i < j < |ids| ==> ids[i] != ids[j]
    ensures |AsSet(ids)| == |ids|
  {
    if ids != [] {
      DistinctHaveFullSize(ids[1..]);
      assert AsSet(ids) == {ids[0]} + AsSet(ids[1..]);
    }
  }

  /** The roles of a request that hands roles out; the permissions it hands out. */
  function RolesOf(req: Request): seq<RoleId> {
    if req.CreateUser? || req.SetUserRoles? || req.AssignRoles? then req.roleIds else []
  }

  function CustomOf(req: Request): seq<Permission> {
    if req.CreateUser? || req.SetUserPermissions? then req.customPermissions else []
  }

  /** The target of everything but a creation: a member of the actor's workspace,
      and not its owner. */
  predicate Reaches(w: World, a: Actor, req: Request) {
    if req.CreateUser? then req.id !in w.members
    else req.id in w.members && w.members[req.id].workspaceId == a.workspaceId && w.members[req.id].userType == MEMBER
  }

  /** An owner is refused nothing but unknown roles and targets out of reach. */
  lemma OwnersAreAcceptedIff(w: World, a: Actor, req: Request)
    requires a.userType == OWNER
    ensures Accepted(w, a, req) <==> Reaches(w, a, req) && ListsRoles(w, a.workspaceId, RolesOf(req))
  {
    CountingFindsRoles(w, a.workspaceId, RolesOf(req));
  }

  /** What a non-owner must hold, whatever the request says. */
  ghost predicate HoldsGuards(a: Actor, req: Request) {
    match req
    case CreateUser(_, roleIds, custom) =>
      && UsersCreate in a.permissions
      && (roleIds != [] ==> UsersManageRoles in a.permissions)
      && (custom != [] ==> UsersManagePermissions in a.permissions)
    case UpdateUserStatus(_, _) => UsersManageStatus in a.permissions
    case SetUserRoles(_, _) => UsersManageRoles in a.permissions
    case SetUserPermissions(_, _) => UsersManagePermissions in a.permissions
    case AssignRoles(_, _) => UsersManageRoles in a.permissions
    case RemoveRoles(_, _) => UsersManageRoles in a.permissions
    case DeleteUser(_) => UsersDelete in a.permissions
  }

  /** Members do not change their own access, nor suspend themselves; the Admin role
      of the workspace is not theirs to give or take. */
  ghost predicate MindsItsPlace(w: World, a: Actor, req: Request) {
    && (req.id == a.id ==> req.CreateUser? || req.DeleteUser? || (req.UpdateUserStatus? && req.status != SUSPENDED))
    && (forall r :: r in RolesOf(req) && r in w.roles ==> !(w.roles[r].isSystem && w.roles[r].name == "Admin"))
    && (req.RemoveRoles? ==>
          forall r :: r in req.roleIds && r in w.roles && w.roles[r].workspaceId == a.workspaceId ==>
            !(w.roles[r].isSystem && w.roles[r].name == "Admin"))
  }

  /** A member is accepted exactly with the guards of the request, within its place,
      for known roles, and handing out nothing it does not hold. */
  lemma MembersAreAcceptedIff(w: World, a: Actor, req: Request)
    requires a.userType == MEMBER
    ensures Accepted(w, a, req) <==>
            && Reaches(w, a, req) && HoldsGuards(a, req) && MindsItsPlace(w, a, req)
            && ListsRoles(w, a.workspaceId, RolesOf(req)) && HandsOutHeld(w, a, req)
  {
    CountingFindsRoles(w, a.workspaceId, RolesOf(req));
    var ids := RolesOf(req);
    if ListsRoles(w, a.workspaceId, ids) {
      assert forall r :: r in ids <==> r in FoundRoles(w, a.workspaceId, ids);
    }
    if Accepted(w, a, req) { AcceptedHandsOutHeld(w, a, req); }
    match req
    case CreateUser(_, _, _) => HandsOutIsAssignable(w, a, req);
    case SetUserRoles(_, _) => HandsOutIsAssignable(w, a, req);
    case AssignRoles(_, _) => HandsOutIsAssignable(w, a, req);
    case _ =>
  }

  lemma HandsOutIsAssignable(w: World, a: Actor, req: Request)
    requires a.userType == MEMBER && (req.CreateUser? || req.SetUserRoles? || req.AssignRoles?)
    ensures ListsRoles(w, a.workspaceId, req.roleIds) ==>
              (CanAssign(w, a, req.roleIds) <==>
               forall r :: r in req.roleIds ==>
                 !IsAdmin(w.roles[r]) && forall p :: p in w.roles[r].permissions ==> p in a.permissions)
    ensures CanAssign(w, a, req.roleIds) ==> ListsRoles(w, a.workspaceId, req.roleIds)
  {
    CountingFindsRoles(w, a.workspaceId, req.roleIds);
    if ListsRoles(w, a.workspaceId, req.roleIds) {
      assert forall r :: r in req.roleIds <==> r in FoundRoles(w, a.workspaceId, req.roleIds);
    }
  }

  // ----- what an accepted request does -----------------------------------------------------

  /** The maps differ at one key at most. */
  ghost predicate SameButFor<K(!new), V>(m: map<K, V>, n: map<K, V>, key: K) {
    forall k :: k != key ==> (k in n <==> k in m) && (k in m ==> n[k] == m[k])
  }

  /** Nobody but the target, no role and no workspace changes. */
  ghost predicate OnlyTouches(w: World, after: World, id: UserId) {
    && after.roles == w.roles && after.owners == w.owners
    && SameButFor(w.members, after.members, id)
  }

  /** One field of the target, and no other, is what the request asks for. */
  ghost predicate Carried(w: World, a: Actor, req: Request, after: World) {
    match req
    case CreateUser(id, roleIds, custom) =>
      && id in after.members
      && after.members[id].workspaceId == a.workspaceId
      && after.members[id].userType == MEMBER && after.members[id].status == ACTIVE
      && (forall r :: r in after.members[id].roles <==> r in roleIds)
      && after.members[id].customPermissions == custom
    case UpdateUserStatus(id, status) =>
      && id in w.members && id in after.members
      && after.members[id].status == status
      && SameIdentity(w, after, id) && SameRoles(w, after, id) && SamePermissions(w, after, id)
    case SetUserRoles(id, roleIds) =>
      && id in w.members && id in after.members
      && (forall r :: r in after.members[id].roles <==> r in roleIds)
      && SameIdentity(w, after, id) && SameStatus(w, after, id) && SamePermissions(w, after, id)
    case SetUserPermissions(id, custom) =>
      && id in w.members && id in after.members
      && after.members[id].customPermissions == custom
      && SameIdentity(w, after, id) && SameStatus(w, after, id) && SameRoles(w, after, id)
    case AssignRoles(id, roleIds) =>
      && id in w.members && id in after.members
      && (forall r :: r in after.members[id].roles <==> r in w.members[id].roles || r in roleIds)
      && SameIdentity(w, after, id) && SameStatus(w, after, id) && SamePermissions(w, after, id)
    case RemoveRoles(id, roleIds) =>
      && id in w.members && id in after.members
      && (forall r :: r in after.members[id].roles <==> r in w.members[id].roles && r !in roleIds)
      && SameIdentity(w, after, id) && SameStatus(w, after, id) && SamePermissions(w, after, id)
    case DeleteUser(id) => id !in after.members
  }

  ghost predicate SameIdentity(w: World, after: World, id: UserId)
    requires id in w.members && id in after.members
  {
    after.members[id].workspaceId == w.members[id].workspaceId && after.members[id].userType == w.members[id].userType
  }

  ghost predicate SameStatus(w: World, after: World, id: UserId)
    requires id in w.members && id in after.members
  {
    after.members[id].status == w.members[id].status
  }

  ghost predicate SameRoles(w: World, after: World, id: UserId)
    requires id in w.members && id in after.members
  {
    after.members[id].roles == w.members[id].roles
  }

  ghost predicate SamePermissions(w: World, after: World, id: UserId)
    requires id in w.members && id in after.members
  {
    after.members[id].customPermissions == w.members[id].customPermissions
  }

  /** An accepted request is carried out, whole and alone; a refused one changes
      nothing. */
  lemma RequestEffect(w: World, a: Actor, req: Request)
    ensures Accepted(w, a, req) ==>
              Carried(w, a, req, Performed(w, a, req)) && OnlyTouches(w, Performed(w, a, req), req.id)
    ensures !Accepted(w, a, req) ==> Performed(w, a, req) == w
  {
  }

  /** So is the write of a call whose checks passed earlier, if its target is still
      there and is not a named owner to be deleted; otherwise it changes nothing. */
  lemma LateWriteEffect(w: World, a: Actor, req: Request)
    ensures (req.CreateUser? || req.id in w.members)
            && !(req.DeleteUser? && exists ws :: ws in w.owners && w.owners[ws] == req.id) ==>
              Carried(w, a, req, WrittenLater(w, a, req)) && OnlyTouches(w, WrittenLater(w, a, req), req.id)
    ensures !req.CreateUser? && req.id !in w.members ==> WrittenLater(w, a, req) == w
    ensures req.DeleteUser? && (exists ws :: ws in w.owners && w.owners[ws] == req.id) ==> WrittenLater(w, a, req) == w
  {
  }

  /** A request that nothing comes between is a run of the machine that the
      no-amplification result is about, and ends where the class method does. */
  lemma UninterruptedRequestIsARun(w: World, u: UserId, req: Request) returns (last: Desk)
    requires OwnersOk(w) && u in w.members && w.members[u].userType == MEMBER
    requires Accepted(w, ActorOf(w, u), req)
    ensures Run(Quiet(w), [Open(0, u), Accept(0, 0, req), Store(0)], last)
    ensures last.world == Performed(w, ActorOf(w, u), req) && last.drafts == map[]
  {
    var seated := Next(Quiet(w), Open(0, u));
    var accepted := Next(seated, Accept(0, 0, req));
    last := Next(accepted, Store(0));
    var evs := [Open(0, u), Accept(0, 0, req), Store(0)];
    assert evs[1..] == [Accept(0, 0, req), Store(0)] && evs[1..][1..] == [Store(0)] && evs[1..][1..][1..] == [];
    assert Run(last, [], last);
    assert Run(accepted, [Store(0)], last);
    assert Run(seated, [Accept(0, 0, req), Store(0)], last);
    if req.DeleteUser? { assert !IsNamedOwner(w, req.id); }
  }

  // ----- sign-up and transfer ------------------------------------------------------------------

  /** Sign-up: the new user owns the new workspace and can do everything there, the
      workspace has an Admin role that carries the whole catalog, and nobody else
      is touched. */
  lemma SignUpEffect(w: World, ws: WorkspaceId, owner: UserId, admin: RoleId)
    requires ws !in w.owners && owner !in w.members && admin !in w.roles
    ensures var after := SignedUp(w, ws, owner, admin);
      && owner in after.members && OwnerOf(after.members[owner], ws)
      && ws in after.owners && after.owners[ws] == owner
      && (forall p :: IsPermissionId(p) ==> p in Effective(after, after.members[owner]))
      && admin in after.roles && after.roles[admin].workspaceId == ws && IsAdmin(after.roles[admin])
      && (forall p :: IsPermissionId(p) <==> p in after.roles[admin].permissions)
      && SameButFor(w.members, after.members, owner) && SameButFor(w.roles, after.roles, admin)
      && SameButFor(w.owners, after.owners, ws)
  {
    forall p ensures (IsPermissionId(p) <==> p in ALL_PERMISSIONS) && (IsPermissionId(p) <==> p in CATALOG) {
      CatalogIsComplete(p);
    }
  }

  /** A transfer is open exactly from the workspace's OWNER to an ACTIVE member of
      it. */
  lemma TransferIsOpenIff(w: World, ws: WorkspaceId, current: UserId, next: UserId)
    requires OwnersOk(w)
    ensures CanTransfer(w, ws, current, next) <==>
            && current in w.members && w.members[current].workspaceId == ws && w.members[current].userType == OWNER
            && next in w.members && w.members[next].workspaceId == ws && w.members[next].userType == MEMBER
            && w.members[next].status == ACTIVE
  {
  }

  /** It swaps the two users' types and the name of the owner, and nothing else. */
  lemma TransferEffect(w: World, ws: WorkspaceId, current: UserId, next: UserId)
    requires CanTransfer(w, ws, current, next)
    ensures var after := Transferred(w, ws, current, next);
      && after.roles == w.roles && after.members.Keys == w.members.Keys && after.owners.Keys == w.owners.Keys
      && (forall u :: u in w.members ==>
            after.members[u].userType
            == (if u == next then OWNER else if u == current then MEMBER else w.members[u].userType)
            && after.members[u].(userType := OWNER) == w.members[u].(userType := OWNER))
      && (forall x :: x in w.owners ==> after.owners[x] == if x == ws then next else w.owners[x])
  {
  }
}
