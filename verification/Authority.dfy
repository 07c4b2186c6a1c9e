/** Who may do what inside a workspace: effective permissions, the grant policy,
    the user-management operations and ownership. */
module Authority {
  type UserId = int
  type RoleId = int
  type WorkspaceId = int

  /** The permission catalog; stored role and user lists may hold other strings. */
  datatype Permission =
    | UsersRead | UsersCreate | UsersUpdate | UsersDelete
    | UsersManageStatus | UsersManageRoles | UsersManagePermissions
    | RolesRead | RolesCreate | RolesUpdate | RolesDelete
    | WorkspaceRead | WorkspaceUpdate | WorkspaceTransferOwnership
    | AuditRead
    | Unlisted(text: string)

  const CATALOG: seq<Permission> :=
    [ UsersRead, UsersCreate, UsersUpdate, UsersDelete, UsersManageStatus, UsersManageRoles, UsersManagePermissions,
      RolesRead, RolesCreate, RolesUpdate, RolesDelete,
      WorkspaceRead, WorkspaceUpdate, WorkspaceTransferOwnership, AuditRead ]

  const ALL_PERMISSIONS: set<Permission> :=
    { UsersRead, UsersCreate, UsersUpdate, UsersDelete, UsersManageStatus, UsersManageRoles, UsersManagePermissions,
      RolesRead, RolesCreate, RolesUpdate, RolesDelete,
      WorkspaceRead, WorkspaceUpdate, WorkspaceTransferOwnership, AuditRead }

  predicate IsPermissionId(p: Permission) {
    !p.Unlisted?
  }

  lemma CatalogIsComplete(p: Permission)
    ensures p in ALL_PERMISSIONS <==> IsPermissionId(p)
    ensures p in CATALOG <==> IsPermissionId(p)
  {
    CatalogListsAll(p);
  }

  lemma CatalogListsAll(p: Permission)
    ensures p in CATALOG <==> p in ALL_PERMISSIONS
  {
    assert CATALOG[0] == UsersRead && CATALOG[1] == UsersCreate && CATALOG[2] == UsersUpdate
           && CATALOG[3] == UsersDelete && CATALOG[4] == UsersManageStatus && CATALOG[5] == UsersManageRoles
           && CATALOG[6] == UsersManagePermissions;
    assert CATALOG[7] == RolesRead && CATALOG[8] == RolesCreate && CATALOG[9] == RolesUpdate
           && CATALOG[10] == RolesDelete && CATALOG[11] == WorkspaceRead && CATALOG[12] == WorkspaceUpdate
           && CATALOG[13] == WorkspaceTransferOwnership && CATALOG[14] == AuditRead;
  }

  datatype UserType = OWNER | MEMBER
  datatype UserStatus = ACTIVE | SUSPENDED | INVITED

  datatype Role = Role(workspaceId: WorkspaceId, name: string, isSystem: bool, permissions: seq<Permission>)

  datatype Member = Member(workspaceId: WorkspaceId, userType: UserType, status: UserStatus,
                           roles: set<RoleId>, customPermissions: seq<Permission>)

  /** The tables of one shard that authority depends on; `owners` is Workspace.ownerId. */
  datatype World = World(members: map<UserId, Member>, roles: map<RoleId, Role>, owners: map<WorkspaceId, UserId>)

  /** The caller as its request context saw it. */
  datatype Actor = Actor(id: UserId, workspaceId: WorkspaceId, userType: UserType, permissions: set<Permission>)

  datatype AuthorityError = Forbidden | UserNotFound | WorkspaceNotFound | Invalid | OwnerExists | DependencyDown

  // ----- effective permissions ------------------------------------------------------------

  function Effective(w: World, m: Member): set<Permission> {
    if m.userType == OWNER then ALL_PERMISSIONS
    else set p | p in ALL_PERMISSIONS && (p in m.customPermissions
                                          || exists r :: r in m.roles && r in w.roles && p in w.roles[r].permissions)
  }

  /** Everything the non-owner members of a workspace can do together. */
  ghost function Pooled(w: World, ws: WorkspaceId): set<Permission> {
    set p | p in ALL_PERMISSIONS && exists u :: u in w.members && InPool(w, ws, u) && p in Effective(w, w.members[u])
  }

  predicate InPool(w: World, ws: WorkspaceId, u: UserId) {
    u in w.members && w.members[u].workspaceId == ws && w.members[u].userType == MEMBER
  }

  function ActorOf(w: World, u: UserId): Actor
    requires u in w.members
  {
    var m := w.members[u];
    Actor(u, m.workspaceId, m.userType, Effective(w, m))
  }

  // ----- the grant policy -----------------------------------------------------------------------

  predicate IsOwner(a: Actor) { a.userType == OWNER }

  predicate ActorHas(a: Actor, p: Permission) { IsOwner(a) || p in a.permissions }

  predicate CanGrant(a: Actor, permissions: seq<Permission>) {
    IsOwner(a) || forall p :: p in permissions ==> p in a.permissions
  }

  predicate IsAdmin(r: Role) { r.isSystem && r.name == "Admin" }

  /** The roles findMany returns for the ids, inside the workspace. */
  function FoundRoles(w: World, ws: WorkspaceId, roleIds: seq<RoleId>): set<RoleId> {
    set r | r in roleIds && r in w.roles && w.roles[r].workspaceId == ws
  }

  predicate RolesInWorkspace(w: World, ws: WorkspaceId, roleIds: seq<RoleId>) {
    |roleIds| == 0 || |FoundRoles(w, ws, roleIds)| == |roleIds|
  }

  predicate MayHandOut(a: Actor, r: Role) {
    IsOwner(a) || (!IsAdmin(r) && CanGrant(a, r.permissions))
  }

  predicate CanAssign(w: World, a: Actor, roleIds: seq<RoleId>) {
    RolesInWorkspace(w, a.workspaceId, roleIds)
    && forall r :: r in FoundRoles(w, a.workspaceId, roleIds) ==> MayHandOut(a, w.roles[r])
  }

  // ----- the operations -----------------------------------------------------------------------------

  datatype Request =
    | CreateUser(id: UserId, roleIds: seq<RoleId>, customPermissions: seq<Permission>)
    | UpdateUserStatus(id: UserId, status: UserStatus)
    | SetUserRoles(id: UserId, roleIds: seq<RoleId>)
    | SetUserPermissions(id: UserId, customPermissions: seq<Permission>)
    | AssignRoles(id: UserId, roleIds: seq<RoleId>)
    | RemoveRoles(id: UserId, roleIds: seq<RoleId>)
    | DeleteUser(id: UserId)

  function AsSet(ids: seq<RoleId>): set<RoleId> { set r | r in ids }

  /** The permission that guards the request's resolver. */
  function Needs(req: Request): Permission {
    match req
    case CreateUser(_, _, _) => UsersCreate
    case UpdateUserStatus(_, _) => UsersManageStatus
    case SetUserRoles(_, _) => UsersManageRoles
    case SetUserPermissions(_, _) => UsersManagePermissions
    case AssignRoles(_, _) => UsersManageRoles
    case RemoveRoles(_, _) => UsersManageRoles
    case DeleteUser(_) => UsersDelete
  }

  /** What the policies ask of the request beyond its guard. */
  predicate Admits(w: World, a: Actor, req: Request) {
    match req
    case CreateUser(_, roleIds, custom) =>
      && (|roleIds| > 0 ==> ActorHas(a, UsersManageRoles) && CanAssign(w, a, roleIds))
      && (|custom| > 0 ==> ActorHas(a, UsersManagePermissions) && CanGrant(a, custom))
    case UpdateUserStatus(id, status) => status == SUSPENDED ==> id != a.id || IsOwner(a)
    case SetUserRoles(id, roleIds) => (IsOwner(a) || id != a.id) && CanAssign(w, a, roleIds)
    case SetUserPermissions(id, custom) => (IsOwner(a) || id != a.id) && CanGrant(a, custom)
    case AssignRoles(id, roleIds) => (IsOwner(a) || id != a.id) && CanAssign(w, a, roleIds)
    case RemoveRoles(id, roleIds) =>
      (IsOwner(a) || id != a.id)
      && (IsOwner(a) || forall r :: r in FoundRoles(w, a.workspaceId, roleIds) ==> !IsAdmin(w.roles[r]))
    case DeleteUser(_) => true
  }

  /** The target is a member of the actor's workspace and not its owner. */
  predicate Manageable(w: World, a: Actor, id: UserId) {
    InPool(w, a.workspaceId, id)
  }

  /** The row write of an admitted request. */
  function Written(w: World, a: Actor, req: Request): World
    requires !req.CreateUser? ==> req.id in w.members
  {
    match req
    case CreateUser(id, roleIds, custom) =>
      w.(members := w.members[id := Member(a.workspaceId, MEMBER, ACTIVE, AsSet(roleIds), custom)])
    case UpdateUserStatus(id, status) => w.(members := w.members[id := w.members[id].(status := status)])
    case SetUserRoles(id, roleIds) => w.(members := w.members[id := w.members[id].(roles := AsSet(roleIds))])
    case SetUserPermissions(id, custom) => w.(members := w.members[id := w.members[id].(customPermissions := custom)])
    case AssignRoles(id, roleIds) =>
      w.(members := w.members[id := w.members[id].(roles := w.members[id].roles + AsSet(roleIds))])
    case RemoveRoles(id, roleIds) =>
      w.(members := w.members[id := w.members[id].(roles := w.members[id].roles - AsSet(roleIds))])
    case DeleteUser(id) => w.(members := w.members - {id})
  }

  predicate Accepted(w: World, a: Actor, req: Request) {
    ActorHas(a, Needs(req)) && Admits(w, a, req)
    && if req.CreateUser? then req.id !in w.members else Manageable(w, a, req.id)
  }

  function Performed(w: World, a: Actor, req: Request): World {
    if Accepted(w, a, req) then Written(w, a, req) else w
  }

  predicate IsNamedOwner(w: World, u: UserId) {
    exists ws :: ws in w.owners && w.owners[ws] == u
  }

  /** The row write of a request that was accepted earlier, whatever has happened
      since: an update by id of a row that is gone throws, and the foreign key of
      ownerId restricts deletes. */
  function WrittenLater(w: World, a: Actor, req: Request): World {
    if !req.CreateUser? && req.id !in w.members then w
    else if req.DeleteUser? && IsNamedOwner(w, req.id) then w
    else Written(w, a, req)
  }

  // ----- no amplification -----------------------------------------------------------------------------

  /** A request whose checks have passed, with the context it was checked in. */
  datatype Draft = Draft(actor: Actor, req: Request)

  /** Requests in flight keep the context they started with, however stale, and
      write some time after their checks. `homes` is the workspace every user id
      was ever stored in. */
  datatype Desk = Desk(world: World, sessions: map<int, Actor>, drafts: map<int, Draft>,
                       homes: map<UserId, WorkspaceId>)

  datatype Event =
    | Open(k: int, user: UserId)              // createContext takes the snapshot
    | Accept(k: int, j: int, req: Request)    // the checks of a call pass
    | Store(j: int)                           // its write
    | GiveUp(j: int)

  ghost predicate Enabled(d: Desk, ev: Event) {
    match ev
    case Open(_, u) => u in d.world.members
    case Accept(k, j, req) =>
      && j !in d.drafts && k in d.sessions && d.sessions[k].userType == MEMBER     // non-owners only
      && Accepted(d.world, d.sessions[k], req)
      && (req.CreateUser? ==> req.id !in d.homes)                                  // randomUUID is fresh
    case Store(j) => j in d.drafts
    case GiveUp(j) => j in d.drafts
  }

  ghost function Next(d: Desk, ev: Event): Desk
    requires Enabled(d, ev)
  {
    match ev
    case Open(k, u) => d.(sessions := d.sessions[k := ActorOf(d.world, u)])
    case Accept(k, j, req) =>
      d.(drafts := d.drafts[j := Draft(d.sessions[k], req)],
         homes := if req.CreateUser? then d.homes[req.id := d.sessions[k].workspaceId] else d.homes)
    case Store(j) =>
      d.(world := WrittenLater(d.world, d.drafts[j].actor, d.drafts[j].req), drafts := d.drafts - {j})
    case GiveUp(j) => d.(drafts := d.drafts - {j})
  }

  ghost predicate Run(d: Desk, evs: seq<Event>, last: Desk)
    decreases |evs|
  {
    if evs == [] then d == last
    else Enabled(d, evs[0]) && Run(Next(d, evs[0]), evs[1..], last)
  }

  /** Nothing under way. */
  ghost function Quiet(w: World): Desk {
    Desk(w, map[], map[], map u | u in w.members :: w.members[u].workspaceId)
  }

  /** What the request hands out, the actor holds. */
  ghost predicate HandsOutHeld(w: World, a: Actor, req: Request) {
    && (req.CreateUser? || req.SetUserRoles? || req.AssignRoles? ==>
          forall r :: r in req.roleIds ==>
            r in w.roles && forall p :: p in w.roles[r].permissions ==> p in a.permissions)
    && (req.CreateUser? || req.SetUserPermissions? ==> forall p :: p in req.customPermissions ==> p in a.permissions)
  }

  ghost predicate WithinBound(a: Actor, bound: map<WorkspaceId, set<Permission>>) {
    a.workspaceId in bound && a.permissions <= bound[a.workspaceId]
  }

  ghost predicate DraftOk(d: Desk, draft: Draft, bound: map<WorkspaceId, set<Permission>>) {
    && draft.actor.userType == MEMBER && WithinBound(draft.actor, bound)
    && HandsOutHeld(d.world, draft.actor, draft.req)
    && draft.req.id in d.homes && d.homes[draft.req.id] == draft.actor.workspaceId
  }

  /** Nobody in a workspace, at work or on file, exceeds the workspace's bound. */
  ghost predicate Bounded(d: Desk, bound: map<WorkspaceId, set<Permission>>) {
    && (forall u :: u in d.world.members ==> u in d.homes && d.homes[u] == d.world.members[u].workspaceId)
    && (forall u :: u in d.world.members && d.world.members[u].userType == MEMBER ==>
          d.world.members[u].workspaceId in bound
          && Effective(d.world, d.world.members[u]) <= bound[d.world.members[u].workspaceId])
    && (forall k :: k in d.sessions && d.sessions[k].userType == MEMBER ==> WithinBound(d.sessions[k], bound))
    && (forall j :: j in d.drafts ==> DraftOk(d, d.drafts[j], bound))
  }

  /** A role handed out by a non-owner carries nothing the actor lacks. */
  lemma AssignedRolesAreHeld(w: World, a: Actor, roleIds: seq<RoleId>, r: RoleId)
    requires a.userType == MEMBER && CanAssign(w, a, roleIds) && r in roleIds
    ensures r in w.roles && forall p :: p in w.roles[r].permissions ==> p in a.permissions
  {
    AllAreFound(w, a.workspaceId, roleIds);
    assert r in FoundRoles(w, a.workspaceId, roleIds);
  }

  /** Equal counts mean that no id was missing. */
  lemma AllAreFound(w: World, ws: WorkspaceId, roleIds: seq<RoleId>)
    requires RolesInWorkspace(w, ws, roleIds)
    ensures forall r :: r in roleIds ==> r in FoundRoles(w, ws, roleIds)
  {
    var found := FoundRoles(w, ws, roleIds);
    if r :| r in roleIds && r !in found {
      SetIsNoLonger(roleIds);
      assert found + {r} <= AsSet(roleIds);
      SubsetIsNoLarger(found + {r}, AsSet(roleIds));
      assert false;
    }
  }

  lemma {:induction false} SetIsNoLonger(ids: seq<RoleId>)
    ensures |AsSet(ids)| <= |ids|
  {
    if ids != [] {
      SetIsNoLonger(ids[1..]);
      assert AsSet(ids) == {ids[0]} + AsSet(ids[1..]);
    }
  }

  lemma SubsetIsNoLarger(a: set<RoleId>, b: set<RoleId>)
    requires a <= b
    ensures |a| <= |b|
  {
    assert b == a + (b - a);
  }

  lemma AcceptedHandsOutHeld(w: World, a: Actor, req: Request)
    requires a.userType == MEMBER && Accepted(w, a, req)
    ensures HandsOutHeld(w, a, req)
  {
    if req.CreateUser? || req.SetUserRoles? || req.AssignRoles? {
      forall r | r in req.roleIds
        ensures r in w.roles && forall p :: p in w.roles[r].permissions ==> p in a.permissions
      {
        AssignedRolesAreHeld(w, a, req.roleIds, r);
      }
    }
  }

  lemma StepKeepsBounded(d: Desk, ev: Event, bound: map<WorkspaceId, set<Permission>>)
    requires Bounded(d, bound) && Enabled(d, ev)
    ensures Bounded(Next(d, ev), bound)
  {
    match ev
    case Store(j) => StoreKeepsBounded(d, j, bound);
    case Accept(k, j, req) =>
      AcceptedHandsOutHeld(d.world, d.sessions[k], req);
      var t := Next(d, ev);
      forall l | l in t.drafts ensures DraftOk(t, t.drafts[l], bound) {
        if l != j { assert DraftOk(d, d.drafts[l], bound); }
      }
    case _ =>
  }

  lemma StoreKeepsBounded(d: Desk, j: int, bound: map<WorkspaceId, set<Permission>>)
    requires Bounded(d, bound) && j in d.drafts
    ensures Bounded(Next(d, Store(j)), bound)
  {
    var w, a, req := d.world, d.drafts[j].actor, d.drafts[j].req;
    assert DraftOk(d, d.drafts[j], bound);
    var t := Next(d, Store(j));
    forall u | u in t.world.members && t.world.members[u].userType == MEMBER
      ensures t.world.members[u].workspaceId in bound
              && Effective(t.world, t.world.members[u]) <= bound[t.world.members[u].workspaceId]
    {
      if u == req.id && t.world == Written(w, a, req) && !req.DeleteUser? {
        WriteStaysWithin(w, a, req, bound[a.workspaceId]);
      } else {
        assert t.world.members[u] == w.members[u];
        assert Effective(t.world, t.world.members[u]) == Effective(w, w.members[u]);
      }
    }
    forall l | l in t.drafts ensures DraftOk(t, t.drafts[l], bound) { assert DraftOk(d, d.drafts[l], bound); }
  }

  /** The written member can do nothing beyond the actor and the old target. */
  lemma WriteStaysWithin(w: World, a: Actor, req: Request, bound: set<Permission>)
    requires a.permissions <= bound && HandsOutHeld(w, a, req) && !req.DeleteUser?
    requires !req.CreateUser? ==> req.id in w.members && w.members[req.id].userType == MEMBER
                                  && Effective(w, w.members[req.id]) <= bound
    ensures Effective(w, Written(w, a, req).members[req.id]) <= bound
  {
    var m := Written(w, a, req).members[req.id];
    forall p | p in Effective(w, m) ensures p in bound {
      if p !in m.customPermissions {
        var r :| r in m.roles && r in w.roles && p in w.roles[r].permissions;
        if !((req.CreateUser? || req.SetUserRoles? || req.AssignRoles?) && r in req.roleIds) {
          assert r in w.members[req.id].roles && p in Effective(w, w.members[req.id]);
        }
      } else if !(req.CreateUser? || req.SetUserPermissions?) {
        assert p in Effective(w, w.members[req.id]);
      }
    }
  }

  lemma {:induction false} RunKeepsBounded(d: Desk, evs: seq<Event>, last: Desk,
                                           bound: map<WorkspaceId, set<Permission>>)
    requires Run(d, evs, last) && Bounded(d, bound)
    ensures Bounded(last, bound)
    decreases |evs|
  {
    if evs != [] {
      StepKeepsBounded(d, evs[0], bound);
      RunKeepsBounded(Next(d, evs[0]), evs[1..], last, bound);
    }
  }

  /** No amplification: whatever the non-owners of the workspaces do, from
      contexts as stale as they like and with any other calls between a check and
      its write, what a workspace's non-owners can do together never grows. */
  lemma NoAmplification(w: World, evs: seq<Event>, last: Desk, ws: WorkspaceId)
    requires Run(Quiet(w), evs, last)
    ensures Pooled(last.world, ws) <= Pooled(w, ws)
  {
    var spaces := set u | u in w.members :: w.members[u].workspaceId;
    var bound := map x | x in spaces + {ws} :: Pooled(w, x);
    forall u | u in w.members && w.members[u].userType == MEMBER
      ensures w.members[u].workspaceId in bound
              && Effective(w, w.members[u]) <= bound[w.members[u].workspaceId]
    {
      assert InPool(w, w.members[u].workspaceId, u);
    }
    RunKeepsBounded(Quiet(w), evs, last, bound);
  }

  // ----- ownership ---------------------------------------------------------------------------------------

  /** Every workspace has exactly one OWNER: the ACTIVE user that ownerId names. */
  ghost predicate OwnersOk(w: World) {
    && (forall ws :: ws in w.owners ==>
          w.owners[ws] in w.members && OwnerOf(w.members[w.owners[ws]], ws))
    && (forall u :: u in w.members && w.members[u].userType == OWNER ==>
          w.members[u].workspaceId in w.owners && w.owners[w.members[u].workspaceId] == u)
    && (forall u :: u in w.members ==> w.members[u].workspaceId in w.owners)
  }

  predicate OwnerOf(m: Member, ws: WorkspaceId) {
    m.workspaceId == ws && m.userType == OWNER && m.status == ACTIVE
  }

  /** The committed transaction of signup and of the creating half of googleLogin. */
  function SignedUp(w: World, ws: WorkspaceId, owner: UserId, admin: RoleId): World {
    World(w.members[owner := Member(ws, OWNER, ACTIVE, {}, [])],
          w.roles[admin := Role(ws, "Admin", true, CATALOG)],
          w.owners[ws := owner])
  }

  predicate CanTransfer(w: World, ws: WorkspaceId, current: UserId, next: UserId) {
    && next != current
    && ws in w.owners && w.owners[ws] == current && current in w.members
    && next in w.members && w.members[next].workspaceId == ws
    && w.members[next].status == ACTIVE && w.members[next].userType != OWNER
  }

  function Transferred(w: World, ws: WorkspaceId, current: UserId, next: UserId): World
    requires CanTransfer(w, ws, current, next)
  {
    w.(members := w.members[current := w.members[current].(userType := MEMBER)]
                           [next := w.members[next].(userType := OWNER)],
       owners := w.owners[ws := next])
  }

  datatype OwnershipEvent =
    | SignUp(ws: WorkspaceId, owner: UserId, admin: RoleId)
    | Transfer(ws: WorkspaceId, current: UserId, next: UserId)
    | Manage(actor: Actor, req: Request)

  /** Any caller at all, with whatever context it has; fresh ids are fresh. */
  ghost predicate OwnershipStep(w: World, ev: OwnershipEvent, after: World) {
    match ev
    case SignUp(ws, owner, admin) =>
      ws !in w.owners && owner !in w.members && admin !in w.roles && after == SignedUp(w, ws, owner, admin)
    case Transfer(ws, current, next) =>
      after == if CanTransfer(w, ws, current, next) then Transferred(w, ws, current, next) else w
    case Manage(a, req) => (req.CreateUser? ==> a.workspaceId in w.owners) && after == Performed(w, a, req)
  }

  ghost predicate OwnershipRun(w: World, evs: seq<OwnershipEvent>, trace: seq<World>) {
    |trace| == |evs| + 1 && trace[0] == w
    && forall i :: 0 <= i < |evs| ==> OwnershipStep(trace[i], evs[i], trace[i + 1])
  }

  lemma SignUpKeepsOwners(w: World, ws: WorkspaceId, owner: UserId, admin: RoleId)
    requires OwnersOk(w) && ws !in w.owners && owner !in w.members
    ensures OwnersOk(SignedUp(w, ws, owner, admin))
  {
    assert forall u :: u in w.members ==> w.members[u].workspaceId != ws;
  }

  lemma TransferKeepsOwners(w: World, ws: WorkspaceId, current: UserId, next: UserId)
    requires OwnersOk(w) && CanTransfer(w, ws, current, next)
    ensures OwnersOk(Transferred(w, ws, current, next))
  {
  }

  lemma RequestKeepsOwners(w: World, a: Actor, req: Request)
    requires OwnersOk(w) && Accepted(w, a, req) && (req.CreateUser? ==> a.workspaceId in w.owners)
    ensures OwnersOk(Written(w, a, req))
  {
  }

  lemma OwnershipStepKeepsOwners(w: World, ev: OwnershipEvent, after: World)
    requires OwnersOk(w) && OwnershipStep(w, ev, after)
    ensures OwnersOk(after)
  {
    match ev
    case SignUp(ws, owner, admin) => SignUpKeepsOwners(w, ws, owner, admin);
    case Transfer(ws, current, next) =>
      if CanTransfer(w, ws, current, next) { TransferKeepsOwners(w, ws, current, next); }
    case Manage(a, req) =>
      if Accepted(w, a, req) { RequestKeepsOwners(w, a, req); }
  }

  /** One owner per workspace at every point of every run. */
  lemma {:induction false} OneOwnerAlways(w: World, evs: seq<OwnershipEvent>, trace: seq<World>, i: nat)
    requires w.members == map[] && w.owners == map[]
    requires OwnershipRun(w, evs, trace) && i < |trace|
    ensures OwnersOk(trace[i])
  {
    if i > 0 {
      OneOwnerAlways(w, evs, trace, i - 1);
      OwnershipStepKeepsOwners(trace[i - 1], evs[i - 1], trace[i]);
    }
  }

  /** updateUserStatus reads its target before it writes. The write itself keeps
      the owner active if and only if it activates, or meets a non-owner. */
  lemma StatusWriteIsSafeIff(w: World, a: Actor, id: UserId, status: UserStatus)
    requires OwnersOk(w) && id in w.members
    ensures OwnersOk(Written(w, a, UpdateUserStatus(id, status)))
            <==> status == ACTIVE || w.members[id].userType != OWNER
  {
    var after := Written(w, a, UpdateUserStatus(id, status));
    if w.members[id].userType == OWNER && status != ACTIVE {
      var ws := w.members[id].workspaceId;
      assert ws in after.owners && !OwnerOf(after.members[after.owners[ws]], ws);
    }
  }

  /** A transfer between the check and the write suspends the new owner. */
  lemma TransferDuringSuspendBreaksOwnership()
    ensures exists w, ws, current, next, a ::
              OwnersOk(w) && Accepted(w, a, UpdateUserStatus(next, SUSPENDED)) && CanTransfer(w, ws, current, next)
              && next in Transferred(w, ws, current, next).members
              && !OwnersOk(Written(Transferred(w, ws, current, next), a, UpdateUserStatus(next, SUSPENDED)))
  {
    var owner := Member(9, OWNER, ACTIVE, {}, []);
    var w := World(map[1 := owner, 2 := owner.(userType := MEMBER)], map[], map[9 := 1]);
    var a := ActorOf(w, 1);
    assert OwnersOk(w);
    var after := Transferred(w, 9, 1, 2);
    OwnershipStepKeepsOwners(w, Transfer(9, 1, 2), after);
    StatusWriteIsSafeIff(after, a, 2, SUSPENDED);
    assert Accepted(w, a, UpdateUserStatus(2, SUSPENDED)) && CanTransfer(w, 9, 1, 2);
  }
}
