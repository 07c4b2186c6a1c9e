/** createContext and the Protect guard: the user cache is only a routing hint. */
module RequestContext {
  import opened Wrappers
  import opened Authority
  import opened AuthorityService

  type ShardId = int

  const NO_SHARD: ShardId := 0      // null and the empty string alike

  datatype WorkspaceStatus = WS_ACTIVE | WS_SUSPENDED | WS_ARCHIVED

  /** A user row with its roles' permission lists and its workspace, as the
      context query includes them. */
  datatype DbUser = DbUser(
    userType: UserType, status: UserStatus,
    rolePermissions: seq<seq<Permission>>, customPermissions: seq<Permission>,
    workspace: Option<WorkspaceRef>
  )

  /** shardId is the workspace's persisted shard, or NO_SHARD. */
  datatype WorkspaceRef = WorkspaceRef(shardId: ShardId, status: WorkspaceStatus)

  /** Every configured shard and the users stored on it, all of them healthy. */
  type Shards = map<ShardId, map<UserId, DbUser>>

  /** A verified access token, if there was one. */
  datatype Token = Token(userId: UserId, is2faPending: bool)

  /** What the cache answers: nothing usable, an error, or a shard to try. */
  datatype CacheAnswer = Miss | Fails | Hint(shardId: ShardId)

  datatype Context =
    | Anonymous
    | Authenticated(is2faPending: bool, userType: UserType, userStatus: UserStatus,
                    workspaceStatus: WorkspaceStatus, permissions: set<Permission>)
    | Unavailable       // the request fails with DependencyUnavailableError

  // ----- the guard ------------------------------------------------------------------------------

  /** Protect without the 2FA option: does the wrapped resolver run? */
  predicate Runs(ctx: Context, needed: seq<Permission>, requireAll: bool) {
    && ctx.Authenticated?
    && !ctx.is2faPending
    && ctx.userStatus == ACTIVE
    && ctx.workspaceStatus == WS_ACTIVE
    && (ctx.userType == OWNER || HoldsNeeded(ctx.permissions, needed, requireAll))
  }

  predicate HoldsNeeded(permissions: set<Permission>, needed: seq<Permission>, requireAll: bool) {
    |needed| == 0
    || if requireAll then forall p :: p in needed ==> p in permissions
       else exists p :: p in needed && p in permissions
  }

  // ----- what the database alone decides ------------------------------------------------------

  /** getDbForWorkspace finds the persisted shard, or routes when there is none. */
  predicate Bindable(db: Shards, shardId: ShardId) {
    shardId == NO_SHARD || shardId in db
  }

  /** Some role of the row, or the row itself, lists the catalog permission. */
  predicate IsGranted(u: DbUser, p: Permission) {
    IsPermissionId(p)
    && (p in u.customPermissions || exists i :: 0 <= i < |u.rolePermissions| && p in u.rolePermissions[i])
  }

  predicate GrantsNeeded(u: DbUser, needed: seq<Permission>, requireAll: bool) {
    |needed| == 0
    || if requireAll then forall p :: p in needed ==> IsGranted(u, p)
       else exists p :: p in needed && IsGranted(u, p)
  }

  /** The row admits the request. */
  predicate RowAdmits(db: Shards, u: DbUser, token: Token, needed: seq<Permission>, requireAll: bool) {
    && u.workspace.Some? && Bindable(db, u.workspace.value.shardId)
    && u.status == ACTIVE && u.workspace.value.status == WS_ACTIVE && !token.is2faPending
    && (u.userType == OWNER || GrantsNeeded(u, needed, requireAll))
  }

  predicate StoredOn(db: Shards, s: ShardId, id: UserId) {
    s in db && id in db[s]
  }

  ghost predicate OneHome(db: Shards, id: UserId) {
    forall s, s2 :: StoredOn(db, s, id) && StoredOn(db, s2, id) ==> s == s2
  }

  function EffectiveOf(u: DbUser): set<Permission> {
    set p | p in ALL_PERMISSIONS && (u.userType == OWNER || IsGranted(u, p))
  }

  /** The context a user row leads to. */
  function ContextOf(db: Shards, u: DbUser, token: Token): Context {
    if u.workspace.None? then Anonymous
    else if !Bindable(db, u.workspace.value.shardId) then Unavailable
    else if (u.workspace.value.status != WS_ACTIVE || u.status != ACTIVE) && !token.is2faPending then Anonymous
    else Authenticated(token.is2faPending, u.userType, u.status, u.workspace.value.status, EffectiveOf(u))
  }

  /** The cache steers where the row is read, never what is read there. */
  ghost predicate Builds(db: Shards, token: Option<Token>, answer: CacheAnswer, ctx: Context) {
    if token.None? then ctx == Anonymous
    else
      var id := token.value.userId;
      if answer.Hint? && StoredOn(db, answer.shardId, id) && answer.shardId != NO_SHARD then
        ctx == ContextOf(db, db[answer.shardId][id], token.value)
      else if s :| StoredOn(db, s, id) then
        exists s :: StoredOn(db, s, id) && ctx == ContextOf(db, db[s][id], token.value)
      else ctx == Anonymous
  }

  method CreateContext(db: Shards, token: Option<Token>, answer: CacheAnswer) returns (ctx: Context)
    ensures Builds(db, token, answer, ctx)
  {
    if token.None? {
      return Anonymous;
    }
    var id := token.value.userId;
    var cachedShardId := NO_SHARD;
    if answer.Hint? {
      cachedShardId := answer.shardId;
    }
    var dbUser: Option<DbUser> := None;
    if cachedShardId != NO_SHARD {
      // an unknown shard throws, is caught, and falls through
      if cachedShardId in db && id in db[cachedShardId] {
        dbUser := Some(db[cachedShardId][id]);
      }
    }
    if dbUser.None? {
      dbUser := Scan(db, id);
    }
    if dbUser.None? || dbUser.value.workspace.None? {
      return Anonymous;
    }
    var workspace := dbUser.value.workspace.value;
    if !Bindable(db, workspace.shardId) {
      return Unavailable;
    }
    if workspace.status != WS_ACTIVE && !token.value.is2faPending {
      return Anonymous;
    }
    if dbUser.value.status != ACTIVE && !token.value.is2faPending {
      return Anonymous;
    }
    var merged := ComputeEffectivePermissions(dbUser.value.userType, dbUser.value.rolePermissions,
                                              dbUser.value.customPermissions);
    var permissions := set p | p in merged;
    MergedIsContextual(dbUser.value, merged);
    return Authenticated(token.value.is2faPending, dbUser.value.userType, dbUser.value.status, workspace.status,
                         permissions);
  }

  /** What computeEffectivePermissions returns is the context's permission set. */
  lemma MergedIsContextual(u: DbUser, merged: seq<Permission>)
    requires u.userType == OWNER ==> merged == CATALOG
    requires u.userType == MEMBER ==> forall p :: p in merged <==> IsGranted(u, p)
    ensures (set p | p in merged) == EffectiveOf(u)
  {
    forall p ensures p in merged <==> p in EffectiveOf(u) { CatalogIsComplete(p); }
  }

  /** findUserAcrossShards by id. */
  method Scan(db: Shards, id: UserId) returns (r: Option<DbUser>)
    ensures r.Some? ==> exists s :: StoredOn(db, s, id) && r.value == db[s][id]
    ensures r.None? ==> forall s :: !StoredOn(db, s, id)
  {
    if s :| s in db && id in db[s] {
      assert StoredOn(db, s, id);
      return Some(db[s][id]);
    }
    assert forall s :: !StoredOn(db, s, id);
    return None;
  }

  // ----- the cache is only a hint -----------------------------------------------------------------

  lemma ContextDecides(db: Shards, u: DbUser, token: Token, needed: seq<Permission>, requireAll: bool)
    ensures Runs(ContextOf(db, u, token), needed, requireAll) <==> RowAdmits(db, u, token, needed, requireAll)
  {
    forall p ensures p in EffectiveOf(u) <==> (u.userType == OWNER && IsPermissionId(p)) || IsGranted(u, p) {
      CatalogIsComplete(p);
    }
  }

  /** What a stored user's context is: unavailable when the recorded shard is not
      configured, anonymous without a workspace or when something is inactive and
      MFA is not pending, and otherwise the user as stored. */
  lemma ContextTells(db: Shards, u: DbUser, token: Token)
    ensures ContextOf(db, u, token).Unavailable? <==>
            u.workspace.Some? && u.workspace.value.shardId != NO_SHARD && u.workspace.value.shardId !in db
    ensures ContextOf(db, u, token).Anonymous? <==>
            u.workspace.None?
            || ((u.workspace.value.shardId == NO_SHARD || u.workspace.value.shardId in db) && !token.is2faPending
                && (u.status != ACTIVE || u.workspace.value.status != WS_ACTIVE))
    ensures var ctx := ContextOf(db, u, token);
      ctx.Authenticated? ==>
        && ctx.is2faPending == token.is2faPending && ctx.userType == u.userType && ctx.userStatus == u.status
        && u.workspace.Some? && ctx.workspaceStatus == u.workspace.value.status
        && forall p :: p in ctx.permissions <==> p in CATALOG && (u.userType == OWNER || Listed(u, p))
  {
    forall p ensures p in EffectiveOf(u) <==> p in CATALOG && (u.userType == OWNER || Listed(u, p)) {
      CatalogIsComplete(p);
    }
  }

  /** With every user on one shard, the protected resolver runs for exactly the
      requests the database admits, whatever the cache answers. */
  lemma CacheIsOnlyAHint(db: Shards, token: Option<Token>, answer: CacheAnswer, ctx: Context,
                         needed: seq<Permission>, requireAll: bool)
    requires Builds(db, token, answer, ctx)
    requires token.Some? ==> OneHome(db, token.value.userId)
    ensures Runs(ctx, needed, requireAll)
            <==> token.Some? && exists s :: (StoredOn(db, s, token.value.userId)
                                             && RowAdmits(db, db[s][token.value.userId], token.value,
                                                          needed, requireAll))
  {
    if token.Some? {
      var id := token.value.userId;
      if s :| StoredOn(db, s, id) {
        ContextDecides(db, db[s][id], token.value, needed, requireAll);
      }
    }
  }

  /** The same, spelled out: MFA is done, the user and its workspace are ACTIVE, the
      workspace's shard is configured or none is recorded, and the user is the
      OWNER or the role lists and the custom list together hold what is needed. */
  lemma ProtectedRunsIff(db: Shards, token: Option<Token>, answer: CacheAnswer, ctx: Context,
                         needed: seq<Permission>, requireAll: bool)
    requires Builds(db, token, answer, ctx)
    requires token.Some? ==> OneHome(db, token.value.userId)
    ensures Runs(ctx, needed, requireAll) <==>
            token.Some? && !token.value.is2faPending
            && exists s :: StoredOn(db, s, token.value.userId)
                 && db[s][token.value.userId].status == ACTIVE
                 && db[s][token.value.userId].workspace.Some?
                 && db[s][token.value.userId].workspace.value.status == WS_ACTIVE
                 && (db[s][token.value.userId].workspace.value.shardId == NO_SHARD
                     || db[s][token.value.userId].workspace.value.shardId in db)
                 && (db[s][token.value.userId].userType == OWNER || needed == []
                     || if requireAll then forall p :: p in needed ==> Listed(db[s][token.value.userId], p)
                        else exists p :: p in needed && Listed(db[s][token.value.userId], p))
  {
    CacheIsOnlyAHint(db, token, answer, ctx, needed, requireAll);
    assert forall u: DbUser, p :: Listed(u, p) <==> IsGranted(u, p);
    if token.Some? {
      var id := token.value.userId;
      forall s | StoredOn(db, s, id)
        ensures GrantsNeeded(db[s][id], needed, requireAll)
                <==> needed == [] || if requireAll then forall p :: p in needed ==> Listed(db[s][id], p)
                                     else exists p :: p in needed && Listed(db[s][id], p)
      {
      }
    }
  }

  /** A catalog permission on some list of the user's. */
  ghost predicate Listed(u: DbUser, p: Permission) {
    p in CATALOG && (p in u.customPermissions || exists list :: list in u.rolePermissions && p in list)
  }

  /** Exactly when the cache cannot matter: all stored copies of the user admit
      the request, or none does. (NO_SHARD is no configured shard's name.) */
  lemma CacheCannotMatterIff(db: Shards, token: Token, needed: seq<Permission>, requireAll: bool)
    requires NO_SHARD !in db
    ensures (forall a, a2, ctx, ctx2 :: Builds(db, Some(token), a, ctx) && Builds(db, Some(token), a2, ctx2) ==>
               (Runs(ctx, needed, requireAll) <==> Runs(ctx2, needed, requireAll)))
            <==> forall s, s2 :: StoredOn(db, s, token.userId) && StoredOn(db, s2, token.userId) ==>
               (RowAdmits(db, db[s][token.userId], token, needed, requireAll)
                <==> RowAdmits(db, db[s2][token.userId], token, needed, requireAll))
  {
    var id := token.userId;
    forall s | StoredOn(db, s, id)
      ensures Builds(db, Some(token), Hint(s), ContextOf(db, db[s][id], token))
      ensures Runs(ContextOf(db, db[s][id], token), needed, requireAll)
              <==> RowAdmits(db, db[s][id], token, needed, requireAll)
    {
      ContextDecides(db, db[s][id], token, needed, requireAll);
    }
    forall a, ctx | Builds(db, Some(token), a, ctx)
      ensures if s :| StoredOn(db, s, id) then exists s :: StoredOn(db, s, id) && ctx == ContextOf(db, db[s][id], token)
              else ctx == Anonymous
    {
    }
  }
}
