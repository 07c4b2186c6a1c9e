/** Refresh-token rotation: the per-user Redis set, its rotate script, and what
    holds over every run when the reuse DEL is a separate step. */
module RefreshSessions {
  import opened Wrappers
  import Authority
  import opened RequestContext

  type UserId = Authority.UserId
  type Jti = int

  // ----- one user's set over a run -------------------------------------------------------

  /** `live` is the Redis set. The rest is history: every jti ever stored, the
      login each one descends from, the rotations that succeeded, the reuse
      detections whose DEL is still to come, and the jtis stored before one. */
  datatype Session = Session(
    live: set<Jti>,
    origin: map<Jti, nat>,
    rotated: seq<Jti>,
    logins: nat,
    owedDels: nat,
    banned: set<Jti>
  )

  datatype Event =
    | Login(jti: Jti)                    // storeRefreshToken
    | Rotate(oldJti: Jti, newJti: Jti)   // the script
    | ReuseDel                           // the DEL after a script that returned 0
    | Logout(jti: Jti)
    | RevokeAll
    | KeyExpires

  ghost predicate Enabled(s: Session, ev: Event) {
    match ev
    case Login(j) => j !in s.origin                          // randomUUID is fresh
    case Rotate(_, n) => n !in s.origin
    case ReuseDel => s.owedDels > 0
    case _ => true
  }

  ghost function Next(s: Session, ev: Event): Session
    requires Enabled(s, ev)
  {
    match ev
    case Login(j) => s.(live := s.live + {j}, origin := s.origin[j := s.logins], logins := s.logins + 1)
    case Rotate(o, n) =>
      if o in s.live
      then s.(live := s.live - {o} + {n}, rotated := s.rotated + [o],
              origin := if o in s.origin then s.origin[n := s.origin[o]] else s.origin)
      else s.(owedDels := s.owedDels + 1)
    case ReuseDel => s.(live := {}, owedDels := s.owedDels - 1, banned := s.origin.Keys)
    case Logout(j) => s.(live := s.live - {j})
    case RevokeAll => s.(live := {})
    case KeyExpires => s.(live := {})
  }

  ghost predicate Run(s: Session, evs: seq<Event>, t: Session)
    decreases |evs|
  {
    if evs == [] then s == t
    else Enabled(s, evs[0]) && Run(Next(s, evs[0]), evs[1..], t)
  }

  const EMPTY := Session({}, map[], [], 0, 0, {})

  ghost predicate Distinct(xs: seq<Jti>) {
    forall i, j :: 0 <= i < j < |xs| ==> xs[i] != xs[j]
  }

  /** Different live tokens descend from different logins. */
  ghost predicate OneTokenPerLogin(s: Session) {
    && s.live <= s.origin.Keys
    && (forall j :: j in s.live ==> s.origin[j] < s.logins)
    && (forall a, b :: a in s.live && b in s.live && s.origin[a] == s.origin[b] ==> a == b)
  }

  ghost predicate Inv(s: Session) {
    && OneTokenPerLogin(s)
    && Distinct(s.rotated)
    && (forall j :: j in s.rotated ==> j in s.origin && j !in s.live)
    && s.banned <= s.origin.Keys
    && s.banned !! s.live
    && (forall j :: j in s.origin ==> s.origin[j] < s.logins)
  }

  lemma StepKeepsInv(s: Session, ev: Event)
    requires Inv(s) && Enabled(s, ev)
    ensures Inv(Next(s, ev))
    ensures s.banned <= Next(s, ev).banned
  {
  }

  lemma {:induction false} RunKeepsInv(s: Session, evs: seq<Event>, t: Session)
    requires Inv(s) && Run(s, evs, t)
    ensures Inv(t) && s.banned <= t.banned
    decreases |evs|
  {
    if evs != [] {
      StepKeepsInv(s, evs[0]);
      RunKeepsInv(Next(s, evs[0]), evs[1..], t);
    }
  }

  /** Every jti rotates successfully at most once, and the live tokens map
      injectively to logins, so there are never more of them than logins. */
  lemma RotationIsOnce(evs: seq<Event>, t: Session)
    requires Run(EMPTY, evs, t)
    ensures Distinct(t.rotated)
    ensures OneTokenPerLogin(t)
    ensures |t.live| <= t.logins
  {
    RunKeepsInv(EMPTY, evs, t);
    InjectionBounds(t.live, t.origin, t.logins);
  }

  lemma {:induction false} InjectionBounds(live: set<Jti>, origin: map<Jti, nat>, n: nat)
    requires live <= origin.Keys
    requires forall j :: j in live ==> origin[j] < n
    requires forall a, b :: a in live && b in live && origin[a] == origin[b] ==> a == b
    ensures |live| <= n
    decreases n
  {
    if n == 0 {
      assert forall j :: j !in live;
      assert live == {};
    } else if j :| j in live && origin[j] == n - 1 {
      InjectionBounds(live - {j}, origin, n - 1);
    } else {
      InjectionBounds(live, origin, n - 1);
    }
  }

  /** Once a reuse DEL has run, no jti stored before it is ever accepted again. */
  lemma ReuseEndsEveryEarlierSession(before: seq<Event>, s: Session, after: seq<Event>, t: Session, jti: Jti)
    requires Run(EMPTY, before, s) && s.owedDels > 0
    requires Run(Next(s, ReuseDel), after, t)
    requires jti in s.origin
    ensures jti !in t.live
  {
    RunKeepsInv(EMPTY, before, s);
    StepKeepsInv(s, ReuseDel);
    RunKeepsInv(Next(s, ReuseDel), after, t);
  }

  // ----- when a token is accepted ---------------------------------------------------------

  /** The states a run of events passes through. */
  ghost predicate Trace(evs: seq<Event>, trace: seq<Session>) {
    && |trace| == |evs| + 1 && trace[0] == EMPTY
    && forall k :: 0 <= k < |evs| ==> Enabled(trace[k], evs[k]) && trace[k + 1] == Next(trace[k], evs[k])
  }

  /** A login stores its token, and so does a rotation whose old token is live. */
  ghost predicate Stores(s: Session, ev: Event, j: Jti) {
    ev == Login(j) || (ev.Rotate? && ev.newJti == j && ev.oldJti in s.live)
  }

  ghost predicate EndsToken(ev: Event, j: Jti) {
    ev.ReuseDel? || ev.RevokeAll? || ev.KeyExpires? || ev == Logout(j) || (ev.Rotate? && ev.oldJti == j)
  }

  lemma {:induction false} TraceKeepsInv(evs: seq<Event>, trace: seq<Session>, n: nat)
    requires Trace(evs, trace) && n < |trace|
    ensures Inv(trace[n])
  {
    if n > 0 {
      TraceKeepsInv(evs, trace, n - 1);
      StepKeepsInv(trace[n - 1], evs[n - 1]);
    }
  }

  /** A token is live exactly from when it is stored until its logout, its rotation
      or an end of all of the user's sessions: a login ends nobody's session, and
      a logout only its own. */
  lemma {:induction false} LiveFromStoreToEnd(evs: seq<Event>, trace: seq<Session>, n: nat, j: Jti)
    requires Trace(evs, trace) && n < |trace|
    ensures j in trace[n].live <==>
            exists i :: 0 <= i < n && Stores(trace[i], evs[i], j) && forall k :: i < k < n ==> !EndsToken(evs[k], j)
  {
    if n > 0 {
      var s, ev := trace[n - 1], evs[n - 1];
      LiveFromStoreToEnd(evs, trace, n - 1, j);
      TraceKeepsInv(evs, trace, n - 1);
      assert j in trace[n].live <==> Stores(s, ev, j) || (j in s.live && !EndsToken(ev, j));
      if j in s.live && !EndsToken(ev, j) {
        var i :| 0 <= i < n - 1 && Stores(trace[i], evs[i], j) && forall k :: i < k < n - 1 ==> !EndsToken(evs[k], j);
        assert forall k :: i < k < n ==> !EndsToken(evs[k], j);
      }
    }
  }

  lemma {:induction false} OriginsStay(evs: seq<Event>, trace: seq<Session>, i: nat, n: nat, j: Jti)
    requires Trace(evs, trace) && i <= n < |trace| && j in trace[i].origin
    ensures j in trace[n].origin
  {
    if i < n { OriginsStay(evs, trace, i, n - 1, j); }
  }

  /** No token is stored twice. */
  lemma StoredOnce(evs: seq<Event>, trace: seq<Session>, i: nat, k: nat, j: Jti)
    requires Trace(evs, trace) && i < k < |evs| && Stores(trace[i], evs[i], j)
    ensures !Stores(trace[k], evs[k], j)
  {
    TraceKeepsInv(evs, trace, i);
    OriginsStay(evs, trace, i + 1, k, j);
  }

  /** So a token that has ended stays refused for good, whatever ended it: its own
      rotation, its logout, or a reuse, a reset or the key's expiry. */
  lemma EndedForGood(evs: seq<Event>, trace: seq<Session>, i: nat, d: nat, n: nat, j: Jti)
    requires Trace(evs, trace) && i < d < n < |trace| && Stores(trace[i], evs[i], j) && EndsToken(evs[d], j)
    ensures j !in trace[n].live
  {
    LiveFromStoreToEnd(evs, trace, n, j);
    if j in trace[n].live {
      var m :| 0 <= m < n && Stores(trace[m], evs[m], j) && forall k :: m < k < n ==> !EndsToken(evs[k], j);
      if m != i { StoredOnce(evs, trace, if m < i then m else i, if m < i then i else m, j); }
    }
  }

  /** In particular no token rotates twice. */
  lemma NoSecondRotation(evs: seq<Event>, trace: seq<Session>, d: nat, n: nat, j: Jti)
    requires Trace(evs, trace) && d < n < |evs| && evs[d].Rotate? && evs[d].oldJti == j && j in trace[d].live
    ensures j !in trace[n].live
  {
    LiveFromStoreToEnd(evs, trace, d, j);
    var i :| 0 <= i < d && Stores(trace[i], evs[i], j) && forall k :: i < k < d ==> !EndsToken(evs[k], j);
    EndedForGood(evs, trace, i, d, n, j);
  }

  // ----- the cache module ---------------------------------------------------------------------

  /** Some run of events leads to s. */
  ghost predicate Reached(s: Session) {
    exists evs :: Run(EMPTY, evs, s)
  }

  lemma {:induction false} RunThen(s: Session, evs: seq<Event>, m: Session, ev: Event)
    requires Run(s, evs, m) && Enabled(m, ev)
    ensures Run(s, evs + [ev], Next(m, ev))
    decreases |evs|
  {
    if evs == [] {
      assert Run(Next(s, ev), [], Next(s, ev));
      assert evs + [ev] == [ev] && [ev][1..] == [];
    } else {
      RunThen(Next(s, evs[0]), evs[1..], m, ev);
      assert (evs + [ev])[1..] == evs[1..] + [ev];
    }
  }

  lemma ReachedThen(s: Session, ev: Event)
    requires Reached(s) && Enabled(s, ev)
    ensures Reached(Next(s, ev))
  {
    var evs :| Run(EMPTY, evs, s);
    RunThen(EMPTY, evs, s, ev);
  }

  datatype Rotation = Rotated | Reuse

  datatype RefreshError = InvalidToken | ReuseDetected | ShardUnavailable

  /** The user and workspace rows let the session go on. */
  predicate MayRefresh(db: Shards, u: DbUser) {
    && u.status == Authority.ACTIVE
    && u.workspace.Some? && u.workspace.value.status == WS_ACTIVE
    && Bindable(db, u.workspace.value.shardId)
  }

  class RefreshTokenCache {
    var sets: map<UserId, set<Jti>>      // a missing key is an empty set
    var expiresAt: map<UserId, int>
    const lifetime: int                  // REFRESH_TOKEN_EXPIRES_IN

    /** Each user's session history, so far. */
    ghost var sessions: map<UserId, Session>

    constructor (lifetime: int)
      ensures Valid() && sessions == map[] && this.lifetime == lifetime
    {
      sets, expiresAt, sessions := map[], map[], map[];
      this.lifetime := lifetime;
      assert Run(EMPTY, [], EMPTY);
    }

    function Members(user: UserId): set<Jti>
      reads `sets
    {
      if user in sets then sets[user] else {}
    }

    ghost function SessionOf(user: UserId): Session
      reads `sessions
    {
      if user in sessions then sessions[user] else EMPTY
    }

    /** Every user's set is the live set of a run of session events. */
    ghost predicate Valid()
      reads `sets, `sessions
    {
      forall u :: Members(u) == SessionOf(u).live && Reached(SessionOf(u))
    }

    /** What the theorems about runs say of the cache at any time. */
    lemma EverySetIsBounded(user: UserId)
      requires Valid()
      ensures Distinct(SessionOf(user).rotated)
      ensures Members(user) <= SessionOf(user).origin.Keys && |Members(user)| <= SessionOf(user).logins
      ensures SessionOf(user).banned !! Members(user)
      ensures forall j :: j in SessionOf(user).rotated ==> j !in Members(user)
    {
      assert Members(user) == SessionOf(user).live && Reached(SessionOf(user));
      var evs :| Run(EMPTY, evs, SessionOf(user));
      RotationIsOnce(evs, SessionOf(user));
      RunKeepsInv(EMPTY, evs, SessionOf(user));
    }

    /** A login: sadd and expire. */
    method StoreRefreshToken(user: UserId, jti: Jti, now: int)
      requires Valid() && jti !in SessionOf(user).origin     // randomUUID is fresh
      modifies `sets, `expiresAt, `sessions
      ensures Valid() && sessions == old(sessions)[user := Next(old(SessionOf(user)), Login(jti))]
      ensures jti in Members(user) && forall u :: u != user ==> Members(u) == old(Members(u))
      ensures expiresAt == old(expiresAt)[user := now + lifetime]
    {
      Take(user, Login(jti));
      sets := sets[user := Members(user) + {jti}];
      expiresAt := expiresAt[user := now + lifetime];
    }

    method RevokeRefreshToken(user: UserId, jti: Jti)
      requires Valid()
      modifies `sets, `sessions
      ensures Valid() && sessions == old(sessions)[user := Next(old(SessionOf(user)), Logout(jti))]
      ensures jti !in Members(user) && forall u :: u != user ==> Members(u) == old(Members(u))
    {
      Take(user, Logout(jti));
      sets := sets[user := Members(user) - {jti}];
    }

    /** logoutAll and resetPassword; also the DEL that answers a reuse. */
    method RevokeAllRefreshTokens(user: UserId, ghost reuse: bool)
      requires Valid() && (reuse ==> SessionOf(user).owedDels > 0)
      modifies `sets, `expiresAt, `sessions
      ensures Valid()
      ensures sessions == old(sessions)[user := Next(old(SessionOf(user)), if reuse then ReuseDel else RevokeAll)]
      // no token of the user is accepted afterwards, and nobody else loses one
      ensures Members(user) == {} && user !in expiresAt
      ensures forall u :: u != user ==> Members(u) == old(Members(u)) && (u in expiresAt <==> u in old(expiresAt))
    {
      Take(user, if reuse then ReuseDel else RevokeAll);
      sets, expiresAt := sets - {user}, expiresAt - {user};
    }

    /** Redis drops the key when its time is up. */
    method KeyRunsOut(user: UserId, now: int)
      requires Valid() && user in expiresAt && expiresAt[user] <= now
      modifies `sets, `expiresAt, `sessions
      ensures Valid() && sessions == old(sessions)[user := Next(old(SessionOf(user)), KeyExpires)]
      ensures Members(user) == {} && forall u :: u != user ==> Members(u) == old(Members(u))
    {
      Take(user, KeyExpires);
      sets, expiresAt := sets - {user}, expiresAt - {user};
    }

    /** The Lua script: one atomic step. */
    method RotateScript(user: UserId, oldJti: Jti, newJti: Jti, now: int) returns (result: int)
      requires Valid() && newJti !in SessionOf(user).origin
      modifies `sets, `expiresAt, `sessions
      ensures Valid() && sessions == old(sessions)[user := Next(old(SessionOf(user)), Rotate(oldJti, newJti))]
      ensures result == if oldJti in old(Members(user)) then 1 else 0
      ensures result == 0 ==> sets == old(sets) && expiresAt == old(expiresAt)
      ensures result == 1 ==> oldJti !in Members(user) && newJti in Members(user) && user in expiresAt
                              && expiresAt == old(expiresAt)[user := now + lifetime]
      ensures forall u :: u != user ==> Members(u) == old(Members(u))
    {
      EverySetIsBounded(user);
      Take(user, Rotate(oldJti, newJti));
      var removed := if oldJti in Members(user) then 1 else 0;
      if removed == 0 {
        return 0;
      }
      sets := sets[user := Members(user) - {oldJti}];
      sets := sets[user := Members(user) + {newJti}];
      expiresAt := expiresAt[user := now + lifetime];
      return 1;
    }

    /** The script, then DEL when it found the old jti already consumed. */
    method RotateRefreshToken(user: UserId, oldJti: Jti, newJti: Jti, now: int) returns (r: Rotation)
      requires Valid() && newJti !in SessionOf(user).origin
      modifies `sets, `expiresAt, `sessions
      ensures Valid()
      ensures r == Rotated <==> oldJti in old(Members(user))
      ensures var tried := Next(old(SessionOf(user)), Rotate(oldJti, newJti));
        SessionOf(user) == match r case Rotated => tried case Reuse => Next(tried, ReuseDel)
      ensures r == Rotated ==> Members(user) == old(Members(user)) - {oldJti} + {newJti}
      ensures r == Reuse ==> Members(user) == {}
      ensures forall u :: u != user ==> Members(u) == old(Members(u)) && SessionOf(u) == old(SessionOf(u))
    {
      var result := RotateScript(user, oldJti, newJti, now);
      assert Members(user) == SessionOf(user).live;
      if result == 0 {
        RevokeAllRefreshTokens(user, true);
        return Reuse;
      }
      return Rotated;
    }

    /** refreshTokens: the user, its workspace and its shard are looked up before
        the old token is consumed, so a refused call costs the caller nothing. */
    method RefreshTokens(db: Shards, user: UserId, oldJti: Jti, newJti: Jti, now: int)
        returns (r: Result<(), RefreshError>)
      requires Valid() && newJti !in SessionOf(user).origin
      modifies `sets, `expiresAt, `sessions
      ensures Valid()
      ensures r.Ok? ==> Members(user) == old(Members(user)) - {oldJti} + {newJti} && oldJti in old(Members(user))
      ensures r == Err(ReuseDetected) ==> Members(user) == {} && oldJti !in old(Members(user))
      ensures r in {Err(InvalidToken), Err(ShardUnavailable)} ==> sets == old(sets) && sessions == old(sessions)
      // which of these it is, for a user with one home
      ensures OneHome(db, user) ==>
                (r in {Ok(()), Err(ReuseDetected)} <==>
                 exists s :: StoredOn(db, s, user) && MayRefresh(db, db[s][user]))
      ensures r == Err(ShardUnavailable) ==>
                exists s :: StoredOn(db, s, user) && db[s][user].workspace.Some?
                            && !Bindable(db, db[s][user].workspace.value.shardId)
    {
      var found := Scan(db, user);
      if found.None? || found.value.status != Authority.ACTIVE {
        return Err(InvalidToken);
      }
      if found.value.workspace.None? || found.value.workspace.value.status != WS_ACTIVE {
        return Err(InvalidToken);
      }
      if !Bindable(db, found.value.workspace.value.shardId) {
        return Err(ShardUnavailable);
      }
      var outcome := RotateRefreshToken(user, oldJti, newJti, now);
      if outcome == Reuse {
        return Err(ReuseDetected);
      }
      return Ok(());
    }

    /** The history takes the event that the next statements carry out. */
    ghost method Take(user: UserId, ev: Event)
      requires Valid() && Enabled(SessionOf(user), ev)
      modifies `sessions
      ensures sessions == old(sessions)[user := Next(old(SessionOf(user)), ev)]
      ensures forall u :: Reached(SessionOf(u))
      ensures forall u :: u != user ==> Members(u) == SessionOf(u).live
    {
      assert forall u :: Members(u) == SessionOf(u).live && Reached(SessionOf(u));
      ReachedThen(SessionOf(user), ev);
      sessions := sessions[user := Next(SessionOf(user), ev)];
      assert forall u :: u != user ==> SessionOf(u) == old(SessionOf(u)) && old(Reached(SessionOf(u)));
    }
  }
}
