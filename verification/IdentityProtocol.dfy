/** The identity protocol as a step relation. Every `await` of the services is
    one step; steps of any number of creators, deleters, reconcilers and
    resolvers interleave, and any of them may stop for good between two steps.
    A failed control-plane or shard call is such a stop, before the call's
    effect or after it.

    The reconcilers that reserveEmail and resolveUserByEmail run inside
    themselves only touch the directory, so they appear as processes of
    their own. */
module IdentityProtocol {
  import opened IdentityTables

  type Pid = int

  /** A running call, named after the statement it will send next. */
  datatype Proc =
    // signup, googleLogin, createUser
    | Reserving(c: Claim)                     // findUnique in reserveEmail
    | Stamping(c: Claim)                      // computes expiresAt
    | Inserting(c: Claim, expiresAt: int)     // create the PENDING row
    | Writing(c: Claim, expiresAt: int)       // user.create on the shard
    | Releasing(c: Claim)                     // releaseAfterFailedShardWrite
    | Activating(c: Claim)                    // activateAfterShardCommit
    // deleteUser; c.email is the e-mail the fetched user turns out to have
    | Fetching(c: Claim)                      // getWorkspaceMember
    | Marking(c: Claim)                       // markReleasePendingBeforeDelete
    | Rechecking(c: Claim)                    // its findUnique after an update of no row
    | Erasing(c: Claim)                       // user.delete on the shard
    | Finalizing(c: Claim)                    // finalizeReleaseAfterUserDelete
    // reconcileExpiredPendingReservation
    | ReadingExpired(email: Id)
    | TestingExpiry(email: Id, row: Row)      // compares with the clock once the row has come
    | SawExpired(email: Id, row: Row)
    | ActivatingSeen(email: Id, userId: Id)   // also the resolver's activation
    | DroppingExpired(email: Id, userId: Id)
    // reconcileReleasePending
    | ReadingRelease(email: Id, userId: Id)
    | SawRelease(email: Id, row: Row)
    | Restoring(email: Id, userId: Id)
    | DroppingReleased(email: Id, userId: Id, status: Status)
    // resolveUserByEmail on a PENDING row that has not expired
    | ReadingReservation(email: Id)
    | TestingPending(email: Id, row: Row)
    | SawPending(email: Id, row: Row)
  {
    /** Inside signup or createUser, before the call is over. */
    predicate Creator() {
      Reserving? || Stamping? || Inserting? || Writing? || Releasing? || Activating?
    }

    /** About to send a conditional write that follows a look at a shard. */
    predicate Writer() {
      ActivatingSeen? || DroppingExpired? || Restoring? || DroppingReleased?
    }

    /** reconcileExpiredPendingReservation before its write. */
    predicate ExpiredReader() {
      ReadingExpired? || TestingExpiry? || SawExpired?
    }

    /** reconcileReleasePending before its write. */
    predicate ReleaseReader() {
      ReadingRelease? || SawRelease?
    }

    /** resolveUserByEmail before its write. */
    predicate Resolver() {
      ReadingReservation? || TestingPending? || SawPending?
    }

    /** Inside deleteUser. */
    predicate Deleter() {
      Fetching? || Marking? || Rechecking? || Erasing? || Finalizing?
    }
  }

  /** `births` and `used` are history: which claims were ever committed on a
      shard, and which user ids were ever drawn. */
  datatype State = State(
    now: int,
    rows: Directory,
    users: Users,
    procs: map<Pid, Proc>,
    used: set<Id>,
    births: map<Id, Claim>
  )

  datatype Event =
    | Tick(to: int)
    | Start(p: Pid, proc: Proc)
    | Step(p: Pid)
    | ShardRefuses(p: Pid)    // the shard write reports failure and did not commit
    | Stop(p: Pid)            // crash, or a call that throws

  ghost predicate Enabled(s: State, ev: Event) {
    match ev
    case Tick(to) => s.now <= to
    case Start(p, proc) =>
      && p !in s.procs
      && match proc {
           case Reserving(c) => Complete(c) && c.userId !in s.used   // randomUUID is fresh
           case Fetching(_) => true
           case ReadingExpired(_) => true
           case ReadingRelease(_, _) => true
           case ReadingReservation(_) => true
           case _ => false
         }
    case Step(p) => p in s.procs
    case ShardRefuses(p) => p in s.procs && s.procs[p].Writing?
    case Stop(p) => p in s.procs
  }

  function Ended(s: State, p: Pid): State {
    s.(procs := s.procs - {p})
  }

  function Became(s: State, p: Pid, proc: Proc): State {
    s.(procs := s.procs[p := proc])
  }

  /** One step of a creating call. */
  function CreatorStep(s: State, p: Pid, proc: Proc): State
    requires proc.Creator()
  {
    match proc
    case Reserving(c) =>
      if c.email !in s.rows then Became(s, p, Stamping(c))
      else
        var row := s.rows[c.email];
        // the refresh for the same user, taken as one step
        if row.status == Pending && row.userId == c.userId && (row.expiresAt.None? || row.expiresAt.value > s.now)
        then Became(s, p, Writing(c, s.now + TTL)).(rows := s.rows[c.email := PendingRow(c, s.now + TTL)])
        else Ended(s, p)
    case Stamping(c) => Became(s, p, Inserting(c, s.now + TTL))
    case Inserting(c, at) =>
      if c.email in s.rows then Ended(s, p)
      else Became(s, p, Writing(c, at)).(rows := s.rows[c.email := PendingRow(c, at)])
    case Writing(c, at) =>
      if CanCreate(s.users, c)
      then Became(s, p, Activating(c)).(users := Created(s.users, c), births := s.births[c.userId := c])
      else Became(s, p, Releasing(c))
    case Releasing(c) => Ended(s, p).(rows := Dropped(s.rows, c.email, c.userId, ANY))
    case Activating(c) => Ended(s, p).(rows := Moved(s.rows, c.email, c.userId, {Pending}, Active))
  }

  /** One step of deleteUser. */
  function DeleterStep(s: State, p: Pid, proc: Proc): State
    requires proc.Deleter()
  {
    match proc
    case Fetching(c) => if Lives(s.users, c) then Became(s, p, Marking(c)) else Ended(s, p)
    case Marking(c) =>
      if Hits(s.rows, c.email, c.userId, {Active, Pending})
      then Became(s, p, Erasing(c)).(rows := Moved(s.rows, c.email, c.userId, {Active, Pending}, ReleasePending))
      else Became(s, p, Rechecking(c))
    case Rechecking(c) =>
      if c.email !in s.rows || Hits(s.rows, c.email, c.userId, {ReleasePending})
      then Became(s, p, Erasing(c))
      else Ended(s, p)
    case Erasing(c) =>
      if HasId(s.users, c.shardId, c.userId)
      then Became(s, p, Finalizing(c)).(users := Erased(s.users, c.shardId, c.userId))
      else Ended(s, p)
    case Finalizing(c) => Ended(s, p).(rows := Dropped(s.rows, c.email, c.userId, {ReleasePending}))
  }

  /** One step of a reconciler or a resolver. */
  function ReaderStep(s: State, p: Pid, proc: Proc): State
    requires !proc.Creator() && !proc.Deleter()
  {
    match proc
    case ReadingExpired(e) =>
      if e in s.rows && s.rows[e].status == Pending then Became(s, p, TestingExpiry(e, s.rows[e])) else Ended(s, p)
    case TestingExpiry(e, row) =>
      if !Expired(row, s.now) then Ended(s, p)
      else if Complete(ClaimOf(e, row)) then Became(s, p, SawExpired(e, row))
      else Became(s, p, DroppingExpired(e, row.userId))
    case SawExpired(e, row) =>
      Became(s, p, if Lives(s.users, ClaimOf(e, row)) then ActivatingSeen(e, row.userId)
                   else DroppingExpired(e, row.userId))
    case ActivatingSeen(e, u) => Ended(s, p).(rows := Moved(s.rows, e, u, {Pending}, Active))
    case DroppingExpired(e, u) => Ended(s, p).(rows := DroppedIfExpired(s.rows, e, u, s.now))
    case ReadingRelease(e, u) =>
      if Hits(s.rows, e, u, {ReleasePending, Active}) && s.rows[e].shardId != ABSENT && s.rows[e].workspaceId != ABSENT
      then Became(s, p, SawRelease(e, s.rows[e]))
      else Ended(s, p)
    case SawRelease(e, row) =>
      if !Lives(s.users, ClaimOf(e, row)) then Became(s, p, DroppingReleased(e, row.userId, row.status))
      else if row.status == ReleasePending then Became(s, p, Restoring(e, row.userId))
      else Ended(s, p)
    case Restoring(e, u) => Ended(s, p).(rows := Moved(s.rows, e, u, {ReleasePending}, Active))
    case DroppingReleased(e, u, st) => Ended(s, p).(rows := Dropped(s.rows, e, u, {st}))
    case ReadingReservation(e) =>
      if e in s.rows && s.rows[e].status == Pending && s.rows[e].shardId != ABSENT && s.rows[e].workspaceId != ABSENT
      then Became(s, p, TestingPending(e, s.rows[e]))
      else Ended(s, p)
    case TestingPending(e, row) =>
      // an expired row goes to the reconciler
      if Expired(row, s.now) then Ended(s, p) else Became(s, p, SawPending(e, row))
    case SawPending(e, row) =>
      // findUnique by e-mail, then id and workspace compared
      if Lives(s.users, ClaimOf(e, row)) then Became(s, p, ActivatingSeen(e, row.userId)) else Ended(s, p)
  }

  ghost function Apply(s: State, ev: Event): State
    requires Enabled(s, ev)
  {
    match ev
    case Tick(to) => s.(now := to)
    case Start(p, proc) =>
      Became(s, p, proc).(used := if proc.Reserving? then s.used + {proc.c.userId} else s.used)
    case Step(p) =>
      var proc := s.procs[p];
      if proc.Creator() then CreatorStep(s, p, proc)
      else if proc.Deleter() then DeleterStep(s, p, proc)
      else ReaderStep(s, p, proc)
    case ShardRefuses(p) => Became(s, p, Releasing(s.procs[p].c))
    case Stop(p) => Ended(s, p)
  }

  /** A run from s through the events, ending in t. */
  ghost predicate Run(s: State, evs: seq<Event>, t: State)
    decreases |evs|
  {
    if evs == [] then s == t
    else Enabled(s, evs[0]) && Run(Apply(s, evs[0]), evs[1..], t)
  }

  /** An assumption about the clock: a shard write commits no later than its row's
      expiresAt. The code does not check it. */
  ghost predicate OnTime(s: State, ev: Event) {
    ev.Step? && ev.p in s.procs && s.procs[ev.p].Writing? ==> s.now <= s.procs[ev.p].expiresAt
  }

  /** Every shard write of the run is on time. */
  ghost predicate Timely(s: State, evs: seq<Event>)
    decreases |evs|
  {
    evs == [] || (OnTime(s, evs[0]) && (Enabled(s, evs[0]) ==> Timely(Apply(s, evs[0]), evs[1..])))
  }

  /** Nothing stored, nothing running: no user predates the directory. */
  ghost predicate Initial(s: State) {
    s == State(s.now, map[], map[], map[], {}, map[])
  }
}
