/** Safety of the identity protocol: in every run whose shard writes are sheltered
    by their reservations, in particular in every run whose shard writes are on
    time, every live user owns the row of its e-mail, so no e-mail has two live
    users anywhere. */
module IdentitySafety {
  import opened IdentityTables
  import opened IdentityProtocol

  /** Committed and not yet deleted. */
  ghost predicate Live(s: State, u: Id) {
    u in s.births && Lives(s.users, s.births[u])
  }

  /** A shard write for u still to come is late, and for this e-mail. */
  ghost predicate Settled(s: State, e: Id, u: Id) {
    && u in s.used
    && forall p :: p in s.procs && s.procs[p].Creator() && s.procs[p].c.userId == u ==>
         match s.procs[p]
         case Writing(c, at) => c.email == e && at < s.now
         case Releasing(_) => true
         case Activating(_) => true
         case _ => false
  }

  /** The only shard write still to come for the user is this claim's, under a
      reservation that expires then. */
  ghost predicate DueBy(s: State, c: Claim, last: int) {
    && c.userId in s.used
    && forall p :: p in s.procs && s.procs[p].Creator() && s.procs[p].c.userId == c.userId ==>
         match s.procs[p]
         case Writing(d, at) => d == c && at <= last
         case Releasing(_) => true
         case Activating(_) => true
         case _ => false
  }

  ghost predicate RowOk(s: State, e: Id, row: Row) {
    && row.userId in s.used
    && Complete(ClaimOf(e, row))
    && (row.status == Pending <==> row.expiresAt.Some?)
    && (row.status != Pending ==> row.userId in s.births)
    && (row.userId in s.births ==> s.births[row.userId] == ClaimOf(e, row))
  }

  ghost predicate RowsOk(s: State) {
    forall e :: e in s.rows ==> RowOk(s, e, s.rows[e])
  }

  ghost predicate BirthsOk(s: State) {
    forall u :: u in s.births ==> u in s.used && s.births[u].userId == u
  }

  ghost predicate UsersOk(s: State) {
    forall slot :: slot in s.users ==>
      && Owned(s.rows, s.users, slot)
      && s.users[slot].id in s.births
      && s.births[s.users[slot].id]
         == Claim(slot.email, s.users[slot].id, s.users[slot].workspaceId, slot.shardId)
  }

  /** An id that a creating call still holds for itself. */
  ghost predicate Unborn(s: State, c: Claim) {
    Complete(c) && c.userId in s.used && c.userId !in s.births
  }

  ghost predicate ProcOk(s: State, proc: Proc) {
    match proc
    case Reserving(c) => Unborn(s, c) && NoRow(s, c.userId)
    case Stamping(c) => Unborn(s, c) && NoRow(s, c.userId)
    case Inserting(c, _) => Unborn(s, c) && NoRow(s, c.userId)
    case Writing(c, at) =>
      && Unborn(s, c)
      && (s.now <= at ==> c.email in s.rows && s.rows[c.email] == PendingRow(c, at))
      && (forall e :: e in s.rows && s.rows[e].userId == c.userId ==> e == c.email && s.rows[e] == PendingRow(c, at))
    case Releasing(c) => Unborn(s, c)
    case Activating(c) => c.userId in s.births
    case Fetching(_) => true
    case Marking(c) => Born(s, c)
    case Rechecking(c) => Born(s, c)
    case Erasing(c) => Born(s, c)
    case Finalizing(c) => Born(s, c) && !Live(s, c.userId)
    case ReadingExpired(_) => true
    case TestingExpiry(e, row) =>
      && Complete(ClaimOf(e, row)) && row.expiresAt.Some? && DueBy(s, ClaimOf(e, row), row.expiresAt.value)
      && (row.userId in s.births ==> s.births[row.userId] == ClaimOf(e, row))
    case SawExpired(e, row) =>
      && Settled(s, e, row.userId) && row.expiresAt.Some? && DueBy(s, ClaimOf(e, row), row.expiresAt.value)
      && (row.userId in s.births ==> s.births[row.userId] == ClaimOf(e, row))
    case ActivatingSeen(_, u) => u in s.births
    case DroppingExpired(e, u) => Settled(s, e, u) && !Live(s, u)
    case ReadingRelease(_, _) => true
    case SawRelease(e, row) => row.status != Pending && Born(s, ClaimOf(e, row))
    case Restoring(_, u) => u in s.births
    case DroppingReleased(_, u, _) => u in s.births && !Live(s, u)
    case ReadingReservation(_) => true
    case TestingPending(_, _) => true
    case SawPending(_, _) => true
  }

  ghost predicate Born(s: State, c: Claim) {
    c.userId in s.births && s.births[c.userId] == c
  }

  ghost predicate NoRow(s: State, u: Id) {
    forall e :: e in s.rows ==> s.rows[e].userId != u
  }

  ghost predicate ProcsOk(s: State) {
    forall p :: p in s.procs ==> ProcOk(s, s.procs[p])
  }

  /** Every user id is held by at most one creating call. */
  ghost predicate OneCreator(s: State) {
    forall p, q :: p in s.procs && q in s.procs && p != q && s.procs[p].Creator() && s.procs[q].Creator() ==>
      s.procs[p].c.userId != s.procs[q].c.userId
  }

  ghost predicate CreatorsUsed(s: State) {
    forall p :: p in s.procs && s.procs[p].Creator() ==> s.procs[p].c.userId in s.used
  }

  ghost predicate Inv(s: State) {
    BirthsOk(s) && RowsOk(s) && UsersOk(s) && ProcsOk(s) && OneCreator(s) && CreatorsUsed(s)
  }

  // ----- the theorem -----------------------------------------------------------

  /** The shard write's own reservation is stored, and no reconciler that found
      no user is about to drop it. */
  ghost predicate HasShelter(s: State, c: Claim, at: int) {
    && c.email in s.rows && s.rows[c.email] == PendingRow(c, at)
    && forall q :: q in s.procs && s.procs[q].DroppingExpired? ==> s.procs[q].userId != c.userId
  }

  /** If the step commits a shard write, the write has shelter. */
  ghost predicate Sheltered(s: State, ev: Event) {
    ev.Step? && ev.p in s.procs && s.procs[ev.p].Writing? && CanCreate(s.users, s.procs[ev.p].c) ==>
      HasShelter(s, s.procs[ev.p].c, s.procs[ev.p].expiresAt)
  }

  /** Every shard write of the run is sheltered, whatever the clock says. */
  ghost predicate ShelteredRun(s: State, evs: seq<Event>)
    decreases |evs|
  {
    evs == [] || (Sheltered(s, evs[0]) && (Enabled(s, evs[0]) ==> ShelteredRun(Apply(s, evs[0]), evs[1..])))
  }

  /** The main result, for every interleaving, failure and crash. */
  lemma EveryShelteredRunIsSafe(s0: State, evs: seq<Event>, t: State)
    requires Initial(s0) && Run(s0, evs, t) && ShelteredRun(s0, evs)
    ensures EveryUserOwnsItsRow(t.rows, t.users) && OneUserPerEmail(t.users)
  {
    ShelteredRunsKeepInv(s0, evs, t);
  }

  /** A shard write on time is sheltered. */
  lemma OnTimeIsSheltered(s: State, ev: Event)
    requires Inv(s) && OnTime(s, ev)
    ensures Sheltered(s, ev)
  {
    if ev.Step? && ev.p in s.procs && s.procs[ev.p].Writing? {
      var c := s.procs[ev.p].c;
      forall q | q in s.procs && s.procs[q].DroppingExpired? ensures s.procs[q].userId != c.userId {
        assert ProcOk(s, s.procs[q]);
      }
      assert ProcOk(s, s.procs[ev.p]);
    }
  }

  lemma {:induction false} TimelyRunsAreSheltered(s: State, evs: seq<Event>, t: State)
    requires Inv(s) && Run(s, evs, t) && Timely(s, evs)
    ensures ShelteredRun(s, evs)
    decreases |evs|
  {
    if evs != [] {
      OnTimeIsSheltered(s, evs[0]);
      StepKeepsInv(s, evs[0]);
      TimelyRunsAreSheltered(Apply(s, evs[0]), evs[1..], t);
    }
  }

  /** So the assumption on the clock is enough. */
  lemma EveryTimelyRunIsSafe(s0: State, evs: seq<Event>, t: State)
    requires Initial(s0) && Run(s0, evs, t) && Timely(s0, evs)
    ensures EveryUserOwnsItsRow(t.rows, t.users) && OneUserPerEmail(t.users)
  {
    TimelyRunsAreSheltered(s0, evs, t);
    EveryShelteredRunIsSafe(s0, evs, t);
  }

  /** Shelter is exact: a shard write that has none breaks ownership at once, or
      by the next step of a reconciler that is running already. */
  lemma UnshelteredCommitBreaks(s: State, p: Pid, c: Claim, at: int) returns (evs: seq<Event>, u: State)
    requires Inv(s) && p in s.procs && s.procs[p] == Writing(c, at) && CanCreate(s.users, c) && !HasShelter(s, c, at)
    ensures var t := Apply(s, Step(p));
      && Run(t, evs, u) && ShelteredRun(t, evs) && !EveryUserOwnsItsRow(u.rows, u.users)
      && (evs == [] || exists q :: q in t.procs && t.procs[q].DroppingExpired? && evs == [Step(q)])
  {
    var t := Apply(s, Step(p));
    var slot := Slot(c.shardId, c.email);
    assert slot in t.users && t.users[slot].id == c.userId;
    if c.email in s.rows && s.rows[c.email] == PendingRow(c, at) {
      var q :| q in s.procs && s.procs[q].DroppingExpired? && s.procs[q].userId == c.userId;
      assert ProcOk(s, s.procs[q]) && t.procs[q] == s.procs[q];
      evs, u := [Step(q)], Apply(t, Step(q));
      OneStep(t, q);
      assert c.email !in u.rows && slot in u.users;
    } else {
      evs, u := [], t;
    }
    assert !Owned(u.rows, u.users, slot);
  }

  /** No continuation in which shard writes are sheltered leaves a user without
      its row. */
  ghost predicate StaysOwned(s: State) {
    forall evs, t :: Run(s, evs, t) && ShelteredRun(s, evs) ==> EveryUserOwnsItsRow(t.rows, t.users)
  }

  /** A shard write keeps ownership for good if and only if it is sheltered. */
  lemma CommitIsSafeIff(s: State, p: Pid, c: Claim, at: int)
    requires Inv(s) && p in s.procs && s.procs[p] == Writing(c, at) && CanCreate(s.users, c)
    ensures StaysOwned(Apply(s, Step(p))) <==> HasShelter(s, c, at)
  {
    var t := Apply(s, Step(p));
    if HasShelter(s, c, at) {
      StepKeepsInv(s, Step(p));
      forall evs, u | Run(t, evs, u) && ShelteredRun(t, evs) ensures EveryUserOwnsItsRow(u.rows, u.users) {
        ShelteredRunsKeepInv(t, evs, u);
      }
    } else {
      var evs, u := UnshelteredCommitBreaks(s, p, c, at);
      assert Run(t, evs, u) && ShelteredRun(t, evs);
    }
  }

  lemma OneStep(t: State, q: Pid)
    requires q in t.procs && t.procs[q].DroppingExpired?
    ensures Run(t, [Step(q)], Apply(t, Step(q))) && ShelteredRun(t, [Step(q)])
  {
    var evs := [Step(q)];
    assert evs[1..] == [] && Run(Apply(t, Step(q)), [], Apply(t, Step(q)));
  }

  lemma {:induction false} ShelteredRunsKeepInv(s: State, evs: seq<Event>, t: State)
    requires Inv(s) && Run(s, evs, t) && ShelteredRun(s, evs)
    ensures Inv(t)
    decreases |evs|
  {
    if evs != [] {
      StepKeepsInv(s, evs[0]);
      ShelteredRunsKeepInv(Apply(s, evs[0]), evs[1..], t);
    }
  }

  lemma TimelyRunsKeepInv(s: State, evs: seq<Event>, t: State)
    requires Inv(s) && Run(s, evs, t) && Timely(s, evs)
    ensures Inv(t)
  {
    TimelyRunsAreSheltered(s, evs, t);
    ShelteredRunsKeepInv(s, evs, t);
  }

  /** What every step leaves to the calls it does not belong to. */
  ghost predicate Grows(s: State, t: State) {
    && s.now <= t.now
    && s.used <= t.used
    && (forall u :: u in s.births ==> u in t.births && t.births[u] == s.births[u])
    && (forall u :: u in s.births && !Live(s, u) ==> !Live(t, u))
    && (forall e, u :: Settled(s, e, u) ==> Settled(t, e, u))
    && (forall p :: p in s.procs && s.procs[p].DroppingExpired? && Live(t, s.procs[p].userId) ==>
          Live(s, s.procs[p].userId))
    && (forall c, last :: DueBy(s, c, last) ==>
          DueBy(t, c, last) && (c.userId in s.births || c.userId !in t.births || t.births[c.userId] == c))
  }

  /** The step neither commits c nor touches its rows, unless one is expired. */
  ghost predicate LeavesAlone(s: State, t: State, c: Claim) {
    && c.userId !in t.births
    && (forall e :: e in t.rows && t.rows[e].userId == c.userId ==> e in s.rows && s.rows[e] == t.rows[e])
    && (c.email in s.rows && s.rows[c.email].userId == c.userId && !Expired(s.rows[c.email], t.now) ==>
          c.email in t.rows && t.rows[c.email] == s.rows[c.email])
  }

  lemma ProcStable(s: State, t: State, p: Pid, proc: Proc)
    requires p in s.procs && s.procs[p] == proc && ProcOk(s, proc) && Grows(s, t)
    requires proc.Creator() && !proc.Activating? ==> LeavesAlone(s, t, proc.c)
    ensures ProcOk(t, proc)
  {
  }

  /** t is s after a step of p, which went on as t.procs[p] or ended. */
  ghost predicate StepOf(s: State, t: State, p: Pid) {
    && (forall q :: q != p ==> (q in t.procs <==> q in s.procs))
    && (forall q :: q != p && q in s.procs ==> t.procs[q] == s.procs[q])
    && (p in t.procs && t.procs[p].Creator() ==>
          if p in s.procs then s.procs[p].Creator() && s.procs[p].c.userId == t.procs[p].c.userId
          else t.procs[p].c.userId !in s.used && t.procs[p].c.userId in t.used)
  }

  lemma OthersKeepInv(s: State, t: State, p: Pid)
    requires Inv(s) && StepOf(s, t, p) && Grows(s, t)
    requires p in t.procs ==> ProcOk(t, t.procs[p])
    requires forall q :: q in s.procs && q != p && s.procs[q].Creator() && !s.procs[q].Activating? ==>
               LeavesAlone(s, t, s.procs[q].c)
    ensures ProcsOk(t) && OneCreator(t) && CreatorsUsed(t)
  {
    forall q | q in t.procs ensures ProcOk(t, t.procs[q]) {
      if q != p { ProcStable(s, t, q, t.procs[q]); }
    }
  }

  // ----- steps that change no table --------------------------------------------

  lemma QuietStep(s: State, t: State, p: Pid)
    requires Inv(s) && StepOf(s, t, p)
    requires t.rows == s.rows && t.users == s.users && t.births == s.births
    requires s.now <= t.now && s.used <= t.used
    requires p in t.procs ==> ProcOk(t, t.procs[p])
    requires p in s.procs && p in t.procs && t.procs[p].Creator() ==>
               (forall e, u :: Settled(s, e, u) ==> Settled(t, e, u))
               && forall c, last :: DueBy(s, c, last) ==> DueBy(t, c, last)
    ensures Inv(t)
  {
    assert Grows(s, t);
    OthersKeepInv(s, t, p);
  }

  // ----- steps on the directory --------------------------------------------------

  /** Moving the row of a committed user to ACTIVE or RELEASE_PENDING. */
  lemma MoveStep(s: State, t: State, p: Pid, e: Id, u: Id, from: set<Status>, to: Status)
    requires Inv(s) && StepOf(s, t, p) && p in s.procs
    requires p in t.procs ==> !t.procs[p].Creator() && ProcOk(t, t.procs[p])
    requires t == s.(rows := Moved(s.rows, e, u, from, to), procs := t.procs)
    requires u in s.births && to != Pending
    ensures Inv(t)
  {
    assert Grows(s, t);
    OthersKeepInv(s, t, p);
  }

  lemma DropGrows(s: State, t: State, p: Pid)
    requires StepOf(s, t, p) && p in s.procs && p !in t.procs
    requires t == s.(rows := t.rows, procs := t.procs)
    ensures Grows(s, t)
  {
  }

  /** Dropping a row nobody lives behind. */
  lemma DropStep(s: State, t: State, p: Pid, e: Id, u: Id)
    requires Inv(s) && StepOf(s, t, p) && p in s.procs && p !in t.procs
    requires t == s.(rows := t.rows, procs := t.procs)
    requires t.rows == s.rows || (t.rows == s.rows - {e} && e in s.rows && s.rows[e].userId == u)
    requires !Live(s, u)
    requires t.rows == s.rows || u in s.births || Expired(s.rows[e], s.now)
             || (s.procs[p].Releasing? && s.procs[p].c.userId == u)
    ensures Inv(t)
  {
    DropGrows(s, t, p);
    OthersKeepInv(s, t, p);
  }

  lemma StepKeepsInv(s: State, ev: Event)
    requires Inv(s) && Enabled(s, ev) && Sheltered(s, ev)
    ensures Inv(Apply(s, ev))
  {
    var t := Apply(s, ev);
    match ev
    case Tick(to) => TickKeepsInv(s, to);
    case Start(p, proc) => QuietStep(s, t, p);
    case ShardRefuses(p) => QuietStep(s, t, p);
    case Stop(p) => QuietStep(s, t, p);
    case Step(p) =>
      if s.procs[p].Creator() { CreatorKeepsInv(s, p); }
      else if s.procs[p].Deleter() { DeleterKeepsInv(s, p); }
      else if s.procs[p].ExpiredReader() { ExpiredReaderKeepsInv(s, p); }
      else if s.procs[p].ReleaseReader() { ReleaseReaderKeepsInv(s, p); }
      else if s.procs[p].Resolver() { ResolverKeepsInv(s, p); }
      else { ConditionalWriteKeepsInv(s, p); }
  }

  lemma TickKeepsInv(s: State, to: int)
    requires Inv(s) && s.now <= to
    ensures Inv(s.(now := to))
  {
    var t := s.(now := to);
    assert Grows(s, t);
    forall p | p in s.procs ensures ProcOk(t, t.procs[p]) { ProcStable(s, t, p, s.procs[p]); }
  }

  lemma CreatorKeepsInv(s: State, p: Pid)
    requires Inv(s) && p in s.procs && s.procs[p].Creator() && Sheltered(s, Step(p))
    ensures Inv(CreatorStep(s, p, s.procs[p]))
  {
    var t := CreatorStep(s, p, s.procs[p]);
    match s.procs[p]
    case Reserving(c) => ReservingKeepsInv(s, p, c);
    case Stamping(c) => QuietStep(s, t, p);
    case Inserting(c, at) =>
      if c.email in s.rows { QuietStep(s, t, p); }
      else { InsertKeepsInv(s, p, c, at); }
    case Writing(c, at) =>
      if CanCreate(s.users, c) { CommitKeepsInv(s, p, c, at); }
      else { QuietStep(s, t, p); }
    case Releasing(c) => DropStep(s, t, p, c.email, c.userId);
    case Activating(c) => MoveStep(s, t, p, c.email, c.userId, {Pending}, Active);
  }

  /** A fresh user's reservation is never a refresh. */
  lemma ReservingKeepsInv(s: State, p: Pid, c: Claim)
    requires Inv(s) && p in s.procs && s.procs[p] == Reserving(c)
    ensures Inv(CreatorStep(s, p, s.procs[p]))
  {
    assert ProcOk(s, s.procs[p]) && NoRow(s, c.userId);
    QuietStep(s, CreatorStep(s, p, s.procs[p]), p);
  }

  lemma InsertKeepsInv(s: State, p: Pid, c: Claim, at: int)
    requires Inv(s) && p in s.procs && s.procs[p] == Inserting(c, at) && c.email !in s.rows
    ensures Inv(CreatorStep(s, p, s.procs[p]))
  {
    var t := CreatorStep(s, p, s.procs[p]);
    assert Grows(s, t);
    OthersKeepInv(s, t, p);
  }

  lemma CommitKeepsInv(s: State, p: Pid, c: Claim, at: int)
    requires Inv(s) && p in s.procs && s.procs[p] == Writing(c, at) && CanCreate(s.users, c) && HasShelter(s, c, at)
    ensures Inv(CreatorStep(s, p, s.procs[p]))
  {
    var t := CreatorStep(s, p, s.procs[p]);
    assert Grows(s, t);
    OthersKeepInv(s, t, p);
  }

  lemma DeleterKeepsInv(s: State, p: Pid)
    requires Inv(s) && p in s.procs && s.procs[p].Deleter()
    ensures Inv(DeleterStep(s, p, s.procs[p]))
  {
    var t := DeleterStep(s, p, s.procs[p]);
    match s.procs[p]
    case Fetching(c) => QuietStep(s, t, p);
    case Marking(c) =>
      MoveStep(s, t, p, c.email, c.userId, {Active, Pending}, ReleasePending);
    case Rechecking(c) => QuietStep(s, t, p);
    case Erasing(c) =>
      if HasId(s.users, c.shardId, c.userId) { EraseKeepsInv(s, p, c); }
      else { QuietStep(s, t, p); }
    case Finalizing(c) => DropStep(s, t, p, c.email, c.userId);
  }

  lemma EraseKeepsInv(s: State, p: Pid, c: Claim)
    requires Inv(s) && p in s.procs && s.procs[p] == Erasing(c) && HasId(s.users, c.shardId, c.userId)
    ensures Inv(DeleterStep(s, p, s.procs[p]))
  {
    var t := DeleterStep(s, p, s.procs[p]);
    assert Grows(s, t);
    OthersKeepInv(s, t, p);
  }

  /** A PENDING row carries the deadline of its user's shard write. */
  lemma PendingIsDue(s: State, e: Id)
    requires Inv(s) && e in s.rows && s.rows[e].status == Pending
    ensures s.rows[e].expiresAt.Some? && DueBy(s, ClaimOf(e, s.rows[e]), s.rows[e].expiresAt.value)
  {
    assert RowOk(s, e, s.rows[e]);
  }

  /** A row read PENDING at any earlier time, and expired by now: its shard write
      can only be in the past. */
  lemma ExpiredIsSettled(s: State, p: Pid)
    requires Inv(s) && p in s.procs && s.procs[p].TestingExpiry? && Expired(s.procs[p].row, s.now)
    ensures Settled(s, s.procs[p].email, s.procs[p].row.userId)
  {
    var e, row := s.procs[p].email, s.procs[p].row;
    assert ProcOk(s, s.procs[p]) && DueBy(s, ClaimOf(e, row), row.expiresAt.value);
  }

  /** A live user found under a row's route is the committed owner of that row. */
  lemma FoundIsBorn(s: State, c: Claim)
    requires Inv(s) && Lives(s.users, c)
    ensures Born(s, c) && Live(s, c.userId)
  {
    assert Slot(c.shardId, c.email) in s.users;
  }

  lemma ExpiredReaderKeepsInv(s: State, p: Pid)
    requires Inv(s) && p in s.procs
    requires s.procs[p].ExpiredReader()
    ensures Inv(ReaderStep(s, p, s.procs[p]))
  {
    match s.procs[p]
    case ReadingExpired(e) =>
      if e in s.rows && s.rows[e].status == Pending { PendingIsDue(s, e); }
      QuietStep(s, ReaderStep(s, p, s.procs[p]), p);
    case TestingExpiry(_, _) => TestKeepsInv(s, p);
    case SawExpired(e, row) => LookKeepsInv(s, p, e, row);
  }

  lemma TestKeepsInv(s: State, p: Pid)
    requires Inv(s) && p in s.procs && s.procs[p].TestingExpiry?
    ensures Inv(ReaderStep(s, p, s.procs[p]))
  {
    if Expired(s.procs[p].row, s.now) { ExpiredIsSettled(s, p); }
    QuietStep(s, ReaderStep(s, p, s.procs[p]), p);
  }

  lemma LookKeepsInv(s: State, p: Pid, e: Id, row: Row)
    requires Inv(s) && p in s.procs && s.procs[p] == SawExpired(e, row)
    ensures Inv(ReaderStep(s, p, s.procs[p]))
  {
    LookIsRight(s, p, e, row);
    QuietStep(s, ReaderStep(s, p, s.procs[p]), p);
  }

  /** What the shard says of the user is what the reconciler goes on with. */
  lemma LookIsRight(s: State, p: Pid, e: Id, row: Row)
    requires Inv(s) && p in s.procs && s.procs[p] == SawExpired(e, row)
    ensures Lives(s.users, ClaimOf(e, row)) ==> row.userId in s.births
    ensures !Lives(s.users, ClaimOf(e, row)) ==> !Live(s, row.userId)
  {
    assert ProcOk(s, s.procs[p]);
    if Lives(s.users, ClaimOf(e, row)) { FoundIsBorn(s, ClaimOf(e, row)); }
  }

  lemma ReleaseReaderKeepsInv(s: State, p: Pid)
    requires Inv(s) && p in s.procs
    requires s.procs[p].ReleaseReader()
    ensures Inv(ReaderStep(s, p, s.procs[p]))
  {
    QuietStep(s, ReaderStep(s, p, s.procs[p]), p);
  }

  lemma ResolverKeepsInv(s: State, p: Pid)
    requires Inv(s) && p in s.procs
    requires s.procs[p].Resolver()
    ensures Inv(ReaderStep(s, p, s.procs[p]))
  {
    if s.procs[p].SawPending? {
      var c := ClaimOf(s.procs[p].email, s.procs[p].row);
      if Lives(s.users, c) { FoundIsBorn(s, c); }
    }
    QuietStep(s, ReaderStep(s, p, s.procs[p]), p);
  }

  lemma ConditionalWriteKeepsInv(s: State, p: Pid)
    requires Inv(s) && p in s.procs
    requires s.procs[p].Writer()
    ensures Inv(ReaderStep(s, p, s.procs[p]))
  {
    var t := ReaderStep(s, p, s.procs[p]);
    match s.procs[p]
    case ActivatingSeen(e, u) => MoveStep(s, t, p, e, u, {Pending}, Active);
    case DroppingExpired(e, u) => DropStep(s, t, p, e, u);
    case Restoring(e, u) => MoveStep(s, t, p, e, u, {ReleasePending}, Active);
    case DroppingReleased(e, u, st) => DropStep(s, t, p, e, u);
  }
}
