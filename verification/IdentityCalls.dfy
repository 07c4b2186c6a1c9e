/** What every call of the identity protocol comes to when nothing interrupts it:
    taken alone, a process ends, and ends in exactly one state. */
module IdentityCalls {
  import opened Wrappers
  import opened IdentityTables
  import opened IdentityProtocol
  import opened IdentitySafety
  import opened IdentityRecovery
  import opened IdentityRuns

  /** How many steps a call has still to take at most. */
  function StepsLeft(proc: Proc): nat {
    match proc
    case Reserving(_) => 5
    case Stamping(_) => 4
    case Inserting(_, _) => 3
    case Writing(_, _) => 2
    case Releasing(_) => 1
    case Activating(_) => 1
    case Fetching(_) => 5
    case Marking(_) => 4
    case Rechecking(_) => 3
    case Erasing(_) => 2
    case Finalizing(_) => 1
    case ReadingExpired(_) => 4
    case TestingExpiry(_, _) => 3
    case SawExpired(_, _) => 2
    case ActivatingSeen(_, _) => 1
    case DroppingExpired(_, _) => 1
    case ReadingRelease(_, _) => 3
    case SawRelease(_, _) => 2
    case Restoring(_, _) => 1
    case DroppingReleased(_, _, _) => 1
    case ReadingReservation(_) => 4
    case TestingPending(_, _) => 3
    case SawPending(_, _) => 2
  }

  lemma CreatorStepsRunOut(s: State, p: Pid)
    requires p in s.procs && s.procs[p].Creator()
    ensures var t := CreatorStep(s, p, s.procs[p]); p in t.procs ==> StepsLeft(t.procs[p]) < StepsLeft(s.procs[p])
  {
  }

  lemma DeleterStepsRunOut(s: State, p: Pid)
    requires p in s.procs && s.procs[p].Deleter()
    ensures var t := DeleterStep(s, p, s.procs[p]);
      p in t.procs ==> StepsLeft(t.procs[p]) < StepsLeft(s.procs[p]) && !t.procs[p].Creator()
  {
  }

  lemma ExpiredReaderStepsRunOut(s: State, p: Pid)
    requires p in s.procs && s.procs[p].ExpiredReader()
    ensures var t := ReaderStep(s, p, s.procs[p]);
      p in t.procs ==> StepsLeft(t.procs[p]) < StepsLeft(s.procs[p]) && !t.procs[p].Creator()
  {
  }

  lemma ReleaseReaderStepsRunOut(s: State, p: Pid)
    requires p in s.procs && s.procs[p].ReleaseReader()
    ensures var t := ReaderStep(s, p, s.procs[p]);
      p in t.procs ==> StepsLeft(t.procs[p]) < StepsLeft(s.procs[p]) && !t.procs[p].Creator()
  {
  }

  lemma ResolverStepsRunOut(s: State, p: Pid)
    requires p in s.procs && s.procs[p].Resolver()
    ensures var t := ReaderStep(s, p, s.procs[p]);
      p in t.procs ==> StepsLeft(t.procs[p]) < StepsLeft(s.procs[p]) && !t.procs[p].Creator()
  {
  }

  lemma WriterStepsRunOut(s: State, p: Pid)
    requires p in s.procs && s.procs[p].Writer()
    ensures p !in ReaderStep(s, p, s.procs[p]).procs
  {
  }

  lemma StepsRunOut(s: State, p: Pid)
    requires p in s.procs
    ensures var t := Apply(s, Step(p));
      p in t.procs ==> StepsLeft(t.procs[p]) < StepsLeft(s.procs[p]) && (t.procs[p].Creator() ==> s.procs[p].Creator())
  {
    if s.procs[p].Creator() { CreatorStepsRunOut(s, p); }
    else if s.procs[p].Deleter() { DeleterStepsRunOut(s, p); }
    else if s.procs[p].Writer() { WriterStepsRunOut(s, p); }
    else if s.procs[p].Resolver() { ResolverStepsRunOut(s, p); }
    else if s.procs[p].ExpiredReader() { ExpiredReaderStepsRunOut(s, p); }
    else { ReleaseReaderStepsRunOut(s, p); }
  }

  /** p, the only one to step, takes s through these states. */
  ghost predicate Path(p: Pid, path: seq<State>) {
    |path| > 0
    && forall i :: 0 <= i < |path| - 1 ==> p in path[i].procs && path[i + 1] == Apply(path[i], Step(p))
  }

  /** Alone from s on, p ends, and this is the state it leaves. */
  ghost predicate Ends(s: State, p: Pid, t: State) {
    p !in t.procs && exists path :: Path(p, path) && path[0] == s && path[|path| - 1] == t
  }

  lemma Last(s: State, p: Pid, t: State)
    requires p in s.procs && t == Apply(s, Step(p)) && p !in t.procs
    ensures Ends(s, p, t)
  {
    assert Path(p, [s, t]);
  }

  lemma Before(s: State, p: Pid, t: State, u: State)
    requires p in s.procs && t == Apply(s, Step(p)) && Ends(t, p, u)
    ensures Ends(s, p, u)
  {
    var path :| Path(p, path) && path[0] == t && path[|path| - 1] == u;
    assert Path(p, [s] + path);
  }

  /** Every process that goes on alone ends. */
  lemma {:induction false} EveryProcessEnds(s: State, p: Pid) returns (t: State)
    requires p in s.procs
    ensures Ends(s, p, t)
    decreases StepsLeft(s.procs[p])
  {
    StepsRunOut(s, p);
    t := Apply(s, Step(p));
    if p in t.procs {
      var u := EveryProcessEnds(t, p);
      Before(s, p, t, u);
      t := u;
    } else {
      Last(s, p, t);
    }
  }

  lemma {:induction false} PathsAgree(p: Pid, a: seq<State>, b: seq<State>, i: nat)
    requires Path(p, a) && Path(p, b) && a[0] == b[0] && i < |a| && i < |b|
    ensures a[i] == b[i]
  {
    if i > 0 { PathsAgree(p, a, b, i - 1); }
  }

  /** And it ends in one state only. */
  lemma OneEnd(s: State, p: Pid, t: State, u: State)
    requires Ends(s, p, t) && Ends(s, p, u)
    ensures t == u
  {
    var a :| Path(p, a) && a[0] == s && a[|a| - 1] == t;
    var b :| Path(p, b) && b[0] == s && b[|b| - 1] == u;
    var n := if |a| < |b| then |a| - 1 else |b| - 1;
    PathsAgree(p, a, b, n);
  }

  /** A whole call, alone from its start, leaves t. */
  ghost predicate Leaves(s: State, p: Pid, proc: Proc, t: State) {
    Enabled(s, Start(p, proc)) && Ends(Apply(s, Start(p, proc)), p, t)
  }

  // ----- creation ---------------------------------------------------------------------

  /** A failed shard write gives the reservation back, and only its own. */
  lemma ReleaseGivesBack(s: State, p: Pid, c: Claim)
    requires p in s.procs && s.procs[p] == Releasing(c)
    ensures Ends(s, p, s.(procs := s.procs - {p},
                          rows := if c.email in s.rows && s.rows[c.email].userId == c.userId then s.rows - {c.email}
                                  else s.rows))
  {
    if c.email in s.rows {
      match s.rows[c.email].status
      case Pending =>
      case Active =>
      case ReleasePending =>
    }
    Last(s, p, Apply(s, Step(p)));
  }

  lemma ActivationActivates(s: State, p: Pid, c: Claim, at: int)
    requires p in s.procs && s.procs[p] == Activating(c) && c.email in s.rows && s.rows[c.email] == PendingRow(c, at)
    ensures Ends(s, p, s.(procs := s.procs - {p}, rows := s.rows[c.email := ActiveRow(c)]))
  {
    Last(s, p, Apply(s, Step(p)));
  }

  /** From the shard write on. */
  lemma WriteAlone(s: State, p: Pid, c: Claim, at: int)
    requires p in s.procs && s.procs[p] == Writing(c, at) && c.email in s.rows && s.rows[c.email] == PendingRow(c, at)
    ensures Ends(s, p,
                 if CanCreate(s.users, c)
                 then s.(procs := s.procs - {p}, rows := s.rows[c.email := ActiveRow(c)],
                         users := Created(s.users, c), births := s.births[c.userId := c])
                 else s.(procs := s.procs - {p}, rows := s.rows - {c.email}))
  {
    if CanCreate(s.users, c) {
      var t := s.(procs := s.procs[p := Activating(c)], users := Created(s.users, c),
                  births := s.births[c.userId := c]);
      ActivationActivates(t, p, c, at);
      assert t.procs - {p} == s.procs - {p};
      Before(s, p, t, t.(procs := s.procs - {p}, rows := s.rows[c.email := ActiveRow(c)]));
    } else {
      var t := s.(procs := s.procs[p := Releasing(c)]);
      ReleaseGivesBack(t, p, c);
      assert t.procs - {p} == s.procs - {p};
      Before(s, p, t, t.(procs := s.procs - {p}, rows := s.rows - {c.email}));
    }
  }

  /** A creator that has reserved and stands before its shard write. */
  function Reserved(s: State, p: Pid, c: Claim): State {
    s.(rows := s.rows[c.email := PendingRow(c, s.now + TTL)], procs := s.procs[p := Writing(c, s.now + TTL)],
       used := s.used + {c.userId})
  }

  /** Up to the shard write. */
  lemma ReserveAlone(s: State, p: Pid, c: Claim, t: State)
    requires Enabled(s, Start(p, Reserving(c))) && c.email !in s.rows && Ends(Reserved(s, p, c), p, t)
    ensures Leaves(s, p, Reserving(c), t)
  {
    var started := Apply(s, Start(p, Reserving(c)));
    var stamping := started.(procs := s.procs[p := Stamping(c)]);
    assert started.procs[p := Stamping(c)] == stamping.procs;
    InsertAlone(stamping, p, c, t);
    Before(started, p, stamping, t);
  }

  lemma InsertAlone(s: State, p: Pid, c: Claim, t: State)
    requires p in s.procs && s.procs[p] == Stamping(c) && c.email !in s.rows
    requires Ends(s.(procs := s.procs[p := Writing(c, s.now + TTL)],
                     rows := s.rows[c.email := PendingRow(c, s.now + TTL)]), p, t)
    ensures Ends(s, p, t)
  {
    var inserting := s.(procs := s.procs[p := Inserting(c, s.now + TTL)]);
    var writing := s.(procs := s.procs[p := Writing(c, s.now + TTL)],
                      rows := s.rows[c.email := PendingRow(c, s.now + TTL)]);
    assert inserting.procs[p := Writing(c, s.now + TTL)] == writing.procs;
    Before(inserting, p, writing, t);
    Before(s, p, inserting, t);
  }

  /** reserveEmail, the shard write and the activation or the release: an e-mail
      that is taken stays as it is, a shard that refuses gets the e-mail back
      free, and otherwise the user and its ACTIVE row are there. */
  lemma CreateAlone(s: State, p: Pid, c: Claim)
    requires Enabled(s, Start(p, Reserving(c))) && forall e :: e in s.rows ==> s.rows[e].userId != c.userId
    ensures Leaves(s, p, Reserving(c),
                   if c.email !in s.rows && CanCreate(s.users, c)
                   then s.(rows := s.rows[c.email := ActiveRow(c)], users := Created(s.users, c),
                           births := s.births[c.userId := c], used := s.used + {c.userId})
                   else s.(used := s.used + {c.userId}))
  {
    if c.email in s.rows {
      TakenAlone(s, p, c);
    } else {
      var t := Reserved(s, p, c);
      WriteAlone(t, p, c, s.now + TTL);
      assert t.procs - {p} == s.procs && t.rows - {c.email} == s.rows;
      ReserveAlone(s, p, c,
                   if CanCreate(s.users, c)
                   then t.(procs := s.procs, rows := t.rows[c.email := ActiveRow(c)], users := Created(s.users, c),
                           births := s.births[c.userId := c])
                   else t.(procs := s.procs, rows := s.rows));
      assert t.rows[c.email := ActiveRow(c)] == s.rows[c.email := ActiveRow(c)];
    }
  }

  lemma TakenAlone(s: State, p: Pid, c: Claim)
    requires Enabled(s, Start(p, Reserving(c))) && c.email in s.rows && s.rows[c.email].userId != c.userId
    ensures Leaves(s, p, Reserving(c), s.(used := s.used + {c.userId}))
  {
    var started := Apply(s, Start(p, Reserving(c)));
    assert Apply(started, Step(p)).procs == s.procs;
    Last(started, p, Apply(started, Step(p)));
  }

  /** The same when the shard reports a failure of its own: nothing is left but
      the drawn id. */
  lemma RefusedCreate(s: State, p: Pid, c: Claim)
    requires Enabled(s, Start(p, Reserving(c))) && c.email !in s.rows
    ensures Ends(Apply(Reserved(s, p, c), ShardRefuses(p)), p, s.(used := s.used + {c.userId}))
  {
    var t := Apply(Reserved(s, p, c), ShardRefuses(p));
    ReleaseGivesBack(t, p, c);
    assert t.procs - {p} == s.procs && t.rows - {c.email} == s.rows;
  }

  // ----- deletion ---------------------------------------------------------------------

  lemma EraseAlone(s: State, p: Pid, c: Claim)
    requires p in s.procs && s.procs[p] == Erasing(c) && Lives(s.users, c)
    ensures Ends(s, p, s.(procs := s.procs - {p}, users := Erased(s.users, c.shardId, c.userId),
                          rows := Dropped(s.rows, c.email, c.userId, {ReleasePending})))
  {
    assert Slot(c.shardId, c.email) in s.users;
    var t := s.(users := Erased(s.users, c.shardId, c.userId), procs := s.procs[p := Finalizing(c)]);
    var u := t.(procs := s.procs - {p}, rows := Dropped(s.rows, c.email, c.userId, {ReleasePending}));
    assert t.procs - {p} == u.procs;
    Last(t, p, u);
    Before(s, p, t, u);
  }

  /** From the mark on, when the row is the user's own or gone. */
  lemma MarkAlone(s: State, p: Pid, c: Claim)
    requires p in s.procs && s.procs[p] == Marking(c) && Lives(s.users, c)
    requires c.email in s.rows ==> s.rows[c.email].userId == c.userId
    ensures Ends(s, p, s.(procs := s.procs - {p}, rows := s.rows - {c.email},
                          users := Erased(s.users, c.shardId, c.userId)))
  {
    MarkThenDrop(s.rows, c.email, c.userId);
    var erasing := s.(rows := Moved(s.rows, c.email, c.userId, {Active, Pending}, ReleasePending),
                      procs := s.procs[p := Erasing(c)]);
    EraseAlone(erasing, p, c);
    assert erasing.procs - {p} == s.procs - {p};
    var t := s.(procs := s.procs - {p}, rows := s.rows - {c.email}, users := Erased(s.users, c.shardId, c.userId));
    if Hits(s.rows, c.email, c.userId, {Active, Pending}) {
      Before(s, p, erasing, t);
    } else {
      RecheckAlone(s, p, c, t);
    }
  }

  lemma RecheckAlone(s: State, p: Pid, c: Claim, t: State)
    requires p in s.procs && s.procs[p] == Marking(c)
    requires c.email !in s.rows || Hits(s.rows, c.email, c.userId, {ReleasePending})
    requires Ends(s.(procs := s.procs[p := Erasing(c)]), p, t)
    ensures Ends(s, p, t)
  {
    var rechecking := s.(procs := s.procs[p := Rechecking(c)]);
    assert rechecking.procs[p := Erasing(c)] == s.procs[p := Erasing(c)];
    Before(rechecking, p, s.(procs := s.procs[p := Erasing(c)]), t);
    Before(s, p, rechecking, t);
  }

  /** A row of somebody else stops the deletion before it deletes. */
  lemma MismatchAlone(s: State, p: Pid, c: Claim)
    requires p in s.procs && s.procs[p] == Marking(c) && c.email in s.rows && s.rows[c.email].userId != c.userId
    ensures Ends(s, p, s.(procs := s.procs - {p}))
  {
    var rechecking := s.(procs := s.procs[p := Rechecking(c)]);
    assert rechecking.procs - {p} == s.procs - {p};
    Last(rechecking, p, s.(procs := s.procs - {p}));
    Before(s, p, rechecking, s.(procs := s.procs - {p}));
  }

  /** deleteUser: a missing user or somebody else's row changes nothing; otherwise
      the user is gone and its e-mail is free. */
  lemma DeleteAlone(s: State, p: Pid, c: Claim)
    requires p !in s.procs
    ensures Leaves(s, p, Fetching(c),
                   if !Lives(s.users, c) || (c.email in s.rows && s.rows[c.email].userId != c.userId) then s
                   else s.(users := Erased(s.users, c.shardId, c.userId), rows := s.rows - {c.email}))
  {
    var started := Apply(s, Start(p, Fetching(c)));
    assert started.procs - {p} == s.procs;
    if !Lives(s.users, c) {
      Last(started, p, s);
    } else {
      var t := s.(procs := s.procs[p := Marking(c)]);
      assert t.procs - {p} == s.procs && started.procs[p := Marking(c)] == t.procs;
      if c.email in s.rows && s.rows[c.email].userId != c.userId {
        MismatchAlone(t, p, c);
        Before(started, p, t, s);
      } else {
        MarkAlone(t, p, c);
        Before(started, p, t, s.(users := Erased(s.users, c.shardId, c.userId), rows := s.rows - {c.email}));
      }
    }
  }

  // ----- the reconcilers and the resolver ---------------------------------------------

  /** The last step of a reconciler or resolver that has decided. */
  lemma DecidedAlone(s: State, p: Pid, t: State, rows: Directory)
    requires p in s.procs && p in t.procs && t == s.(procs := s.procs[p := t.procs[p]])
    requires Apply(s, Step(p)) == t && Apply(t, Step(p)) == t.(procs := t.procs - {p}, rows := rows)
    ensures Ends(s, p, s.(procs := s.procs - {p}, rows := rows))
  {
    assert t.procs - {p} == s.procs - {p};
    Last(t, p, s.(procs := s.procs - {p}, rows := rows));
    Before(s, p, t, s.(procs := s.procs - {p}, rows := rows));
  }

  lemma SawExpiredAlone(s: State, p: Pid, e: Id)
    requires p in s.procs && e in s.rows && s.procs[p] == SawExpired(e, s.rows[e])
    requires s.rows[e].status == Pending && Expired(s.rows[e], s.now)
    ensures Ends(s, p, s.(procs := s.procs - {p},
                          rows := if Lives(s.users, ClaimOf(e, s.rows[e]))
                                  then s.rows[e := ActiveRow(ClaimOf(e, s.rows[e]))] else s.rows - {e}))
  {
    DecidedAlone(s, p, Apply(s, Step(p)),
                 if Lives(s.users, ClaimOf(e, s.rows[e])) then s.rows[e := ActiveRow(ClaimOf(e, s.rows[e]))]
                 else s.rows - {e});
  }

  lemma TestAlone(s: State, p: Pid, e: Id)
    requires p in s.procs && e in s.rows && s.rows[e].status == Pending && s.procs[p] == TestingExpiry(e, s.rows[e])
    ensures Ends(s, p, s.(procs := s.procs - {p}, rows := AfterExpired(s.rows, s.users, {}, s.now, e)))
  {
    var u := s.(procs := s.procs - {p}, rows := AfterExpired(s.rows, s.users, {}, s.now, e));
    if !Expired(s.rows[e], s.now) {
      assert u.rows == s.rows;
      Last(s, p, u);
    } else if Complete(ClaimOf(e, s.rows[e])) {
      var t := s.(procs := s.procs[p := SawExpired(e, s.rows[e])]);
      SawExpiredAlone(t, p, e);
      assert t.procs - {p} == s.procs - {p};
      Before(s, p, t, u);
    } else {
      DecidedAlone(s, p, s.(procs := s.procs[p := DroppingExpired(e, s.rows[e].userId)]), s.rows - {e});
    }
  }

  /** reconcileExpiredPendingReservation leaves what AfterExpired says. */
  lemma ExpiredReconcilerAlone(s: State, p: Pid, e: Id)
    requires p !in s.procs
    ensures Leaves(s, p, ReadingExpired(e), s.(rows := AfterExpired(s.rows, s.users, {}, s.now, e)))
  {
    var started := Apply(s, Start(p, ReadingExpired(e)));
    assert started.procs - {p} == s.procs;
    if e in s.rows && s.rows[e].status == Pending {
      var t := s.(procs := s.procs[p := TestingExpiry(e, s.rows[e])]);
      assert t.procs - {p} == s.procs && started.procs[p := TestingExpiry(e, s.rows[e])] == t.procs;
      TestAlone(t, p, e);
      Before(started, p, t, s.(rows := AfterExpired(s.rows, s.users, {}, s.now, e)));
    } else {
      assert AfterExpired(s.rows, s.users, {}, s.now, e) == s.rows;
      Last(started, p, s);
    }
  }

  lemma SawReleaseAlone(s: State, p: Pid, e: Id)
    requires p in s.procs && e in s.rows && s.procs[p] == SawRelease(e, s.rows[e])
    requires s.rows[e].status != Pending && s.rows[e].shardId != ABSENT && s.rows[e].workspaceId != ABSENT
    ensures Ends(s, p, s.(procs := s.procs - {p}, rows := AfterReleased(s.rows, s.users, {}, e, s.rows[e].userId)))
  {
    var rows := AfterReleased(s.rows, s.users, {}, e, s.rows[e].userId);
    var t := Apply(s, Step(p));
    if p in t.procs {
      DecidedAlone(s, p, t, rows);
    } else {
      assert rows == s.rows;
      Last(s, p, t);
    }
  }

  /** reconcileReleasePending leaves what AfterReleased says. */
  lemma ReleaseReconcilerAlone(s: State, p: Pid, e: Id, u: Id)
    requires p !in s.procs
    ensures Leaves(s, p, ReadingRelease(e, u), s.(rows := AfterReleased(s.rows, s.users, {}, e, u)))
  {
    var started := Apply(s, Start(p, ReadingRelease(e, u)));
    assert started.procs - {p} == s.procs;
    if Hits(s.rows, e, u, {ReleasePending, Active}) && s.rows[e].shardId != ABSENT && s.rows[e].workspaceId != ABSENT {
      var t := s.(procs := s.procs[p := SawRelease(e, s.rows[e])]);
      assert t.procs - {p} == s.procs && started.procs[p := SawRelease(e, s.rows[e])] == t.procs;
      SawReleaseAlone(t, p, e);
      Before(started, p, t, s.(rows := AfterReleased(s.rows, s.users, {}, e, u)));
    } else {
      assert AfterReleased(s.rows, s.users, {}, e, u) == s.rows;
      Last(started, p, s);
    }
  }

  /** The row a lookup of an unexpired PENDING e-mail activates. */
  predicate Activates(s: State, e: Id) {
    && e in s.rows && s.rows[e].status == Pending && !Expired(s.rows[e], s.now)
    && s.rows[e].shardId != ABSENT && s.rows[e].workspaceId != ABSENT && Lives(s.users, ClaimOf(e, s.rows[e]))
  }

  function LookedUp(s: State, e: Id): Directory {
    if Activates(s, e) then s.rows[e := ActiveRow(ClaimOf(e, s.rows[e]))] else s.rows
  }

  lemma SawPendingAlone(s: State, p: Pid, e: Id)
    requires p in s.procs && e in s.rows && s.rows[e].status == Pending && s.procs[p] == SawPending(e, s.rows[e])
    requires s.rows[e].shardId != ABSENT && s.rows[e].workspaceId != ABSENT && !Expired(s.rows[e], s.now)
    ensures Ends(s, p, s.(procs := s.procs - {p}, rows := LookedUp(s, e)))
  {
    var t := Apply(s, Step(p));
    if p in t.procs { DecidedAlone(s, p, t, LookedUp(s, e)); } else { Last(s, p, t); }
  }

  lemma TestPendingAlone(s: State, p: Pid, e: Id)
    requires p in s.procs && e in s.rows && s.rows[e].status == Pending && s.procs[p] == TestingPending(e, s.rows[e])
    requires s.rows[e].shardId != ABSENT && s.rows[e].workspaceId != ABSENT
    ensures Ends(s, p, s.(procs := s.procs - {p}, rows := LookedUp(s, e)))
  {
    if Expired(s.rows[e], s.now) {
      Last(s, p, Apply(s, Step(p)));
    } else {
      var t := s.(procs := s.procs[p := SawPending(e, s.rows[e])]);
      SawPendingAlone(t, p, e);
      assert t.procs - {p} == s.procs - {p};
      Before(s, p, t, s.(procs := s.procs - {p}, rows := LookedUp(s, e)));
    }
  }

  /** resolveUserByEmail activates the row of a live user and no other. */
  lemma ResolverAlone(s: State, p: Pid, e: Id)
    requires p !in s.procs
    ensures Leaves(s, p, ReadingReservation(e), s.(rows := LookedUp(s, e)))
  {
    var started := Apply(s, Start(p, ReadingReservation(e)));
    assert started.procs - {p} == s.procs;
    if e in s.rows && s.rows[e].status == Pending && s.rows[e].shardId != ABSENT && s.rows[e].workspaceId != ABSENT {
      var t := s.(procs := s.procs[p := TestingPending(e, s.rows[e])]);
      assert t.procs - {p} == s.procs && started.procs[p := TestingPending(e, s.rows[e])] == t.procs;
      TestPendingAlone(t, p, e);
      Before(started, p, t, s.(rows := LookedUp(s, e)));
    } else {
      Last(started, p, s);
    }
  }

  // ----- what the two shard statements do to a reachable table -------------------------------

  /** No two stored users share an id, so a delete by id takes the one user meant. */
  lemma EraseIsExact(s: State, c: Claim)
    requires Inv(s) && Lives(s.users, c)
    ensures Erased(s.users, c.shardId, c.userId) == s.users - {Slot(c.shardId, c.email)}
  {
    forall slot | slot in s.users && s.users[slot].id == c.userId ensures slot == Slot(c.shardId, c.email) {
      assert Slot(c.shardId, c.email) in s.users;
    }
  }

  /** And an insert with a fresh id is refused exactly when its e-mail is taken on
      that shard; it adds one user and touches none. */
  lemma InsertIsExact(s: State, c: Claim)
    requires Inv(s) && c.userId !in s.births
    ensures CanCreate(s.users, c) <==> Slot(c.shardId, c.email) !in s.users
    ensures Lives(Created(s.users, c), c)
    ensures forall slot :: slot != Slot(c.shardId, c.email) ==>
              (slot in Created(s.users, c) <==> slot in s.users)
              && (slot in s.users ==> Created(s.users, c)[slot] == s.users[slot])
  {
  }

  // ----- whole service calls ----------------------------------------------------------------

  /** signup, googleLogin and createUser, with the reconciliation that reserveEmail
      begins with: exactly what the class method of the service promises. */
  lemma CreateCallAlone(s: State, p: Pid, c: Claim)
    requires Enabled(s, Start(p, Reserving(c))) && forall e :: e in s.rows ==> s.rows[e].userId != c.userId
    ensures var mid := AfterExpired(s.rows, s.users, {}, s.now, c.email);
      && Leaves(s, p, ReadingExpired(c.email), s.(rows := mid))
      && Leaves(s.(rows := mid), p, Reserving(c),
                if c.email !in mid && CanCreate(s.users, c)
                then s.(rows := mid[c.email := ActiveRow(c)], users := Created(s.users, c),
                        births := s.births[c.userId := c], used := s.used + {c.userId})
                else s.(rows := mid, used := s.used + {c.userId}))
  {
    ExpiredReconcilerAlone(s, p, c.email);
    CreateAlone(s.(rows := AfterExpired(s.rows, s.users, {}, s.now, c.email)), p, c);
  }

  lemma {:induction false} PathIsARun(s0: State, timely: bool, p: Pid, path: seq<State>, i: nat)
    requires Path(p, path) && i < |path| && Leads(s0, path[0], timely)
    requires timely && p in path[0].procs ==> !path[0].procs[p].Creator()
    ensures Leads(s0, path[i], timely)
    ensures timely && p in path[i].procs ==> !path[i].procs[p].Creator()
  {
    if i > 0 {
      PathIsARun(s0, timely, p, path, i - 1);
      StepsRunOut(path[i - 1], p);
      Onward(s0, path[i - 1], Step(p), timely);
    }
  }

  /** A call that nothing interrupts is a run of the protocol from wherever it is
      made; a timely one if it writes no shard. */
  lemma CallIsARun(s0: State, timely: bool, m: State, p: Pid, proc: Proc, t: State)
    requires Leads(s0, m, timely) && Leaves(m, p, proc, t) && (timely ==> !proc.Creator())
    ensures Leads(s0, t, timely)
  {
    var started := Begin(s0, timely, m, p, proc);
    var path :| Path(p, path) && path[0] == started && path[|path| - 1] == t;
    PathIsARun(s0, timely, p, path, |path| - 1);
  }

  /** A deletion that stops before its shard delete leaves the user and a marked
      row, and nothing else. */
  lemma StoppedDeleteIsARun(s0: State, timely: bool, m: State, p: Pid, c: Claim) returns (marked: State)
    requires Leads(s0, m, timely) && p !in m.procs && Lives(m.users, c)
    requires c.email in m.rows && m.rows[c.email].userId == c.userId
    ensures Leads(s0, marked, timely) && p in marked.procs && marked.procs[p] == Erasing(c)
    ensures Leads(s0, Apply(marked, Stop(p)), timely)
    ensures Apply(marked, Stop(p)) ==
            m.(rows := m.rows[c.email := m.rows[c.email].(status := ReleasePending,
                                                          expiresAt := if m.rows[c.email].status == ReleasePending
                                                                       then m.rows[c.email].expiresAt else None)])
  {
    marked := StartDelete(s0, timely, m, p, c);
    MarkThenDrop(m.rows, c.email, c.userId);
    Onward(s0, marked, Stop(p), timely);
    assert marked.procs - {p} == m.procs;
    match m.rows[c.email].status
    case Pending =>
    case Active =>
    case ReleasePending => assert m.rows[c.email := m.rows[c.email]] == m.rows;
  }

  /** So a lookup is a run. */
  lemma ResolverIsARun(s0: State, timely: bool, m: State, p: Pid, e: Id)
    requires Leads(s0, m, timely) && p !in m.procs
    ensures Leads(s0, m.(rows := LookedUp(m, e)), timely)
  {
    ResolverAlone(m, p, e);
    CallIsARun(s0, timely, m, p, ReadingReservation(e), m.(rows := LookedUp(m, e)));
  }

  /** A failed creation is a run: from any reached state, over an expired row if
      there is one, through the reservation, the shard's refusal and the release,
      to a free e-mail. */
  lemma FailedCreateIsARun(s0: State, timely: bool, m: State, p: Pid, c: Claim) returns (refused: State, t: State)
    requires Leads(s0, m, timely) && p !in m.procs && Complete(c) && c.userId !in m.used
    requires c.email !in AfterExpired(m.rows, m.users, {}, m.now, c.email)
    ensures Leads(s0, refused, timely) && p in refused.procs && refused.procs[p] == Releasing(c)
    ensures Ends(refused, p, t) && Leads(s0, t, timely)
    ensures t == m.(rows := AfterExpired(m.rows, m.users, {}, m.now, c.email), used := m.used + {c.userId})
  {
    ExpiredReconcilerIsARun(s0, timely, m, {}, p, c.email);
    var base := m.(rows := AfterExpired(m.rows, m.users, {}, m.now, c.email));
    var writing := Reserve(s0, timely, base, p, c);
    assert writing == Reserved(base, p, c);
    RefusedCreate(base, p, c);
    Onward(s0, writing, ShardRefuses(p), timely);
    refused := Apply(writing, ShardRefuses(p));
    t := Then(s0, timely, refused, p);
    Last(refused, p, t);
    OneEnd(refused, p, t, base.(used := base.used + {c.userId}));
  }
}
