/** Runs of the protocol built step by step: uninterrupted calls are runs, and two
    runs show that the assumptions of the identity results are needed. */
module IdentityRuns {
  import opened Wrappers
  import opened IdentityTables
  import opened IdentityProtocol
  import opened IdentityRecovery

  lemma {:induction false} RunThen(s: State, evs: seq<Event>, m: State, ev: Event)
    requires Run(s, evs, m) && Enabled(m, ev)
    ensures Run(s, evs + [ev], Apply(m, ev))
    ensures Timely(s, evs) && OnTime(m, ev) ==> Timely(s, evs + [ev])
    decreases |evs|
  {
    if evs == [] {
      assert Run(Apply(s, ev), [], Apply(s, ev));
      assert evs + [ev] == [ev] && [ev][1..] == [];
    } else {
      RunThen(Apply(s, evs[0]), evs[1..], m, ev);
      assert (evs + [ev])[1..] == evs[1..] + [ev];
    }
  }

  /** Some run leads from s to t; a timely one if asked. */
  ghost predicate Leads(s: State, t: State, timely: bool) {
    exists evs :: Run(s, evs, t) && (timely ==> Timely(s, evs))
  }

  lemma Onward(s: State, m: State, ev: Event, timely: bool)
    requires Leads(s, m, timely) && Enabled(m, ev) && (timely ==> OnTime(m, ev))
    ensures Leads(s, Apply(m, ev), timely)
  {
    var evs :| Run(s, evs, m) && (timely ==> Timely(s, evs));
    RunThen(s, evs, m, ev);
  }

  lemma Then(s0: State, timely: bool, m: State, p: Pid) returns (t: State)
    requires Leads(s0, m, timely) && p in m.procs && (timely ==> OnTime(m, Step(p)))
    ensures t == Apply(m, Step(p)) && Leads(s0, t, timely)
  {
    Onward(s0, m, Step(p), timely);
    t := Apply(m, Step(p));
  }

  lemma Begin(s0: State, timely: bool, m: State, p: Pid, proc: Proc) returns (t: State)
    requires Leads(s0, m, timely) && Enabled(m, Start(p, proc))
    ensures t == Apply(m, Start(p, proc)) && Leads(s0, t, timely)
  {
    Onward(s0, m, Start(p, proc), timely);
    t := Apply(m, Start(p, proc));
  }

  lemma StartReserving(s0: State, timely: bool, m: State, p: Pid, c: Claim) returns (t: State)
    requires Leads(s0, m, timely) && p !in m.procs && Complete(c) && c.userId !in m.used && c.email !in m.rows
    ensures Leads(s0, t, timely)
    ensures t == m.(procs := m.procs[p := Stamping(c)], used := m.used + {c.userId})
  {
    t := Begin(s0, timely, m, p, Reserving(c));
    t := Then(s0, timely, t, p);
    assert t.procs == m.procs[p := Stamping(c)];
  }

  /** A creator's own four steps from a fresh start to the shard write. */
  lemma Reserve(s0: State, timely: bool, m: State, p: Pid, c: Claim) returns (t: State)
    requires Leads(s0, m, timely) && p !in m.procs && Complete(c) && c.userId !in m.used && c.email !in m.rows
    ensures Leads(s0, t, timely)
    ensures t == m.(rows := m.rows[c.email := PendingRow(c, m.now + TTL)],
                    procs := m.procs[p := Writing(c, m.now + TTL)],
                    used := m.used + {c.userId})
  {
    t := StartReserving(s0, timely, m, p, c);
    t := Then(s0, timely, t, p);
    t := Then(s0, timely, t, p);
    assert t.procs == m.procs[p := Writing(c, m.now + TTL)];
  }

  lemma Write(s0: State, timely: bool, m: State, p: Pid, c: Claim, at: int) returns (t: State)
    requires Leads(s0, m, timely) && p in m.procs && m.procs[p] == Writing(c, at)
    requires CanCreate(m.users, c) && (timely ==> m.now <= at)
    ensures Leads(s0, t, timely)
    ensures t == m.(users := Created(m.users, c), births := m.births[c.userId := c],
                    procs := m.procs[p := Activating(c)])
  {
    t := Then(s0, timely, m, p);
  }

  /** An expired-row reconciler up to the point where its row has come. */
  lemma TestExpiry(s0: State, timely: bool, m: State, p: Pid, e: Id) returns (t: State)
    requires Leads(s0, m, timely) && p !in m.procs && e in m.rows && m.rows[e].status == Pending
    ensures Leads(s0, t, timely) && t == m.(procs := m.procs[p := TestingExpiry(e, m.rows[e])])
  {
    t := Begin(s0, timely, m, p, ReadingExpired(e));
    t := Then(s0, timely, t, p);
    assert t.procs == m.procs[p := TestingExpiry(e, m.rows[e])];
  }

  /** The same, past the test of a row with a complete route. */
  lemma SeeExpired(s0: State, timely: bool, m: State, p: Pid, e: Id) returns (t: State)
    requires Leads(s0, m, timely) && p !in m.procs
    requires e in m.rows && m.rows[e].status == Pending && Expired(m.rows[e], m.now)
    requires Complete(ClaimOf(e, m.rows[e]))
    ensures Leads(s0, t, timely) && t == m.(procs := m.procs[p := SawExpired(e, m.rows[e])])
  {
    t := TestExpiry(s0, timely, m, p, e);
    t := Then(s0, timely, t, p);
    assert t.procs == m.procs[p := SawExpired(e, m.rows[e])];
  }

  lemma DropExpired(s0: State, timely: bool, m: State, seen: State, p: Pid, e: Id) returns (t: State)
    requires p !in m.procs && e in m.rows && m.rows[e].status == Pending && Expired(m.rows[e], m.now)
    requires Leads(s0, seen, timely) && seen == m.(procs := m.procs[p := DroppingExpired(e, m.rows[e].userId)])
    ensures Leads(s0, t, timely) && t == m.(rows := m.rows - {e})
  {
    t := Then(s0, timely, seen, p);
    assert t.procs == m.procs;
  }

  /** A whole run of the expired-row reconciler that has no user to look for, or
      finds none. */
  lemma Expire(s0: State, timely: bool, m: State, p: Pid, e: Id) returns (t: State)
    requires Leads(s0, m, timely) && p !in m.procs
    requires e in m.rows && m.rows[e].status == Pending && Expired(m.rows[e], m.now)
    requires Complete(ClaimOf(e, m.rows[e])) ==> !Lives(m.users, ClaimOf(e, m.rows[e]))
    ensures Leads(s0, t, timely) && t == m.(rows := m.rows - {e})
  {
    if Complete(ClaimOf(e, m.rows[e])) {
      t := SeeExpired(s0, timely, m, p, e);
    } else {
      t := TestExpiry(s0, timely, m, p, e);
    }
    t := Then(s0, timely, t, p);
    assert t.procs == m.procs[p := DroppingExpired(e, m.rows[e].userId)];
    t := DropExpired(s0, timely, m, t, p, e);
  }

  /** A whole run of the expired-row reconciler that finds the user. */
  lemma ActivateExpired(s0: State, timely: bool, m: State, p: Pid, e: Id)
    requires Leads(s0, m, timely) && p !in m.procs
    requires e in m.rows && m.rows[e].status == Pending && Expired(m.rows[e], m.now)
    requires Complete(ClaimOf(e, m.rows[e])) && Lives(m.users, ClaimOf(e, m.rows[e]))
    ensures Leads(s0, m.(rows := m.rows[e := ActiveRow(ClaimOf(e, m.rows[e]))]), timely)
  {
    var t := SeeExpired(s0, timely, m, p, e);
    t := Then(s0, timely, t, p);
    assert t == m.(procs := m.procs[p := ActivatingSeen(e, m.rows[e].userId)]);
    t := Then(s0, timely, t, p);
    assert t.procs == m.procs;
  }

  /** reconcileExpiredPendingReservation, run without interference, is a run of
      the protocol and leaves what AfterExpired says. */
  lemma ExpiredReconcilerIsARun(s0: State, timely: bool, m: State, down: set<Id>, p: Pid, e: Id)
    requires Leads(s0, m, timely) && p !in m.procs
    ensures Leads(s0, m.(rows := AfterExpired(m.rows, m.users, down, m.now, e)), timely)
  {
    if AfterExpired(m.rows, m.users, down, m.now, e) == m.rows {
    } else if Complete(ClaimOf(e, m.rows[e])) && Lives(m.users, ClaimOf(e, m.rows[e])) {
      ActivateExpired(s0, timely, m, p, e);
    } else {
      var t := Expire(s0, timely, m, p, e);
    }
  }

  /** A creating call that nothing interrupts first reconciles an expired row of
      its e-mail and ends with an ACTIVE row of its own. */
  lemma Create(s0: State, timely: bool, m: State, down: set<Id>, p: Pid, c: Claim) returns (t: State)
    requires Leads(s0, m, timely) && p !in m.procs && Complete(c) && c.userId !in m.used
    requires c.email !in AfterExpired(m.rows, m.users, down, m.now, c.email) && CanCreate(m.users, c)
    ensures Leads(s0, t, timely)
    ensures t == m.(rows := AfterExpired(m.rows, m.users, down, m.now, c.email)[c.email := ActiveRow(c)],
                    users := Created(m.users, c), births := m.births[c.userId := c], used := m.used + {c.userId})
  {
    ExpiredReconcilerIsARun(s0, timely, m, down, p, c.email);
    t := m.(rows := AfterExpired(m.rows, m.users, down, m.now, c.email));
    t := Reserve(s0, timely, t, p, c);
    t := Write(s0, timely, t, p, c, m.now + TTL);
    t := Then(s0, timely, t, p);
    assert t.procs == m.procs;
  }

  /** A user's own row can always be marked, and a marked row dropped. */
  lemma MarkThenDrop(rows: Directory, e: Id, u: Id)
    requires e in rows ==> rows[e].userId == u
    ensures Hits(rows, e, u, {Active, Pending}) || e !in rows || Hits(rows, e, u, {ReleasePending})
    ensures Dropped(Moved(rows, e, u, {Active, Pending}, ReleasePending), e, u, {ReleasePending}) == rows - {e}
  {
    if e in rows {
      match rows[e].status
      case Pending =>
      case Active =>
      case ReleasePending =>
    }
  }

  lemma FetchMember(s0: State, timely: bool, m: State, p: Pid, c: Claim) returns (t: State)
    requires Leads(s0, m, timely) && p !in m.procs && Lives(m.users, c)
    ensures Leads(s0, t, timely) && t == m.(procs := m.procs[p := Marking(c)])
  {
    t := Begin(s0, timely, m, p, Fetching(c));
    t := Then(s0, timely, t, p);
    assert t.procs == m.procs[p := Marking(c)];
  }

  /** The row is gone already, or an earlier attempt has marked it. */
  lemma Recheck(s0: State, timely: bool, m: State, seen: State, p: Pid, c: Claim) returns (t: State)
    requires Leads(s0, seen, timely) && p !in m.procs && seen == m.(procs := m.procs[p := Marking(c)])
    requires c.email !in m.rows || Hits(m.rows, c.email, c.userId, {ReleasePending})
    ensures Leads(s0, t, timely) && t == m.(procs := m.procs[p := Erasing(c)])
  {
    t := Then(s0, timely, seen, p);
    assert t == m.(procs := m.procs[p := Rechecking(c)]);
    t := Then(s0, timely, t, p);
    assert t.procs == m.procs[p := Erasing(c)];
  }

  /** A deletion up to the point where only the shard delete is missing: the row,
      if there is one, is marked now or was marked by an earlier attempt. */
  lemma StartDelete(s0: State, timely: bool, m: State, p: Pid, c: Claim) returns (t: State)
    requires Leads(s0, m, timely) && p !in m.procs && Lives(m.users, c)
    requires c.email in m.rows ==> m.rows[c.email].userId == c.userId
    ensures Leads(s0, t, timely)
    ensures t == m.(rows := Moved(m.rows, c.email, c.userId, {Active, Pending}, ReleasePending),
                    procs := m.procs[p := Erasing(c)])
  {
    t := FetchMember(s0, timely, m, p, c);
    MarkThenDrop(m.rows, c.email, c.userId);
    if Hits(m.rows, c.email, c.userId, {Active, Pending}) {
      t := Then(s0, timely, t, p);
      assert t.procs == m.procs[p := Erasing(c)];
    } else {
      t := Recheck(s0, timely, m, t, p, c);
    }
  }

  /** A release reconciler up to the point where it has read the row. */
  lemma ReadRelease(s0: State, timely: bool, m: State, p: Pid, e: Id, u: Id) returns (t: State)
    requires Leads(s0, m, timely) && p !in m.procs
    requires Hits(m.rows, e, u, {ReleasePending, Active})
    requires m.rows[e].shardId != ABSENT && m.rows[e].workspaceId != ABSENT
    ensures Leads(s0, t, timely) && t == m.(procs := m.procs[p := SawRelease(e, m.rows[e])])
  {
    t := Begin(s0, timely, m, p, ReadingRelease(e, u));
    t := Then(s0, timely, t, p);
    assert t.procs == m.procs[p := SawRelease(e, m.rows[e])];
  }

  /** A release reconciler up to the point where it has seen the user. */
  lemma SeeUser(s0: State, timely: bool, m: State, p: Pid, c: Claim) returns (t: State)
    requires Leads(s0, m, timely) && p !in m.procs && Lives(m.users, c) && Complete(c)
    requires Hits(m.rows, c.email, c.userId, {ReleasePending}) && ClaimOf(c.email, m.rows[c.email]) == c
    ensures Leads(s0, t, timely) && t == m.(procs := m.procs[p := Restoring(c.email, c.userId)])
  {
    t := ReadRelease(s0, timely, m, p, c.email, c.userId);
    t := Then(s0, timely, t, p);
    assert t.procs == m.procs[p := Restoring(c.email, c.userId)];
  }

  /** So is reconcileReleasePending with AfterReleased. */
  lemma ReleaseReconcilerIsARun(s0: State, timely: bool, m: State, down: set<Id>, p: Pid, e: Id, u: Id)
    requires Leads(s0, m, timely) && p !in m.procs
    ensures Leads(s0, m.(rows := AfterReleased(m.rows, m.users, down, e, u)), timely)
  {
    if Hits(m.rows, e, u, {ReleasePending, Active}) && m.rows[e].shardId != ABSENT && m.rows[e].workspaceId != ABSENT
       && m.rows[e].shardId !in down {
      var t := ReadRelease(s0, timely, m, p, e, u);
      t := Then(s0, timely, t, p);
      FinishRelease(s0, timely, m, t, p, e, m.rows[e]);
    } else {
      assert AfterReleased(m.rows, m.users, down, e, u) == m.rows;
    }
  }

  lemma FinishRelease(s0: State, timely: bool, m: State, seen: State, p: Pid, e: Id, row: Row)
    requires Leads(s0, seen, timely) && p !in m.procs && e in m.rows && m.rows[e] == row && row.status != Pending
    requires row.shardId != ABSENT && row.workspaceId != ABSENT
    requires seen == if !Lives(m.users, ClaimOf(e, row))
                     then m.(procs := m.procs[p := DroppingReleased(e, row.userId, row.status)])
                     else if row.status == ReleasePending then m.(procs := m.procs[p := Restoring(e, row.userId)])
                     else m
    ensures Leads(s0, m.(rows := AfterReleased(m.rows, m.users, {}, e, row.userId)), timely)
  {
    if p in seen.procs {
      var t := Then(s0, timely, seen, p);
      assert t.procs == m.procs;
      assert t.rows == AfterReleased(m.rows, m.users, {}, e, row.userId);
    } else {
      assert AfterReleased(m.rows, m.users, {}, e, row.userId) == m.rows;
    }
  }

  lemma EraseAndFinalize(s0: State, timely: bool, m: State, marked: State, p: Pid, c: Claim)
    requires p !in m.procs && Lives(m.users, c) && (c.email in m.rows ==> m.rows[c.email].userId == c.userId)
    requires Leads(s0, marked, timely)
    requires marked == m.(rows := Moved(m.rows, c.email, c.userId, {Active, Pending}, ReleasePending),
                          procs := m.procs[p := Erasing(c)])
    ensures Leads(s0, m.(users := Erased(m.users, c.shardId, c.userId), rows := m.rows - {c.email}), timely)
  {
    assert Slot(c.shardId, c.email) in marked.users;
    var t := Then(s0, timely, marked, p);
    assert t == marked.(users := Erased(m.users, c.shardId, c.userId), procs := m.procs[p := Finalizing(c)]);
    t := Then(s0, timely, t, p);
    assert t.procs == m.procs;
    MarkThenDrop(m.rows, c.email, c.userId);
  }

  /** And deleteUser, first attempt or retry: the user is gone and the e-mail is
      free. */
  lemma DeleteIsARun(s0: State, timely: bool, m: State, p: Pid, c: Claim)
    requires Leads(s0, m, timely) && p !in m.procs && Lives(m.users, c)
    requires c.email in m.rows ==> m.rows[c.email].userId == c.userId
    ensures Leads(s0, m.(users := Erased(m.users, c.shardId, c.userId), rows := m.rows - {c.email}), timely)
  {
    var t := StartDelete(s0, timely, m, p, c);
    EraseAndFinalize(s0, timely, m, t, p, c);
  }

  /** A shard write that commits after an expired-row reconciler has looked and
      dropped the row lets a second user take the same e-mail on another shard. */
  lemma LateCommitBreaksUniqueness()
    ensures exists s0, t :: Initial(s0) && Leads(s0, t, false) && !OneUserPerEmail(t.users)
  {
    var s0 := State(0, map[], map[], map[], {}, map[]);
    var first, second := Claim(7, 1, 11, 21), Claim(7, 2, 12, 22);
    assert Run(s0, [], s0);
    var t := Reserve(s0, false, s0, 0, first);
    Onward(s0, t, Tick(TTL + 1), false);
    t := Apply(t, Tick(TTL + 1));
    t := Expire(s0, false, t, 1, 7);
    t := Reserve(s0, false, t, 1, second);
    t := Write(s0, false, t, 1, second, t.now + TTL);
    t := Write(s0, false, t, 0, first, TTL);
    assert Slot(21, 7) in t.users && Slot(22, 7) in t.users;
  }

  /** It is not enough that the late write still finds its reservation: a
      reconciler that has looked already drops the row after it, and a second
      creator takes the e-mail although every other shard write is on time. */
  lemma StoredReservationIsNotEnough()
    ensures exists s0, m, c, at, p, t :: Initial(s0) && Leads(s0, m, true)
              && p in m.procs && m.procs[p] == Writing(c, at) && Hits(m.rows, c.email, c.userId, {Pending})
              && m.rows[c.email] == PendingRow(c, at) && CanCreate(m.users, c)
              && Leads(Apply(m, Step(p)), t, true) && !OneUserPerEmail(t.users)
  {
    var s0 := State(0, map[], map[], map[], {}, map[]);
    var first, second := Claim(7, 1, 11, 21), Claim(7, 2, 12, 22);
    var m := UpToTheLook(s0, first);
    var late := Apply(m, Step(0));
    var t := DropAfterLateWrite(m, first);
    t := TakeElsewhere(late, t, 2, first, second);
    assert m.procs[0] == Writing(first, TTL) && m.rows[7] == PendingRow(first, TTL);
  }

  /** A second creator takes a user's e-mail on another shard. */
  lemma TakeElsewhere(s0: State, m: State, p: Pid, first: Claim, second: Claim) returns (t: State)
    requires Leads(s0, m, true) && p !in m.procs && m.rows == map[] && m.users == Created(map[], first)
    requires Complete(second) && second.userId !in m.used
    requires first.email == second.email && first.shardId != second.shardId
    ensures Leads(s0, t, true) && !OneUserPerEmail(t.users)
  {
    t := Reserve(s0, true, m, p, second);
    t := Write(s0, true, t, p, second, t.now + TTL);
    assert Slot(first.shardId, first.email) in t.users && Slot(second.shardId, second.email) in t.users;
  }

  /** Insert the row, let it expire, and let a reconciler look in vain. */
  lemma UpToTheLook(s0: State, c: Claim) returns (m: State)
    requires s0 == State(0, map[], map[], map[], {}, map[]) && Complete(c)
    ensures Leads(s0, m, true)
    ensures m == State(TTL + 1, map[c.email := PendingRow(c, TTL)], map[],
                       map[0 := Writing(c, TTL), 1 := DroppingExpired(c.email, c.userId)], {c.userId}, map[])
  {
    assert Run(s0, [], s0) && Timely(s0, []);
    m := Reserve(s0, true, s0, 0, c);
    Onward(s0, m, Tick(TTL + 1), true);
    m := Apply(m, Tick(TTL + 1));
    m := LookInVain(s0, m, 1, c.email);
  }

  /** The late write, and then the reconciler's delete. */
  lemma DropAfterLateWrite(m: State, c: Claim) returns (t: State)
    requires m == State(TTL + 1, map[c.email := PendingRow(c, TTL)], map[],
                        map[0 := Writing(c, TTL), 1 := DroppingExpired(c.email, c.userId)], {c.userId}, map[])
    ensures Leads(Apply(m, Step(0)), t, true)
    ensures t == State(TTL + 1, map[], Created(map[], c), map[0 := Activating(c)], {c.userId}, map[c.userId := c])
  {
    assert CanCreate(m.users, c);
    var late := Apply(m, Step(0));
    assert late == m.(users := Created(m.users, c), births := map[c.userId := c], procs := m.procs[0 := Activating(c)]);
    assert Run(late, [], late) && Timely(late, []);
    t := Then(late, true, late, 1);
    assert t.rows == map[] && t.procs == map[0 := Activating(c)];
  }

  lemma LookInVain(s0: State, m: State, p: Pid, e: Id) returns (t: State)
    requires Leads(s0, m, true) && p !in m.procs
    requires e in m.rows && m.rows[e].status == Pending && Expired(m.rows[e], m.now)
    requires Complete(ClaimOf(e, m.rows[e])) && !Lives(m.users, ClaimOf(e, m.rows[e]))
    ensures Leads(s0, t, true) && t == m.(procs := m.procs[p := DroppingExpired(e, m.rows[e].userId)])
  {
    t := SeeExpired(s0, true, m, p, e);
    t := Then(s0, true, t, p);
    assert t.procs == m.procs[p := DroppingExpired(e, m.rows[e].userId)];
  }

  /** The shard delete, then the reconciler's late write-back, then finalize. */
  lemma EraseThenRestore(s0: State, timely: bool, m: State, p: Pid, q: Pid, c: Claim) returns (t: State)
    requires Leads(s0, m, timely) && p != q && p in m.procs && q in m.procs
    requires m.procs[p] == Erasing(c) && m.procs[q] == Restoring(c.email, c.userId)
    requires Lives(m.users, c) && Hits(m.rows, c.email, c.userId, {ReleasePending})
    ensures Leads(s0, t, timely)
    ensures t == m.(users := Erased(m.users, c.shardId, c.userId), procs := m.procs - {p} - {q},
                    rows := Moved(m.rows, c.email, c.userId, {ReleasePending}, Active))
  {
    assert Slot(c.shardId, c.email) in m.users;
    t := Then(s0, timely, m, p);
    assert t == m.(users := Erased(m.users, c.shardId, c.userId), procs := m.procs[p := Finalizing(c)]);
    t := Then(s0, timely, t, q);
    t := Then(s0, timely, t, p);
    assert t.procs == m.procs - {p} - {q};
  }

  /** A release reconciler that sees the user before the shard delete and writes
      after it leaves an ACTIVE row with no user, no call running and no
      RELEASE_PENDING row for the batch, although every shard write was on time. */
  lemma OverlappingRestoreLeavesAnOrphan()
    ensures exists s0, t :: Initial(s0) && Leads(s0, t, true) && t.procs == map[]
              && !ActiveIsLive(t.rows, t.users) && forall e :: e in t.rows ==> t.rows[e].status != ReleasePending
  {
    var s0 := State(0, map[], map[], map[], {}, map[]);
    var c := Claim(7, 1, 11, 21);
    assert Run(s0, [], s0) && Timely(s0, []);
    var t := Create(s0, true, s0, {}, 0, c);
    t := StartDelete(s0, true, t, 0, c);
    t := SeeUser(s0, true, t, 1, c);
    t := EraseThenRestore(s0, true, t, 0, 1, c);
    assert t.procs == map[] && 7 in t.rows && t.rows == map[7 := Row(1, 11, 21, Active, None)];
    assert !Lives(t.users, ClaimOf(7, t.rows[7]));
  }
}
