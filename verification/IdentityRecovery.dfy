/** What the two reconcilers make of one row, and why running them over the
    whole directory repairs it. */
module IdentityRecovery {
  import opened Wrappers
  import opened IdentityTables
  import opened IdentityProtocol
  import opened IdentitySafety

  datatype Verdict = Activated | Released | Kept | Restored

  datatype Failure =
    | ShardUnavailable
    | EmailTaken
    | ShardWriteFailed
    | ReleaseMismatch
    | UserNotFound
    | StillPending
    | CleanupPending
    | RouteIncomplete
    | IntegrityError

  function ActiveRow(c: Claim): Row {
    Row(c.userId, c.workspaceId, c.shardId, Active, None)
  }

  /** The row reconcileExpiredPendingReservation leaves, if any. */
  function FateOfExpired(e: Id, row: Row, users: Users, down: set<Id>, now: int): Option<Row> {
    if row.status != Pending || !Expired(row, now) then Some(row)
    else if !Complete(ClaimOf(e, row)) then None
    else if row.shardId in down then Some(row)
    else if Lives(users, ClaimOf(e, row)) then Some(ActiveRow(ClaimOf(e, row)))
    else None
  }

  /** The row reconcileReleasePending leaves, if any. */
  function FateOfReleased(e: Id, row: Row, users: Users, down: set<Id>): Option<Row> {
    if row.status == Pending || row.shardId == ABSENT || row.workspaceId == ABSENT then Some(row)
    else if row.shardId in down then Some(row)
    else if !Lives(users, ClaimOf(e, row)) then None
    else if row.status == ReleasePending then Some(ActiveRow(ClaimOf(e, row)))
    else Some(row)
  }

  function WithFate(rows: Directory, e: Id, fate: Option<Row>): Directory {
    match fate
    case Some(row) => rows[e := row]
    case None => rows - {e}
  }

  function AfterExpired(rows: Directory, users: Users, down: set<Id>, now: int, e: Id): Directory {
    if e in rows then WithFate(rows, e, FateOfExpired(e, rows[e], users, down, now)) else rows
  }

  function AfterReleased(rows: Directory, users: Users, down: set<Id>, e: Id, userId: Id): Directory {
    if e in rows && rows[e].userId == userId
    then WithFate(rows, e, FateOfReleased(e, rows[e], users, down)) else rows
  }

  // ----- a recovery pass ------------------------------------------------------------

  /** Each row goes to the reconciler that is responsible for its status. */
  function Repaired(rows: Directory, users: Users, now: int, e: Id): Directory {
    if e !in rows then rows
    else if rows[e].status == Pending then AfterExpired(rows, users, {}, now, e)
    else AfterReleased(rows, users, {}, e, rows[e].userId)
  }

  /** Repair the listed e-mails one after the other. */
  function Pass(rows: Directory, users: Users, now: int, es: seq<Id>): Directory {
    if es == [] then rows else Pass(Repaired(rows, users, now, es[0]), users, now, es[1..])
  }

  /** The directory says about e exactly what the shards say. */
  ghost predicate InStep(rows: Directory, users: Users, e: Id) {
    e in rows ==> rows[e] == ActiveRow(ClaimOf(e, rows[e])) && Lives(users, ClaimOf(e, rows[e]))
  }

  /** Well-formed rows, every user owning its own, every PENDING one expired. */
  ghost predicate Repairable(rows: Directory, users: Users, now: int) {
    && EveryUserOwnsItsRow(rows, users)
    && forall e :: e in rows ==>
         && Complete(ClaimOf(e, rows[e]))
         && (rows[e].status == Pending ==> Expired(rows[e], now))
         && (rows[e].status != Pending ==> rows[e].expiresAt == None)
  }

  lemma RepairOne(rows: Directory, users: Users, now: int, e: Id)
    requires Repairable(rows, users, now)
    ensures var t := Repaired(rows, users, now, e);
      && Repairable(t, users, now)
      && InStep(t, users, e)
      && (forall x :: x != e ==> (x in t <==> x in rows) && (x in rows ==> t[x] == rows[x]))
      && (InStep(rows, users, e) ==> t == rows)
  {
    var t := Repaired(rows, users, now, e);
    forall slot | slot in users ensures Owned(t, users, slot) {
      assert Owned(rows, users, slot);
      if slot.email == e { assert Lives(users, ClaimOf(e, rows[e])); }
    }
  }

  lemma {:induction false} PassRepairs(rows: Directory, users: Users, now: int, es: seq<Id>)
    requires Repairable(rows, users, now)
    ensures var t := Pass(rows, users, now, es);
      && Repairable(t, users, now)
      && (forall e :: e in es || InStep(rows, users, e) ==> InStep(t, users, e))
      && ((forall e :: InStep(rows, users, e)) ==> t == rows)
    decreases |es|
  {
    if es == [] {
    } else {
      RepairOne(rows, users, now, es[0]);
      var mid := Repaired(rows, users, now, es[0]);
      PassRepairs(mid, users, now, es[1..]);
      forall e | e in es || InStep(rows, users, e) ensures InStep(Pass(rows, users, now, es), users, e) {
        assert e in es[1..] || InStep(mid, users, e);
      }
    }
  }

  /** Recovery converges. Once nothing runs and every expiry has passed, one
      pass over the directory, in any order, makes it exactly the live users, all
      ACTIVE on their own routes, and a second pass in any order changes nothing. */
  lemma RecoveryConverges(s0: State, evs: seq<Event>, t: State, es: seq<Id>, again: seq<Id>)
    requires Initial(s0) && Run(s0, evs, t) && ShelteredRun(s0, evs)
    requires t.procs == map[]
    requires forall e :: e in t.rows && t.rows[e].status == Pending ==> Expired(t.rows[e], t.now)
    requires forall e :: e in t.rows ==> e in es
    ensures var rows := Pass(t.rows, t.users, t.now, es);
      && (forall e :: e in rows ==> rows[e] == ActiveRow(ClaimOf(e, rows[e])) && Lives(t.users, ClaimOf(e, rows[e])))
      && EveryUserOwnsItsRow(rows, t.users)
      && Pass(rows, t.users, t.now, again) == rows
  {
    ShelteredRunsKeepInv(s0, evs, t);
    assert Repairable(t.rows, t.users, t.now);
    PassRepairs(t.rows, t.users, t.now, es);
    var rows := Pass(t.rows, t.users, t.now, es);
    forall e ensures InStep(rows, t.users, e) {
      assert e in es || InStep(t.rows, t.users, e);
    }
    assert forall e :: e in rows ==> InStep(rows, t.users, e);
    PassRepairs(rows, t.users, t.now, again);
  }
}
