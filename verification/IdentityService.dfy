/** The identity services as calls that run without interference, over the
    control-plane table and the shards. What interleaving adds is the subject of
    IdentityProtocol; both use the statements of IdentityTables. */
module IdentityService {
  import opened Wrappers
  import opened IdentityTables
  import opened IdentityRecovery

  datatype Tally = Tally(released: int, kept: int, restored: int, errors: int)

  /** resolveUserByEmail, case by case: result r and directory after it. */
  ghost predicate Resolves(rows: Directory, users: Users, down: set<Id>, now: int, email: Id,
                           r: Result<Option<Slot>, Failure>, after: Directory) {
    if email !in rows then
      after == rows && FoundByScan(users, email, r)
    else
      var row := rows[email];
      var c := ClaimOf(email, row);
      if row.status == ReleasePending then after == rows && r == Err(CleanupPending)
      else if row.workspaceId == ABSENT || row.shardId == ABSENT then after == rows && r == Err(RouteIncomplete)
      else if row.status == Pending && Expired(row, now) && row.userId == ABSENT then
        after == rows - {email} && FoundByScan(users, email, r)
      else if row.shardId in down then after == rows && r == Err(ShardUnavailable)
      else if Lives(users, c) then
        r == Ok(Some(Slot(row.shardId, email)))
        && after == (if row.status == Pending then rows[email := ActiveRow(c)] else rows)
      else if row.status == Active then after == rows && r == Err(IntegrityError)
      else if Expired(row, now) then after == rows - {email} && FoundByScan(users, email, r)
      else after == rows && r == Err(StillPending)
  }

  /** The answer of the exhaustive cross-shard scan. */
  ghost predicate FoundByScan(users: Users, email: Id, r: Result<Option<Slot>, Failure>) {
    match r
    case Ok(Some(slot)) => slot in users && slot.email == email
    case Ok(None) => forall slot :: slot in users ==> slot.email != email
    case Err(_) => false
  }

  /** The rows the batch picks up. */
  function Marked(rows: Directory): (es: set<Id>)
    ensures forall e :: e in es <==> e in rows && rows[e].status == ReleasePending
  {
    set e | e in rows && rows[e].status == ReleasePending
  }

  /** A complete row whose recorded shard does not answer. */
  predicate Unreachable(row: Row, down: set<Id>) {
    row.shardId != ABSENT && row.workspaceId != ABSENT && row.shardId in down
  }

  ghost function Stuck(rows: Directory, down: set<Id>, done: set<Id>): set<Id> {
    set e | e in done && e in rows && Unreachable(rows[e], down)
  }

  /** The directory once the rows in done have met their fate. */
  ghost function Processed(rows: Directory, users: Users, down: set<Id>, done: set<Id>): Directory {
    map e | e in rows && (e in done ==> FateOfReleased(e, rows[e], users, down).Some?)
         :: if e in done then FateOfReleased(e, rows[e], users, down).value else rows[e]
  }

  lemma ProcessOne(rows: Directory, users: Users, down: set<Id>, done: set<Id>, e: Id)
    requires e in rows && e !in done
    ensures var before := Processed(rows, users, down, done);
      var after := Processed(rows, users, down, done + {e});
      && e in before && before[e] == rows[e]
      && after == AfterReleased(before, users, down, e, rows[e].userId)
      && |after| == (if e in after then |before| else |before| - 1)
  {
    var before := Processed(rows, users, down, done);
    var after := Processed(rows, users, down, done + {e});
    assert after == AfterReleased(before, users, down, e, rows[e].userId);
    assert after.Keys == if e in after then before.Keys else before.Keys - {e};
    assert |before| == |before.Keys| && |after| == |after.Keys|;
  }

  lemma NextElement(es: seq<Id>, i: nat)
    requires i < |es| && forall a, b :: 0 <= a < b < |es| ==> es[a] != es[b]
    ensures Elements(es[..i + 1]) == Elements(es[..i]) + {es[i]}
    ensures es[i] !in Elements(es[..i]) && es[i] in Elements(es)
  {
    ElementsStep(es, i);
  }

  /** The rows in done that end ACTIVE: marked ones whose user is found. */
  ghost function Revived(rows: Directory, users: Users, down: set<Id>, done: set<Id>): set<Id> {
    set e | e in done && e in rows && FateOfReleased(e, rows[e], users, down) == Some(ActiveRow(ClaimOf(e, rows[e])))
  }

  predicate Unrouted(row: Row) {
    row.shardId == ABSENT || row.workspaceId == ABSENT
  }

  ghost function Skipped(rows: Directory, done: set<Id>): set<Id> {
    set e | e in done && e in rows && Unrouted(rows[e])
  }

  lemma RevivedOne(rows: Directory, users: Users, down: set<Id>, done: set<Id>, e: Id)
    requires e in rows && e !in done
    ensures |Revived(rows, users, down, done + {e})| == |Revived(rows, users, down, done)|
            + if FateOfReleased(e, rows[e], users, down) == Some(ActiveRow(ClaimOf(e, rows[e]))) then 1 else 0
  {
    assert Revived(rows, users, down, done + {e}) == Revived(rows, users, down, done)
           + if FateOfReleased(e, rows[e], users, down) == Some(ActiveRow(ClaimOf(e, rows[e]))) then {e} else {};
  }

  lemma SkippedOne(rows: Directory, done: set<Id>, e: Id)
    requires e in rows && e !in done
    ensures |Skipped(rows, done + {e})| == |Skipped(rows, done)| + if Unrouted(rows[e]) then 1 else 0
  {
    assert Skipped(rows, done + {e}) == Skipped(rows, done) + if Unrouted(rows[e]) then {e} else {};
  }

  /** Once all marked rows are processed, the revived ones are those found ACTIVE. */
  lemma RevivedAreActive(rows: Directory, users: Users, down: set<Id>)
    ensures var after := Processed(rows, users, down, Marked(rows));
      Revived(rows, users, down, Marked(rows)) == BackToActive(rows, after)
  {
  }

  lemma StuckOne(rows: Directory, down: set<Id>, done: set<Id>, e: Id)
    requires e in rows && e !in done
    ensures |Stuck(rows, down, done + {e})| == |Stuck(rows, down, done)| + if Unreachable(rows[e], down) then 1 else 0
  {
    assert Stuck(rows, down, done + {e}) == Stuck(rows, down, done) + if Unreachable(rows[e], down) then {e} else {};
  }

  /** The verdict on a marked row, by the row and its shard. */
  function VerdictOn(row: Row, e: Id, users: Users, down: set<Id>): Result<Verdict, Failure> {
    if Unrouted(row) then Ok(Kept)
    else if Unreachable(row, down) then Err(ShardUnavailable)
    else if Lives(users, ClaimOf(e, row)) then Ok(Restored)
    else Ok(Released)
  }

  /** The counters after the rows in done. */
  ghost function TallyOf(rows: Directory, users: Users, down: set<Id>, done: set<Id>): Tally {
    Tally(|rows| - |Processed(rows, users, down, done)|, |Skipped(rows, done)|,
          |Revived(rows, users, down, done)|, |Stuck(rows, down, done)|)
  }

  function Counted(t: Tally, r: Result<Verdict, Failure>): Tally {
    if r.Err? then t.(errors := t.errors + 1)
    else if r.value == Released then t.(released := t.released + 1)
    else if r.value == Restored then t.(restored := t.restored + 1)
    else t.(kept := t.kept + 1)
  }

  lemma NoneTallied(rows: Directory, users: Users, down: set<Id>)
    ensures Processed(rows, users, down, {}) == rows && TallyOf(rows, users, down, {}) == Tally(0, 0, 0, 0)
  {
  }

  lemma OneTallied(rows: Directory, users: Users, down: set<Id>, done: set<Id>, e: Id, r: Result<Verdict, Failure>)
    requires e in Marked(rows) && e !in done && r == VerdictOn(rows[e], e, users, down)
    ensures TallyOf(rows, users, down, done + {e}) == Counted(TallyOf(rows, users, down, done), r)
  {
    ProcessOne(rows, users, down, done, e);
    StuckOne(rows, down, done, e);
    RevivedOne(rows, users, down, done, e);
    SkippedOne(rows, done, e);
  }

  /** The loop's counters over the listed rows, verdict by verdict. */
  ghost function TallyOver(rows: Directory, users: Users, down: set<Id>, list: seq<Id>): Tally
    requires forall e :: e in list ==> e in rows
  {
    if list == [] then Tally(0, 0, 0, 0)
    else
      var e := list[|list| - 1];
      Counted(TallyOver(rows, users, down, list[..|list| - 1]), VerdictOn(rows[e], e, users, down))
  }

  lemma {:induction false} TallyOverIsTallyOf(rows: Directory, users: Users, down: set<Id>, list: seq<Id>)
    requires forall e :: e in list ==> e in Marked(rows)
    requires forall i, j :: 0 <= i < j < |list| ==> list[i] != list[j]
    ensures (forall e :: e in list ==> e in rows)
            && TallyOver(rows, users, down, list) == TallyOf(rows, users, down, Elements(list))
  {
    if list == [] {
      assert Elements(list) == {};
      NoneTallied(rows, users, down);
    } else {
      var n := |list| - 1;
      var e, front := list[n], list[..n];
      TallyOverIsTallyOf(rows, users, down, front);
      NextElement(list, n);
      assert list[..n + 1] == list;
      OneTallied(rows, users, down, Elements(front), e, VerdictOn(rows[e], e, users, down));
    }
  }

  /** The marked e-mails whose row is ACTIVE afterwards. */
  ghost function BackToActive(before: Directory, after: Directory): set<Id> {
    set e | e in Marked(before) && e in after && after[e].status == Active
  }

  /** The marked e-mails whose row names no shard or no workspace. */
  ghost function WithoutRoute(before: Directory): set<Id> {
    set e | e in Marked(before) && Unrouted(before[e])
  }

  /** The marked e-mails whose shard does not answer. */
  ghost function BehindDownShard(before: Directory, down: set<Id>): set<Id> {
    set e | e in Marked(before) && Unreachable(before[e], down)
  }

  /** The final counters, told by the tables before and after. */
  lemma TallyTells(rows: Directory, users: Users, down: set<Id>, list: seq<Id>)
    requires Elements(list) == Marked(rows)
    requires forall i, j :: 0 <= i < j < |list| ==> list[i] != list[j]
    ensures forall e :: e in list ==> e in rows
    ensures var after := Processed(rows, users, down, Marked(rows));
      TallyOver(rows, users, down, list)
      == Tally(|rows| - |after|, |WithoutRoute(rows)|, |BackToActive(rows, after)|, |BehindDownShard(rows, down)|)
  {
    assert forall e :: e in list ==> e in Elements(list);
    TallyOverIsTallyOf(rows, users, down, list);
    RevivedAreActive(rows, users, down);
    assert Stuck(rows, down, Marked(rows)) == BehindDownShard(rows, down);
    assert Skipped(rows, Marked(rows)) == WithoutRoute(rows);
  }

  /** When every marked row can be checked, the batch leaves none of them marked:
      it keeps exactly those whose user lives, as ACTIVE, and touches no others. */
  lemma BatchSettlesEveryMarkedRow(rows: Directory, users: Users, down: set<Id>, e: Id)
    requires e in rows
    requires rows[e].status == ReleasePending ==>
               rows[e].shardId != ABSENT && rows[e].workspaceId != ABSENT && rows[e].shardId !in down
    ensures var after := Processed(rows, users, down, Marked(rows));
      if rows[e].status != ReleasePending then e in after && after[e] == rows[e]
      else if Lives(users, ClaimOf(e, rows[e])) then e in after && after[e] == ActiveRow(ClaimOf(e, rows[e]))
      else e !in after
  {
  }

  class IdentityService {
    var now: int
    var rows: Directory
    var users: Users
    var down: set<Id>      // shards that do not answer

    method ReconcileExpiredPending(email: Id) returns (r: Result<Verdict, Failure>)
      modifies `rows
      ensures rows == AfterExpired(old(rows), users, down, now, email)
      ensures r == Ok(Activated) ==> email in rows && rows[email].status == Active
      ensures r == Ok(Released) ==> email !in rows
      ensures r == Ok(Kept) || r.Err? ==> rows == old(rows)
      ensures r.Err? ==> r.error == ShardUnavailable && email in rows && rows[email].shardId in down
      ensures r == Ok(Kept) <==>
                !(email in old(rows) && old(rows)[email].status == Pending && Expired(old(rows)[email], now))
      ensures r.Ok? ==> r.value in {Activated, Released, Kept}
    {
      if email !in rows || rows[email].status != Pending {
        return Ok(Kept);
      }
      var row := rows[email];
      if !Expired(row, now) {
        return Ok(Kept);
      }
      if row.shardId == ABSENT || row.workspaceId == ABSENT || row.userId == ABSENT {
        rows := DroppedIfExpired(rows, email, row.userId, now);
        return Ok(Released);
      }
      if row.shardId in down {
        return Err(ShardUnavailable);
      }
      if Lives(users, ClaimOf(email, row)) {
        rows := Moved(rows, email, row.userId, {Pending}, Active);
        return Ok(Activated);
      }
      rows := DroppedIfExpired(rows, email, row.userId, now);
      return Ok(Released);
    }

    /** Reserve an e-mail before the shard write. */
    method ReserveEmail(c: Claim) returns (r: Result<(), Failure>)
      modifies `rows
      ensures var mid := AfterExpired(old(rows), users, down, now, c.email);
        && (r.Ok? ==> rows == mid[c.email := PendingRow(c, now + TTL)])
        && (r.Err? ==> rows == mid)
      // refused exactly when the recorded shard of an expired row is down or somebody else has the e-mail
      ensures var mid := AfterExpired(old(rows), users, down, now, c.email);
        r.Ok? <==> c.email !in mid
                   || (mid[c.email].status == Pending && mid[c.email].userId == c.userId
                       && (mid[c.email].expiresAt.None? || mid[c.email].expiresAt.value > now))
    {
      var reconciled := ReconcileExpiredPending(c.email);
      if reconciled.Err? {
        return Err(reconciled.error);
      }
      if c.email in rows {
        var existing := rows[c.email];
        if existing.status == Active || existing.status == ReleasePending {
          return Err(EmailTaken);
        }
        if existing.status == Pending && existing.userId == c.userId
           && (existing.expiresAt.None? || existing.expiresAt.value > now) {
          rows := rows[c.email := existing.(workspaceId := c.workspaceId, shardId := c.shardId,
                                           expiresAt := Some(now + TTL))];
          return Ok(());
        }
        return Err(EmailTaken);
      }
      rows := rows[c.email := PendingRow(c, now + TTL)];
      return Ok(());
    }

    /** signup, googleLogin and createUser: reserve, shard write, activate.
        `accepts` says whether the shard takes the write for reasons of its own. */
    method CreateUser(c: Claim, accepts: bool) returns (r: Result<Slot, Failure>)
      requires Complete(c)
      requires forall e :: e in rows ==> rows[e].userId != c.userId     // randomUUID is fresh
      modifies `rows, `users
      ensures old(EveryUserOwnsItsRow(rows, users)) ==> EveryUserOwnsItsRow(rows, users)
      ensures r.Ok? ==> r.value == Slot(c.shardId, c.email) && Lives(users, c) && users == Created(old(users), c)
                        && rows == AfterExpired(old(rows), old(users), down, now, c.email)[c.email := ActiveRow(c)]
      ensures r.Err? ==> users == old(users) && rows == AfterExpired(old(rows), users, down, now, c.email)
      ensures r.Ok? <==> accepts && c.email !in AfterExpired(old(rows), old(users), down, now, c.email)
                         && CanCreate(old(users), c)
    {
      if EveryUserOwnsItsRow(rows, users) { AfterExpiredKeepsOwners(rows, users, down, now, c.email); }
      ghost var mid := AfterExpired(rows, users, down, now, c.email);
      var reserved := ReserveEmail(c);
      if reserved.Err? {
        return Err(reserved.error);
      }
      assert c.email !in mid;
      if !accepts || !CanCreate(users, c) {
        rows := Dropped(rows, c.email, c.userId, ANY);
        assert rows == mid;
        return Err(ShardWriteFailed);
      }
      users := Created(users, c);
      rows := Moved(rows, c.email, c.userId, {Pending}, Active);
      if old(EveryUserOwnsItsRow(rows, users)) {
        forall slot | slot in users ensures Owned(rows, users, slot) {
          if slot != Slot(c.shardId, c.email) { assert Owned(mid, old(users), slot); }
        }
      }
      return Ok(Slot(c.shardId, c.email));
    }

    method MarkReleasePendingBeforeDelete(email: Id, userId: Id) returns (r: Result<(), Failure>)
      modifies `rows
      ensures r.Ok? <==> email !in old(rows) || old(rows)[email].userId == userId
      ensures r.Ok? && email in old(rows) && old(rows)[email].status != ReleasePending ==>
                rows == old(rows)[email := old(rows)[email].(status := ReleasePending, expiresAt := None)]
      ensures r.Ok? && email in old(rows) && old(rows)[email].status == ReleasePending ==> rows == old(rows)
      ensures email !in old(rows) ==> rows == old(rows)
      ensures r.Err? ==> rows == old(rows) && r.error == ReleaseMismatch
    {
      if Hits(rows, email, userId, {Active, Pending}) {
        rows := Moved(rows, email, userId, {Active, Pending}, ReleasePending);
        return Ok(());
      }
      if email !in rows {
        return Ok(());
      }
      if rows[email].userId == userId && rows[email].status == ReleasePending {
        return Ok(());
      }
      return Err(ReleaseMismatch);
    }

    /** deleteUser of a member found by id on the request's shard: mark, shard
        delete, finalize. `erases` says whether the shard performs the delete. */
    method DeleteUser(slot: Slot, userId: Id, workspaceId: Id, erases: bool) returns (r: Result<(), Failure>)
      modifies `rows, `users
      // the user is gone and its e-mail is free
      ensures r.Ok? ==> users == Erased(old(users), slot.shardId, userId) && slot !in users && slot.email !in rows
                        && rows == old(rows) - {slot.email}
      // interrupted: the user stays and its row is discoverable
      ensures r == Err(ShardWriteFailed) ==>
                && users == old(users) && rows.Keys == old(rows).Keys
                && (forall e :: e in rows && e != slot.email ==> rows[e] == old(rows)[e])
                && (slot.email in rows ==> Hits(rows, slot.email, userId, {ReleasePending}))
      ensures r.Err? && r.error != ShardWriteFailed ==> users == old(users) && rows == old(rows)
      ensures r.Ok? <==> erases && slot in old(users) && old(users)[slot] == User(userId, workspaceId)
                         && (slot.email in old(rows) ==> old(rows)[slot.email].userId == userId)
    {
      if !(slot in users && users[slot] == User(userId, workspaceId)) {
        return Err(UserNotFound);
      }
      var marked := MarkReleasePendingBeforeDelete(slot.email, userId);
      if marked.Err? {
        return Err(marked.error);
      }
      if !erases {
        return Err(ShardWriteFailed);
      }
      users := Erased(users, slot.shardId, userId);
      rows := Dropped(rows, slot.email, userId, {ReleasePending});
      return Ok(());
    }

    method ReconcileReleasePending(email: Id, userId: Id) returns (r: Result<Verdict, Failure>)
      modifies `rows
      ensures rows == AfterReleased(old(rows), users, down, email, userId)
      ensures r == Ok(Released) <==> email in old(rows) && email !in rows
      ensures r == Ok(Restored) <==>
                email in rows && old(rows)[email].status == ReleasePending && rows[email].status == Active
      ensures r.Ok? ==> r.value in {Released, Restored, Kept}
      ensures r.Err? <==> email in old(rows) && old(rows)[email].userId == userId && old(rows)[email].status != Pending
                          && Unreachable(old(rows)[email], down)
      ensures r.Err? ==> r.error == ShardUnavailable && rows == old(rows)
    {
      if email !in rows || rows[email].userId != userId {
        return Ok(Kept);
      }
      var row := rows[email];
      if row.status != ReleasePending && row.status != Active {
        return Ok(Kept);
      }
      if row.shardId == ABSENT || row.workspaceId == ABSENT {
        return Ok(Kept);
      }
      if row.shardId in down {
        return Err(ShardUnavailable);
      }
      if Lives(users, ClaimOf(email, row)) {
        if row.status == ReleasePending {
          rows := Moved(rows, email, userId, {ReleasePending}, Active);
          return Ok(Restored);
        }
        return Ok(Kept);
      }
      rows := Dropped(rows, email, userId, {row.status});
      return Ok(Released);
    }

    /** The batch over the marked e-mails, in whatever order findMany lists them. */
    method ReconcileAllReleasePending(found: seq<Id>) returns (tally: Tally)
      requires Elements(found) == Marked(rows)
      requires forall i, j :: 0 <= i < j < |found| ==> found[i] != found[j]
      modifies `rows
      ensures rows == Processed(old(rows), users, down, Marked(old(rows)))
      ensures tally.released == |old(rows)| - |rows|
      ensures tally.released + tally.kept + tally.restored + tally.errors == |found|
      // which counter a marked row went to, told by the tables alone
      ensures tally.restored == |BackToActive(old(rows), rows)|
      ensures tally.kept == |WithoutRoute(old(rows))|
      ensures tally.errors == |BehindDownShard(old(rows), down)|
    {
      var released, kept, restored, errors := 0, 0, 0, 0;
      assert Processed(rows, users, down, Elements([])) == rows;
      assert forall e :: e in found ==> e in Elements(found) && e in rows;
      for i := 0 to |found|
        invariant rows == Processed(old(rows), users, down, Elements(found[..i]))
        invariant Tally(released, kept, restored, errors) == TallyOver(old(rows), users, down, found[..i])
        invariant released + kept + restored + errors == i
      {
        NextElement(found, i);
        assert found[..i + 1][..i] == found[..i];
        var outcome := ReconcileListed(old(rows), Elements(found[..i]), found[i]);
        if outcome.Err? { errors := errors + 1; }
        else if outcome.value == Released { released := released + 1; }
        else if outcome.value == Restored { restored := restored + 1; }
        else { kept := kept + 1; }
      }
      assert found[..|found|] == found;
      tally := Tally(released, kept, restored, errors);
      TallyTells(old(rows), users, down, found);
    }

    /** One turn of the batch loop. */
    method ReconcileListed(ghost before: Directory, ghost done: set<Id>, e: Id) returns (r: Result<Verdict, Failure>)
      requires rows == Processed(before, users, down, done)
      requires e in Marked(before) && e !in done
      modifies `rows
      ensures rows == Processed(before, users, down, done + {e})
      ensures r == VerdictOn(before[e], e, users, down)
    {
      ProcessOne(before, users, down, done, e);
      r := ReconcileReleasePending(e, rows[e].userId);
    }

    method ResolveUserByEmail(email: Id) returns (r: Result<Option<Slot>, Failure>)
      modifies `rows
      ensures Resolves(old(rows), users, down, now, email, r, rows)
      // the only self-call meets an ACTIVE row, which makes none
      decreases if email in rows && rows[email].status == Pending then 1 else 0
    {
      if email !in rows {
        r := Scan(email);
        return;
      }
      var row := rows[email];
      if row.status == ReleasePending {
        return Err(CleanupPending);
      }
      if row.workspaceId == ABSENT || row.shardId == ABSENT {
        return Err(RouteIncomplete);
      }
      if row.status == Pending {
        if Expired(row, now) {
          var reconciled := ReconcileExpiredPending(email);
          if reconciled.Err? {
            return Err(reconciled.error);
          }
          if email !in rows {
            r := Scan(email);
            return;
          }
          // without interference the surviving row is ACTIVE; the source's two
          // other outcomes need another call to run in between
          assert reconciled == Ok(Activated);
          r := ResolveUserByEmail(email);
          return;
        }
        if row.shardId in down {
          return Err(ShardUnavailable);
        }
        var slot := Slot(row.shardId, email);
        if slot in users && users[slot].id == row.userId && users[slot].workspaceId == row.workspaceId {
          rows := Moved(rows, email, row.userId, {Pending}, Active);
          return Ok(Some(slot));
        }
        return Err(StillPending);
      }
      if row.shardId in down {
        return Err(ShardUnavailable);
      }
      var slot := Slot(row.shardId, email);
      if slot !in users || users[slot].id != row.userId || users[slot].workspaceId != row.workspaceId {
        return Err(IntegrityError);
      }
      return Ok(Some(slot));
    }

    /** findUserAcrossShards: any shard that has the e-mail. */
    method Scan(email: Id) returns (r: Result<Option<Slot>, Failure>)
      ensures FoundByScan(users, email, r)
    {
      var todo := users.Keys;
      while todo != {}
        invariant todo <= users.Keys
        invariant forall slot :: slot in users && slot !in todo ==> slot.email != email
        decreases |todo|
      {
        var slot :| slot in todo;
        if slot.email == email {
          return Ok(Some(slot));
        }
        todo := todo - {slot};
      }
      return Ok(None);
    }
  }

  /** What a lookup does to the directory: a PENDING row whose user is answered
      becomes ACTIVE without an expiry on its own route, an expired one without a
      user goes, and nothing else changes. */
  lemma LookupEffect(rows: Directory, users: Users, down: set<Id>, now: int, email: Id,
                     r: Result<Option<Slot>, Failure>, after: Directory)
    requires Resolves(rows, users, down, now, email, r, after)
    ensures forall e :: e != email ==> (e in after <==> e in rows) && (e in rows ==> after[e] == rows[e])
    ensures email in rows && rows[email].status == Pending && email in after && r.Ok? ==>
              after[email] == rows[email].(status := Active, expiresAt := None)
              && r == Ok(Some(Slot(rows[email].shardId, email)))
              && Lives(users, ClaimOf(email, rows[email]))
    ensures email in rows && email !in after ==>
              && rows[email].status == Pending && Expired(rows[email], now) && r.Ok?
              && (Complete(ClaimOf(email, rows[email])) ==> !Lives(users, ClaimOf(email, rows[email])))
    ensures email in rows && (rows[email].status != Pending || r.Err?) ==> after == rows
    ensures email !in rows ==> after == rows && r.Ok?
  {
    if email in rows && after == rows - {email} { assert email !in after; }
  }

  /** Which refusal a lookup meets, by the state of the row alone. */
  lemma LookupRefusals(rows: Directory, users: Users, down: set<Id>, now: int, email: Id,
                       r: Result<Option<Slot>, Failure>, after: Directory)
    requires Resolves(rows, users, down, now, email, r, after) && email in rows
    ensures var row := rows[email];
      var routed := row.shardId != ABSENT && row.workspaceId != ABSENT;
      var slot := Slot(row.shardId, email);
      var found := slot in users && users[slot] == User(row.userId, row.workspaceId);
      && (r == Err(CleanupPending) <==> row.status == ReleasePending)
      && (r == Err(RouteIncomplete) <==> row.status != ReleasePending && !routed)
      && (r == Err(ShardUnavailable) <==>
          row.status != ReleasePending && routed && row.shardId in down
          && (row.status == Pending && Expired(row, now) ==> row.userId != ABSENT))
      && (r == Err(IntegrityError) <==> row.status == Active && routed && row.shardId !in down && !found)
      && (r == Err(StillPending) <==>
          row.status == Pending && !Expired(row, now) && routed && row.shardId !in down && !found)
      && (r.Err? ==> r.error in {CleanupPending, RouteIncomplete, ShardUnavailable, IntegrityError, StillPending})
  {
  }

  lemma AfterExpiredKeepsOwners(rows: Directory, users: Users, down: set<Id>, now: int, e: Id)
    requires EveryUserOwnsItsRow(rows, users)
    ensures EveryUserOwnsItsRow(AfterExpired(rows, users, down, now, e), users)
    ensures e !in AfterExpired(rows, users, down, now, e) ==> forall slot :: slot in users ==> slot.email != e
  {
    var t := AfterExpired(rows, users, down, now, e);
    forall slot | slot in users ensures Owned(t, users, slot) {
      assert Owned(rows, users, slot);
      if slot.email == e {
        assert slot == Slot(rows[e].shardId, e);
        assert Lives(users, ClaimOf(e, rows[e]));
      }
    }
  }
}
