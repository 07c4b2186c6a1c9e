/** The two databases of the e-mail identity protocol and the single statements
    the services send to them: the control-plane table GlobalEmailReservation
    and the User tables of the shards.

    Every key (e-mail, user, workspace, shard) is an opaque value that the code
    only compares; integers stand for them. ABSENT stands for null and for the
    empty string, which the code's truthiness tests treat alike. */
module IdentityTables {
  import opened Wrappers

  type Id = int

  const ABSENT: Id := 0

  /** PENDING_RESERVATION_TTL_MS. */
  const TTL: int := 15 * 60 * 1000

  datatype Status = Pending | Active | ReleasePending

  /** A GlobalEmailReservation row; the e-mail is its key in the Directory. */
  datatype Row = Row(userId: Id, workspaceId: Id, shardId: Id, status: Status, expiresAt: Option<int>)

  type Directory = map<Id, Row>

  /** User.email is unique inside one shard, so (shard, e-mail) is a key. */
  datatype Slot = Slot(shardId: Id, email: Id)

  datatype User = User(id: Id, workspaceId: Id)

  type Users = map<Slot, User>

  /** Who an e-mail belongs to and where that user lives. */
  datatype Claim = Claim(email: Id, userId: Id, workspaceId: Id, shardId: Id)

  function ClaimOf(email: Id, row: Row): Claim {
    Claim(email, row.userId, row.workspaceId, row.shardId)
  }

  predicate Complete(c: Claim) {
    c.userId != ABSENT && c.workspaceId != ABSENT && c.shardId != ABSENT
  }

  predicate Expired(row: Row, now: int) {
    row.expiresAt.Some? && row.expiresAt.value < now
  }

  function PendingRow(c: Claim, expiresAt: int): Row {
    Row(c.userId, c.workspaceId, c.shardId, Pending, Some(expiresAt))
  }

  // ----- control-plane statements ------------------------------------------

  /** The `where` of every conditional control-plane write. */
  predicate Hits(rows: Directory, email: Id, userId: Id, from: set<Status>) {
    email in rows && rows[email].userId == userId && rows[email].status in from
  }

  const ANY := {Pending, Active, ReleasePending}

  /** updateMany: move a matching row to another status and clear its expiry. */
  function Moved(rows: Directory, email: Id, userId: Id, from: set<Status>, to: Status): Directory {
    if Hits(rows, email, userId, from)
    then rows[email := rows[email].(status := to, expiresAt := None)]
    else rows
  }

  /** deleteMany: drop a matching row. */
  function Dropped(rows: Directory, email: Id, userId: Id, from: set<Status>): Directory {
    if Hits(rows, email, userId, from) then rows - {email} else rows
  }

  /** The expired-row reconciler's deleteMany, which also asks for expiresAt < now. */
  function DroppedIfExpired(rows: Directory, email: Id, userId: Id, now: int): Directory {
    if Hits(rows, email, userId, {Pending}) && Expired(rows[email], now) then rows - {email} else rows
  }

  // ----- shard statements ----------------------------------------------------

  /** findFirst by id, e-mail and workspace on the claim's shard. */
  predicate Lives(users: Users, c: Claim) {
    var slot := Slot(c.shardId, c.email);
    slot in users && users[slot] == User(c.userId, c.workspaceId)
  }

  predicate HasId(users: Users, shardId: Id, userId: Id) {
    exists slot :: slot in users && slot.shardId == shardId && users[slot].id == userId
  }

  /** Neither unique key of the shard's User table refuses the insert. */
  predicate CanCreate(users: Users, c: Claim) {
    Slot(c.shardId, c.email) !in users && !HasId(users, c.shardId, c.userId)
  }

  function Created(users: Users, c: Claim): Users {
    users[Slot(c.shardId, c.email) := User(c.userId, c.workspaceId)]
  }

  /** user.delete by id on one shard. */
  function Erased(users: Users, shardId: Id, userId: Id): Users {
    map slot | slot in users && !(slot.shardId == shardId && users[slot].id == userId) :: users[slot]
  }

  // ----- what the two databases owe each other ---------------------------------

  /** The row of the user's e-mail carries the user's own, complete route. */
  ghost predicate Owned(rows: Directory, users: Users, slot: Slot) {
    && slot.email in rows && slot in users
    && ClaimOf(slot.email, rows[slot.email]) == Claim(slot.email, users[slot].id, users[slot].workspaceId, slot.shardId)
    && Complete(ClaimOf(slot.email, rows[slot.email]))
  }

  ghost predicate EveryUserOwnsItsRow(rows: Directory, users: Users) {
    forall slot :: slot in users ==> Owned(rows, users, slot)
  }

  /** No two live users anywhere share an e-mail. */
  ghost predicate OneUserPerEmail(users: Users) {
    forall a, b :: a in users && b in users && a.email == b.email ==> a == b
  }

  /** Every ACTIVE row has a live user on its recorded route. */
  ghost predicate ActiveIsLive(rows: Directory, users: Users) {
    forall e :: e in rows && rows[e].status == Active ==> Lives(users, ClaimOf(e, rows[e]))
  }
}
