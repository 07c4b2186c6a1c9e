/** Workspace ownership when calls interleave: every call checks first and writes
    later, and other calls may write in between. transferOwnership's transaction
    asks for no isolation level, so its reads are not repeated by its writes: they
    update by id and become visible together when it commits. The database keeps
    two constraints of its own: ownerId's foreign key restricts deletes, and a
    partial unique index lets a workspace have one OWNER at most. */
module OwnershipRaces {
  import opened Authority

  /** What a call that has passed its checks is going to write. */
  datatype Write =
    | SignUpWrite(ws: WorkspaceId, owner: UserId, admin: RoleId)
    | TransferWrite(ws: WorkspaceId, current: UserId, next: UserId)
    | MemberWrite(actor: Actor, req: Request)
  {
    /** The call inserts a user under an id of its own. */
    predicate Inserts() {
      SignUpWrite? || (MemberWrite? && req.CreateUser?)
    }

    function InsertedId(): UserId
      requires Inserts()
    {
      if SignUpWrite? then owner else req.id
    }
  }

  /** The tables, the writes still to come, and the ids ever drawn. */
  datatype Office = Office(world: World, pending: map<int, Write>, users: set<UserId>, spaces: set<WorkspaceId>)

  datatype Event =
    | Check(k: int, write: Write)
    | Commit(k: int)
    | Abandon(k: int)          // crash, or a call that throws

  ghost predicate Passes(o: Office, write: Write) {
    (write.Inserts() ==> write.InsertedId() !in o.users)              // randomUUID is fresh
    && match write
       case SignUpWrite(ws, _, _) => ws !in o.spaces                  // and again
       case TransferWrite(ws, current, next) => CanTransfer(o.world, ws, current, next)
       case MemberWrite(a, req) =>
         Accepted(o.world, a, req) && (req.CreateUser? ==> a.workspaceId in o.world.owners)
  }

  function Reassigned(w: World, ws: WorkspaceId, current: UserId, next: UserId): World
    requires current in w.members && next in w.members
  {
    var demoted := w.members[current := w.members[current].(userType := MEMBER)];
    w.(members := demoted[next := demoted[next].(userType := OWNER)], owners := w.owners[ws := next])
  }

  /** Somebody else owns the workspace of next, so the unique index refuses its
      promotion even after current's demotion. */
  predicate IndexRefuses(w: World, current: UserId, next: UserId)
    requires next in w.members
  {
    exists u :: u in w.members && u !in {current, next}
                && w.members[u].userType == OWNER && w.members[u].workspaceId == w.members[next].workspaceId
  }

  /** Both updates find their rows and the index accepts the second. */
  predicate TransferGoesThrough(w: World, current: UserId, next: UserId) {
    current in w.members && next in w.members && !IndexRefuses(w, current, next)
  }

  /** The write, whatever has happened since its check. */
  function Committed(w: World, write: Write): World {
    match write
    case SignUpWrite(ws, owner, admin) => SignedUp(w, ws, owner, admin)
    case TransferWrite(ws, current, next) =>
      if TransferGoesThrough(w, current, next) then Reassigned(w, ws, current, next) else w    // rolled back
    case MemberWrite(a, req) => WrittenLater(w, a, req)
  }

  ghost predicate Enabled(o: Office, ev: Event) {
    match ev
    case Check(k, write) => k !in o.pending && Passes(o, write)
    case Commit(k) => k in o.pending
    case Abandon(k) => k in o.pending
  }

  ghost function Next(o: Office, ev: Event): Office
    requires Enabled(o, ev)
  {
    match ev
    case Check(k, write) =>
      Office(o.world, o.pending[k := write],
             if write.Inserts() then o.users + {write.InsertedId()} else o.users,
             if write.SignUpWrite? then o.spaces + {write.ws} else o.spaces)
    case Commit(k) => o.(world := Committed(o.world, o.pending[k]), pending := o.pending - {k})
    case Abandon(k) => o.(pending := o.pending - {k})
  }

  /** What must still be true when the write comes. Only two writes can fail it:
      a transfer that goes through must meet an ACTIVE target, and a status change
      must not take ACTIVE from an owner. */
  predicate StillSafe(w: World, write: Write) {
    match write
    case SignUpWrite(_, _, _) => true
    case TransferWrite(_, current, next) =>
      TransferGoesThrough(w, current, next) ==> w.members[next].status == ACTIVE
    case MemberWrite(_, req) =>
      req.UpdateUserStatus? && req.id in w.members ==>
        req.status == ACTIVE || w.members[req.id].userType != OWNER
  }

  // ----- what the checks leave true until the write ------------------------------------

  ghost predicate Lodges(w: World, u: UserId, ws: WorkspaceId) {
    u in w.members ==> w.members[u].workspaceId == ws
  }

  ghost predicate PendingOk(o: Office, write: Write) {
    (write.Inserts() ==> write.InsertedId() in o.users && write.InsertedId() !in o.world.members)
    && match write
       case SignUpWrite(ws, _, _) => ws in o.spaces && ws !in o.world.owners
       case TransferWrite(ws, current, next) =>
         && next != current && current in o.users && next in o.users && ws in o.world.owners
         && Lodges(o.world, current, ws) && Lodges(o.world, next, ws)
       case MemberWrite(a, req) => req.CreateUser? ==> a.workspaceId in o.world.owners
  }

  ghost predicate OwnIds(o: Office) {
    forall k, l :: k in o.pending && l in o.pending && k != l && o.pending[k].Inserts() && o.pending[l].Inserts() ==>
      o.pending[k].InsertedId() != o.pending[l].InsertedId()
      && (o.pending[k].SignUpWrite? && o.pending[l].SignUpWrite? ==> o.pending[k].ws != o.pending[l].ws)
  }

  /** A transfer names users that were stored, not ids about to be inserted. */
  ghost predicate NamesStored(o: Office) {
    forall k, l :: k in o.pending && l in o.pending && o.pending[k].TransferWrite? && o.pending[l].Inserts() ==>
      o.pending[l].InsertedId() !in {o.pending[k].current, o.pending[k].next}
  }

  /** ownerId names a user of the workspace, whatever its type and status. */
  ghost predicate NamesLodge(w: World) {
    forall ws :: ws in w.owners ==> w.owners[ws] in w.members && w.members[w.owners[ws]].workspaceId == ws
  }

  ghost predicate Tidy(o: Office) {
    && o.world.members.Keys <= o.users && o.world.owners.Keys <= o.spaces
    && (forall k :: k in o.pending ==> PendingOk(o, o.pending[k]))
    && OwnIds(o) && NamesStored(o) && NamesLodge(o.world)
  }

  lemma CommitKeepsTidy(o: Office, k: int)
    requires Tidy(o) && k in o.pending
    ensures Tidy(Next(o, Commit(k)))
  {
    var t := Next(o, Commit(k));
    assert PendingOk(o, o.pending[k]);
    forall l | l in t.pending ensures PendingOk(t, t.pending[l]) {
      assert PendingOk(o, o.pending[l]);
    }
  }

  lemma StepKeepsTidy(o: Office, ev: Event)
    requires Tidy(o) && Enabled(o, ev)
    ensures Tidy(Next(o, ev))
  {
    match ev
    case Commit(k) => CommitKeepsTidy(o, k);
    case Abandon(_) =>
    case Check(k, write) =>
      var t := Next(o, ev);
      forall l | l in t.pending ensures PendingOk(t, t.pending[l]) {
        if l != k { assert PendingOk(o, o.pending[l]); }
      }
  }

  // ----- one owner, unconditionally ------------------------------------------------------

  /** Every workspace has exactly one OWNER, the user that ownerId names; nothing
      is said of that user's status. */
  ghost predicate OneNamedOwner(w: World) {
    && (forall ws :: ws in w.owners ==>
          w.owners[ws] in w.members && w.members[w.owners[ws]].workspaceId == ws
          && w.members[w.owners[ws]].userType == OWNER)
    && (forall u :: u in w.members && w.members[u].userType == OWNER ==>
          w.members[u].workspaceId in w.owners && w.owners[w.members[u].workspaceId] == u)
    && (forall u :: u in w.members ==> w.members[u].workspaceId in w.owners)
  }

  /** With it, the index refuses exactly the transfers that come too late: those
      whose workspace has gone to a third user. */
  lemma IndexRefusesThirdOwners(w: World, ws: WorkspaceId, current: UserId, next: UserId)
    requires OneNamedOwner(w) && ws in w.owners && next in w.members && w.members[next].workspaceId == ws
    ensures IndexRefuses(w, current, next) <==> w.owners[ws] !in {current, next}
  {
  }

  lemma TransferKeepsNamedOwner(w: World, ws: WorkspaceId, current: UserId, next: UserId)
    requires OneNamedOwner(w) && ws in w.owners && next != current
    requires Lodges(w, current, ws) && Lodges(w, next, ws)
    ensures OneNamedOwner(Committed(w, TransferWrite(ws, current, next)))
  {
    if TransferGoesThrough(w, current, next) { IndexRefusesThirdOwners(w, ws, current, next); }
  }

  lemma SignUpKeepsNamedOwner(w: World, ws: WorkspaceId, owner: UserId, admin: RoleId)
    requires OneNamedOwner(w) && ws !in w.owners && owner !in w.members
    ensures OneNamedOwner(SignedUp(w, ws, owner, admin))
  {
    assert forall u :: u in w.members ==> w.members[u].workspaceId != ws;
  }

  lemma MemberWriteKeepsNamedOwner(w: World, a: Actor, req: Request)
    requires OneNamedOwner(w) && (req.CreateUser? ==> req.id !in w.members && a.workspaceId in w.owners)
    ensures OneNamedOwner(WrittenLater(w, a, req))
  {
  }

  lemma CommitKeepsNamedOwner(o: Office, k: int)
    requires Tidy(o) && OneNamedOwner(o.world) && k in o.pending
    ensures OneNamedOwner(Committed(o.world, o.pending[k]))
  {
    assert PendingOk(o, o.pending[k]);
    match o.pending[k]
    case SignUpWrite(ws, owner, admin) => SignUpKeepsNamedOwner(o.world, ws, owner, admin);
    case TransferWrite(ws, current, next) => TransferKeepsNamedOwner(o.world, ws, current, next);
    case MemberWrite(a, req) => MemberWriteKeepsNamedOwner(o.world, a, req);
  }

  /** At every point of every run each workspace has exactly one OWNER and ownerId
      names it, however the calls interleave. */
  lemma {:induction false} OneNamedOwnerAlways(start: Office, evs: seq<Event>, trace: seq<Office>, i: nat)
    requires Quiet(start) && Run(start, evs, trace) && i < |trace|
    ensures OneNamedOwner(trace[i].world)
  {
    if i > 0 {
      OneNamedOwnerAlways(start, evs, trace, i - 1);
      AlwaysTidy(start, evs, trace, i - 1);
      if evs[i - 1].Commit? { CommitKeepsNamedOwner(trace[i - 1], evs[i - 1].k); }
    }
  }

  /** Of two transfers that have both read the same owner, the one that writes
      later rolls back and changes nothing. */
  lemma LosingTransferRollsBack(w: World, ws: WorkspaceId, current: UserId, next: UserId, late: UserId)
    requires OneNamedOwner(w) && CanTransfer(w, ws, current, next) && CanTransfer(w, ws, current, late) && next != late
    ensures var won := Committed(w, TransferWrite(ws, current, next));
      && won.owners[ws] == next && OneNamedOwner(won)
      && Committed(won, TransferWrite(ws, current, late)) == won
  {
    IndexRefusesThirdOwners(w, ws, current, next);
    var won := Committed(w, TransferWrite(ws, current, next));
    assert next in won.members && won.members[next].userType == OWNER && won.members[next].workspaceId == ws;
  }

  // ----- the exact condition -----------------------------------------------------------------

  /** The transaction of a transfer keeps one ACTIVE owner if and only if it meets
      an ACTIVE target or is rolled back because a third user owns the workspace. */
  lemma TransferWriteIsSafeIff(w: World, ws: WorkspaceId, current: UserId, next: UserId)
    requires OwnersOk(w) && next != current && ws in w.owners
    requires current in w.members && w.members[current].workspaceId == ws
    requires next in w.members && w.members[next].workspaceId == ws
    ensures OwnersOk(Committed(w, TransferWrite(ws, current, next)))
            <==> w.members[next].status == ACTIVE || w.owners[ws] !in {current, next}
  {
    IndexRefusesThirdOwners(w, ws, current, next);
    if TransferGoesThrough(w, current, next) {
      var t := Reassigned(w, ws, current, next);
      assert t.owners[ws] == next && t.members[next].status == w.members[next].status;
    }
  }

  /** Any write keeps every workspace's one active owner if and only if it meets
      the condition above. */
  lemma CommitIsSafeIff(o: Office, k: int)
    requires Tidy(o) && OwnersOk(o.world) && k in o.pending
    ensures OwnersOk(Committed(o.world, o.pending[k])) <==> StillSafe(o.world, o.pending[k])
  {
    var w, write := o.world, o.pending[k];
    assert PendingOk(o, write);
    match write
    case SignUpWrite(ws, owner, admin) => SignUpKeepsOwners(w, ws, owner, admin);
    case TransferWrite(ws, current, next) =>
      if current in w.members && next in w.members {
        TransferWriteIsSafeIff(w, ws, current, next);
        IndexRefusesThirdOwners(w, ws, current, next);
      }
    case MemberWrite(a, req) =>
      if req.UpdateUserStatus? && req.id in w.members { StatusWriteIsSafeIff(w, a, req.id, req.status); }
  }

  // ----- over whole runs -----------------------------------------------------------------------

  ghost predicate Run(start: Office, evs: seq<Event>, trace: seq<Office>) {
    && |trace| == |evs| + 1 && trace[0] == start
    && forall i :: 0 <= i < |evs| ==> Enabled(trace[i], evs[i]) && trace[i + 1] == Next(trace[i], evs[i])
  }

  /** Nothing under way, and every id in the tables was drawn once. */
  ghost predicate Quiet(o: Office) {
    o.pending == map[] && OwnersOk(o.world) && o.world.members.Keys <= o.users && o.world.owners.Keys <= o.spaces
  }

  lemma {:induction false} AlwaysTidy(start: Office, evs: seq<Event>, trace: seq<Office>, i: nat)
    requires Quiet(start) && Run(start, evs, trace) && i < |trace|
    ensures Tidy(trace[i])
  {
    if i > 0 {
      AlwaysTidy(start, evs, trace, i - 1);
      StepKeepsTidy(trace[i - 1], evs[i - 1]);
    }
  }

  ghost predicate WritesSafely(o: Office, ev: Event) {
    ev.Commit? && ev.k in o.pending ==> StillSafe(o.world, o.pending[ev.k])
  }

  lemma StepIsSafeIff(o: Office, ev: Event)
    requires Tidy(o) && OwnersOk(o.world) && Enabled(o, ev)
    ensures OwnersOk(Next(o, ev).world) <==> WritesSafely(o, ev)
  {
    if ev.Commit? { CommitIsSafeIff(o, ev.k); }
  }

  lemma {:induction false} SafeWritesKeepOwners(start: Office, evs: seq<Event>, trace: seq<Office>, i: nat)
    requires Quiet(start) && Run(start, evs, trace) && i < |trace|
    requires forall j :: 0 <= j < |evs| ==> WritesSafely(trace[j], evs[j])
    ensures OwnersOk(trace[i].world)
  {
    if i > 0 {
      SafeWritesKeepOwners(start, evs, trace, i - 1);
      AlwaysTidy(start, evs, trace, i - 1);
      StepIsSafeIff(trace[i - 1], evs[i - 1]);
    }
  }

  /** Over every interleaving: each workspace has exactly one OWNER, named and
      ACTIVE, at every point if and only if every write meets its condition. */
  lemma OneOwnerIff(start: Office, evs: seq<Event>, trace: seq<Office>)
    requires Quiet(start) && Run(start, evs, trace)
    ensures (forall i :: 0 <= i < |trace| ==> OwnersOk(trace[i].world))
            <==> forall i :: 0 <= i < |evs| ==> WritesSafely(trace[i], evs[i])
  {
    if forall i :: 0 <= i < |evs| ==> WritesSafely(trace[i], evs[i]) {
      forall i | 0 <= i < |trace| ensures OwnersOk(trace[i].world) { SafeWritesKeepOwners(start, evs, trace, i); }
    }
    if forall i :: 0 <= i < |trace| ==> OwnersOk(trace[i].world) {
      forall i | 0 <= i < |evs| ensures WritesSafely(trace[i], evs[i]) {
        AlwaysTidy(start, evs, trace, i);
        assert OwnersOk(trace[i].world) && OwnersOk(trace[i + 1].world);
        StepIsSafeIff(trace[i], evs[i]);
      }
    }
  }

  // ----- a run that breaks it ------------------------------------------------------------------

  /** Two calls that both check, and then write one after the other. */
  lemma TwoChecksTwoWrites(start: Office, first: Write, second: Write) returns (evs: seq<Event>, trace: seq<Office>)
    requires Quiet(start) && Passes(start, first) && Passes(start, second) && !first.Inserts() && !second.Inserts()
    ensures Run(start, evs, trace) && evs == [Check(1, first), Check(2, second), Commit(1), Commit(2)]
    ensures trace[|evs|].world == Committed(Committed(start.world, first), second)
  {
    var checked := Next(start, Check(1, first));
    var both := Next(checked, Check(2, second));
    var one := Next(both, Commit(1));
    evs := [Check(1, first), Check(2, second), Commit(1), Commit(2)];
    trace := [start, checked, both, one, Next(one, Commit(2))];
  }

  /** An owner and two members. */
  function Trio(): Office {
    var m := Member(9, MEMBER, ACTIVE, {}, []);
    Office(World(map[1 := m.(userType := OWNER), 2 := m, 3 := m], map[], map[9 := 1]), map[], {1, 2, 3}, {9})
  }

  /** A suspension that commits after the transfer has read its target and before
      it promotes it leaves a suspended owner. */
  lemma SuspendDuringTransferBreaksOwnership()
    ensures exists start: Office, evs: seq<Event>, trace: seq<Office> ::
              Quiet(start) && Run(start, evs, trace) && !OwnersOk(trace[|evs|].world)
              && Check(2, TransferWrite(9, 1, 2)) in evs
  {
    var start := Trio();
    var a := ActorOf(start.world, 1);
    var suspend, transfer := MemberWrite(a, UpdateUserStatus(2, SUSPENDED)), TransferWrite(9, 1, 2);
    var evs, trace := TwoChecksTwoWrites(start, suspend, transfer);
    var mid := Committed(start.world, suspend);
    assert mid.members[2].status == SUSPENDED && 1 in mid.members;
    var w := Committed(mid, transfer);
    assert w.owners[9] == 2 && !OwnerOf(w.members[2], 9);
    assert evs[1] == Check(2, transfer);
  }
}
