/** Looking a user up through the directory agrees with asking every shard, and
    depends on nothing but the recorded route. */
module IdentityResolution {
  import opened Wrappers
  import opened IdentityTables
  import opened IdentityProtocol
  import opened IdentitySafety
  import opened IdentityDeletion
  import opened IdentityRecovery
  import opened IdentityService

  /** Refinement of the exhaustive scan: in every reachable state, whatever calls
      are in flight, an answer of resolveUserByEmail is the scan's answer, it is
      the only possible one, and only blocked, unreachable or unfinished
      identities get an error instead. */
  lemma ResolutionAgreesWithScan(s0: State, evs: seq<Event>, t: State, down: set<Id>, email: Id,
                                 r: Result<Option<Slot>, Failure>, after: Directory)
    requires Initial(s0) && Run(s0, evs, t) && ShelteredRun(s0, evs)
    requires Resolves(t.rows, t.users, down, t.now, email, r, after)
    ensures r.Ok? ==> FoundByScan(t.users, email, r)
    ensures r.Ok? ==> forall slot :: slot in t.users && slot.email == email ==> r == Ok(Some(slot))
    ensures r.Err? <==> email in t.rows
                        && (t.rows[email].status == ReleasePending || t.rows[email].shardId in down
                            || (!Lives(t.users, ClaimOf(email, t.rows[email])) && !Expired(t.rows[email], t.now)))
    ensures EveryUserOwnsItsRow(after, t.users)
  {
    ShelteredRunsKeepInv(s0, evs, t);
    assert forall slot :: slot in t.users ==> Owned(t.rows, t.users, slot);
    if email in t.rows {
      var row := t.rows[email];
      assert RowOk(t, email, row);
      forall slot | slot in t.users && slot.email == email
        ensures slot == Slot(row.shardId, email) && Lives(t.users, ClaimOf(email, row))
      {
        assert Owned(t.rows, t.users, slot);
      }
    }
    forall slot | slot in t.users ensures Owned(after, t.users, slot) {
      assert Owned(t.rows, t.users, slot);
    }
  }

  // ----- a lookup that other calls interleave with --------------------------------------

  /** The states that a run from s0 passes through. */
  ghost predicate Trace(s0: State, evs: seq<Event>, trace: seq<State>) {
    && |trace| == |evs| + 1 && trace[0] == s0
    && forall k :: 0 <= k < |evs| ==>
         Enabled(trace[k], evs[k]) && Sheltered(trace[k], evs[k]) && trace[k + 1] == Apply(trace[k], evs[k])
  }

  lemma {:induction false} TraceKeepsInv(s0: State, evs: seq<Event>, trace: seq<State>, k: nat)
    requires Initial(s0) && Trace(s0, evs, trace) && k < |trace|
    ensures Inv(trace[k])
  {
    if k > 0 {
      TraceKeepsInv(s0, evs, trace, k - 1);
      StepKeepsInv(trace[k - 1], evs[k - 1]);
    }
  }

  /** Among the states of the run: resolveUserByEmail, through whatever
      reconciliations and self-calls, last read the directory in one state, last
      looked at a shard in a later one, and answered r. A scan that finds nobody
      asks every shard at a time of its own. */
  ghost predicate AnswersDuring(trace: seq<State>, read: nat, look: nat, email: Id, r: Option<Slot>)
    requires read <= look < |trace|
  {
    var rows, users := trace[read].rows, trace[look].users;
    if email !in rows then r.Some? ==> FoundByScan(users, email, Ok(r))
    else
      && rows[email].status != ReleasePending
      && r == Some(Slot(rows[email].shardId, email))
      && Lives(users, ClaimOf(email, rows[email]))
  }

  /** At this state the scan gives this answer and can give no other. */
  ghost predicate OnlyAnswer(s: State, email: Id, r: Option<Slot>) {
    FoundByScan(s.users, email, Ok(r)) && forall slot :: slot in s.users && slot.email == email ==> r == Some(slot)
  }

  /** Interleaved with any other calls, an answer is the exhaustive scan's only
      answer at one point of the call: a user's at the look, nobody at the read. */
  lemma InterleavedAnswersAreLinear(s0: State, evs: seq<Event>, trace: seq<State>, read: nat, look: nat,
                                    email: Id, r: Option<Slot>)
    requires Initial(s0) && Trace(s0, evs, trace) && read <= look < |trace|
    requires AnswersDuring(trace, read, look, email, r)
    ensures OnlyAnswer(trace[if r.Some? then look else read], email, r)
  {
    var s := trace[if r.Some? then look else read];
    TraceKeepsInv(s0, evs, trace, if r.Some? then look else read);
    forall slot | slot in s.users && slot.email == email ensures r == Some(slot) {
      assert Owned(s.rows, s.users, slot);
      if r.Some? { assert Owned(s.rows, s.users, r.value); }
    }
  }

  /** And the integrity error of an ACTIVE row means, as long as no restore has
      overlapped a deletion, that the user was deleted during the call. */
  lemma IntegrityErrorMeansDeletedMeanwhile(s0: State, evs: seq<Event>, trace: seq<State>, read: nat, look: nat,
                                            email: Id)
    requires Initial(s0) && Trace(s0, evs, trace) && read <= look < |trace|
    requires forall k :: 0 <= k < |evs| ==> RestoresSafely(trace[k], evs[k])
    requires email in trace[read].rows && trace[read].rows[email].status == Active
    requires !Lives(trace[look].users, ClaimOf(email, trace[read].rows[email]))
    ensures exists k :: read <= k < look && evs[k].Step? && evs[k].p in trace[k].procs
              && trace[k].procs[evs[k].p] == Erasing(ClaimOf(email, trace[read].rows[email]))
  {
    var c := ClaimOf(email, trace[read].rows[email]);
    TraceKeepsFacts(s0, evs, trace, read);
    TraceKeepsInv(s0, evs, trace, read);
    assert RowOk(trace[read], email, trace[read].rows[email]) && Live(trace[read], c.userId);
    var k := LastAlive(s0, evs, trace, read, look, c);
  }

  lemma {:induction false} TraceKeepsFacts(s0: State, evs: seq<Event>, trace: seq<State>, k: nat)
    requires Initial(s0) && Trace(s0, evs, trace) && k < |trace|
    requires forall i :: 0 <= i < |evs| ==> RestoresSafely(trace[i], evs[i])
    ensures DeletionFacts(trace[k])
  {
    if k > 0 {
      TraceKeepsFacts(s0, evs, trace, k - 1);
      TraceKeepsInv(s0, evs, trace, k - 1);
      StepKeepsFacts(trace[k - 1], evs[k - 1]);
    }
  }

  /** A user that lives at one state and not at a later one is erased in between. */
  lemma {:induction false} LastAlive(s0: State, evs: seq<Event>, trace: seq<State>, i: nat, j: nat, c: Claim)
      returns (k: nat)
    requires Initial(s0) && Trace(s0, evs, trace) && i <= j < |trace|
    requires Born(trace[i], c) && Lives(trace[i].users, c) && !Lives(trace[j].users, c)
    ensures i <= k < j && evs[k].Step? && evs[k].p in trace[k].procs && trace[k].procs[evs[k].p] == Erasing(c)
    decreases j - i
  {
    TraceKeepsInv(s0, evs, trace, i);
    if evs[i].Step? && trace[i].procs[evs[i].p].Erasing? && trace[i].procs[evs[i].p].c.userId == c.userId {
      assert ProcOk(trace[i], trace[i].procs[evs[i].p]);
      k := i;
    } else {
      OnlyEraseKills(trace[i], evs[i], c.userId);
      BirthsStay(trace[i], evs[i], c);
      k := LastAlive(s0, evs, trace, i + 1, j, c);
    }
  }

  lemma BirthsStay(s: State, ev: Event, c: Claim)
    requires Inv(s) && Enabled(s, ev) && Born(s, c)
    ensures Born(Apply(s, ev), c)
  {
    if ev.Step? { assert ProcOk(s, s.procs[ev.p]); }
  }

  // ----- routing --------------------------------------------------------------------------

  /** One shard as a lookup by e-mail sees it. */
  ghost predicate SameShard(users: Users, others: Users, shardId: Id) {
    forall slot: Slot :: slot.shardId == shardId ==>
      (slot in users <==> slot in others) && (slot in users ==> users[slot] == others[slot])
  }

  /** Routing non-interference: while the row survives the call, nothing on any
      other shard can change the answer or the row. */
  lemma OnlyTheRecordedShardMatters(rows: Directory, rows2: Directory, users: Users, users2: Users,
                                    down: set<Id>, down2: set<Id>,
                                    now: int, email: Id,
                                    r: Result<Option<Slot>, Failure>, r2: Result<Option<Slot>, Failure>,
                                    after: Directory, after2: Directory)
    requires email in rows && email in rows2 && rows[email] == rows2[email]
    requires SameShard(users, users2, rows[email].shardId)
    requires rows[email].shardId in down <==> rows[email].shardId in down2
    requires Resolves(rows, users, down, now, email, r, after)
    requires Resolves(rows2, users2, down2, now, email, r2, after2)
    requires email in after
    ensures r == r2 && email in after2 && after2[email] == after[email]
  {
    assert Lives(users, ClaimOf(email, rows[email])) <==> Lives(users2, ClaimOf(email, rows[email]));
  }
}
