/** Deletion in the identity protocol: exactly as long as no release reconciler
    restores a row whose user is gone or about to be deleted, every ACTIVE row
    has a live user at every point of every run, and every interrupted deletion
    leaves a RELEASE_PENDING row for the batch to find. */
module IdentityDeletion {
  import opened IdentityTables
  import opened IdentityProtocol
  import opened IdentitySafety

  /** If the step writes ACTIVE back, the user lives and no deleter of it stands
      between its mark and its shard delete. */
  ghost predicate RestoresSafely(s: State, ev: Event) {
    ev.Step? && ev.p in s.procs && s.procs[ev.p].Restoring?
    && Hits(s.rows, s.procs[ev.p].email, s.procs[ev.p].userId, {ReleasePending}) ==>
      && Live(s, s.procs[ev.p].userId)
      && forall q :: q in s.procs && s.procs[q].Erasing? ==> s.procs[q].c.userId != s.procs[ev.p].userId
  }

  ghost predicate SafelyRestoring(s: State, evs: seq<Event>)
    decreases |evs|
  {
    evs == [] || (RestoresSafely(s, evs[0]) && (Enabled(s, evs[0]) ==> SafelyRestoring(Apply(s, evs[0]), evs[1..])))
  }

  /** A row left behind by a deleted user is RELEASE_PENDING. */
  ghost predicate Traceable(s: State) {
    forall e :: e in s.rows && s.rows[e].userId in s.births && !Live(s, s.rows[e].userId) ==>
      s.rows[e].status == ReleasePending
  }

  /** A user about to be deleted has a marked row. */
  ghost predicate MarkedFirst(s: State) {
    forall p :: p in s.procs && s.procs[p].Erasing? && Live(s, s.procs[p].c.userId) ==>
      Hits(s.rows, s.procs[p].c.email, s.procs[p].c.userId, {ReleasePending})
  }

  /** What deletion owes at every point. */
  ghost predicate DeletionFacts(s: State) {
    Traceable(s) && MarkedFirst(s)
  }

  ghost predicate FactsThroughout(s: State, evs: seq<Event>)
    decreases |evs|
  {
    DeletionFacts(s) && (evs != [] && Enabled(s, evs[0]) ==> FactsThroughout(Apply(s, evs[0]), evs[1..]))
  }

  lemma StepKeepsFacts(s: State, ev: Event)
    requires Inv(s) && DeletionFacts(s) && Enabled(s, ev) && RestoresSafely(s, ev)
    ensures DeletionFacts(Apply(s, ev))
  {
    if ev.Step? {
      var p := ev.p;
      if s.procs[p].Creator() { CreatorKeeps(s, p); }
      else if s.procs[p].Deleter() { DeleterKeeps(s, p); }
      else if s.procs[p].Writer() { WriterKeeps(s, p); }
      else { LookerKeeps(s, p); }
    }
  }

  lemma CreatorKeeps(s: State, p: Pid)
    requires BirthsOk(s) && RowsOk(s) && UsersOk(s) && ProcsOk(s) && DeletionFacts(s)
    requires p in s.procs && s.procs[p].Creator()
    ensures DeletionFacts(CreatorStep(s, p, s.procs[p]))
  {
    match s.procs[p]
    case Inserting(_, _) => InserterKeeps(s, p);
    case Writing(_, _) => CommitterKeeps(s, p);
    case Releasing(_) => ReleaserKeeps(s, p);
    case Activating(_) => ReleaserKeeps(s, p);
    case _ => StarterKeeps(s, p);
  }

  lemma StarterKeeps(s: State, p: Pid)
    requires BirthsOk(s) && UsersOk(s) && ProcsOk(s) && DeletionFacts(s)
    requires p in s.procs && (s.procs[p].Reserving? || s.procs[p].Stamping?)
    ensures DeletionFacts(CreatorStep(s, p, s.procs[p]))
  {
    assert ProcOk(s, s.procs[p]);
  }

  lemma InserterKeeps(s: State, p: Pid)
    requires BirthsOk(s) && UsersOk(s) && ProcsOk(s) && DeletionFacts(s)
    requires p in s.procs && s.procs[p].Inserting?
    ensures DeletionFacts(CreatorStep(s, p, s.procs[p]))
  {
    assert ProcOk(s, s.procs[p]);
  }

  lemma CommitterKeeps(s: State, p: Pid)
    requires BirthsOk(s) && UsersOk(s) && ProcsOk(s) && DeletionFacts(s)
    requires p in s.procs && s.procs[p].Writing?
    ensures DeletionFacts(CreatorStep(s, p, s.procs[p]))
  {
    var t := CreatorStep(s, p, s.procs[p]);
    assert forall u :: u in s.births ==> (Live(t, u) <==> Live(s, u));
  }

  lemma ReleaserKeeps(s: State, p: Pid)
    requires BirthsOk(s) && RowsOk(s) && UsersOk(s) && ProcsOk(s) && DeletionFacts(s)
    requires p in s.procs && (s.procs[p].Releasing? || s.procs[p].Activating?)
    ensures DeletionFacts(CreatorStep(s, p, s.procs[p]))
  {
    assert ProcOk(s, s.procs[p]);
    var t := CreatorStep(s, p, s.procs[p]);
    assert forall u :: Live(t, u) <==> Live(s, u);
  }

  lemma DeleterKeeps(s: State, p: Pid)
    requires BirthsOk(s) && RowsOk(s) && UsersOk(s) && ProcsOk(s) && DeletionFacts(s)
    requires p in s.procs && s.procs[p].Deleter()
    ensures DeletionFacts(DeleterStep(s, p, s.procs[p]))
  {
    if s.procs[p].Erasing? {
      EraserKeeps(s, p);
    } else {
      var t := DeleterStep(s, p, s.procs[p]);
      assert forall u :: Live(t, u) <==> Live(s, u);
    }
  }

  lemma EraserKeeps(s: State, p: Pid)
    requires BirthsOk(s) && RowsOk(s) && UsersOk(s) && ProcsOk(s) && DeletionFacts(s)
    requires p in s.procs && s.procs[p].Erasing?
    ensures DeletionFacts(DeleterStep(s, p, s.procs[p]))
  {
    var t := DeleterStep(s, p, s.procs[p]);
    assert forall u :: u in s.births && u != s.procs[p].c.userId ==> (Live(t, u) <==> Live(s, u));
  }

  lemma WriterKeeps(s: State, p: Pid)
    requires BirthsOk(s) && RowsOk(s) && UsersOk(s) && ProcsOk(s) && DeletionFacts(s)
    requires p in s.procs && s.procs[p].Writer() && RestoresSafely(s, Step(p))
    ensures DeletionFacts(ReaderStep(s, p, s.procs[p]))
  {
    var t := ReaderStep(s, p, s.procs[p]);
    assert forall u :: Live(t, u) <==> Live(s, u);
  }

  lemma LookerKeeps(s: State, p: Pid)
    requires DeletionFacts(s)
    requires p in s.procs && !s.procs[p].Creator() && !s.procs[p].Deleter() && !s.procs[p].Writer()
    ensures DeletionFacts(ReaderStep(s, p, s.procs[p]))
  {
    var t := ReaderStep(s, p, s.procs[p]);
    assert forall u :: Live(t, u) <==> Live(s, u);
  }

  // ----- over whole runs --------------------------------------------------------------

  lemma StepKeepsFactsIff(s: State, ev: Event)
    requires Inv(s) && DeletionFacts(s) && Enabled(s, ev)
    ensures DeletionFacts(Apply(s, ev)) <==> RestoresSafely(s, ev)
  {
    if RestoresSafely(s, ev) {
      StepKeepsFacts(s, ev);
    } else {
      RestoreIsSafeIff(s, ev.p, s.procs[ev.p].email, s.procs[ev.p].userId);
    }
  }

  /** The deletion facts hold at every point of a run if and only if each of its
      restores meets a live user that no deleter is about to delete. */
  lemma {:induction false} FactsHoldIff(s: State, evs: seq<Event>, t: State)
    requires Inv(s) && DeletionFacts(s) && Run(s, evs, t) && ShelteredRun(s, evs)
    ensures FactsThroughout(s, evs) <==> SafelyRestoring(s, evs)
    ensures SafelyRestoring(s, evs) ==> DeletionFacts(t)
    decreases |evs|
  {
    if evs != [] {
      var next := Apply(s, evs[0]);
      StepKeepsInv(s, evs[0]);
      StepKeepsFactsIff(s, evs[0]);
      if DeletionFacts(next) {
        FactsHoldIff(next, evs[1..], t);
      } else {
        assert !FactsThroughout(next, evs[1..]);
      }
    }
  }

  /** The main result on deletion. */
  lemma InterruptedDeletionsAreDiscoverable(s0: State, evs: seq<Event>, t: State)
    requires Initial(s0) && Run(s0, evs, t) && ShelteredRun(s0, evs) && SafelyRestoring(s0, evs)
    ensures ActiveIsLive(t.rows, t.users)
    // whatever calls were lost on the way, a row whose user is gone is RELEASE_PENDING
    ensures forall e :: e in t.rows && t.rows[e].userId in t.births && !Lives(t.users, ClaimOf(e, t.rows[e])) ==>
              t.rows[e].status == ReleasePending
  {
    ShelteredRunsKeepInv(s0, evs, t);
    FactsHoldIff(s0, evs, t);
    forall e | e in t.rows && t.rows[e].userId in t.births
      ensures !Lives(t.users, ClaimOf(e, t.rows[e])) ==> t.rows[e].status == ReleasePending
    {
      assert RowOk(t, e, t.rows[e]);
    }
    assert forall e :: e in t.rows && t.rows[e].status == Active ==> RowOk(t, e, t.rows[e]);
  }

  // ----- a simpler proviso ------------------------------------------------------------

  /** No reconciler that saw the user is about to write ACTIVE back while a
      deleter stands between its mark and its shard delete. */
  ghost predicate Exclusive(s: State) {
    forall p, q :: p in s.procs && q in s.procs && s.procs[p].Restoring? && s.procs[q].Erasing? ==>
      s.procs[p].userId != s.procs[q].c.userId
  }

  ghost predicate ExclusiveRun(s: State, evs: seq<Event>)
    decreases |evs|
  {
    Exclusive(s) && (evs != [] && Enabled(s, evs[0]) ==> ExclusiveRun(Apply(s, evs[0]), evs[1..]))
  }

  /** Who is about to be restored still lives. */
  ghost predicate Witnessed(s: State) {
    forall p :: p in s.procs && s.procs[p].Restoring? ==> Live(s, s.procs[p].userId)
  }

  lemma OnlyEraseKills(s: State, ev: Event, u: Id)
    requires Inv(s) && Enabled(s, ev) && Live(s, u)
    requires ev.Step? && s.procs[ev.p].Erasing? ==> s.procs[ev.p].c.userId != u
    ensures Live(Apply(s, ev), u)
  {
    if ev.Step? { assert ProcOk(s, s.procs[ev.p]); }
  }

  /** p's step leaves the others where they were and does not end in a restore. */
  ghost predicate StartsNoRestore(s: State, t: State, p: Pid) {
    && (forall q :: q != p && q in t.procs ==> q in s.procs && t.procs[q] == s.procs[q])
    && (p in t.procs ==> !t.procs[p].Restoring?)
  }

  lemma CreatorsStartNoRestore(s: State, p: Pid)
    requires p in s.procs && s.procs[p].Creator()
    ensures StartsNoRestore(s, CreatorStep(s, p, s.procs[p]), p)
  {
  }

  lemma DeletersStartNoRestore(s: State, p: Pid)
    requires p in s.procs && s.procs[p].Deleter()
    ensures StartsNoRestore(s, DeleterStep(s, p, s.procs[p]), p)
  {
  }

  /** A restore is decided by a look that finds the user. */
  lemma LooksStartRestores(s: State, p: Pid)
    requires Inv(s) && p in s.procs && !s.procs[p].Creator() && !s.procs[p].Deleter()
    ensures var t := ReaderStep(s, p, s.procs[p]);
      || StartsNoRestore(s, t, p)
      || (StartsNoRestore(s, t.(procs := t.procs - {p}), p) && t.users == s.users && t.births == s.births
          && p in t.procs && t.procs[p].Restoring? && Live(t, t.procs[p].userId))
  {
    if s.procs[p].SawRelease? {
      var e, row := s.procs[p].email, s.procs[p].row;
      if Lives(s.users, ClaimOf(e, row)) { FoundIsBorn(s, ClaimOf(e, row)); }
    }
  }

  lemma StepKeepsWitnessed(s: State, ev: Event)
    requires Inv(s) && Witnessed(s) && Exclusive(s) && Enabled(s, ev)
    ensures Witnessed(Apply(s, ev))
  {
    var t := Apply(s, ev);
    if ev.Step? {
      if s.procs[ev.p].Creator() { CreatorsStartNoRestore(s, ev.p); }
      else if s.procs[ev.p].Deleter() { DeletersStartNoRestore(s, ev.p); }
      else { LooksStartRestores(s, ev.p); }
    }
    forall p | p in t.procs && t.procs[p].Restoring? && p in s.procs && t.procs[p] == s.procs[p]
      ensures Live(t, t.procs[p].userId)
    {
      OnlyEraseKills(s, ev, t.procs[p].userId);
    }
  }

  /** Runs without any overlap of the two restore safely. */
  lemma {:induction false} ExclusiveRunsRestoreSafely(s: State, evs: seq<Event>, t: State)
    requires Inv(s) && Witnessed(s) && Run(s, evs, t) && ShelteredRun(s, evs) && ExclusiveRun(s, evs)
    ensures SafelyRestoring(s, evs)
    decreases |evs|
  {
    if evs != [] {
      StepKeepsInv(s, evs[0]);
      StepKeepsWitnessed(s, evs[0]);
      ExclusiveRunsRestoreSafely(Apply(s, evs[0]), evs[1..], t);
    }
  }

  /** The proviso is exact: the reconciler's write-back keeps the deletion
      facts if and only if the user is still live and no deleter of that user is
      past its mark. */
  lemma RestoreIsSafeIff(s: State, p: Pid, e: Id, u: Id)
    requires Inv(s) && Traceable(s) && MarkedFirst(s)
    requires p in s.procs && s.procs[p] == Restoring(e, u) && Hits(s.rows, e, u, {ReleasePending})
    ensures Traceable(Apply(s, Step(p))) && MarkedFirst(Apply(s, Step(p)))
            <==> Live(s, u) && forall q :: q in s.procs && s.procs[q].Erasing? ==> s.procs[q].c.userId != u
  {
    var t := Apply(s, Step(p));
    assert forall v :: Live(t, v) <==> Live(s, v);
    assert RowOk(s, e, s.rows[e]) && e in t.rows && t.rows[e].status == Active;
    forall q | q in s.procs && s.procs[q].Erasing? && s.procs[q].c.userId == u && Live(s, u)
      ensures !MarkedFirst(t)
    {
      assert q in t.procs && t.procs[q] == s.procs[q];
      assert Born(s, s.procs[q].c);
    }
    if Live(s, u) && forall q :: q in s.procs && s.procs[q].Erasing? ==> s.procs[q].c.userId != u {
      assert MarkedFirst(t);
    }
  }
}
