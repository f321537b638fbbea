/**
 When a live job can run out of work.  A split task is split again only after a SAT claim has been
 entered for it although it has children; in every run without such a step work remains.
 */
module SecondSplits {
  import opened Wrappers
  import opened Cnf
  import opened Rows
  import opened CoordinatorTables
  import opened SearchSafety
  import opened SearchSteps
  import opened LeaseSafety
  import opened FrontierBudget
  import opened CoordinatorRuns
  import opened CoordinatorTheorems

  /** A task that a lease could be split on, now or once a check of it has ended. */
  predicate Searchable(task: Task) {
    !task.proofRequired && (task.state.READY? || task.state.LEASED? || task.state.VERIFYING_SAT?)
  }

  /** No task has been split twice, and none can be. */
  ghost predicate SplitOnce(db: Db) {
    forall t {:trigger Children(db, t)} {:trigger db.tasks[t]} :: t in db.tasks ==>
      |Children(db, t)| <= 2 && (Searchable(db.tasks[t]) ==> Children(db, t) == {})
  }

  /** The step enters a SAT claim for an unproved task that has children; nothing in the code tests for them. */
  ghost predicate ReopensSplit(s: System, e: Event) {
    e.Enter? && e.claim.m.manifest.SatModel? && SatClaimBound(s.db, e.claim) && e.claim.m.task in s.db.tasks &&
    !s.db.tasks[e.claim.m.task].proofRequired && Children(s.db, e.claim.m.task) != {}
  }

  // ----- blocks that make no task searchable -----

  ghost predicate Calm(tasks: map<Id, Task>, tasks': map<Id, Task>) {
    tasks'.Keys == tasks.Keys &&
    forall t :: t in tasks ==> tasks'[t].parent == tasks[t].parent && (Searchable(tasks'[t]) ==> Searchable(tasks[t]))
  }

  lemma CalmKeeps(db: Db, db': Db)
    requires SplitOnce(db) && Calm(db.tasks, db'.tasks)
    ensures SplitOnce(db')
  {
    forall t | t in db'.tasks
      ensures |Children(db', t)| <= 2 && (Searchable(db'.tasks[t]) ==> Children(db', t) == {})
    {
      assert Children(db', t) == Children(db, t);
    }
  }

  lemma CalmTransitive(a: map<Id, Task>, b: map<Id, Task>, c: map<Id, Task>)
    requires Calm(a, b) && Calm(b, c)
    ensures Calm(a, c)
  {
  }

  lemma ReleasedCalm(tasks: map<Id, Task>, leases: map<Id, Lease>, ended: set<Id>, leasedOnly: bool)
    requires leasedOnly || HeldIsLeased(tasks)
    ensures Calm(tasks, ReleasedTasks(tasks, leases, ended, leasedOnly))
  {
  }

  lemma {:induction false} RemapCalm(db: Db, existing: seq<Id>, slots: seq<Id>, claimed: set<Id>)
    requires HeldIsLeased(db.tasks) && forall l :: l in existing ==> l in db.leases
    ensures Calm(db.tasks, RemapSlots(db, existing, slots, claimed).tasks)
    decreases |existing|
  {
    if existing != [] {
      var l := existing[0];
      match ChooseSlot(db.leases[l].slot, slots, claimed)
      case None =>
        var next := EndLeases(db, {l}, YIELDED, false, KEEP_PERMITS);
        ReleasedCalm(db.tasks, db.leases, {l}, false);
        ReleasedShrink(db.tasks, db.leases, {l}, false);
        RemapCalm(next, existing[1..], slots, claimed);
        CalmTransitive(db.tasks, next.tasks, RemapSlots(next, existing[1..], slots, claimed).tasks);
      case Some(slot) => RemapCalm(MoveLease(db, l, slot), existing[1..], slots, claimed + {slot});
    }
  }

  lemma HelloCalm(db: Db, session: Id, slots: seq<Id>, proofGeneration: bool, now: nat)
    requires HeldIsLeased(db.tasks)
    ensures Calm(db.tasks, Hello(db, session, slots, proofGeneration, now).tasks)
  {
    var profiled := db.(proofCapable := if proofGeneration then db.proofCapable + {session} else db.proofCapable - {session});
    var existing := LeasesBy(db, session) * Busy(db, now);
    SortedIsOrdered(existing, IssueOrder(db));
    RemapCalm(profiled, Sorted(existing, IssueOrder(db)), slots, {});
  }

  lemma LeaseWorkCalm(db: Db, session: Id, slot: Id, now: nat, lease: Id)
    ensures Calm(db.tasks, LeaseWork(db, session, slot, now, lease).tasks)
  {
  }

  lemma {:induction false} PropagateCalm(db: Db, parent: Option<Id>)
    requires TreeShaped(db.tasks) && (parent.Some? ==> parent.value in db.tasks)
    ensures Calm(db.tasks, Propagate(db, parent).0.tasks)
    decreases if parent.Some? then 1 + db.tasks[parent.value].depth else 0
  {
    if parent.Some? && Covered(db, parent.value) {
      var p := parent.value;
      var state := TaskStateOf(CoverageOf(db, p));
      var certified := SetTask(db, p, db.tasks[p].(state := state));
      StateKeepsTree(db.tasks, p, state);
      CertifiedCalm(db.tasks, p, state);
      if p == ROOT {
        CancelOpenCalm(certified.tasks);
        CalmTransitive(db.tasks, certified.tasks, CancelOpenTasks(certified.tasks));
      } else {
        PropagateCalm(certified, db.tasks[p].parent);
        CalmTransitive(db.tasks, certified.tasks, Propagate(certified, db.tasks[p].parent).0.tasks);
      }
    } else if parent.None? {
      CancelOpenCalm(db.tasks);
    }
  }

  lemma CertifiedCalm(tasks: map<Id, Task>, p: Id, state: TaskState)
    requires p in tasks && (state.UNSAT_CERTIFIED? || state.UNSAT_OWNER_VERIFIED?)
    ensures Calm(tasks, tasks[p := tasks[p].(state := state)])
  {
  }

  lemma CancelOpenCalm(tasks: map<Id, Task>)
    ensures Calm(tasks, CancelOpenTasks(tasks))
  {
  }

  lemma CertifyCalm(db: Db, t: Id, artifact: Id, v: Terminal, status: ProofStatus)
    requires TreeShaped(db.tasks) && t in db.tasks
    ensures (CertifyKeepsTree(db, t, artifact, v, status);
             Calm(db.tasks, Propagate(CertifyTask(db, t, artifact, v, status), db.tasks[t].parent).0.tasks))
  {
    var certified := CertifyTask(db, t, artifact, v, status);
    CertifyKeepsTree(db, t, artifact, v, status);
    PropagateCalm(certified, db.tasks[t].parent);
    CalmTransitive(db.tasks, certified.tasks, Propagate(certified, db.tasks[t].parent).0.tasks);
  }

  lemma QuarantineCalm(db: Db, session: Id)
    ensures Calm(db.tasks, Quarantine(db, session).tasks)
  {
    ReleasedCalm(db.tasks, db.leases, LeasesBy(db.(quarantined := db.quarantined + {session}), session), true);
  }

  lemma FinishSatCalm(db: Db, c: Claim, verdict: SatVerdict, now: nat)
    requires c.m.task in db.tasks
    ensures Calm(db.tasks, FinishSat(db, c, verdict, now).tasks)
  {
    var reopened := Reopen(db, c.m.task);
    ReopenCalm(db, c.m.task);
    match verdict {
      case VALID_SAT => ClosingCalm(db, c.m.task);
      case INVALID_FORMULA => ClosingCalm(db, c.m.task);
      case VERIFICATION_TIMEOUT =>
      case INVALID_MODEL =>
        QuarantineCalm(reopened, c.session);
        CalmTransitive(db.tasks, reopened.tasks, Quarantine(reopened, c.session).tasks);
    }
  }

  lemma ReopenCalm(db: Db, t: Id)
    requires t in db.tasks
    ensures Calm(db.tasks, Reopen(db, t).tasks)
  {
  }

  lemma ClosingCalm(db: Db, winner: Id)
    ensures Calm(db.tasks, CloseSat(db, winner).tasks) && Calm(db.tasks, CloseInvalid(db).tasks)
  {
  }

  lemma FinishUnsatCalm(db: Db, c: Claim, verdict: UnsatVerdict, now: nat)
    requires TreeShaped(db.tasks) && c.m.task in db.tasks && c.m.manifest.UnsatProof?
    ensures Calm(db.tasks, FinishUnsat(db, c, verdict, now).0.tasks)
  {
    SettleUnsatCalm(db, c, verdict);
  }

  lemma SettleUnsatCalm(db: Db, c: Claim, verdict: UnsatVerdict)
    requires TreeShaped(db.tasks) && c.m.task in db.tasks && c.m.manifest.UnsatProof?
    ensures Calm(db.tasks, SettleUnsat(db, c, verdict).0.tasks)
  {
    var t, artifact := c.m.task, c.m.manifest.artifact;
    match verdict {
      case VALID_UNSAT => CertifyCalm(db, t, artifact, CERTIFIED, SERVER_CERTIFIED);
      case INVALID_FORMULA => ClosingCalm(db, t);
      case INVALID_PROOF => RequeueCalm(db, t, artifact, c.session);
      case VERIFICATION_TIMEOUT => RequeueCalm(db, t, artifact, c.session);
      case OWNER_CHECK_REQUIRED =>
    }
  }

  lemma RequeueCalm(db: Db, t: Id, artifact: Id, session: Id)
    requires t in db.tasks
    ensures Calm(db.tasks, RetryProof(db, t).tasks) && Calm(db.tasks, Quarantine(RejectProof(db, t, artifact), session).tasks)
  {
    var rejected := RejectProof(db, t, artifact);
    QuarantineCalm(rejected, session);
    CalmTransitive(db.tasks, rejected.tasks, Quarantine(rejected, session).tasks);
  }

  lemma ConfirmCalm(db: Db, artifact: Id, sha256: Id)
    requires TreeShaped(db.tasks) && (artifact in db.proofs ==> db.proofs[artifact].task in db.tasks)
    ensures Calm(db.tasks, ConfirmOwner(db, artifact, sha256).0.tasks)
  {
    if artifact in db.proofs && db.proofs[artifact].status.OWNER_CHECK_REQUIRED? && db.proofs[artifact].sha256 == sha256 {
      var t := db.proofs[artifact].task;
      CertifyCalm(db, t, artifact, OWNER_CHECKED, OWNER_VERIFIED);
      CertifyKeepsTree(db, t, artifact, OWNER_CHECKED, OWNER_VERIFIED);
      PropagateCalm(SetProofStatus(db, artifact, OWNER_VERIFIED), db.tasks[t].parent);
    }
  }

  lemma YieldCalm(db: Db, session: Id, m: YieldMessage, now: nat)
    requires HeldIsLeased(db.tasks)
    ensures Calm(db.tasks, YieldTask(db, session, m, now).0.tasks)
  {
    ReleasedCalm(db.tasks, db.leases, {m.lease}, false);
  }

  /** Events of the first half: sessions, dispatch and leases. */
  lemma SessionCalm(s: System, step: Timed)
    requires Runnable(s.db, step.event) && HeldIsLeased(s.db.tasks)
    requires var e := step.event;
      e.Connect? || e.Dispatch? || e.Undelivered? || e.OfferSplits? || e.Beat? || e.RequestYield? || e.AlarmFired? || e.ClientStopped?
    ensures Calm(s.db.tasks, Act(s, step.event, step.now).db.tasks)
  {
    var db, now := s.db, step.now;
    match step.event {
      case Connect(session, slots, proofGeneration) => HelloCalm(db, session, slots, proofGeneration, now);
      case Dispatch(session, slot, lease) => LeaseWorkCalm(db, session, slot, now, lease);
      case Undelivered(lease) => ReleasedCalm(db.tasks, db.leases, {lease}, false);
      case OfferSplits(sockets, ids, undelivered) => IssuePermitsLeavesSearch(db, sockets, ids, undelivered, now);
      case Beat(session, progress) => HeartbeatLeavesSearch(db, session, progress, now);
      case RequestYield(session, m) => YieldCalm(db, session, m, now);
      case AlarmFired => ReleasedCalm(db.tasks, db.leases, (set l | l in AlarmBatch(db, now)), false);
      case ClientStopped(session) => ReleasedCalm(db.tasks, db.leases, LeasesBy(db, session), false);
      case _ =>
    }
  }

  lemma ProofClaimCalm(db: Db, c: Claim)
    requires c.m.task in db.tasks
    ensures Calm(db.tasks, EnterCandidate(db, c).0.tasks) && Calm(db.tasks, EnterProof(db, c).tasks)
  {
  }

  lemma EnterClaimCalm(s: System, c: Claim)
    requires c.m.task in s.db.tasks && !c.m.manifest.SatModel?
    ensures Calm(s.db.tasks, EnterClaim(s, c).db.tasks)
  {
    ProofClaimCalm(s.db, c);
  }

  lemma CancelCalm(db: Db)
    ensures Calm(db.tasks, Cancel(db).tasks)
  {
  }

  /** All other events but an accepted split and the entry of a SAT claim. */
  lemma ResultCalm(s: System, step: Timed)
    requires Runnable(s.db, step.event)
    requires var e := step.event;
      e.FormulaStored? || e.HelloArrives? || e.Report? || e.SatChecked? || e.ProofChecked? || e.OwnerConfirmed? ||
      e.OwnerCancelled? || e.ProofArrives? || e.ProofStored? || (e.Enter? && !e.claim.m.manifest.SatModel?)
    ensures Calm(s.db.tasks, Act(s, step.event, step.now).db.tasks)
  {
    match step.event {
      case Enter(c) => EnterClaimCalm(s, c);
      case OwnerCancelled => CancelCalm(s.db);
      case SatChecked(c, v) => FinishSatCalm(s.db, c, v, step.now);
      case ProofChecked(c, v) => FinishUnsatCalm(s.db, c, v, step.now);
      case OwnerConfirmed(artifact, sha256) => ConfirmCalm(s.db, artifact, sha256);
      case _ =>
    }
  }

  // ----- the two that are not calm -----

  lemma DividedOnce(db: Db, db': Db, t: Id, positive: Id, negative: Id)
    requires SplitOnce(db) && TreeShaped(db.tasks) && GrownAt(db.tasks, db'.tasks, t, positive, negative)
    requires Searchable(db.tasks[t])
    ensures SplitOnce(db')
  {
    forall k | k in db'.tasks
      ensures |Children(db', k)| <= 2 && (Searchable(db'.tasks[k]) ==> Children(db', k) == {})
    {
      DividedChildren(db, db', t, positive, negative, k);
    }
  }

  lemma DividedChildren(db: Db, db': Db, t: Id, positive: Id, negative: Id, k: Id)
    requires TreeShaped(db.tasks) && GrownAt(db.tasks, db'.tasks, t, positive, negative) && k in db'.tasks
    ensures Children(db', k) == Children(db, k) + if k == t then {positive, negative} else {}
    ensures k !in db.tasks ==> Children(db, k) == {}
  {
    assert forall c :: c in db.tasks && db.tasks[c].parent.Some? ==> Below(db.tasks, c);
  }

  lemma SplitTaskOnce(db: Db, session: Id, m: SplitMessage, now: nat, connectedSlots: nat, positive: Id, negative: Id)
    requires SplitOnce(db) && TreeShaped(db.tasks)
    requires positive !in db.tasks && negative !in db.tasks && positive != negative
    ensures SplitOnce(SplitTask(db, session, m, now, connectedSlots, positive, negative).0)
  {
    var db' := SplitTask(db, session, m, now, connectedSlots, positive, negative).0;
    if SplitAccepted(db, session, m, now, connectedSlots) {
      DividedOnce(db, Divide(db, session, m, now, positive, negative), m.task, positive, negative);
    } else {
      CalmKeeps(db, db');
    }
  }

  lemma EnterSatOnce(db: Db, c: Claim)
    requires SplitOnce(db) && c.m.task in db.tasks
    ensures SplitOnce(EnterSat(db, c)) <==> db.tasks[c.m.task].proofRequired || Children(db, c.m.task) == {}
  {
    var db', t := EnterSat(db, c), c.m.task;
    forall k ensures Children(db', k) == Children(db, k) {
    }
    if db.tasks[t].proofRequired || Children(db, t) == {} {
      forall k | k in db'.tasks
        ensures |Children(db', k)| <= 2 && (Searchable(db'.tasks[k]) ==> Children(db', k) == {})
      {
        assert |Children(db, k)| <= 2;
      }
    } else {
      assert Searchable(db'.tasks[t]) && Children(db', t) != {};
    }
  }

  // ----- steps and runs -----

  /** A step leaves every task split at most once if and only if it does not enter a SAT claim for a task with children. */
  lemma StepSplitsOnce(f: Formula, s: System, step: Timed)
    requires TreeShaped(s.db.tasks) && HeldIsLeased(s.db.tasks)
    requires Enabled(f, s, step) && Runnable(s.db, step.event) && SplitOnce(s.db)
    ensures SplitOnce(Step(s, step).db) <==> !ReopensSplit(s, step.event)
  {
    var e, db' := step.event, Act(s, step.event, step.now).db;
    if e.RequestSplit? {
      SplitTaskOnce(s.db, e.session, e.split, step.now, e.connectedSlots, e.positive, e.negative);
    } else if e.Enter? && e.claim.m.manifest.SatModel? {
      EnterSatOnce(s.db, e.claim);
    } else {
      if e.Connect? || e.Dispatch? || e.Undelivered? || e.OfferSplits? || e.Beat? || e.RequestYield? || e.AlarmFired? || e.ClientStopped? {
        SessionCalm(s, step);
      } else {
        ResultCalm(s, step);
      }
      CalmKeeps(s.db, db');
    }
  }

  lemma StartsSplitOnce(s: System)
    requires Starts(s)
    ensures SplitOnce(s.db)
  {
    forall t | t in s.db.tasks
      ensures Children(s.db, t) == {}
    {
    }
  }

  lemma {:induction false} RunSplitsOnce(f: Formula, trace: seq<System>, steps: seq<Timed>, i: nat)
    requires Run(f, trace, steps) && i < |trace|
    requires forall k :: 0 <= k < i ==> !ReopensSplit(trace[k], steps[k].event)
    ensures SplitOnce(trace[i].db)
  {
    if i == 0 {
      StartsSplitOnce(trace[i]);
    } else {
      var k: nat := i - 1;
      RunSplitsOnce(f, trace, steps, k);
      NextSplitsOnce(f, trace, steps, k, i);
    }
  }

  /** A run splits no task twice, up to any state, if and only if no step until then enters such a claim. */
  lemma SplitsStayOnce(f: Formula, trace: seq<System>, steps: seq<Timed>, i: nat)
    requires Run(f, trace, steps) && i < |trace|
    ensures (forall m :: 0 <= m <= i ==> SplitOnce(trace[m].db)) <==>
            (forall k :: 0 <= k < i ==> !ReopensSplit(trace[k], steps[k].event))
  {
    if forall k :: 0 <= k < i ==> !ReopensSplit(trace[k], steps[k].event) {
      forall m | 0 <= m <= i ensures SplitOnce(trace[m].db) {
        RunSplitsOnce(f, trace, steps, m);
      }
    }
    if forall m :: 0 <= m <= i ==> SplitOnce(trace[m].db) {
      forall k | 0 <= k < i ensures !ReopensSplit(trace[k], steps[k].event) {
        NextSplitsOnce(f, trace, steps, k, k + 1);
      }
    }
  }

  lemma NextSplitsOnce(f: Formula, trace: seq<System>, steps: seq<Timed>, k: nat, i: nat)
    requires Run(f, trace, steps) && k + 1 == i < |trace| && SplitOnce(trace[k].db)
    ensures SplitOnce(trace[i].db) <==> !ReopensSplit(trace[k], steps[k].event)
  {
    RunKeepsTree(f, trace, steps, k);
    assert Follows(f, trace[k], steps[k], trace[k + 1]);
    FollowsSplitsOnce(f, trace[k], steps[k], trace[i]);
  }

  lemma FollowsSplitsOnce(f: Formula, s: System, step: Timed, s': System)
    requires TreeShaped(s.db.tasks) && HeldIsLeased(s.db.tasks) && SplitOnce(s.db) && Follows(f, s, step, s')
    ensures SplitOnce(s'.db) <==> !ReopensSplit(s, step.event)
  {
    StepSplitsOnce(f, s, step);
  }

  lemma RunKeepsTree(f: Formula, trace: seq<System>, steps: seq<Timed>, k: nat)
    requires Run(f, trace, steps) && k < |trace|
    ensures TreeShaped(trace[k].db.tasks) && HeldIsLeased(trace[k].db.tasks)
  {
    RunInvariant(f, false, trace, steps, k);
  }

  /** A live job never runs out of work in a run that enters no SAT claim for a task with children. */
  lemma WorkRemainsUnlessReopened(f: Formula, trace: seq<System>, steps: seq<Timed>, i: nat)
    requires Run(f, trace, steps) && i < |trace| && Live(trace[i].db.job)
    requires forall k :: 0 <= k < i ==> !ReopensSplit(trace[k], steps[k].event)
    ensures exists t :: t in trace[i].db.tasks && trace[i].db.tasks[t].Open()
  {
    RunSplitsOnce(f, trace, steps, i);
    WorkRemains(f, trace, steps, i);
    assert forall p :: p in trace[i].db.tasks ==> |Children(trace[i].db, p)| <= 2;
  }
}
