/** What holds in every run of the coordinator, whatever the browsers and the owner do. */
module CoordinatorTheorems {
  import opened Wrappers
  import opened Cnf
  import opened Rows
  import opened CoordinatorTables
  import opened SearchSafety
  import opened SearchSteps
  import opened LeaseSafety
  import opened LeaseSteps
  import opened Exclusivity
  import opened FrontierBudget
  import opened ProofBudget
  import opened CoordinatorRuns

  ghost predicate Follows(f: Formula, s: System, step: Timed, s': System) {
    Enabled(f, s, step) && Runnable(s.db, step.event) && s' == Step(s, step)
  }

  ghost predicate Starts(s: System) {
    exists formulaHash, variableCount, createdAt, expiresAt ::
      s == Start(formulaHash, variableCount, createdAt, expiresAt)
  }

  /** A run of a coordinator for formula `f`: `trace[i]` is the state before step `i`. */
  ghost predicate Run(f: Formula, trace: seq<System>, steps: seq<Timed>) {
    |trace| == |steps| + 1 && Starts(trace[0]) &&
    forall i {:trigger Follows(f, trace[i], steps[i], trace[i + 1])} ::
      0 <= i < |steps| ==> Follows(f, trace[i], steps[i], trace[i + 1])
  }

  ghost predicate HonestRun(f: Formula, trace: seq<System>, steps: seq<Timed>)
    requires |trace| == |steps| + 1
  {
    forall i {:trigger HonestOwner(f, trace[i], steps[i].event)} :: 0 <= i < |steps| ==> HonestOwner(f, trace[i], steps[i].event)
  }

  lemma StartSearch(f: Formula, trustOwner: bool, formulaHash: Id, variableCount: nat, createdAt: nat, expiresAt: nat)
    ensures SearchInv(f, trustOwner, Initial(formulaHash, variableCount, createdAt, expiresAt))
  {
  }

  lemma StartRecords(formulaHash: Id, variableCount: nat, createdAt: nat, expiresAt: nat)
    ensures RecordsOk(Initial(formulaHash, variableCount, createdAt, expiresAt))
  {
    var db := Initial(formulaHash, variableCount, createdAt, expiresAt);
    assert SplitLeases(db) == {} && ConsumedPermits(db) == {};
    assert |db.tasks| == |db.tasks.Keys| && db.tasks.Keys == {ROOT};
  }

  lemma StartDemand(formulaHash: Id, variableCount: nat, createdAt: nat, expiresAt: nat)
    ensures Demand(Initial(formulaHash, variableCount, createdAt, expiresAt), createdAt) <= 1
  {
    var db := Initial(formulaHash, variableCount, createdAt, expiresAt);
    SubsetSize(Frontier(db.tasks), {ROOT});
    assert Outstanding(db.permits, createdAt) == {};
  }

  lemma StartInvariant(f: Formula, trustOwner: bool, s: System)
    requires Starts(s)
    ensures Invariant(f, trustOwner, s)
  {
    var formulaHash, variableCount, createdAt, expiresAt :| s == Start(formulaHash, variableCount, createdAt, expiresAt);
    StartSearch(f, trustOwner, formulaHash, variableCount, createdAt, expiresAt);
    StartRecords(formulaHash, variableCount, createdAt, expiresAt);
    StartDemand(formulaHash, variableCount, createdAt, expiresAt);
  }

  lemma {:induction false} RunInvariant(f: Formula, trustOwner: bool, trace: seq<System>, steps: seq<Timed>, i: nat)
    requires Run(f, trace, steps) && i < |trace|
    requires trustOwner ==> HonestRun(f, trace, steps)
    ensures Invariant(f, trustOwner, trace[i])
  {
    if i == 0 {
      StartInvariant(f, trustOwner, trace[0]);
    } else {
      var k: nat := i - 1;
      RunInvariant(f, trustOwner, trace, steps, k);
      StepBetween(f, trustOwner, trace, steps, k, i);
      SuccessorKeeps(f, trustOwner, trace[k], trace[i]);
    }
  }

  ghost predicate Successor(f: Formula, trustOwner: bool, s: System, s': System) {
    exists step :: Follows(f, s, step, s') && (trustOwner ==> HonestOwner(f, s, step.event))
  }

  lemma StepBetween(f: Formula, trustOwner: bool, trace: seq<System>, steps: seq<Timed>, k: nat, i: nat)
    requires Run(f, trace, steps) && k + 1 == i < |trace| && (trustOwner ==> HonestRun(f, trace, steps))
    ensures Successor(f, trustOwner, trace[k], trace[i])
  {
    assert Follows(f, trace[k], steps[k], trace[k + 1]);
    assert trustOwner ==> HonestOwner(f, trace[k], steps[k].event);
  }

  lemma SuccessorKeeps(f: Formula, trustOwner: bool, s: System, s': System)
    requires Invariant(f, trustOwner, s) && Successor(f, trustOwner, s, s')
    ensures Invariant(f, trustOwner, s')
  {
    var step :| Follows(f, s, step, s') && (trustOwner ==> HonestOwner(f, s, step.event));
    StepKeeps(f, trustOwner, s, step);
  }

  /** No enabled event is ever shut out: a run can always be continued by it. */
  lemma RunsContinue(f: Formula, trace: seq<System>, steps: seq<Timed>, step: Timed)
    requires Run(f, trace, steps) && Enabled(f, trace[|steps|], step)
    ensures Runnable(trace[|steps|].db, step.event)
    ensures Run(f, trace + [Step(trace[|steps|], step)], steps + [step])
  {
    RunInvariant(f, false, trace, steps, |steps|);
    EnabledRunnable(f, trace[|steps|], step);
    RunGrows(f, trace, steps, step, Step(trace[|steps|], step));
  }

  lemma RunGrows(f: Formula, trace: seq<System>, steps: seq<Timed>, step: Timed, s': System)
    requires Run(f, trace, steps) && Follows(f, trace[|steps|], step, s')
    ensures Run(f, trace + [s'], steps + [step])
  {
    var trace', steps' := trace + [s'], steps + [step];
    forall i | 0 <= i < |steps'| ensures Follows(f, trace'[i], steps'[i], trace'[i + 1]) {
      assert i < |steps| ==> Follows(f, trace[i], steps[i], trace[i + 1]);
    }
  }

  // ----- verdicts -----

  /**
   Every published verdict and every verdict in the job row is true.  `UNSAT_CERTIFIED` and
   `SAT_VERIFIED` rest on no one's word; `UNSAT_OWNER_VERIFIED` rests on the owner's.
   */
  lemma VerdictsAreTrue(f: Formula, trace: seq<System>, steps: seq<Timed>, i: nat)
    requires Run(f, trace, steps) && i < |trace|
    ensures SAT in trace[i].published || trace[i].db.job.state.SAT_VERIFIED? ==> Satisfiable(f)
    ensures UNSAT(CERTIFIED) in trace[i].published || trace[i].db.job.state.UNSAT_CERTIFIED? ==> !Satisfiable(f)
    ensures HonestRun(f, trace, steps) ==>
      UNSAT(OWNER_CHECKED) in trace[i].published || trace[i].db.job.state.UNSAT_OWNER_VERIFIED? ==> !Satisfiable(f)
  {
    VerdictsHold(f, false, trace, steps, i);
    if HonestRun(f, trace, steps) {
      VerdictsHold(f, true, trace, steps, i);
    }
  }

  lemma VerdictsHold(f: Formula, trustOwner: bool, trace: seq<System>, steps: seq<Timed>, i: nat)
    requires Run(f, trace, steps) && i < |trace| && (trustOwner ==> HonestRun(f, trace, steps))
    ensures forall v :: v in trace[i].published ==> VerdictTrue(f, trustOwner, v)
    ensures trace[i].db.job.state.SAT_VERIFIED? ==> Satisfiable(f)
    ensures trace[i].db.job.state.UNSAT_CERTIFIED? ==> !Satisfiable(f)
    ensures trustOwner && trace[i].db.job.state.UNSAT_OWNER_VERIFIED? ==> !Satisfiable(f)
  {
    RunInvariant(f, trustOwner, trace, steps, i);
  }

  /** No run publishes both verdicts, early or late; nor do two runs on the same formula. */
  lemma VerdictsNeverConflict(f: Formula, trace: seq<System>, steps: seq<Timed>, trace': seq<System>, steps': seq<Timed>,
                              i: nat, j: nat)
    requires Run(f, trace, steps) && i < |trace| && Run(f, trace', steps') && j < |trace'|
    ensures !(SAT in trace[i].published && UNSAT(CERTIFIED) in trace'[j].published)
    ensures HonestRun(f, trace', steps') ==> !(SAT in trace[i].published && UNSAT(OWNER_CHECKED) in trace'[j].published)
  {
    VerdictsAreTrue(f, trace, steps, i);
    VerdictsAreTrue(f, trace', steps', j);
  }

  // ----- the search space -----

  /** From any task down to a task that was not split and still contains the assignment. */
  lemma {:induction false} FindHolder(db: Db, t: Id, a: Assignment) returns (leaf: Id)
    requires TreeShaped(db.tasks) && SplitsPaired(db.tasks) && CubesOk(db)
    requires t in db.tasks && CubeHolds(a, db.tasks[t].cube)
    ensures leaf in db.tasks && !db.tasks[leaf].state.SPLIT? && CubeHolds(a, db.tasks[leaf].cube)
    decreases MAX_CUBE_DEPTH - db.tasks[t].depth
  {
    assert CubeOk(db.tasks[t].cube, db.job.variableCount);
    if !db.tasks[t].state.SPLIT? {
      return t;
    }
    var x, y :| ChildPair(db.tasks, t, x, y);
    var cube := db.tasks[t].cube;
    var l := db.tasks[x].cube[|cube|];
    assert db.tasks[x].cube == cube + [l] && db.tasks[y].cube == cube + [-l];
    CubeHoldsAppend(a, cube, l);
    CubeHoldsAppend(a, cube, -l);
    ComplementsPartition(a, l);
    assert CubeOk(db.tasks[x].cube, db.job.variableCount) && CubeOk(db.tasks[y].cube, db.job.variableCount);
    leaf := FindHolder(db, if LiteralHolds(a, l) then x else y, a);
  }

  ghost predicate Held(db: Db, a: Assignment, t: Id) {
    t in db.tasks && CubeHolds(a, db.tasks[t].cube)
  }

  /** Until the job is closed every assignment lies in the cube of open or certified work. */
  lemma NoAssignmentIsLost(f: Formula, trace: seq<System>, steps: seq<Timed>, i: nat, a: Assignment)
    requires Run(f, trace, steps) && i < |trace| && Live(trace[i].db.job)
    ensures exists t :: Held(trace[i].db, a, t) && (trace[i].db.tasks[t].Open() || trace[i].db.tasks[t].Certified())
  {
    RunInvariant(f, false, trace, steps, i);
    var db := trace[i].db;
    assert db.tasks[ROOT].cube == [];
    var t := FindHolder(db, ROOT, a);
    assert Held(db, a, t);
  }

  /** Until the job is closed every model of the formula lies in work that is still open. */
  lemma NoModelIsLost(f: Formula, trace: seq<System>, steps: seq<Timed>, i: nat, a: Assignment)
    requires Run(f, trace, steps) && i < |trace| && Live(trace[i].db.job) && FormulaHolds(a, f)
    ensures exists t ::
      && Held(trace[i].db, a, t)
      && (trace[i].db.tasks[t].Open() || (trace[i].db.tasks[t].state.UNSAT_OWNER_VERIFIED? && !HonestRun(f, trace, steps)))
  {
    NoAssignmentIsLost(f, trace, steps, i, a);
    var honest := HonestRun(f, trace, steps);
    RunInvariant(f, honest, trace, steps, i);
    var t :| Held(trace[i].db, a, t) && (trace[i].db.tasks[t].Open() || trace[i].db.tasks[t].Certified());
    ModelIsNotRefuted(f, honest, trace[i].db, a, t);
  }

  lemma ModelIsNotRefuted(f: Formula, trustOwner: bool, db: Db, a: Assignment, t: Id)
    requires Truthful(f, trustOwner, db) && Held(db, a, t) && FormulaHolds(a, f)
    ensures !db.tasks[t].state.UNSAT_CERTIFIED? && (db.tasks[t].state.UNSAT_OWNER_VERIFIED? ==> !trustOwner)
  {
    assert TaskTrue(f, trustOwner, db.tasks[t]);
    assert Model(a, f, db.tasks[t].cube);
  }

  lemma UncertifiedChild(db: Db, t: Id) returns (c: Id)
    requires SplitsPaired(db.tasks) && t in db.tasks && db.tasks[t].state.SPLIT?
    requires |Children(db, t)| <= 2 && !Covered(db, t)
    ensures c in Children(db, t) && !db.tasks[c].Certified()
  {
    var x, y :| ChildPair(db.tasks, t, x, y);
    SubsetSize({x, y}, Children(db, t));
    if forall k :: k in Children(db, t) ==> db.tasks[k].Certified() {
      GenuinePairCovers(db, t);
    }
    c :| c in Children(db, t) && !db.tasks[c].Certified();
  }

  /** Every child is certified, but there are too many for the coverage check to accept. */
  ghost predicate Overfull(db: Db, p: Id) {
    p in db.tasks && db.tasks[p].state.SPLIT? && |Children(db, p)| > 2 &&
    forall c :: c in Children(db, p) ==> db.tasks[c].Certified()
  }

  /** From an uncertified task down to open work or to a task that was split more than once. */
  lemma {:induction false} FindOpen(db: Db, t: Id) returns (leaf: Id)
    requires TreeShaped(db.tasks) && SplitsPaired(db.tasks) && CubesOk(db)
    requires Live(db.job) && NothingAbandoned(db) && Eager(db)
    requires t in db.tasks && !db.tasks[t].Certified()
    ensures leaf in db.tasks && (db.tasks[leaf].Open() || Overfull(db, leaf))
    decreases MAX_CUBE_DEPTH - db.tasks[t].depth
  {
    assert CubeOk(db.tasks[t].cube, db.job.variableCount);
    if db.tasks[t].Open() || Overfull(db, t) {
      return t;
    }
    var c: Id;
    if |Children(db, t)| <= 2 {
      c := UncertifiedChild(db, t);
    } else {
      c :| c in Children(db, t) && !db.tasks[c].Certified();
    }
    assert Below(db.tasks, c) && CubeOk(db.tasks[c].cube, db.job.variableCount);
    leaf := FindOpen(db, c);
  }

  /** Propagation never waits: between any two steps every task split once has an uncertified child, and the root is uncertified. */
  lemma PropagationIsEager(f: Formula, trace: seq<System>, steps: seq<Timed>, i: nat, t: Id)
    requires Run(f, trace, steps) && i < |trace| && Live(trace[i].db.job)
    requires t in trace[i].db.tasks && trace[i].db.tasks[t].state.SPLIT? && |Children(trace[i].db, t)| == 2
    ensures exists c :: c in Children(trace[i].db, t) && !trace[i].db.tasks[c].Certified()
    ensures ROOT in trace[i].db.tasks && !trace[i].db.tasks[ROOT].Certified()
  {
    RunInvariant(f, false, trace, steps, i);
    var c := UncertifiedChild(trace[i].db, t);
  }

  /**
   A live job has an uncertified root and something left to lease, finish or check, unless some
   split task was split again and all its children, more than two, are certified.
   */
  lemma WorkRemains(f: Formula, trace: seq<System>, steps: seq<Timed>, i: nat)
    requires Run(f, trace, steps) && i < |trace| && Live(trace[i].db.job)
    ensures ROOT in trace[i].db.tasks && !trace[i].db.tasks[ROOT].Certified()
    ensures (exists t :: t in trace[i].db.tasks && trace[i].db.tasks[t].Open()) || (exists p :: Overfull(trace[i].db, p))
  {
    RunInvariant(f, false, trace, steps, i);
    var leaf := FindOpen(trace[i].db, ROOT);
  }

  // ----- records -----

  lemma StepEvolves(f: Formula, trace: seq<System>, steps: seq<Timed>, i: nat)
    requires Run(f, trace, steps) && i < |steps|
    ensures Evolves(trace[i].db, trace[i + 1].db)
  {
    RunInvariant(f, false, trace, steps, i);
    assert Follows(f, trace[i], steps[i], trace[i + 1]);
    ActRecords(f, trace[i], steps[i]);
  }

  lemma {:induction false} RunEvolves(f: Formula, trace: seq<System>, steps: seq<Timed>, i: nat, j: nat)
    requires Run(f, trace, steps) && i <= j < |trace|
    ensures Evolves(trace[i].db, trace[j].db)
  {
    if i < j {
      RunEvolves(f, trace, steps, i, j - 1);
      StepEvolves(f, trace, steps, j - 1);
      EvolvesTransitive(trace[i].db, trace[j - 1].db, trace[j].db);
    }
  }

  ghost predicate SplitsAt(s: System, step: Timed) {
    step.event.RequestSplit? &&
    SplitAccepted(s.db, step.event.session, step.event.split, step.now, step.event.connectedSlots)
  }

  /** Loss, duplication and replay cannot split a lease or spend a permit twice, at any distance. */
  lemma SplitsAreOnce(f: Formula, trace: seq<System>, steps: seq<Timed>, i: nat, j: nat)
    requires Run(f, trace, steps) && i < j < |steps|
    requires SplitsAt(trace[i], steps[i]) && SplitsAt(trace[j], steps[j])
    ensures steps[i].event.split.lease != steps[j].event.split.lease
    ensures steps[i].event.split.permit != steps[j].event.split.permit
  {
    assert Follows(f, trace[i], steps[i], trace[i + 1]);
    RunEvolves(f, trace, steps, i + 1, j);
    var m := steps[i].event.split;
    assert trace[i + 1].db.leases[m.lease].status.SPLIT?;
    assert trace[i + 1].db.permits[m.permit].status.CONSUMED?;
    assert LeaseEvolves(trace[i + 1].db.leases[m.lease], trace[j].db.leases[m.lease]);
    assert PermitEvolves(trace[i + 1].db.permits[m.permit], trace[j].db.permits[m.permit]);
  }

  /** An ended lease stays ended, a cube never changes, a deadline never moves back. */
  lemma RecordsArePermanent(f: Formula, trace: seq<System>, steps: seq<Timed>, i: nat, j: nat)
    requires Run(f, trace, steps) && i <= j < |trace|
    ensures forall l :: l in trace[i].db.leases ==>
      l in trace[j].db.leases &&
      (!trace[i].db.leases[l].status.ACTIVE? ==> trace[j].db.leases[l].status == trace[i].db.leases[l].status) &&
      trace[j].db.leases[l].expiresAt >= trace[i].db.leases[l].expiresAt &&
      trace[j].db.leases[l].lastActiveMs >= trace[i].db.leases[l].lastActiveMs
    ensures forall t :: t in trace[i].db.tasks ==>
      t in trace[j].db.tasks && trace[j].db.tasks[t].cube == trace[i].db.tasks[t].cube &&
      trace[j].db.tasks[t].parent == trace[i].db.tasks[t].parent
  {
    RunEvolves(f, trace, steps, i, j);
  }

  /** The conservation law of splitting, the depth bound, and the lease deadlines. */
  lemma RecordsAreConserved(f: Formula, trace: seq<System>, steps: seq<Timed>, i: nat)
    requires Run(f, trace, steps) && i < |trace|
    ensures var db := trace[i].db;
      && |db.tasks| == 1 + 2 * |SplitLeases(db)| == 1 + 2 * |ConsumedPermits(db)|
      && |db.tasks| <= 9_999
      && (forall t :: t in db.tasks ==> |db.tasks[t].cube| == db.tasks[t].depth && CubeOk(db.tasks[t].cube, db.job.variableCount))
      && (forall l :: l in db.leases ==> DeadlineOk(db.job, db.leases[l]))
  {
    RunInvariant(f, false, trace, steps, i);
  }

  /** Search work plus unexpired permits exceeds 16 only by SAT checks that ended without a verdict. */
  lemma FrontierIsBounded(f: Formula, trace: seq<System>, steps: seq<Timed>, i: nat)
    requires Run(f, trace, steps) && i < |trace|
    ensures |Frontier(trace[i].db.tasks)| + |Outstanding(trace[i].db.permits, trace[i].clock)| <= 16 + trace[i].inconclusive
  {
    RunInvariant(f, false, trace, steps, i);
  }

  /** Recorded proof bytes stay within 25 MiB and no stored proof object is orphaned. */
  lemma ProofsAreBudgeted(f: Formula, trace: seq<System>, steps: seq<Timed>, i: nat)
    requires Run(f, trace, steps) && i < |trace|
    ensures TotalBytes(trace[i].db.proofs) <= 25 * 1024 * 1024
    ensures ObjectsOwned(trace[i].db, UploadKeys(trace[i].uploads))
  {
    RunInvariant(f, false, trace, steps, i);
  }

  // ----- exclusivity -----

  ghost predicate FinishesSafely(s: System, e: Event) {
    e.ProofChecked? && e.claim.m.task in s.db.tasks ==> SafeToFinish(s.db, e.claim, e.unsatVerdict)
  }

  /** One step keeps exclusivity if and only if it is not an unsafe end of a proof check. */
  lemma StepExclusive(f: Formula, s: System, step: Timed)
    requires Enabled(f, s, step) && Runnable(s.db, step.event) && ExclusiveDb(s.db)
    ensures ExclusiveDb(Step(s, step).db) <==> FinishesSafely(s, step.event)
  {
    var db, now := s.db, step.now;
    match step.event {
      case Connect(session, slots, proofGeneration) => HelloExclusive(db, session, slots, proofGeneration, now);
      case Dispatch(session, slot, lease) => LeaseWorkExclusive(db, session, slot, now, lease);
      case Undelivered(lease) => EndLeasesExclusive(db.tasks, db.leases, {lease}, EXPIRED, false);
      case OfferSplits(sockets, ids, undelivered) =>
        IssuePermitsLeavesSearch(db, sockets, ids, undelivered, now);
        IssuePermitsHolding(db, sockets, ids, undelivered, now);
      case Beat(session, progress) =>
        HeartbeatLeavesSearch(db, session, progress, now);
        HeartbeatHolding(db, session, progress, now);
        SameHoldingExclusive(db.tasks, db.leases, Heartbeat(db, session, progress, now).leases);
      case RequestSplit(session, split, connectedSlots, positive, negative) =>
        if SplitAccepted(db, session, split, now, connectedSlots) {
          DivideExclusive(db, session, split, now, positive, negative);
        }
      case RequestYield(session, m) => EndLeasesExclusive(db.tasks, db.leases, {m.lease}, YIELDED, false);
      case Enter(c) => EnterExclusive(db, c);
      case SatChecked(c, v) => FinishSatExclusive(db, c, v, now);
      case ProofChecked(c, v) => FinishUnsatExclusive(db, c, v, now);
      case OwnerConfirmed(artifact, sha256) => ConfirmExclusive(db, artifact, sha256);
      case OwnerCancelled => CloseAllExclusive(db, ROOT);
      case AlarmFired => EndLeasesExclusive(db.tasks, db.leases, (set l | l in AlarmBatch(db, now)), EXPIRED, false);
      case ClientStopped(session) => EndLeasesExclusive(db.tasks, db.leases, LeasesBy(db, session), YIELDED, false);
      case _ =>
    }
  }

  lemma IssuePermitsHolding(db: Db, sockets: seq<Connection>, ids: map<Id, Id>, undelivered: set<Id>, now: nat)
    requires db.leases.Keys <= ids.Keys
    ensures IssuePermits(db, sockets, ids, undelivered, now).leases == db.leases
  {
    var db1 := CancelExpiredPermits(db, now);
    var connected := Connected(sockets, db.quarantined);
    var candidates := SplitCandidates(db1, now);
    SortedIsOrdered(candidates, IssueOrder(db1));
    OfferPermitsHolding(db1, Sorted(candidates, IssueOrder(db1)), Reachable(connected), ids, undelivered, now,
                        PermitAllowance(db1, SlotCount(connected), now));
  }

  /** Leased tasks and active leases correspond one to one in every run whose proof checks end safely. */
  lemma {:induction false} LeasesAreExclusive(f: Formula, trace: seq<System>, steps: seq<Timed>, i: nat)
    requires Run(f, trace, steps) && i < |trace|
    requires forall k :: 0 <= k < i ==> FinishesSafely(trace[k], steps[k].event)
    ensures ExclusiveDb(trace[i].db)
  {
    if i > 0 {
      LeasesAreExclusive(f, trace, steps, i - 1);
      var k := i - 1;
      assert Follows(f, trace[k], steps[k], trace[k + 1]);
      StepExclusive(f, trace[k], steps[k]);
    }
  }
}
