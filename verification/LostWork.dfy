/**
 The step with which a live job loses its last work, exactly: a certificate for the only open task,
 while some task that was split twice is shut off from it.
 */
module LostWork {
  import opened Wrappers
  import opened Cnf
  import opened Rows
  import opened CoordinatorTables
  import opened SearchSafety
  import opened SearchSteps
  import opened LeaseSafety
  import opened CoordinatorRuns
  import opened CoordinatorTheorems

  ghost predicate HasWork(db: Db) {
    exists t :: t in db.tasks && db.tasks[t].Open()
  }

  ghost predicate OnlyOpen(db: Db, t: Id) {
    forall u :: u in db.tasks && db.tasks[u].Open() ==> u == t
  }

  /** On the way up from `p` every task is uncertified and none is `t`. */
  ghost predicate Clear(tasks: map<Id, Task>, p: Id, t: Id)
    requires TreeShaped(tasks) && p in tasks
    decreases tasks[p].depth
  {
    p == ROOT ||
    (assert Below(tasks, p);
     var a := tasks[p].parent.value;
     !tasks[a].Certified() && a != t && Clear(tasks, a, t))
  }

  /** A task with too many children, which a certificate for `t` leaves as it is, and all tasks above it. */
  ghost predicate Blocks(db: Db, p: Id, t: Id)
    requires TreeShaped(db.tasks)
  {
    p in db.tasks && p != t && db.tasks[p].state.SPLIT? && |Children(db, p)| > 2 && Clear(db.tasks, p, t)
  }

  /** The step certifies `t`: a proof of it passed its check, or the owner confirmed one that waits for that. */
  predicate Certifies(db: Db, e: Event, t: Id) {
    t in db.tasks &&
    match e
    case ProofChecked(c, v) => v.VALID_UNSAT? && c.m.task == t && Recorded(db.processed, c.session, c.m.message).None?
    case OwnerConfirmed(artifact, sha256) =>
      artifact in db.proofs && db.proofs[artifact].status.OWNER_CHECK_REQUIRED? && db.proofs[artifact].sha256 == sha256 &&
      db.proofs[artifact].task == t && db.tasks[t].state.VERIFYING_UNSAT?
    case _ => false
  }

  // ----- what propagation changes -----

  /** Some split tasks are certified, nothing else happens. */
  ghost predicate CertifiesSplits(db: Db, db': Db) {
    && db'.job == db.job && SameShape(db.tasks, db'.tasks)
    && forall u :: u in db.tasks ==> db'.tasks[u] == db.tasks[u] || (db.tasks[u].state.SPLIT? && db'.tasks[u].Certified())
  }

  lemma CertifiesSplitsTransitive(a: Db, b: Db, c: Db)
    requires CertifiesSplits(a, b) && CertifiesSplits(b, c)
    ensures CertifiesSplits(a, c)
  {
  }

  lemma CertifiesOne(db: Db, p: Id, state: TaskState)
    requires p in db.tasks && db.tasks[p].state.SPLIT? && (state.UNSAT_CERTIFIED? || state.UNSAT_OWNER_VERIFIED?)
    ensures CertifiesSplits(db, SetTask(db, p, db.tasks[p].(state := state)))
  {
  }

  /** Propagation closes the job, or it only certifies split tasks. */
  lemma {:induction false} PropagateCertifies(db: Db, parent: Option<Id>)
    requires TreeShaped(db.tasks) && (parent.Some? ==> parent.value in db.tasks)
    ensures var (db', terminal) := Propagate(db, parent);
      if terminal.Some? then Closed(db'.job) else CertifiesSplits(db, db')
    decreases if parent.Some? then 1 + db.tasks[parent.value].depth else 0
  {
    if parent.Some? && Covered(db, parent.value) && parent.value != ROOT {
      var p, state := parent.value, TaskStateOf(CoverageOf(db, parent.value));
      var certified := SetTask(db, p, db.tasks[p].(state := state));
      StateKeepsTree(db.tasks, p, state);
      PropagateCertifies(certified, db.tasks[p].parent);
      CertifiesOne(db, p, state);
      if Propagate(db, parent).1.None? {
        CertifiesSplitsTransitive(db, certified, Propagate(certified, db.tasks[p].parent).0);
      }
    }
  }

  /** Above an uncertified task no coverage check succeeds. */
  lemma {:induction false} ClearSurvives(db: Db, q: Id, state: TaskState, x: Id, t: Id)
    requires TreeShaped(db.tasks) && Covered(db, q) && x in db.tasks && !db.tasks[x].Certified() && Clear(db.tasks, x, t)
    ensures TreeShaped(db.tasks[q := db.tasks[q].(state := state)])
    ensures Clear(db.tasks[q := db.tasks[q].(state := state)], x, t)
    decreases db.tasks[x].depth
  {
    StateKeepsTree(db.tasks, q, state);
    if x != ROOT {
      assert Below(db.tasks, x);
      var a := db.tasks[x].parent.value;
      assert x in Children(db, a);
      ClearSurvives(db, q, state, a, t);
    }
  }

  lemma {:induction false} RootStaysOpen(db: Db, x: Id, t: Id)
    requires TreeShaped(db.tasks) && x in db.tasks && !db.tasks[x].Certified() && !Covered(db, x) && Clear(db.tasks, x, t)
    ensures !db.tasks[ROOT].Certified() && !Covered(db, ROOT)
    decreases db.tasks[x].depth
  {
    if x != ROOT {
      assert Below(db.tasks, x);
      var a := db.tasks[x].parent.value;
      assert x in Children(db, a);
      RootStaysOpen(db, a, t);
    }
  }

  /** A blocking task keeps every propagation from the root. */
  lemma {:induction false} BlockedPropagation(db: Db, parent: Option<Id>, p: Id, t: Id)
    requires TreeShaped(db.tasks) && (parent.Some? ==> parent.value in db.tasks) && Blocks(db, p, t)
    ensures Propagate(db, parent).1.None?
    decreases if parent.Some? then 1 + db.tasks[parent.value].depth else 0
  {
    RootStaysOpen(db, p, t);
    if parent.Some? && Covered(db, parent.value) {
      var q, state := parent.value, TaskStateOf(CoverageOf(db, parent.value));
      var certified := SetTask(db, q, db.tasks[q].(state := state));
      StateKeepsTree(db.tasks, q, state);
      ClearSurvives(db, q, state, p, t);
      assert Children(certified, p) == Children(db, p);
      BlockedPropagation(certified, db.tasks[q].parent, p, t);
    }
  }

  // ----- from a certificate to the stuck task and back -----

  lemma {:induction false} FindStuck(db: Db, x: Id, t: Id) returns (p: Id)
    requires TreeShaped(db.tasks) && SplitsPaired(db.tasks) && CubesOk(db)
    requires Live(db.job) && NothingAbandoned(db) && Eager(db) && !HasWork(db)
    requires t in db.tasks && db.tasks[t].Certified()
    requires x in db.tasks && !db.tasks[x].Certified() && Clear(db.tasks, x, t)
    ensures Blocks(db, p, t)
    decreases MAX_CUBE_DEPTH - db.tasks[x].depth
  {
    assert CubeOk(db.tasks[x].cube, db.job.variableCount);
    if |Children(db, x)| > 2 {
      return x;
    }
    var c := UncertifiedChild(db, x);
    assert Below(db.tasks, c) && CubeOk(db.tasks[c].cube, db.job.variableCount);
    p := FindStuck(db, c, t);
  }

  /** The way up stays clear when looked at before some tasks were certified. */
  lemma {:induction false} ClearBefore(tasks: map<Id, Task>, tasks': map<Id, Task>, p: Id, t: Id)
    requires TreeShaped(tasks) && TreeShaped(tasks') && SameShape(tasks, tasks') && p in tasks && Clear(tasks', p, t)
    requires forall u :: u in tasks && tasks[u].Certified() ==> tasks'[u].Certified()
    ensures Clear(tasks, p, t)
    decreases tasks[p].depth
  {
    if p != ROOT {
      assert Below(tasks, p);
      ClearBefore(tasks, tasks', tasks[p].parent.value, t);
    }
  }

  /** It stays clear when `t` itself is certified. */
  lemma {:induction false} ClearAfter(tasks: map<Id, Task>, p: Id, t: Id, state: TaskState)
    requires TreeShaped(tasks) && t in tasks && p in tasks && Clear(tasks, p, t)
    ensures TreeShaped(tasks[t := tasks[t].(state := state)]) && Clear(tasks[t := tasks[t].(state := state)], p, t)
    decreases tasks[p].depth
  {
    StateKeepsTree(tasks, t, state);
    if p != ROOT {
      assert Below(tasks, p);
      ClearAfter(tasks, tasks[p].parent.value, t, state);
    }
  }

  /** A certificate for `t` leaves a live job without work if and only if nothing else is open and a task blocks. */
  lemma CertificateLosesWork(f: Formula, db: Db, t: Id, artifact: Id, v: Terminal, status: ProofStatus)
    requires SearchInv(f, false, db) && CubesOk(db) && Live(db.job) && t in db.tasks
    requires v.CERTIFIED? ==> !SatisfiableIn(f, db.tasks[t].cube)
    ensures (CertifyKeepsTree(db, t, artifact, v, status);
             var db' := Propagate(CertifyTask(db, t, artifact, v, status), db.tasks[t].parent).0;
             Live(db'.job) && !HasWork(db') <==> OnlyOpen(db, t) && exists p :: Blocks(db, p, t))
  {
    var certified := CertifyTask(db, t, artifact, v, status);
    CertifyKeepsTree(db, t, artifact, v, status);
    CertifyTaskKeeps(f, false, db, t, artifact, v, status);
    if p :| OnlyOpen(db, t) && Blocks(db, p, t) {
      BlockedLosesWork(db, certified, p, t);
    }
    var db' := Propagate(certified, db.tasks[t].parent).0;
    if Live(db'.job) && !HasWork(db') {
      var p := LostWorkIsBlocked(f, db, certified, t);
    }
  }

  lemma BlockedLosesWork(db: Db, certified: Db, p: Id, t: Id)
    requires TreeShaped(db.tasks) && TreeShaped(certified.tasks) && CertifiedAt(db, certified, t) && Live(db.job)
    requires db.tasks[t].parent.Some? ==> db.tasks[t].parent.value in certified.tasks
    requires OnlyOpen(db, t) && Blocks(db, p, t)
    ensures var db' := Propagate(certified, db.tasks[t].parent).0; Live(db'.job) && !HasWork(db')
  {
    ClearAfter(db.tasks, p, t, certified.tasks[t].state);
    assert Children(certified, p) == Children(db, p);
    BlockedPropagation(certified, db.tasks[t].parent, p, t);
    PropagateCertifies(certified, db.tasks[t].parent);
    NothingElseOpens(db, certified, Propagate(certified, db.tasks[t].parent).0, t);
  }

  lemma LostWorkIsBlocked(f: Formula, db: Db, certified: Db, t: Id) returns (p: Id)
    requires TreeShaped(db.tasks) && CubesOk(db) && TreeShaped(certified.tasks) && CertifiedAt(db, certified, t)
    requires db.tasks[t].parent.Some? ==> db.tasks[t].parent.value in certified.tasks
    requires var db' := Propagate(certified, db.tasks[t].parent).0; SearchInv(f, false, db') && Live(db'.job) && !HasWork(db')
    ensures OnlyOpen(db, t) && Blocks(db, p, t)
  {
    var db' := Propagate(certified, db.tasks[t].parent).0;
    PropagateCertifies(certified, db.tasks[t].parent);
    OnlyOneWasOpen(db, certified, db', t);
    p := StuckBefore(f, db, certified, db', t);
  }

  /** `certified` is `db` with a certificate for `t`. */
  ghost predicate CertifiedAt(db: Db, certified: Db, t: Id) {
    t in db.tasks && t in certified.tasks && certified.tasks == db.tasks[t := certified.tasks[t]] && certified.tasks[t].Certified() &&
    certified.tasks[t] == db.tasks[t].(state := certified.tasks[t].state) && certified.job == db.job
  }

  lemma OnlyOneWasOpen(db: Db, certified: Db, db': Db, t: Id)
    requires CertifiedAt(db, certified, t) && CertifiesSplits(certified, db') && !HasWork(db')
    ensures OnlyOpen(db, t)
  {
    assert forall u :: u in db.tasks && u != t && db.tasks[u].Open() ==> db'.tasks[u].Open();
  }

  lemma NothingElseOpens(db: Db, certified: Db, db': Db, t: Id)
    requires CertifiedAt(db, certified, t) && CertifiesSplits(certified, db') && OnlyOpen(db, t)
    ensures !HasWork(db')
  {
  }

  lemma StuckBefore(f: Formula, db: Db, certified: Db, db': Db, t: Id) returns (p: Id)
    requires TreeShaped(db.tasks) && CubesOk(db)
    requires CertifiedAt(db, certified, t) && CertifiesSplits(certified, db')
    requires SearchInv(f, false, db') && Live(db'.job) && !HasWork(db')
    ensures Blocks(db, p, t)
  {
    SameCubes(db, db');
    p := FindStuck(db', ROOT, t);
    BlockedBefore(db, certified, db', p, t);
  }

  lemma SameCubes(db: Db, db': Db)
    requires CubesOk(db) && SameShape(db.tasks, db'.tasks) && db'.job == db.job
    ensures CubesOk(db')
  {
  }

  lemma BlockedBefore(db: Db, certified: Db, db': Db, p: Id, t: Id)
    requires TreeShaped(db.tasks) && TreeShaped(db'.tasks)
    requires CertifiedAt(db, certified, t) && CertifiesSplits(certified, db') && Blocks(db', p, t)
    ensures Blocks(db, p, t)
  {
    ClearBefore(db.tasks, db'.tasks, p, t);
    assert Children(db', p) == Children(db, p);
  }

  // ----- every step -----

  /** Open work stays open, or the job is closed, or new work appears. */
  ghost predicate KeepsWork(db: Db, db': Db) {
    !Live(db'.job) || (HasWork(db) ==> HasWork(db'))
  }

  lemma ReopensKeepsWork(db: Db, db': Db)
    requires Reopens(db, db')
    ensures KeepsWork(db, db')
  {
    if HasWork(db) {
      var t :| t in db.tasks && db.tasks[t].Open();
      assert db'.tasks[t].Open();
    }
  }

  lemma SplitKeepsWork(db: Db, session: Id, m: SplitMessage, now: nat, connectedSlots: nat, positive: Id, negative: Id)
    requires positive !in db.tasks && negative !in db.tasks && positive != negative
    ensures KeepsWork(db, SplitTask(db, session, m, now, connectedSlots, positive, negative).0)
  {
    var db' := SplitTask(db, session, m, now, connectedSlots, positive, negative).0;
    if SplitAccepted(db, session, m, now, connectedSlots) {
      assert positive in db'.tasks && db'.tasks[positive].Open();
    }
  }

  lemma ReopenReopens(db: Db, t: Id)
    requires t in db.tasks
    ensures Reopens(db, Reopen(db, t)) && Reopen(db, t).job == db.job
  {
  }

  lemma FinishSatKeepsWork(db: Db, c: Claim, verdict: SatVerdict, now: nat)
    requires c.m.task in db.tasks
    ensures KeepsWork(db, FinishSat(db, c, verdict, now))
  {
    if verdict.INVALID_MODEL? || verdict.VERIFICATION_TIMEOUT? {
      var reopened := Reopen(db, c.m.task);
      ReopenReopens(db, c.m.task);
      QuarantineReopens(reopened, c.session);
      ReopensTransitive(db, reopened, Quarantine(reopened, c.session));
      ReopensKeepsWork(db, FinishSat(db, c, verdict, now));
    }
  }

  /** Every proof verdict but a certificate. */
  lemma FinishUnsatKeepsWork(db: Db, c: Claim, verdict: UnsatVerdict, now: nat)
    requires TreeShaped(db.tasks) && c.m.task in db.tasks && c.m.manifest.UnsatProof?
    requires verdict.VALID_UNSAT? ==> Recorded(db.processed, c.session, c.m.message).Some?
    ensures KeepsWork(db, FinishUnsat(db, c, verdict, now).0)
  {
    RequeueKeepsWork(db, c.m.task, c.m.manifest.artifact, c.session);
    var db' := FinishUnsat(db, c, verdict, now).0;
    assert verdict.OWNER_CHECK_REQUIRED? ==> db'.tasks == db.tasks;
  }

  lemma RequeueKeepsWork(db: Db, t: Id, artifact: Id, session: Id)
    requires t in db.tasks
    ensures KeepsWork(db, RetryProof(db, t)) && KeepsWork(db, Quarantine(RejectProof(db, t, artifact), session))
  {
    var rejected := RejectProof(db, t, artifact);
    RequeueReopens(db, t, artifact);
    QuarantineReopens(rejected, session);
    ReopensTransitive(db, rejected, Quarantine(rejected, session));
    ReopensKeepsWork(db, RetryProof(db, t));
    ReopensKeepsWork(db, Quarantine(rejected, session));
  }

  /** An owner's word on a task that no longer waits for one finds nothing to propagate. */
  lemma ConfirmKeepsWork(db: Db, artifact: Id, sha256: Id)
    requires TreeShaped(db.tasks) && (artifact in db.proofs ==> db.proofs[artifact].task in db.tasks)
    requires Eager(db) && Live(db.job)
    requires forall t :: !Certifies(db, OwnerConfirmed(artifact, sha256), t)
    ensures KeepsWork(db, ConfirmOwner(db, artifact, sha256).0)
  {
    if artifact in db.proofs && db.proofs[artifact].status.OWNER_CHECK_REQUIRED? && db.proofs[artifact].sha256 == sha256 {
      var t := db.proofs[artifact].task;
      assert !Certifies(db, OwnerConfirmed(artifact, sha256), t);
      var confirmed := SetProofStatus(db, artifact, OWNER_VERIFIED);
      CertifyKeepsTree(db, t, artifact, OWNER_CHECKED, OWNER_VERIFIED);
      ReopensKeepsEager(db, confirmed);
      NothingToPropagate(confirmed, db.tasks[t].parent);
    }
  }

  lemma NothingToPropagate(db: Db, parent: Option<Id>)
    requires TreeShaped(db.tasks) && (parent.Some? ==> parent.value in db.tasks) && Eager(db) && Live(db.job)
    ensures Propagate(db, parent) == (db, None)
  {
  }

  /** A step that certifies no task keeps some work, or closes the job. */
  lemma OtherStepsKeepWork(f: Formula, s: System, step: Timed)
    requires TreeShaped(s.db.tasks) && Eager(s.db) && Live(s.db.job) && Enabled(f, s, step) && Runnable(s.db, step.event)
    requires forall t :: !Certifies(s.db, step.event, t)
    ensures KeepsWork(s.db, Step(s, step).db)
  {
    var e, db, now := step.event, s.db, step.now;
    match e {
      case RequestSplit(session, split, connectedSlots, positive, negative) =>
        SplitKeepsWork(db, session, split, now, connectedSlots, positive, negative);
      case SatChecked(c, v) => FinishSatKeepsWork(db, c, v, now);
      case ProofChecked(c, v) =>
        assert !Certifies(db, e, c.m.task);
        FinishUnsatKeepsWork(db, c, v, now);
      case OwnerConfirmed(artifact, sha256) => ConfirmKeepsWork(db, artifact, sha256);
      case OwnerCancelled =>
      case _ =>
        ActReopens(s, step);
        ReopensKeepsWork(db, Act(s, e, now).db);
    }
  }

  /** A step that certifies `t` does exactly what a certificate for `t` does to the tasks and the job. */
  lemma CertifyingStepLosesWork(f: Formula, s: System, step: Timed, t: Id)
    requires SearchInv(f, false, s.db) && CubesOk(s.db) && Live(s.db.job)
    requires Enabled(f, s, step) && Runnable(s.db, step.event) && ClaimCurrent(s.db, step.event) && Certifies(s.db, step.event, t)
    ensures var db' := Step(s, step).db;
      Live(db'.job) && !HasWork(db') <==> OnlyOpen(s.db, t) && exists p :: Blocks(s.db, p, t)
  {
    match step.event {
      case ProofChecked(c, v) =>
        CertificateLosesWork(f, s.db, t, c.m.manifest.artifact, CERTIFIED, SERVER_CERTIFIED);
      case OwnerConfirmed(artifact, sha256) =>
        CertificateLosesWork(f, s.db, t, artifact, OWNER_CHECKED, OWNER_VERIFIED);
      case _ =>
    }
  }

  /**
   A step takes the last work from a live job and leaves it live if and only if it certifies the only open
   task while some task that has more than two children is neither that task nor below it or a certified one.
   */
  lemma StepLosesWork(f: Formula, s: System, step: Timed)
    requires Invariant(f, false, s) && Enabled(f, s, step) && Runnable(s.db, step.event)
    requires Live(s.db.job) && HasWork(s.db)
    ensures var db' := Step(s, step).db;
      Live(db'.job) && !HasWork(db') <==>
        exists t, p :: Certifies(s.db, step.event, t) && OnlyOpen(s.db, t) && Blocks(s.db, p, t)
  {
    EnabledRunnable(f, s, step);
    if t :| Certifies(s.db, step.event, t) {
      CertifyingStepLosesWork(f, s, step, t);
      assert forall u :: Certifies(s.db, step.event, u) ==> u == t;
    } else {
      OtherStepsKeepWork(f, s, step);
    }
  }
}
