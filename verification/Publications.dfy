/**
 Published verdicts and the job row.  UNSAT is published exactly when the row records it.  SAT is published
 even when its message was recorded before, and then the row may stay as it is; the exact condition is given.
 */
module Publications {
  import opened Wrappers
  import opened Cnf
  import opened Rows
  import opened CoordinatorTables
  import opened LeaseSafety
  import opened LeaseSteps
  import opened SearchSafety
  import opened SearchSteps
  import opened CoordinatorRuns
  import opened CoordinatorTheorems
  import opened VerdictEffects
  import opened StepEffects

  // ----- SAT -----

  /** A valid model is published in any case; the job is closed by it exactly if its message was not recorded before. */
  lemma ValidModelCloses(f: Formula, trace: seq<System>, steps: seq<Timed>, k: nat, c: Claim)
    requires Run(f, trace, steps) && k < |steps| && steps[k].event == SatChecked(c, VALID_SAT)
    ensures SAT in trace[k + 1].published
    ensures trace[k + 1].db.job.state.SAT_VERIFIED? <==>
      Recorded(trace[k].db.processed, c.session, c.m.message).None? || trace[k].db.job.state.SAT_VERIFIED?
    ensures Recorded(trace[k].db.processed, c.session, c.m.message).None? ==>
      var db' := trace[k + 1].db;
      && AtRest(db') && c.m.task in db'.tasks && db'.tasks[c.m.task].state.SAT_VERIFIED?
      && forall x :: x in db'.tasks ==> db'.tasks[x].state.SAT_VERIFIED? || db'.tasks[x].state.CANCELLED?
  {
    var s, db' := trace[k], trace[k + 1].db;
    assert Follows(f, trace[k], steps[k], trace[k + 1]);
    RunInvariant(f, false, trace, steps, k);
    FinishSatIsExact(s.db, c, VALID_SAT, steps[k].now);
    if Recorded(s.db.processed, c.session, c.m.message).None? {
      var settled: Db :|
        && SatOutcome(s.db, settled, c.m.task, c.session, VALID_SAT) && db' == settled.(processed := db'.processed)
        && Noted(s.db.processed, db'.processed, Processed(c.session, c.m.message, AckResult(c.stale), steps[k].now));
      SatOutcomeMeans(s.db, settled, c.m.task, c.session, VALID_SAT);
    }
  }

  // ----- which steps move the job row -----

  ghost predicate NobodyWorks(db: Db) {
    forall l :: l in db.leases ==> !db.leases[l].status.ACTIVE?
  }

  lemma SatFinishMoves(db: Db, c: Claim, verdict: SatVerdict, now: nat)
    requires c.m.task in db.tasks
    ensures var state' := FinishSat(db, c, verdict, now).job.state;
      state' == db.job.state || state'.INVALID? || (state'.SAT_VERIFIED? && verdict.VALID_SAT?)
  {
  }

  lemma {:induction false} PropagationMoves(db: Db, parent: Option<Id>)
    requires TreeShaped(db.tasks) && (parent.Some? ==> parent.value in db.tasks)
    ensures var (db', terminal) := Propagate(db, parent);
      db'.job.state == if terminal.Some? then JobStateOf(terminal.value) else db.job.state
    ensures var (db', terminal) := Propagate(db, parent);
      terminal.Some? ==> NobodyWorks(db')
    decreases if parent.Some? then 1 + db.tasks[parent.value].depth else 0
  {
    if parent.Some? && Covered(db, parent.value) && parent.value != ROOT {
      var p := parent.value;
      var certified := SetTask(db, p, db.tasks[p].(state := TaskStateOf(CoverageOf(db, p))));
      StateKeepsTree(db.tasks, p, TaskStateOf(CoverageOf(db, p)));
      PropagationMoves(certified, db.tasks[p].parent);
    }
  }

  lemma ProofFinishMoves(db: Db, c: Claim, verdict: UnsatVerdict, now: nat)
    requires TreeShaped(db.tasks) && c.m.task in db.tasks && c.m.manifest.UnsatProof?
    ensures var (db', terminal) := FinishUnsat(db, c, verdict, now);
      && (terminal.Some? ==> db'.job.state == JobStateOf(terminal.value) && NobodyWorks(db'))
      && (terminal.None? ==> db'.job.state == db.job.state || db'.job.state.INVALID?)
  {
    var t, artifact := c.m.task, c.m.manifest.artifact;
    CertifyKeepsTree(db, t, artifact, CERTIFIED, SERVER_CERTIFIED);
    PropagationMoves(CertifyTask(db, t, artifact, CERTIFIED, SERVER_CERTIFIED), db.tasks[t].parent);
  }

  lemma ConfirmMoves(db: Db, artifact: Id, sha256: Id)
    requires TreeShaped(db.tasks) && (artifact in db.proofs ==> db.proofs[artifact].task in db.tasks)
    ensures var (db', terminal) := ConfirmOwner(db, artifact, sha256);
      && (terminal.Some? ==> db'.job.state == JobStateOf(terminal.value) && NobodyWorks(db'))
      && (terminal.None? ==> db'.job.state == db.job.state)
  {
    if artifact in db.proofs {
      var t := db.proofs[artifact].task;
      CertifyKeepsTree(db, t, artifact, OWNER_CHECKED, OWNER_VERIFIED);
      PropagationMoves(CertifyTask(db, t, artifact, OWNER_CHECKED, OWNER_VERIFIED), db.tasks[t].parent);
      PropagationMoves(SetProofStatus(db, artifact, OWNER_VERIFIED), db.tasks[t].parent);
    }
  }

  /** The row and the set of published verdicts move together, except that SAT may be published alone. */
  ghost predicate MovesTogether(s: System, s': System, e: Event) {
    && (forall v :: UNSAT(v) in s'.published && UNSAT(v) !in s.published ==>
          s'.db.job.state == JobStateOf(v) && NobodyWorks(s'.db))
    && (forall v :: s'.db.job.state == JobStateOf(v) && s.db.job.state != JobStateOf(v) ==> UNSAT(v) in s'.published)
    && (s'.db.job.state.SAT_VERIFIED? && !s.db.job.state.SAT_VERIFIED? ==> SAT in s'.published)
    && (SAT in s'.published && SAT !in s.published ==> e.SatChecked? && e.satVerdict.VALID_SAT?)
    && s.published <= s'.published
  }

  /** A step that publishes nothing and brings the job no nearer to its end. */
  ghost predicate Quiet(s: System, s': System) {
    s'.published == s.published && (s'.db.job.state == s.db.job.state || Live(s'.db.job) || s'.db.job.state.CANCELLED?)
  }

  lemma QuietSteps(s: System, step: Timed)
    requires Runnable(s.db, step.event)
    requires !step.event.SatChecked? && !step.event.ProofChecked? && !step.event.OwnerConfirmed?
    ensures Quiet(s, Act(s, step.event, step.now))
  {
    if !step.event.RequestSplit? && !step.event.OwnerCancelled? {
      ActReopens(s, step);
    }
  }

  lemma StepMovesTogether(s: System, step: Timed)
    requires Runnable(s.db, step.event)
    ensures MovesTogether(s, Act(s, step.event, step.now), step.event)
  {
    var db, now, s' := s.db, step.now, Act(s, step.event, step.now);
    match step.event {
      case SatChecked(c, v) => SatFinishMoves(db, c, v, now);
      case ProofChecked(c, v) =>
        ProofFinishMoves(db, c, v, now);
        ClosingMovesTogether(s, s', step.event, FinishUnsat(db, c, v, now).1);
      case OwnerConfirmed(artifact, sha256) =>
        ConfirmMoves(db, artifact, sha256);
        ClosingMovesTogether(s, s', step.event, ConfirmOwner(db, artifact, sha256).1);
      case _ =>
        QuietSteps(s, step);
        QuietMovesTogether(s, s', step.event);
    }
  }

  lemma ClosingMovesTogether(s: System, s': System, e: Event, terminal: Option<Terminal>)
    requires s'.published == s.published + Closing(terminal)
    requires terminal.Some? ==> s'.db.job.state == JobStateOf(terminal.value) && NobodyWorks(s'.db)
    requires terminal.None? ==> s'.db.job.state == s.db.job.state || s'.db.job.state.INVALID?
    ensures MovesTogether(s, s', e)
  {
  }

  lemma QuietMovesTogether(s: System, s': System, e: Event)
    requires Quiet(s, s')
    ensures MovesTogether(s, s', e)
  {
  }

  /** UNSAT is first published by exactly the step that records it in the job row, and nobody works after that. */
  lemma UnsatIsRecorded(f: Formula, trace: seq<System>, steps: seq<Timed>, k: nat, v: Terminal)
    requires Run(f, trace, steps) && k < |steps|
    ensures UNSAT(v) in trace[k + 1].published && UNSAT(v) !in trace[k].published ==>
      trace[k + 1].db.job.state == JobStateOf(v) && NobodyWorks(trace[k + 1].db)
    ensures trace[k + 1].db.job.state == JobStateOf(v) && trace[k].db.job.state != JobStateOf(v) ==> UNSAT(v) in trace[k + 1].published
  {
    assert Follows(f, trace[k], steps[k], trace[k + 1]);
    StepMovesTogether(trace[k], steps[k]);
  }

  lemma {:induction false} RowIsPublished(f: Formula, trace: seq<System>, steps: seq<Timed>, n: nat)
    requires Run(f, trace, steps) && n < |trace|
    ensures trace[n].db.job.state.SAT_VERIFIED? ==> SAT in trace[n].published
    ensures forall v :: trace[n].db.job.state == JobStateOf(v) ==> UNSAT(v) in trace[n].published
  {
    if n > 0 {
      var k: nat := n - 1;
      RowIsPublished(f, trace, steps, k);
      assert Follows(f, trace[k], steps[k], trace[k + 1]);
      StepMovesTogether(trace[k], steps[k]);
    }
  }

  /** The first time SAT is published the job row records it exactly if the message was not recorded before. */
  lemma FirstSatIsRecorded(f: Formula, trace: seq<System>, steps: seq<Timed>, k: nat)
    requires Run(f, trace, steps) && k < |steps| && SAT in trace[k + 1].published && SAT !in trace[k].published
    ensures steps[k].event.SatChecked? && steps[k].event.satVerdict.VALID_SAT?
    ensures var c := steps[k].event.claim;
      trace[k + 1].db.job.state.SAT_VERIFIED? <==> Recorded(trace[k].db.processed, c.session, c.m.message).None?
  {
    assert Follows(f, trace[k], steps[k], trace[k + 1]);
    StepMovesTogether(trace[k], steps[k]);
    RowIsPublished(f, trace, steps, k);
    ValidModelCloses(f, trace, steps, k, steps[k].event.claim);
  }

  // ----- whose word a verdict rests on -----

  ghost predicate NoOwnerWord(db: Db) {
    !db.job.state.UNSAT_OWNER_VERIFIED? && forall t :: t in db.tasks ==> !db.tasks[t].state.UNSAT_OWNER_VERIFIED?
  }

  lemma {:induction false} PropagationAddsNoWord(db: Db, parent: Option<Id>)
    requires TreeShaped(db.tasks) && (parent.Some? ==> parent.value in db.tasks) && NoOwnerWord(db)
    ensures NoOwnerWord(Propagate(db, parent).0) && Propagate(db, parent).1 != Some(OWNER_CHECKED)
    decreases if parent.Some? then 1 + db.tasks[parent.value].depth else 0
  {
    if parent.Some? && Covered(db, parent.value) && parent.value != ROOT {
      var p := parent.value;
      var certified := SetTask(db, p, db.tasks[p].(state := TaskStateOf(CoverageOf(db, p))));
      StateKeepsTree(db.tasks, p, TaskStateOf(CoverageOf(db, p)));
      PropagationAddsNoWord(certified, db.tasks[p].parent);
    }
  }

  lemma ProofFinishAddsNoWord(db: Db, c: Claim, verdict: UnsatVerdict, now: nat)
    requires TreeShaped(db.tasks) && c.m.task in db.tasks && c.m.manifest.UnsatProof? && NoOwnerWord(db)
    ensures NoOwnerWord(FinishUnsat(db, c, verdict, now).0) && FinishUnsat(db, c, verdict, now).1 != Some(OWNER_CHECKED)
  {
    var t, artifact := c.m.task, c.m.manifest.artifact;
    CertifyKeepsTree(db, t, artifact, CERTIFIED, SERVER_CERTIFIED);
    PropagationAddsNoWord(CertifyTask(db, t, artifact, CERTIFIED, SERVER_CERTIFIED), db.tasks[t].parent);
  }

  lemma ReopeningAddsNoWord(s: System, step: Timed)
    requires Runnable(s.db, step.event) && !step.event.OwnerConfirmed? && !step.event.RequestSplit?
    requires !step.event.SatChecked? && !step.event.ProofChecked? && !step.event.OwnerCancelled?
    requires NoOwnerWord(s.db)
    ensures NoOwnerWord(Act(s, step.event, step.now).db)
  {
    ActReopens(s, step);
  }

  lemma SplitAddsNoWord(db: Db, session: Id, m: SplitMessage, now: nat, connectedSlots: nat, positive: Id, negative: Id)
    requires NoOwnerWord(db)
    ensures NoOwnerWord(SplitTask(db, session, m, now, connectedSlots, positive, negative).0)
  {
  }

  lemma SatFinishAddsNoWord(db: Db, c: Claim, verdict: SatVerdict, now: nat)
    requires c.m.task in db.tasks && NoOwnerWord(db)
    ensures NoOwnerWord(FinishSat(db, c, verdict, now))
  {
  }

  lemma StepAddsNoWord(s: System, step: Timed)
    requires Runnable(s.db, step.event) && !step.event.OwnerConfirmed?
    requires NoOwnerWord(s.db) && UNSAT(OWNER_CHECKED) !in s.published
    ensures NoOwnerWord(Act(s, step.event, step.now).db) && UNSAT(OWNER_CHECKED) !in Act(s, step.event, step.now).published
  {
    match step.event {
      case RequestSplit(session, split, connectedSlots, positive, negative) =>
        SplitAddsNoWord(s.db, session, split, step.now, connectedSlots, positive, negative);
      case SatChecked(c, v) => SatFinishAddsNoWord(s.db, c, v, step.now);
      case ProofChecked(c, v) => ProofFinishAddsNoWord(s.db, c, v, step.now);
      case OwnerCancelled =>
      case _ => ReopeningAddsNoWord(s, step);
    }
  }

  /** Without a confirmation by the owner nothing is ever refuted on the owner's word. */
  lemma {:induction false} OwnersWordIsNeeded(f: Formula, trace: seq<System>, steps: seq<Timed>, n: nat)
    requires Run(f, trace, steps) && n < |trace| && forall k :: 0 <= k < n ==> !steps[k].event.OwnerConfirmed?
    ensures NoOwnerWord(trace[n].db) && UNSAT(OWNER_CHECKED) !in trace[n].published
  {
    if n > 0 {
      var k: nat := n - 1;
      OwnersWordIsNeeded(f, trace, steps, k);
      assert Follows(f, trace[k], steps[k], trace[k + 1]);
      StepAddsNoWord(trace[k], steps[k]);
    }
  }
}
