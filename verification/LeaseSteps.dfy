/** The record laws of `LeaseSafety` for the remaining blocks, and for an accepted split. */
module LeaseSteps {
  import opened Wrappers
  import opened Cnf
  import opened Rows
  import opened CoordinatorTables
  import opened LeaseSafety
  import SearchSteps

  lemma SetTaskOrderly(db: Db, t: Id, task: Task)
    requires LinksOk(db) && t in db.tasks
    requires task.parent == db.tasks[t].parent && task.depth == db.tasks[t].depth && task.cube == db.tasks[t].cube
    requires (db.tasks[t].proofRequired ==> task.proofRequired) && !HeldThoughClosed(task)
    ensures Orderly(db, SetTask(db, t, task))
  {
  }

  lemma SetProofStatusOrderly(db: Db, artifact: Id, status: ProofStatus)
    requires LinksOk(db)
    ensures Orderly(db, SetProofStatus(db, artifact, status))
  {
  }

  lemma CertifyTaskOrderly(db: Db, t: Id, artifact: Id, v: Terminal, status: ProofStatus)
    requires LinksOk(db) && t in db.tasks
    ensures Orderly(db, CertifyTask(db, t, artifact, v, status))
  {
    var accepted := SetProofStatus(db, artifact, status);
    SetProofStatusOrderly(db, artifact, status);
    OrderlyKeeps(db, accepted);
    SetTaskOrderly(accepted, t, db.tasks[t].(state := TaskStateOf(v)));
    OrderlyTransitive(db, accepted, CertifyTask(db, t, artifact, v, status));
  }

  lemma CloseUnsatOrderly(db: Db, v: Terminal)
    requires LinksOk(db)
    ensures Orderly(db, CloseUnsat(db, v))
  {
    CloseOrderly(db, CloseUnsat(db, v), SUPERSEDED);
  }

  lemma {:induction false} PropagateOrderly(db: Db, parent: Option<Id>)
    requires LinksOk(db) && TreeShaped(db.tasks) && (parent.Some? ==> parent.value in db.tasks)
    ensures Orderly(db, Propagate(db, parent).0)
    decreases if parent.Some? then 1 + db.tasks[parent.value].depth else 0
  {
    if parent.None? {
      CloseUnsatOrderly(db, CERTIFIED);
      CloseUnsatOrderly(db, OWNER_CHECKED);
    } else if Covered(db, parent.value) {
      var p := parent.value;
      var v := CoverageOf(db, p);
      var certified := SetTask(db, p, db.tasks[p].(state := TaskStateOf(v)));
      SetTaskOrderly(db, p, db.tasks[p].(state := TaskStateOf(v)));
      OrderlyKeeps(db, certified);
      if p == ROOT {
        CloseUnsatOrderly(certified, v);
        OrderlyTransitive(db, certified, CloseUnsat(certified, v));
      } else {
        ShapeKeepsTree(db.tasks, certified.tasks);
        assert Below(db.tasks, p);
        PropagateOrderly(certified, db.tasks[p].parent);
        OrderlyTransitive(db, certified, Propagate(certified, db.tasks[p].parent).0);
      }
    }
  }

  lemma LoggedOrderly(db: Db, settled: Db, c: Claim, now: nat)
    requires Orderly(db, settled)
    ensures Orderly(db, Logged(settled, c, now))
  {
  }

  lemma CloseInvalidOrderly(db: Db)
    requires LinksOk(db)
    ensures Orderly(db, CloseInvalid(db))
  {
    CloseOrderly(db, CloseInvalid(db), SUPERSEDED);
  }

  lemma QuarantineAfter(db: Db, next: Db, session: Id)
    requires LinksOk(db) && Orderly(db, next)
    ensures Orderly(db, Quarantine(next, session))
  {
    OrderlyKeeps(db, next);
    QuarantineOrderly(next, session);
    OrderlyTransitive(db, next, Quarantine(next, session));
  }

  lemma CloseSatOrderly(db: Db, winner: Id)
    requires LinksOk(db)
    ensures Orderly(db, CloseSat(db, winner))
  {
    CloseOrderly(db, CloseSat(db, winner), SUPERSEDED);
  }

  lemma ReopenOrderly(db: Db, t: Id)
    requires LinksOk(db) && t in db.tasks
    ensures Orderly(db, Reopen(db, t))
  {
    SetTaskOrderly(db, t, db.tasks[t].(state := READY, activeLease := None));
  }

  lemma FinishSatOrderly(db: Db, c: Claim, verdict: SatVerdict, now: nat)
    requires LinksOk(db) && c.m.task in db.tasks
    ensures Orderly(db, FinishSat(db, c, verdict, now))
  {
    match verdict {
      case VALID_SAT => CloseSatOrderly(db, c.m.task);
      case INVALID_FORMULA => CloseInvalidOrderly(db);
      case VERIFICATION_TIMEOUT => ReopenOrderly(db, c.m.task);
      case INVALID_MODEL =>
        ReopenOrderly(db, c.m.task);
        QuarantineAfter(db, Reopen(db, c.m.task), c.session);
    }
    LoggedOrderly(db, SettleSat(db, c, verdict), c, now);
  }

  lemma RejectProofOrderly(db: Db, t: Id, artifact: Id)
    requires LinksOk(db) && t in db.tasks
    ensures Orderly(db, RejectProof(db, t, artifact))
  {
    var rejected := SetProofStatus(db, artifact, ProofStatus.INVALID);
    SetProofStatusOrderly(db, artifact, ProofStatus.INVALID);
    OrderlyKeeps(db, rejected);
    SetTaskOrderly(rejected, t, db.tasks[t].(state := READY, proofRequired := true, activeLease := None));
    OrderlyTransitive(db, rejected, RejectProof(db, t, artifact));
  }

  lemma CertifyUpOrderly(db: Db, t: Id, artifact: Id, v: Terminal, status: ProofStatus)
    requires LinksOk(db) && TreeShaped(db.tasks) && t in db.tasks
    ensures (CertifyKeepsTree(db, t, artifact, v, status);
             Orderly(db, Propagate(CertifyTask(db, t, artifact, v, status), db.tasks[t].parent).0))
  {
    var certified := CertifyTask(db, t, artifact, v, status);
    CertifyKeepsTree(db, t, artifact, v, status);
    CertifyTaskOrderly(db, t, artifact, v, status);
    OrderlyKeeps(db, certified);
    PropagateOrderly(certified, db.tasks[t].parent);
    OrderlyTransitive(db, certified, Propagate(certified, db.tasks[t].parent).0);
  }

  lemma FinishUnsatOrderly(db: Db, c: Claim, verdict: UnsatVerdict, now: nat)
    requires LinksOk(db) && TreeShaped(db.tasks) && c.m.task in db.tasks && c.m.manifest.UnsatProof?
    ensures Orderly(db, FinishUnsat(db, c, verdict, now).0)
  {
    var t, artifact := c.m.task, c.m.manifest.artifact;
    match verdict {
      case VALID_UNSAT => CertifyUpOrderly(db, t, artifact, CERTIFIED, SERVER_CERTIFIED);
      case OWNER_CHECK_REQUIRED => SetProofStatusOrderly(db, artifact, ProofStatus.OWNER_CHECK_REQUIRED);
      case INVALID_FORMULA => CloseInvalidOrderly(db);
      case VERIFICATION_TIMEOUT => SetTaskOrderly(db, t, db.tasks[t].(state := READY, proofRequired := true));
      case INVALID_PROOF =>
        RejectProofOrderly(db, t, artifact);
        QuarantineAfter(db, RejectProof(db, t, artifact), c.session);
    }
    LoggedOrderly(db, SettleUnsat(db, c, verdict).0, c, now);
  }

  lemma ConfirmOrderly(db: Db, artifact: Id, sha256: Id)
    requires LinksOk(db) && TreeShaped(db.tasks)
    requires artifact in db.proofs ==> db.proofs[artifact].task in db.tasks
    ensures Orderly(db, ConfirmOwner(db, artifact, sha256).0)
  {
    if artifact in db.proofs && db.proofs[artifact].status.OWNER_CHECK_REQUIRED? && db.proofs[artifact].sha256 == sha256 {
      var t := db.proofs[artifact].task;
      if db.tasks[t].state.VERIFYING_UNSAT? {
        CertifyUpOrderly(db, t, artifact, OWNER_CHECKED, OWNER_VERIFIED);
      } else {
        var confirmed := SetProofStatus(db, artifact, OWNER_VERIFIED);
        SetProofStatusOrderly(db, artifact, OWNER_VERIFIED);
        OrderlyKeeps(db, confirmed);
        CertifyKeepsTree(db, t, artifact, OWNER_CHECKED, OWNER_VERIFIED);
        PropagateOrderly(confirmed, db.tasks[t].parent);
        OrderlyTransitive(db, confirmed, Propagate(confirmed, db.tasks[t].parent).0);
      }
    }
  }

  lemma AlarmOrderly(db: Db, now: nat)
    requires LinksOk(db)
    ensures Orderly(db, Alarm(db, now))
  {
    EndLeasesOrderly(db, (set l | l in AlarmBatch(db, now)), EXPIRED, false, CANCEL_IF_HELD);
  }

  lemma CancelOrderly(db: Db)
    requires LinksOk(db)
    ensures Orderly(db, Cancel(db))
  {
    if !db.job.state.CANCELLED? {
      CloseOrderly(db, Cancel(db), LeaseStatus.CANCELLED);
    }
  }

  lemma CommitProofOrderly(db: Db, lease: Id, sha256: Id, bytes: nat, decompressedBytes: nat, key: Id, now: nat)
    requires LinksOk(db)
    ensures Orderly(db, CommitProof(db, lease, sha256, bytes, decompressedBytes, key, now).0)
  {
  }

  // ----- an accepted split -----

  /** Everything that holds of each record across any block, splits included. */
  ghost predicate Evolves(db: Db, db': Db) {
    && (forall l :: l in db.leases ==> l in db'.leases && LeaseEvolves(db.leases[l], db'.leases[l]))
    && (forall p :: p in db.permits ==> p in db'.permits && PermitEvolves(db.permits[p], db'.permits[p]))
    && (forall t :: t in db.tasks ==> t in db'.tasks && TaskEvolves(db.tasks[t], db'.tasks[t]))
    && JobKept(db.job, db'.job)
  }

  /** Cubes and parents are permanent, and a task that asks for a proof never stops asking. */
  predicate TaskEvolves(a: Task, b: Task) {
    b.parent == a.parent && b.depth == a.depth && b.cube == a.cube && (a.proofRequired ==> b.proofRequired)
  }

  lemma OrderlyEvolves(db: Db, db': Db)
    requires Orderly(db, db')
    ensures Evolves(db, db')
  {
  }

  lemma EvolvesTransitive(a: Db, b: Db, c: Db)
    requires Evolves(a, b) && Evolves(b, c)
    ensures Evolves(a, c)
  {
  }

  lemma DivideCubes(db: Db, session: Id, m: SplitMessage, now: nat, connectedSlots: nat, positive: Id, negative: Id)
    requires CubesOk(db) && TreeShaped(db.tasks) && SplitAccepted(db, session, m, now, connectedSlots) && m.literal != 0
    ensures CubesOk(Divide(db, session, m, now, positive, negative))
  {
    var cube := db.tasks[m.task].cube;
    CubeGrows(cube, m.literal, db.job.variableCount);
    CubeGrows(cube, -m.literal, db.job.variableCount);
  }

  lemma CubeGrows(cube: Cube, l: Literal, variableCount: nat)
    requires CubeOk(cube, variableCount) && |cube| < MAX_CUBE_DEPTH && 1 <= Abs(l) <= variableCount
    requires forall k :: k in cube ==> Abs(k) != Abs(l)
    ensures CubeOk(cube + [l], variableCount)
  {
    forall i | 0 <= i < |cube| ensures Abs(cube[i]) != Abs(l) {
      assert cube[i] in cube;
    }
  }

  /** Two more tasks, one more split lease, one more consumed permit. */
  lemma DivideCounts(db: Db, session: Id, m: SplitMessage, now: nat, connectedSlots: nat, positive: Id, negative: Id)
    requires SplitAccepted(db, session, m, now, connectedSlots)
    ensures var db' := Divide(db, session, m, now, positive, negative);
      |SplitLeases(db')| == |SplitLeases(db)| + 1 && |ConsumedPermits(db')| == |ConsumedPermits(db)| + 1
  {
    var db' := Divide(db, session, m, now, positive, negative);
    OneMoreSplit(db, db', m.lease);
    OneMoreConsumed(db, db', m.permit);
  }

  lemma OneMoreSplit(db: Db, db': Db, l: Id)
    requires l in db.leases && !db.leases[l].status.SPLIT?
    requires db'.leases == db.leases[l := db.leases[l].(status := LeaseStatus.SPLIT)]
    ensures |SplitLeases(db')| == |SplitLeases(db)| + 1
  {
    assert SplitLeases(db') == SplitLeases(db) + {l};
  }

  lemma OneMoreConsumed(db: Db, db': Db, p: Id)
    requires p in db.permits && !db.permits[p].status.CONSUMED?
    requires db'.permits == db.permits[p := db.permits[p].(status := CONSUMED)]
    ensures |ConsumedPermits(db')| == |ConsumedPermits(db)| + 1
  {
    assert ConsumedPermits(db') == ConsumedPermits(db) + {p};
  }

  lemma DivideConserves(db: Db, session: Id, m: SplitMessage, now: nat, connectedSlots: nat, positive: Id, negative: Id)
    requires Conserved(db) && SplitAccepted(db, session, m, now, connectedSlots)
    requires positive !in db.tasks && negative !in db.tasks && positive != negative
    ensures Conserved(Divide(db, session, m, now, positive, negative))
  {
    var db' := Divide(db, session, m, now, positive, negative);
    DivideCounts(db, session, m, now, connectedSlots, positive, negative);
    assert db'.tasks.Keys == db.tasks.Keys + {positive, negative};
    assert |db'.tasks| == |db'.tasks.Keys| == |db.tasks| + 2;
  }

  lemma SplitLeaseKept(job: Job, tasks: map<Id, Task>, tasks': map<Id, Task>, leases: map<Id, Lease>, l: Id)
    requires LeasesKept(job, tasks, leases, leases) && l in leases && leases[l].status.ACTIVE? && tasks.Keys <= tasks'.Keys
    ensures var leases' := leases[l := leases[l].(status := LeaseStatus.SPLIT)];
      LeasesKept(job, tasks', leases', leases') &&
      forall k :: k in leases ==> k in leases' && LeaseEvolves(leases[k], leases'[k])
  {
  }

  lemma ConsumedPermitKept(leases: map<Id, Lease>, leases': map<Id, Lease>, permits: map<Id, Permit>, p: Id)
    requires PermitsKept(leases, permits, permits) && p in permits && permits[p].status.ACTIVE? && leases.Keys <= leases'.Keys
    ensures var permits' := permits[p := permits[p].(status := CONSUMED)];
      PermitsKept(leases', permits', permits') &&
      forall k :: k in permits ==> k in permits' && PermitEvolves(permits[k], permits'[k])
  {
  }

  lemma DivideLinks(db: Db, session: Id, m: SplitMessage, now: nat, positive: Id, negative: Id)
    requires LinksOk(db) && m.task in db.tasks
    requires m.lease in db.leases && db.leases[m.lease].status.ACTIVE?
    requires m.permit in db.permits && db.permits[m.permit].status.ACTIVE?
    ensures LinksOk(Divide(db, session, m, now, positive, negative))
  {
    var db' := Divide(db, session, m, now, positive, negative);
    SplitLeaseKept(db.job, db.tasks, db'.tasks, db.leases, m.lease);
    ConsumedPermitKept(db.leases, db'.leases, db.permits, m.permit);
  }

  lemma DivideEvolves(db: Db, session: Id, m: SplitMessage, now: nat, positive: Id, negative: Id)
    requires LinksOk(db) && m.task in db.tasks
    requires m.lease in db.leases && db.leases[m.lease].status.ACTIVE?
    requires m.permit in db.permits && db.permits[m.permit].status.ACTIVE?
    requires positive !in db.tasks && negative !in db.tasks && positive != negative
    ensures Evolves(db, Divide(db, session, m, now, positive, negative))
  {
    var db' := Divide(db, session, m, now, positive, negative);
    SplitLeaseKept(db.job, db.tasks, db'.tasks, db.leases, m.lease);
    ConsumedPermitKept(db.leases, db'.leases, db.permits, m.permit);
    DivideTasksEvolve(db, session, m, now, positive, negative);
  }

  lemma DivideTasksEvolve(db: Db, session: Id, m: SplitMessage, now: nat, positive: Id, negative: Id)
    requires m.task in db.tasks && m.lease in db.leases && m.permit in db.permits
    requires positive !in db.tasks && negative !in db.tasks
    ensures var tasks' := Divide(db, session, m, now, positive, negative).tasks;
      forall t :: t in db.tasks ==> t in tasks' && TaskEvolves(db.tasks[t], tasks'[t])
  {
  }

  lemma DivideFrees(db: Db, session: Id, m: SplitMessage, now: nat, positive: Id, negative: Id)
    requires m.task in db.tasks && m.lease in db.leases && m.permit in db.permits && ClosedIsFree(db.tasks)
    ensures ClosedIsFree(Divide(db, session, m, now, positive, negative).tasks)
  {
  }

  lemma AcceptedSplitRecords(db: Db, session: Id, m: SplitMessage, now: nat, connectedSlots: nat, positive: Id, negative: Id)
    requires RecordsOk(db) && m.literal != 0 && SplitAccepted(db, session, m, now, connectedSlots)
    requires positive !in db.tasks && negative !in db.tasks && positive != negative
    ensures RecordsOk(Divide(db, session, m, now, positive, negative))
    ensures Evolves(db, Divide(db, session, m, now, positive, negative))
  {
    DivideCubes(db, session, m, now, connectedSlots, positive, negative);
    DivideConserves(db, session, m, now, connectedSlots, positive, negative);
    DivideLinks(db, session, m, now, positive, negative);
    DivideEvolves(db, session, m, now, positive, negative);
    DivideFrees(db, session, m, now, positive, negative);
    SearchSteps.DivideTree(db, session, m, now, positive, negative);
  }

  lemma SplitRecords(db: Db, session: Id, m: SplitMessage, now: nat, connectedSlots: nat, positive: Id, negative: Id)
    requires RecordsOk(db) && m.literal != 0
    requires positive !in db.tasks && negative !in db.tasks && positive != negative
    ensures RecordsOk(SplitTask(db, session, m, now, connectedSlots, positive, negative).0)
    ensures Evolves(db, SplitTask(db, session, m, now, connectedSlots, positive, negative).0)
  {
    if SplitAccepted(db, session, m, now, connectedSlots) {
      AcceptedSplitRecords(db, session, m, now, connectedSlots, positive, negative);
    } else {
      var db' := SplitTask(db, session, m, now, connectedSlots, positive, negative).0;
      RefusedSplitOrderly(db, session, m, now, connectedSlots, positive, negative);
      OrderlyKeepsRecords(db, db');
      OrderlyEvolves(db, db');
    }
  }

  lemma RefusedSplitOrderly(db: Db, session: Id, m: SplitMessage, now: nat, connectedSlots: nat, positive: Id, negative: Id)
    requires LinksOk(db) && !SplitAccepted(db, session, m, now, connectedSlots)
    ensures Orderly(db, SplitTask(db, session, m, now, connectedSlots, positive, negative).0)
  {
    var db' := SplitTask(db, session, m, now, connectedSlots, positive, negative).0;
    if db' != db {
      assert PermitValid(db, session, m, now) && db' == DropPermit(db, m.permit);
      DropPermitOrderly(db, m.permit);
    }
  }

  lemma DropPermitOrderly(db: Db, p: Id)
    requires LinksOk(db) && p in db.permits && db.permits[p].status.ACTIVE?
    ensures Orderly(db, DropPermit(db, p))
  {
  }
}
