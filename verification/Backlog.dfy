/**
 Recovery of expired leases: alarms end the earliest deadlines first, and once a deadline has
 passed no event adds to the leases that missed it, so repeated alarms drain any backlog.
 */
module Backlog {
  import opened Wrappers
  import opened Cnf
  import opened Rows
  import opened CoordinatorTables
  import opened SearchSafety
  import opened LeaseSafety
  import opened LeaseSteps
  import LeaseEffects
  import opened Exclusivity
  import opened FrontierBudget
  import opened CoordinatorRuns
  import opened CoordinatorTheorems

  // ----- one alarm -----

  function Deadline(db: Db, l: Id): nat
    requires l in db.leases
  {
    db.leases[l].expiresAt
  }

  /** The batch is full or takes everything, and no expired lease outside it has an earlier deadline. */
  lemma BatchIsEarliest(db: Db, now: nat) returns (closed: set<Id>)
    ensures closed == set l | l in AlarmBatch(db, now)
    ensures closed <= Expired(db, now) && |closed| == Min(|Expired(db, now)|, ALARM_BATCH_SIZE)
    ensures forall l, k :: l in closed && k in Expired(db, now) - closed ==> Deadline(db, l) <= Deadline(db, k)
  {
    var due := Sorted(Expired(db, now), ExpiryOrder(db));
    var n := Min(|due|, ALARM_BATCH_SIZE);
    closed := set l | l in AlarmBatch(db, now);
    SortedIsOrdered(Expired(db, now), ExpiryOrder(db));
    assert AlarmBatch(db, now) == due[..n];
    LeaseEffects.BatchSize(due[..n]);
    forall l, k | l in closed && k in Expired(db, now) - closed
      ensures Deadline(db, l) <= Deadline(db, k)
    {
      LeaseEffects.PrefixIsFirst(due, ExpiryOrder(db), n, l, k);
    }
  }

  lemma EndedNotExpired(db: Db, now: nat, time: nat)
    requires !db.job.state.CANCELLED? && now < db.job.expiresAt
    ensures Expired(Alarm(db, now), time) == Expired(db, time) - (set l | l in AlarmBatch(db, now))
  {
    var closed := set l | l in AlarmBatch(db, now);
    SortedIsOrdered(Expired(db, now), ExpiryOrder(db));
    assert closed <= Expired(db, now);
    assert Alarm(db, now).leases == EndedLeases(db.leases, closed, EXPIRED);
  }

  lemma WithoutBatch(late: set<Id>, closed: set<Id>, due: set<Id>)
    requires closed <= due && late <= due && |closed| == Min(|due|, ALARM_BATCH_SIZE)
    requires late <= closed || closed <= late
    ensures |late - closed| == Max(0, |late| - ALARM_BATCH_SIZE)
  {
    SubsetSize(late, due);
    if late <= closed {
      SubsetSize(late, closed);
      assert late - closed == {};
    } else {
      assert |late - closed| == |late| - |closed|;
    }
    if |closed| < ALARM_BATCH_SIZE {
      assert |due - closed| == 0;
      assert late - closed <= due - closed;
    }
  }

  /** An alarm recovers a full batch of the leases that missed any deadline up to now, however many missed later ones. */
  lemma AlarmDrains(db: Db, now: nat, time: nat)
    requires !db.job.state.CANCELLED? && now < db.job.expiresAt && time <= now
    ensures Expired(Alarm(db, now), time) <= Expired(db, time)
    ensures |Expired(Alarm(db, now), time)| == Max(0, |Expired(db, time)| - ALARM_BATCH_SIZE)
  {
    var late, due := Expired(db, time), Expired(db, now);
    var closed := BatchIsEarliest(db, now);
    EndedNotExpired(db, now, time);
    assert late <= due;
    if !(late <= closed) {
      var k :| k in late && k !in closed;
      assert k in due - closed;
      forall l | l in closed ensures l in late {
        assert Deadline(db, l) <= Deadline(db, k);
      }
    }
    WithoutBatch(late, closed, due);
  }

  // ----- no event undoes it -----

  lemma {:induction false} RemapKeys(db: Db, existing: seq<Id>, slots: seq<Id>, claimed: set<Id>)
    requires forall l :: l in existing ==> l in db.leases
    ensures RemapSlots(db, existing, slots, claimed).leases.Keys == db.leases.Keys
    decreases |existing|
  {
    if existing != [] {
      var l := existing[0];
      match ChooseSlot(db.leases[l].slot, slots, claimed)
      case None => RemapKeys(EndLeases(db, {l}, YIELDED, false, KEEP_PERMITS), existing[1..], slots, claimed);
      case Some(slot) => RemapKeys(MoveLease(db, l, slot), existing[1..], slots, claimed + {slot});
    }
  }

  lemma HelloKeys(db: Db, session: Id, slots: seq<Id>, proofGeneration: bool, now: nat)
    ensures Hello(db, session, slots, proofGeneration, now).leases.Keys == db.leases.Keys
  {
    var profiled := db.(proofCapable := if proofGeneration then db.proofCapable + {session} else db.proofCapable - {session});
    var existing := LeasesBy(db, session) * Busy(db, now);
    SortedIsOrdered(existing, IssueOrder(db));
    RemapKeys(profiled, Sorted(existing, IssueOrder(db)), slots, {});
  }

  lemma {:induction false} PropagateKeys(db: Db, parent: Option<Id>)
    requires TreeShaped(db.tasks) && (parent.Some? ==> parent.value in db.tasks)
    ensures Propagate(db, parent).0.leases.Keys == db.leases.Keys
    decreases if parent.Some? then 1 + db.tasks[parent.value].depth else 0
  {
    if parent.Some? && Covered(db, parent.value) && parent.value != ROOT {
      var p := parent.value;
      var certified := SetTask(db, p, db.tasks[p].(state := TaskStateOf(CoverageOf(db, p))));
      ShapeKeepsTree(db.tasks, certified.tasks);
      assert Below(db.tasks, p);
      PropagateKeys(certified, db.tasks[p].parent);
    }
  }

  lemma CertifyKeys(db: Db, t: Id, artifact: Id, v: Terminal, status: ProofStatus)
    requires TreeShaped(db.tasks) && t in db.tasks
    ensures (CertifyKeepsTree(db, t, artifact, v, status);
             Propagate(CertifyTask(db, t, artifact, v, status), db.tasks[t].parent).0.leases.Keys == db.leases.Keys)
  {
    CertifyKeepsTree(db, t, artifact, v, status);
    PropagateKeys(CertifyTask(db, t, artifact, v, status), db.tasks[t].parent);
  }

  lemma FinishUnsatKeys(db: Db, c: Claim, verdict: UnsatVerdict, now: nat)
    requires TreeShaped(db.tasks) && c.m.task in db.tasks && c.m.manifest.UnsatProof?
    ensures FinishUnsat(db, c, verdict, now).0.leases.Keys == db.leases.Keys
  {
    if verdict.VALID_UNSAT? {
      CertifyKeys(db, c.m.task, c.m.manifest.artifact, CERTIFIED, SERVER_CERTIFIED);
    }
  }

  lemma ConfirmKeys(db: Db, artifact: Id, sha256: Id)
    requires TreeShaped(db.tasks) && (artifact in db.proofs ==> db.proofs[artifact].task in db.tasks)
    ensures ConfirmOwner(db, artifact, sha256).0.leases.Keys == db.leases.Keys
  {
    if artifact in db.proofs && db.proofs[artifact].status.OWNER_CHECK_REQUIRED? && db.proofs[artifact].sha256 == sha256 {
      var t := db.proofs[artifact].task;
      CertifyKeys(db, t, artifact, OWNER_CHECKED, OWNER_VERIFIED);
      CertifyKeepsTree(db, t, artifact, OWNER_CHECKED, OWNER_VERIFIED);
      PropagateKeys(SetProofStatus(db, artifact, OWNER_VERIFIED), db.tasks[t].parent);
    }
  }

  /** Only a dispatch creates a lease. */
  lemma ActKeys(s: System, step: Timed)
    requires Runnable(s.db, step.event) && !step.event.Dispatch?
    ensures Act(s, step.event, step.now).db.leases.Keys == s.db.leases.Keys
  {
    var db, now := s.db, step.now;
    match step.event {
      case Connect(session, slots, proofGeneration) => HelloKeys(db, session, slots, proofGeneration, now);
      case OfferSplits(sockets, ids, undelivered) => IssuePermitsHolding(db, sockets, ids, undelivered, now);
      case Beat(session, progress) => HeartbeatHolding(db, session, progress, now);
      case RequestSplit(session, split, connectedSlots, positive, negative) =>
      case ProofChecked(c, v) => FinishUnsatKeys(db, c, v, now);
      case OwnerConfirmed(artifact, sha256) => ConfirmKeys(db, artifact, sha256);
      case _ =>
    }
  }

  /** A new lease expires strictly after the step that creates it. */
  lemma NewLeasesAreUnexpired(s: System, step: Timed, l: Id)
    requires Runnable(s.db, step.event)
    requires l !in s.db.leases && l in Act(s, step.event, step.now).db.leases
    ensures Act(s, step.event, step.now).db.leases[l].expiresAt > step.now
  {
    if !step.event.Dispatch? {
      ActKeys(s, step);
    }
  }

  /** Once the clock has passed a deadline, no event adds a lease that missed it. */
  lemma StepAddsNoExpired(f: Formula, trace: seq<System>, steps: seq<Timed>, k: nat, time: nat)
    requires Run(f, trace, steps) && k < |steps| && time <= trace[k].clock
    ensures time <= trace[k + 1].clock && Expired(trace[k + 1].db, time) <= Expired(trace[k].db, time)
  {
    assert Follows(f, trace[k], steps[k], trace[k + 1]);
    StepEvolves(f, trace, steps, k);
    forall l | l in Expired(trace[k + 1].db, time) ensures l in Expired(trace[k].db, time) {
      if l !in trace[k].db.leases {
        NewLeasesAreUnexpired(trace[k], steps[k], l);
      } else {
        assert LeaseEvolves(trace[k].db.leases[l], trace[k + 1].db.leases[l]);
      }
    }
  }

  // ----- whole runs -----

  /** An alarm that finds its job neither cancelled nor past its lifetime. */
  predicate LiveAlarm(s: System, step: Timed) {
    step.event.AlarmFired? && !s.db.job.state.CANCELLED? && step.now < s.db.job.expiresAt
  }

  ghost function LiveAlarms(trace: seq<System>, steps: seq<Timed>, i: nat, j: nat): nat
    requires i <= j < |trace| && |trace| == |steps| + 1
  {
    if i == j then 0 else LiveAlarms(trace, steps, i, j - 1) + if LiveAlarm(trace[j - 1], steps[j - 1]) then 1 else 0
  }

  lemma StepDrains(f: Formula, trace: seq<System>, steps: seq<Timed>, k: nat, time: nat)
    requires Run(f, trace, steps) && k < |steps| && time <= trace[k].clock
    ensures time <= trace[k + 1].clock && Expired(trace[k + 1].db, time) <= Expired(trace[k].db, time)
    ensures |Expired(trace[k + 1].db, time)|
         <= if LiveAlarm(trace[k], steps[k]) then Max(0, |Expired(trace[k].db, time)| - 64) else |Expired(trace[k].db, time)|
  {
    StepAddsNoExpired(f, trace, steps, k, time);
    SubsetSize(Expired(trace[k + 1].db, time), Expired(trace[k].db, time));
    assert Follows(f, trace[k], steps[k], trace[k + 1]);
    if LiveAlarm(trace[k], steps[k]) {
      AlarmDrains(trace[k].db, steps[k].now, time);
    }
  }

  /**
   Whatever is dispatched, renewed, split or reported in between and however far the clock moves on, each
   alarm takes a further 64 of the leases that had missed a deadline, until none of them is left.
   */
  lemma {:induction false} BacklogDrains(f: Formula, trace: seq<System>, steps: seq<Timed>, i: nat, j: nat, time: nat)
    requires Run(f, trace, steps) && i <= j < |trace| && time <= trace[i].clock
    ensures time <= trace[j].clock && Expired(trace[j].db, time) <= Expired(trace[i].db, time)
    ensures |Expired(trace[j].db, time)| <= Max(0, |Expired(trace[i].db, time)| - 64 * LiveAlarms(trace, steps, i, j))
  {
    if i < j {
      var k := j - 1;
      BacklogDrains(f, trace, steps, i, k, time);
      StepDrains(f, trace, steps, k, time);
      assert LiveAlarms(trace, steps, i, j) == LiveAlarms(trace, steps, i, k) + if LiveAlarm(trace[k], steps[k]) then 1 else 0;
    }
  }
}
