/** Each atomic block of the coordinator keeps the meaning of the task tree. */
module SearchSteps {
  import opened Wrappers
  import opened Cnf
  import opened Rows
  import opened CoordinatorTables
  import opened SearchSafety

  /** Blocks that touch neither the task tree nor the job. */
  ghost predicate LeavesSearch(db: Db, db': Db) {
    db'.tasks == db.tasks && db'.job == db.job
  }

  lemma EndLeasesReopens(db: Db, ended: set<Id>, status: LeaseStatus, leasedOnly: bool, rule: PermitRule)
    ensures Reopens(db, EndLeases(db, ended, status, leasedOnly, rule))
    ensures EndLeases(db, ended, status, leasedOnly, rule).job == db.job
  {
  }

  lemma {:induction false} RemapReopens(db: Db, existing: seq<Id>, slots: seq<Id>, claimed: set<Id>)
    requires forall l :: l in existing ==> l in db.leases
    ensures Reopens(db, RemapSlots(db, existing, slots, claimed))
    ensures RemapSlots(db, existing, slots, claimed).job == db.job
    decreases |existing|
  {
    if existing != [] {
      var l := existing[0];
      match ChooseSlot(db.leases[l].slot, slots, claimed)
      case None =>
        var next := EndLeases(db, {l}, YIELDED, false, KEEP_PERMITS);
        EndLeasesReopens(db, {l}, YIELDED, false, KEEP_PERMITS);
        RemapReopens(next, existing[1..], slots, claimed);
        ReopensTransitive(db, next, RemapSlots(next, existing[1..], slots, claimed));
      case Some(slot) =>
        var next := MoveLease(db, l, slot);
        RemapReopens(next, existing[1..], slots, claimed + {slot});
        ReopensTransitive(db, next, RemapSlots(next, existing[1..], slots, claimed + {slot}));
    }
  }

  lemma HelloReopens(db: Db, session: Id, slots: seq<Id>, proofGeneration: bool, now: nat)
    ensures Reopens(db, Hello(db, session, slots, proofGeneration, now))
  {
    var profiled := db.(proofCapable := if proofGeneration then db.proofCapable + {session} else db.proofCapable - {session});
    var existing := LeasesBy(db, session) * Busy(db, now);
    SortedIsOrdered(existing, IssueOrder(db));
    RemapReopens(profiled, Sorted(existing, IssueOrder(db)), slots, {});
  }

  lemma LeaseWorkReopens(db: Db, session: Id, slot: Id, now: nat, lease: Id)
    ensures Reopens(db, LeaseWork(db, session, slot, now, lease))
  {
  }

  lemma {:induction false} OfferPermitsLeavesSearch(
    db: Db, candidates: seq<Id>, reachable: set<Id>, ids: map<Id, Id>, undelivered: set<Id>, now: nat, allowance: nat)
    requires forall l :: l in candidates ==> l in db.leases && l in ids
    ensures LeavesSearch(db, OfferPermits(db, candidates, reachable, ids, undelivered, now, allowance))
    decreases |candidates|
  {
    if candidates != [] && allowance > 0 {
      var l := candidates[0];
      if db.leases[l].session !in reachable {
        OfferPermitsLeavesSearch(db, candidates[1..], reachable, ids, undelivered, now, allowance);
      } else {
        var delivered := l !in undelivered;
        OfferPermitsLeavesSearch(GrantPermit(db, l, ids[l], delivered, now), candidates[1..], reachable, ids,
                                 undelivered, now, if delivered then allowance - 1 else allowance);
      }
    }
  }

  lemma IssuePermitsLeavesSearch(db: Db, sockets: seq<Connection>, ids: map<Id, Id>, undelivered: set<Id>, now: nat)
    requires db.leases.Keys <= ids.Keys
    ensures LeavesSearch(db, IssuePermits(db, sockets, ids, undelivered, now))
  {
    var db1 := CancelExpiredPermits(db, now);
    var connected := Connected(sockets, db.quarantined);
    var candidates := SplitCandidates(db1, now);
    SortedIsOrdered(candidates, IssueOrder(db1));
    OfferPermitsLeavesSearch(db1, Sorted(candidates, IssueOrder(db1)), Reachable(connected), ids, undelivered, now,
                             PermitAllowance(db1, SlotCount(connected), now));
  }

  lemma {:induction false} HeartbeatLeavesSearch(db: Db, session: Id, slots: seq<Progress>, now: nat)
    ensures LeavesSearch(db, Heartbeat(db, session, slots, now))
    decreases |slots|
  {
    if slots != [] {
      HeartbeatLeavesSearch(RecordProgress(db, session, slots[0], now), session, slots[1..], now);
    }
  }

  lemma YieldReopens(db: Db, session: Id, m: YieldMessage, now: nat)
    ensures Reopens(db, YieldTask(db, session, m, now).0)
  {
    EndLeasesReopens(db, {m.lease}, YIELDED, false, CANCEL_PERMITS);
  }

  lemma EnterReopens(db: Db, c: Claim)
    requires c.m.task in db.tasks
    ensures Reopens(db, EnterSat(db, c)) && Reopens(db, EnterProof(db, c))
  {
  }

  lemma RequestProofReopens(db: Db, c: Claim)
    requires c.m.task in db.tasks
    ensures Reopens(db, RequestProof(db, c))
  {
  }

  lemma CandidateReopens(db: Db, c: Claim)
    requires c.m.task in db.tasks
    ensures Reopens(db, EnterCandidate(db, c).0)
  {
    RequestProofReopens(db, c);
  }

  lemma QuarantineReopens(db: Db, session: Id)
    ensures Reopens(db, Quarantine(db, session)) && Quarantine(db, session).job == db.job
  {
    EndLeasesReopens(db.(quarantined := db.quarantined + {session}), LeasesBy(db, session), SUPERSEDED, true, CANCEL_PERMITS);
  }

  lemma AlarmReopens(db: Db, now: nat)
    ensures Reopens(db, Alarm(db, now))
  {
    if !db.job.state.CANCELLED? && now < db.job.expiresAt {
      EndLeasesReopens(db, (set l | l in AlarmBatch(db, now)), EXPIRED, false, CANCEL_IF_HELD);
    }
  }

  // ----- splitting -----

  lemma DivideKeeps(f: Formula, trustOwner: bool, db: Db, session: Id, m: SplitMessage, now: nat, positive: Id, negative: Id)
    requires SearchInv(f, trustOwner, db)
    requires m.task in db.tasks && m.lease in db.leases && m.permit in db.permits
    requires db.tasks[m.task].state.LEASED? && m.literal != 0
    requires positive !in db.tasks && negative !in db.tasks && positive != negative
    ensures SearchInv(f, trustOwner, Divide(db, session, m, now, positive, negative))
  {
    var db' := Divide(db, session, m, now, positive, negative);
    DivideTree(db, session, m, now, positive, negative);
    DividePairs(db, session, m, now, positive, negative);
    DivideEager(db, session, m, now, positive, negative);
    forall t | t in db'.tasks ensures TaskTrue(f, trustOwner, db'.tasks[t]) {
      if t in db.tasks {
        assert TaskTrue(f, trustOwner, db.tasks[t]);
      }
    }
  }

  lemma DivideEager(db: Db, session: Id, m: SplitMessage, now: nat, positive: Id, negative: Id)
    requires Eager(db)
    requires m.task in db.tasks && m.lease in db.leases && m.permit in db.permits
    requires db.tasks[m.task].state.LEASED?
    requires positive !in db.tasks && negative !in db.tasks && positive != negative
    ensures Eager(Divide(db, session, m, now, positive, negative))
  {
    DividedEager(db, Divide(db, session, m, now, positive, negative), m.task, positive, negative);
  }

  /** The tree grows by two queued children of a task that is now split; everything else stays. */
  ghost predicate GrownAt(tasks: map<Id, Task>, tasks': map<Id, Task>, t: Id, positive: Id, negative: Id) {
    && t in tasks && positive !in tasks && negative !in tasks && tasks'.Keys == tasks.Keys + {positive, negative}
    && tasks'[t].state.SPLIT? && tasks'[t].parent == tasks[t].parent && tasks'[t].cube == tasks[t].cube
    && tasks'[positive].state.READY? && tasks'[positive].parent == Some(t)
    && tasks'[negative].state.READY? && tasks'[negative].parent == Some(t)
    && forall k :: k in tasks && k != t ==> tasks'[k] == tasks[k]
  }

  lemma DividedEager(db: Db, db': Db, t: Id, positive: Id, negative: Id)
    requires Eager(db) && db'.job == db.job && GrownAt(db.tasks, db'.tasks, t, positive, negative)
    ensures Eager(db')
  {
    forall p | Covered(db', p)
      ensures Covered(db, p)
    {
      assert positive in Children(db', t) && negative in Children(db', t);
      assert p != t && p in db.tasks;
      assert Children(db', p) == Children(db, p);
    }
  }

  lemma DivideTree(db: Db, session: Id, m: SplitMessage, now: nat, positive: Id, negative: Id)
    requires TreeShaped(db.tasks)
    requires m.task in db.tasks && m.lease in db.leases && m.permit in db.permits
    requires positive !in db.tasks && negative !in db.tasks && positive != negative
    ensures TreeShaped(Divide(db, session, m, now, positive, negative).tasks)
  {
    DividedTree(db.tasks, Divide(db, session, m, now, positive, negative).tasks, m.task, positive, negative);
  }

  lemma DividedTree(tasks: map<Id, Task>, tasks': map<Id, Task>, t: Id, positive: Id, negative: Id)
    requires TreeShaped(tasks) && GrownAt(tasks, tasks', t, positive, negative) && tasks'[t].depth == tasks[t].depth
    requires forall k :: k in [positive, negative] ==>
      tasks'[k].depth == tasks[t].depth + 1 && |tasks'[k].cube| == |tasks[t].cube| + 1 && tasks[t].cube <= tasks'[k].cube
    ensures TreeShaped(tasks')
  {
    assert positive in [positive, negative] && negative in [positive, negative];
    forall k | k in tasks' && tasks'[k].parent.Some?
      ensures Below(tasks', k)
    {
      if k in tasks {
        assert Below(tasks, k);
      }
    }
  }

  lemma DividePairs(db: Db, session: Id, m: SplitMessage, now: nat, positive: Id, negative: Id)
    requires SplitsPaired(db.tasks)
    requires m.task in db.tasks && m.lease in db.leases && m.permit in db.permits && m.literal != 0
    requires positive !in db.tasks && negative !in db.tasks && positive != negative
    ensures SplitsPaired(Divide(db, session, m, now, positive, negative).tasks)
  {
    var tasks' := Divide(db, session, m, now, positive, negative).tasks;
    forall p | p in tasks' && tasks'[p].state.SPLIT?
      ensures exists a, b :: ChildPair(tasks', p, a, b)
    {
      if p == m.task {
        assert ChildPair(tasks', p, positive, negative);
      } else {
        var a, b :| ChildPair(db.tasks, p, a, b);
        assert ChildPair(tasks', p, a, b);
      }
    }
  }

  lemma SplitKeeps(f: Formula, trustOwner: bool, db: Db, session: Id, m: SplitMessage, now: nat, connectedSlots: nat,
                   positive: Id, negative: Id)
    requires SearchInv(f, trustOwner, db) && m.literal != 0
    requires positive !in db.tasks && negative !in db.tasks && positive != negative
    ensures SearchInv(f, trustOwner, SplitTask(db, session, m, now, connectedSlots, positive, negative).0)
  {
    var db' := SplitTask(db, session, m, now, connectedSlots, positive, negative).0;
    if SplitAccepted(db, session, m, now, connectedSlots) {
      DivideKeeps(f, trustOwner, db, session, m, now, positive, negative);
    } else {
      assert LeavesSearch(db, db');
      ReopensKeeps(f, trustOwner, db, db');
    }
  }

  // ----- results -----

  /** A block that closes the job with a true verdict, whatever it does to the open work. */
  lemma ClosingKeeps(f: Formula, trustOwner: bool, db: Db, db': Db)
    requires SearchInv(f, trustOwner, db) && SameShape(db.tasks, db'.tasks)
    requires Closed(db'.job) && JobTrue(f, trustOwner, db'.job)
    requires forall t :: t in db.tasks ==>
      db'.tasks[t].state == db.tasks[t].state || db'.tasks[t].state.CANCELLED? || db'.tasks[t].state.UNKNOWN? ||
      (db'.tasks[t].state.SAT_VERIFIED? && Satisfiable(f))
    ensures SearchInv(f, trustOwner, db')
  {
    ShapeKeepsTree(db.tasks, db'.tasks);
    PairsSurvive(db.tasks, db'.tasks);
    ClosingKeepsTruth(f, trustOwner, db, db');
  }

  lemma ClosingKeepsTruth(f: Formula, trustOwner: bool, db: Db, db': Db)
    requires Truthful(f, trustOwner, db) && SameShape(db.tasks, db'.tasks) && JobTrue(f, trustOwner, db'.job)
    requires forall t :: t in db.tasks ==>
      db'.tasks[t].state == db.tasks[t].state || db'.tasks[t].state.CANCELLED? || db'.tasks[t].state.UNKNOWN? ||
      (db'.tasks[t].state.SAT_VERIFIED? && Satisfiable(f))
    ensures Truthful(f, trustOwner, db')
  {
    forall t | t in db'.tasks ensures TaskTrue(f, trustOwner, db'.tasks[t]) {
      assert TaskTrue(f, trustOwner, db.tasks[t]);
    }
  }

  lemma CancelKeeps(f: Formula, trustOwner: bool, db: Db)
    requires SearchInv(f, trustOwner, db)
    ensures SearchInv(f, trustOwner, Cancel(db))
  {
    if !db.job.state.CANCELLED? {
      ClosingKeeps(f, trustOwner, db, Cancel(db));
    }
  }

  ghost predicate SatVerdictTrue(f: Formula, cube: Cube, verdict: SatVerdict) {
    verdict.VALID_SAT? ==> SatisfiableIn(f, cube)
  }

  ghost predicate UnsatVerdictTrue(f: Formula, cube: Cube, verdict: UnsatVerdict) {
    verdict.VALID_UNSAT? ==> !SatisfiableIn(f, cube)
  }

  lemma CubeModelIsModel(f: Formula, cube: Cube)
    ensures SatisfiableIn(f, cube) ==> Satisfiable(f)
  {
    if SatisfiableIn(f, cube) {
      var a: Assignment :| Model(a, f, cube);
      assert Model(a, f, []);
    }
  }

  lemma LeavesSearchKeeps(f: Formula, trustOwner: bool, db: Db, db': Db)
    requires SearchInv(f, trustOwner, db) && LeavesSearch(db, db')
    ensures SearchInv(f, trustOwner, db')
  {
    ReopensKeeps(f, trustOwner, db, db');
  }

  lemma QuarantineKeeps(f: Formula, trustOwner: bool, db: Db, session: Id)
    requires SearchInv(f, trustOwner, db)
    ensures SearchInv(f, trustOwner, Quarantine(db, session))
  {
    QuarantineReopens(db, session);
    ReopensKeeps(f, trustOwner, db, Quarantine(db, session));
  }

  lemma ReopenKeeps(f: Formula, trustOwner: bool, db: Db, t: Id)
    requires SearchInv(f, trustOwner, db) && t in db.tasks
    ensures SearchInv(f, trustOwner, Reopen(db, t))
  {
    ReopensKeeps(f, trustOwner, db, Reopen(db, t));
  }

  lemma CloseSatKeeps(f: Formula, trustOwner: bool, db: Db, winner: Id)
    requires SearchInv(f, trustOwner, db) && winner in db.tasks && SatisfiableIn(f, db.tasks[winner].cube)
    ensures SearchInv(f, trustOwner, CloseSat(db, winner))
  {
    CubeModelIsModel(f, db.tasks[winner].cube);
    ClosingKeeps(f, trustOwner, db, CloseSat(db, winner));
  }

  lemma CloseInvalidKeeps(f: Formula, trustOwner: bool, db: Db)
    requires SearchInv(f, trustOwner, db)
    ensures SearchInv(f, trustOwner, CloseInvalid(db))
  {
    ClosingKeeps(f, trustOwner, db, CloseInvalid(db));
  }

  lemma FinishSatKeeps(f: Formula, trustOwner: bool, db: Db, c: Claim, verdict: SatVerdict, now: nat)
    requires SearchInv(f, trustOwner, db) && c.m.task in db.tasks
    requires SatVerdictTrue(f, db.tasks[c.m.task].cube, verdict)
    ensures SearchInv(f, trustOwner, FinishSat(db, c, verdict, now))
  {
    match verdict {
      case VALID_SAT => CloseSatKeeps(f, trustOwner, db, c.m.task);
      case INVALID_FORMULA => CloseInvalidKeeps(f, trustOwner, db);
      case VERIFICATION_TIMEOUT => ReopenKeeps(f, trustOwner, db, c.m.task);
      case INVALID_MODEL =>
        ReopenKeeps(f, trustOwner, db, c.m.task);
        QuarantineKeeps(f, trustOwner, Reopen(db, c.m.task), c.session);
    }
    LeavesSearchKeeps(f, trustOwner, SettleSat(db, c, verdict), Logged(SettleSat(db, c, verdict), c, now));
  }

  lemma CertifyTaskKeeps(f: Formula, trustOwner: bool, db: Db, t: Id, artifact: Id, v: Terminal, status: ProofStatus)
    requires SearchInv(f, trustOwner, db) && t in db.tasks
    requires v.CERTIFIED? || trustOwner ==> !SatisfiableIn(f, db.tasks[t].cube)
    ensures var (closed, terminal) :=
        (CertifyKeepsTree(db, t, artifact, v, status);
         Propagate(CertifyTask(db, t, artifact, v, status), db.tasks[t].parent));
      SearchInv(f, trustOwner, closed) && TerminalTrue(f, trustOwner, terminal)
  {
    var accepted := SetProofStatus(db, artifact, status);
    LeavesSearchKeeps(f, trustOwner, db, accepted);
    CertifyKeeps(f, trustOwner, accepted, t, v, None);
    CertifyKeepsTree(db, t, artifact, v, status);
    PropagateKeeps(f, trustOwner, CertifyTask(db, t, artifact, v, status), db.tasks[t].parent);
  }

  lemma RequeueKeeps(f: Formula, trustOwner: bool, db: Db, t: Id, artifact: Id)
    requires SearchInv(f, trustOwner, db) && t in db.tasks
    ensures SearchInv(f, trustOwner, RetryProof(db, t))
    ensures SearchInv(f, trustOwner, RejectProof(db, t, artifact))
  {
    RequeueReopens(db, t, artifact);
    ReopensKeeps(f, trustOwner, db, RetryProof(db, t));
    ReopensKeeps(f, trustOwner, db, RejectProof(db, t, artifact));
  }

  lemma RequeueReopens(db: Db, t: Id, artifact: Id)
    requires t in db.tasks
    ensures Reopens(db, RetryProof(db, t)) && Reopens(db, RejectProof(db, t, artifact))
  {
  }

  lemma FinishUnsatKeeps(f: Formula, trustOwner: bool, db: Db, c: Claim, verdict: UnsatVerdict, now: nat)
    requires SearchInv(f, trustOwner, db) && c.m.task in db.tasks && c.m.manifest.UnsatProof?
    requires UnsatVerdictTrue(f, db.tasks[c.m.task].cube, verdict)
    ensures SearchInv(f, trustOwner, FinishUnsat(db, c, verdict, now).0)
    ensures TerminalTrue(f, trustOwner, FinishUnsat(db, c, verdict, now).1)
  {
    var t, artifact := c.m.task, c.m.manifest.artifact;
    var settled := SettleUnsat(db, c, verdict).0;
    match verdict {
      case VALID_UNSAT => CertifyTaskKeeps(f, trustOwner, db, t, artifact, CERTIFIED, SERVER_CERTIFIED);
      case INVALID_FORMULA => CloseInvalidKeeps(f, trustOwner, db);
      case OWNER_CHECK_REQUIRED => LeavesSearchKeeps(f, trustOwner, db, settled);
      case VERIFICATION_TIMEOUT => RequeueKeeps(f, trustOwner, db, t, artifact);
      case INVALID_PROOF =>
        RequeueKeeps(f, trustOwner, db, t, artifact);
        QuarantineKeeps(f, trustOwner, RejectProof(db, t, artifact), c.session);
    }
    LeavesSearchKeeps(f, trustOwner, settled, Logged(settled, c, now));
  }

  /** The owner's word is used only for `UNSAT_OWNER_VERIFIED`; it can be a lie when `trustOwner` is false. */
  lemma ConfirmKeeps(f: Formula, trustOwner: bool, db: Db, artifact: Id, sha256: Id)
    requires SearchInv(f, trustOwner, db)
    requires artifact in db.proofs ==> db.proofs[artifact].task in db.tasks
    requires artifact in db.proofs && trustOwner ==> !SatisfiableIn(f, db.tasks[db.proofs[artifact].task].cube)
    ensures SearchInv(f, trustOwner, ConfirmOwner(db, artifact, sha256).0)
    ensures TerminalTrue(f, trustOwner, ConfirmOwner(db, artifact, sha256).1)
  {
    if artifact in db.proofs && db.proofs[artifact].status.OWNER_CHECK_REQUIRED? && db.proofs[artifact].sha256 == sha256 {
      var t := db.proofs[artifact].task;
      if db.tasks[t].state.VERIFYING_UNSAT? {
        CertifyTaskKeeps(f, trustOwner, db, t, artifact, OWNER_CHECKED, OWNER_VERIFIED);
      } else {
        var confirmed := SetProofStatus(db, artifact, OWNER_VERIFIED);
        LeavesSearchKeeps(f, trustOwner, db, confirmed);
        CertifyKeepsTree(db, t, artifact, OWNER_CHECKED, OWNER_VERIFIED);
        PropagateKeeps(f, trustOwner, confirmed, db.tasks[t].parent);
      }
    }
  }
}
