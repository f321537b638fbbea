/**
 Lease exclusivity: leased tasks and active leases correspond one to one.  Every block keeps
 this except the end of an UNSAT proof check, which writes its task row unconditionally; for
 that block the exact condition is proved.
 */
module Exclusivity {
  import opened Wrappers
  import opened Cnf
  import opened Rows
  import opened CoordinatorTables
  import opened SearchSafety

  predicate LeaseBacked(tasks: map<Id, Task>, leases: map<Id, Lease>, l: Id)
    requires l in leases
  {
    leases[l].status.ACTIVE? ==>
      leases[l].task in tasks && tasks[leases[l].task].state.LEASED? && tasks[leases[l].task].activeLease == Some(l)
  }

  predicate TaskBacked(leases: map<Id, Lease>, t: Id, task: Task) {
    && (task.state.LEASED? <==> task.activeLease.Some?)
    && (task.activeLease.Some? ==>
          task.activeLease.value in leases && leases[task.activeLease.value].status.ACTIVE? &&
          leases[task.activeLease.value].task == t)
  }

  ghost predicate Exclusive(tasks: map<Id, Task>, leases: map<Id, Lease>) {
    && (forall l {:trigger LeaseBacked(tasks, leases, l)} {:trigger leases[l]} :: l in leases ==> LeaseBacked(tasks, leases, l))
    && (forall t {:trigger TaskBacked(leases, t, tasks[t])} {:trigger tasks[t]} :: t in tasks ==> TaskBacked(leases, t, tasks[t]))
  }

  ghost predicate ExclusiveDb(db: Db) {
    Exclusive(db.tasks, db.leases)
  }

  /** The task a lease holds is its own: two active leases never share a task. */
  lemma HoldersAreUnique(db: Db, l: Id, k: Id)
    requires ExclusiveDb(db) && l in db.leases && k in db.leases
    requires db.leases[l].status.ACTIVE? && db.leases[k].status.ACTIVE? && db.leases[l].task == db.leases[k].task
    ensures l == k
  {
    assert LeaseBacked(db.tasks, db.leases, l) && LeaseBacked(db.tasks, db.leases, k);
  }

  lemma EndLeasesExclusive(tasks: map<Id, Task>, leases: map<Id, Lease>, ended: set<Id>, status: LeaseStatus, leasedOnly: bool)
    requires Exclusive(tasks, leases) && !status.ACTIVE?
    ensures Exclusive(ReleasedTasks(tasks, leases, ended, leasedOnly), EndedLeases(leases, ended, status))
  {
    var tasks' := ReleasedTasks(tasks, leases, ended, leasedOnly);
    var leases' := EndedLeases(leases, ended, status);
    forall l | l in leases' ensures LeaseBacked(tasks', leases', l) {
      assert LeaseBacked(tasks, leases, l);
    }
    forall t | t in tasks' ensures TaskBacked(leases', t, tasks'[t]) {
      assert TaskBacked(leases, t, tasks[t]);
    }
  }

  /** Blocks that change neither who holds what nor which leases are active. */
  ghost predicate SameHolding(leases: map<Id, Lease>, leases': map<Id, Lease>) {
    leases'.Keys == leases.Keys &&
    forall l :: l in leases ==> leases'[l].task == leases[l].task && leases'[l].status == leases[l].status
  }

  lemma SameHoldingExclusive(tasks: map<Id, Task>, leases: map<Id, Lease>, leases': map<Id, Lease>)
    requires Exclusive(tasks, leases) && SameHolding(leases, leases')
    ensures Exclusive(tasks, leases')
  {
    forall l | l in leases' ensures LeaseBacked(tasks, leases', l) {
      assert LeaseBacked(tasks, leases, l);
    }
    forall t | t in tasks ensures TaskBacked(leases', t, tasks[t]) {
      assert TaskBacked(leases, t, tasks[t]);
    }
  }

  lemma {:induction false} RemapExclusive(db: Db, existing: seq<Id>, slots: seq<Id>, claimed: set<Id>)
    requires ExclusiveDb(db) && forall l :: l in existing ==> l in db.leases
    ensures ExclusiveDb(RemapSlots(db, existing, slots, claimed))
    decreases |existing|
  {
    if existing != [] {
      var l := existing[0];
      match ChooseSlot(db.leases[l].slot, slots, claimed)
      case None =>
        EndLeasesExclusive(db.tasks, db.leases, {l}, YIELDED, false);
        RemapExclusive(EndLeases(db, {l}, YIELDED, false, KEEP_PERMITS), existing[1..], slots, claimed);
      case Some(slot) =>
        SameHoldingExclusive(db.tasks, db.leases, MoveLease(db, l, slot).leases);
        RemapExclusive(MoveLease(db, l, slot), existing[1..], slots, claimed + {slot});
    }
  }

  lemma HelloExclusive(db: Db, session: Id, slots: seq<Id>, proofGeneration: bool, now: nat)
    requires ExclusiveDb(db)
    ensures ExclusiveDb(Hello(db, session, slots, proofGeneration, now))
  {
    var profiled := db.(proofCapable := if proofGeneration then db.proofCapable + {session} else db.proofCapable - {session});
    var existing := LeasesBy(db, session) * Busy(db, now);
    SortedIsOrdered(existing, IssueOrder(db));
    RemapExclusive(profiled, Sorted(existing, IssueOrder(db)), slots, {});
  }

  lemma GrantExclusive(db: Db, session: Id, slot: Id, now: nat, lease: Id, t: Id)
    requires ExclusiveDb(db) && lease !in db.leases && t in db.tasks && db.tasks[t].state.READY?
    ensures ExclusiveDb(Grant(db, session, slot, now, lease, t))
  {
    var db' := Grant(db, session, slot, now, lease, t);
    forall l | l in db'.leases ensures LeaseBacked(db'.tasks, db'.leases, l) {
      if l != lease {
        assert LeaseBacked(db.tasks, db.leases, l);
      }
    }
    forall x | x in db'.tasks ensures TaskBacked(db'.leases, x, db'.tasks[x]) {
      assert TaskBacked(db.leases, x, db.tasks[x]);
    }
  }

  lemma LeaseWorkExclusive(db: Db, session: Id, slot: Id, now: nat, lease: Id)
    requires ExclusiveDb(db) && lease !in db.leases
    ensures ExclusiveDb(LeaseWork(db, session, slot, now, lease))
  {
    var work := Leasable(db, session in db.proofCapable);
    if work != {} {
      GrantExclusive(db, session, slot, now, lease, Earliest(work, DispatchOrder(db)));
    }
  }

  lemma {:induction false} OfferPermitsHolding(
    db: Db, candidates: seq<Id>, reachable: set<Id>, ids: map<Id, Id>, undelivered: set<Id>, now: nat, allowance: nat)
    requires forall l :: l in candidates ==> l in db.leases && l in ids
    ensures OfferPermits(db, candidates, reachable, ids, undelivered, now, allowance).leases == db.leases
    decreases |candidates|
  {
    if candidates != [] && allowance > 0 {
      var l := candidates[0];
      if db.leases[l].session !in reachable {
        OfferPermitsHolding(db, candidates[1..], reachable, ids, undelivered, now, allowance);
      } else {
        var delivered := l !in undelivered;
        OfferPermitsHolding(GrantPermit(db, l, ids[l], delivered, now), candidates[1..], reachable, ids,
                            undelivered, now, if delivered then allowance - 1 else allowance);
      }
    }
  }

  lemma {:induction false} HeartbeatHolding(db: Db, session: Id, slots: seq<Progress>, now: nat)
    ensures SameHolding(db.leases, Heartbeat(db, session, slots, now).leases)
    decreases |slots|
  {
    if slots != [] {
      HeartbeatHolding(RecordProgress(db, session, slots[0], now), session, slots[1..], now);
    }
  }

  lemma DivideExclusive(db: Db, session: Id, m: SplitMessage, now: nat, positive: Id, negative: Id)
    requires ExclusiveDb(db) && HoldsTask(db, session, m.task, m.lease, now) && m.permit in db.permits
    requires positive !in db.tasks && negative !in db.tasks && positive != negative
    ensures ExclusiveDb(Divide(db, session, m, now, positive, negative))
  {
    var db' := Divide(db, session, m, now, positive, negative);
    forall l | l in db'.leases ensures LeaseBacked(db'.tasks, db'.leases, l) {
      assert LeaseBacked(db.tasks, db.leases, l);
    }
    forall t | t in db'.tasks ensures TaskBacked(db'.leases, t, db'.tasks[t]) {
      if t in db.tasks {
        assert TaskBacked(db.leases, t, db.tasks[t]);
      }
    }
  }

  /** A task row is rewritten without a holder and all leases of the task end with it. */
  lemma ClearTaskExclusive(tasks: map<Id, Task>, leases: map<Id, Lease>, t: Id, task: Task, reporting: Id)
    requires Exclusive(tasks, leases) && t in tasks && !task.state.LEASED? && task.activeLease.None?
    ensures Exclusive(tasks[t := task], EndTaskLeases(leases, t, reporting))
  {
    var tasks', leases' := tasks[t := task], EndTaskLeases(leases, t, reporting);
    forall l | l in leases' ensures LeaseBacked(tasks', leases', l) {
      assert LeaseBacked(tasks, leases, l);
    }
    forall x | x in tasks' ensures TaskBacked(leases', x, tasks'[x]) {
      if x != t {
        assert TaskBacked(leases, x, tasks[x]);
      }
    }
  }

  lemma EnterExclusive(db: Db, c: Claim)
    requires ExclusiveDb(db) && c.m.task in db.tasks
    ensures ExclusiveDb(EnterCandidate(db, c).0) && ExclusiveDb(EnterSat(db, c)) && ExclusiveDb(EnterProof(db, c))
  {
    var task := db.tasks[c.m.task];
    ClearTaskExclusive(db.tasks, db.leases, c.m.task, task.(state := READY, proofRequired := true, activeLease := None), c.m.lease);
    ClearTaskExclusive(db.tasks, db.leases, c.m.task, task.(state := VERIFYING_SAT, activeLease := None), c.m.lease);
    ClearTaskExclusive(db.tasks, db.leases, c.m.task, task.(state := VERIFYING_UNSAT, activeLease := None), c.m.lease);
  }

  /** Every lease ends and no task keeps a holder. */
  lemma ClosingExclusive(tasks': map<Id, Task>, leases: map<Id, Lease>, status: LeaseStatus)
    requires !status.ACTIVE?
    requires forall t :: t in tasks' ==> tasks'[t].activeLease.None? && !tasks'[t].state.LEASED?
    ensures Exclusive(tasks', EndAllLeases(leases, status))
  {
  }

  /** Rewriting the state of a task that nobody holds. */
  lemma SetUnheldExclusive(tasks: map<Id, Task>, leases: map<Id, Lease>, t: Id, task: Task)
    requires Exclusive(tasks, leases) && t in tasks && !tasks[t].state.LEASED?
    requires task.activeLease == tasks[t].activeLease && !task.state.LEASED?
    ensures Exclusive(tasks[t := task], leases)
  {
    forall l | l in leases ensures LeaseBacked(tasks[t := task], leases, l) {
      assert LeaseBacked(tasks, leases, l);
    }
    assert TaskBacked(leases, t, tasks[t]);
  }

  lemma CloseUnsatExclusive(db: Db, v: Terminal)
    requires ExclusiveDb(db)
    ensures ExclusiveDb(CloseUnsat(db, v))
  {
    var tasks' := CancelOpenTasks(db.tasks);
    forall t | t in tasks' ensures tasks'[t].activeLease.None? && !tasks'[t].state.LEASED? {
      assert TaskBacked(db.leases, t, db.tasks[t]);
    }
    ClosingExclusive(tasks', db.leases, SUPERSEDED);
  }

  lemma {:induction false} PropagateExclusive(db: Db, parent: Option<Id>)
    requires ExclusiveDb(db) && TreeShaped(db.tasks) && (parent.Some? ==> parent.value in db.tasks)
    ensures ExclusiveDb(Propagate(db, parent).0)
    decreases if parent.Some? then 1 + db.tasks[parent.value].depth else 0
  {
    if parent.None? {
      CloseUnsatExclusive(db, CERTIFIED);
      CloseUnsatExclusive(db, OWNER_CHECKED);
    } else if Covered(db, parent.value) {
      var p := parent.value;
      var v := CoverageOf(db, p);
      var certified := SetTask(db, p, db.tasks[p].(state := TaskStateOf(v)));
      SetUnheldExclusive(db.tasks, db.leases, p, certified.tasks[p]);
      if p == ROOT {
        CloseUnsatExclusive(certified, v);
      } else {
        ShapeKeepsTree(db.tasks, certified.tasks);
        assert Below(db.tasks, p);
        PropagateExclusive(certified, db.tasks[p].parent);
      }
    }
  }

  lemma CloseAllExclusive(db: Db, winner: Id)
    requires ExclusiveDb(db)
    ensures ExclusiveDb(CloseSat(db, winner)) && ExclusiveDb(CloseInvalid(db)) && ExclusiveDb(Cancel(db))
  {
    var won, lost, gone := WinTasks(db.tasks, winner), AbandonTasks(db.tasks), CancelTasks(db.tasks);
    forall t | t in db.tasks
      ensures won[t].activeLease.None? && !won[t].state.LEASED?
      ensures lost[t].activeLease.None? && !lost[t].state.LEASED?
    {
      assert TaskBacked(db.leases, t, db.tasks[t]);
    }
    ClosingExclusive(won, db.leases, SUPERSEDED);
    ClosingExclusive(lost, db.leases, SUPERSEDED);
    ClosingExclusive(gone, db.leases, LeaseStatus.CANCELLED);
  }

  lemma QuarantineExclusive(db: Db, session: Id)
    requires ExclusiveDb(db)
    ensures ExclusiveDb(Quarantine(db, session))
  {
    EndLeasesExclusive(db.tasks, db.leases, LeasesBy(db, session), SUPERSEDED, true);
  }

  lemma FinishSatExclusive(db: Db, c: Claim, verdict: SatVerdict, now: nat)
    requires ExclusiveDb(db) && c.m.task in db.tasks
    ensures ExclusiveDb(FinishSat(db, c, verdict, now))
  {
    CloseAllExclusive(db, c.m.task);
    if db.tasks[c.m.task].state.VERIFYING_SAT? {
      assert TaskBacked(db.leases, c.m.task, db.tasks[c.m.task]);
      SetUnheldExclusive(db.tasks, db.leases, c.m.task, db.tasks[c.m.task].(state := READY, activeLease := None));
    }
    QuarantineExclusive(Reopen(db, c.m.task), c.session);
  }

  // ----- the end of an UNSAT proof check -----

  /** What the coordinator would have to check before it writes the outcome of a proof check. */
  predicate SafeToFinish(db: Db, c: Claim, verdict: UnsatVerdict)
    requires c.m.task in db.tasks
  {
    var task := db.tasks[c.m.task];
    || Recorded(db.processed, c.session, c.m.message).Some?
    || verdict.OWNER_CHECK_REQUIRED? || verdict.INVALID_FORMULA?
    || !task.state.LEASED?
    || (verdict.INVALID_PROOF? && task.activeLease.Some? && task.activeLease.value in db.leases &&
        db.leases[task.activeLease.value].session == c.session)
  }

  lemma CertifiedUnheldExclusive(db: Db, t: Id, artifact: Id, v: Terminal, status: ProofStatus)
    requires ExclusiveDb(db) && TreeShaped(db.tasks) && t in db.tasks && !db.tasks[t].state.LEASED?
    ensures (CertifyKeepsTree(db, t, artifact, v, status);
             ExclusiveDb(Propagate(CertifyTask(db, t, artifact, v, status), db.tasks[t].parent).0))
  {
    CertifyKeepsTree(db, t, artifact, v, status);
    SetUnheldExclusive(db.tasks, db.leases, t, db.tasks[t].(state := TaskStateOf(v)));
    PropagateExclusive(CertifyTask(db, t, artifact, v, status), db.tasks[t].parent);
  }

  /** A rejected proof leaves the holder of its task without a row, unless the holder is quarantined too. */
  lemma RejectedExclusive(db: Db, t: Id, artifact: Id, session: Id)
    requires ExclusiveDb(db) && t in db.tasks
    ensures var held := db.tasks[t].activeLease;
      ExclusiveDb(Quarantine(RejectProof(db, t, artifact), session)) <==>
        (held.None? || db.leases[held.value].session == session)
  {
    var held := db.tasks[t].activeLease;
    assert TaskBacked(db.leases, t, db.tasks[t]);
    var rejected := RejectProof(db, t, artifact);
    var db' := Quarantine(rejected, session);
    if held.None? {
      SetUnheldExclusive(db.tasks, db.leases, t, rejected.tasks[t]);
      QuarantineExclusive(rejected, session);
    } else if db.leases[held.value].session == session {
      forall l | l in db'.leases ensures LeaseBacked(db'.tasks, db'.leases, l) {
        assert LeaseBacked(db.tasks, db.leases, l);
      }
      forall x | x in db'.tasks ensures TaskBacked(db'.leases, x, db'.tasks[x]) {
        assert TaskBacked(db.leases, x, db.tasks[x]);
      }
    } else {
      assert !LeaseBacked(db'.tasks, db'.leases, held.value);
    }
  }

  /** Propagation takes no holder away, so a task certified while it was held stays visible. */
  lemma {:induction false} PropagateKeepsHolder(db: Db, parent: Option<Id>, t: Id)
    requires TreeShaped(db.tasks) && (parent.Some? ==> parent.value in db.tasks) && t in db.tasks
    requires db.tasks[t].Certified() && db.tasks[t].activeLease.Some?
    ensures var tasks' := Propagate(db, parent).0.tasks; t in tasks' && tasks'[t].Certified() && tasks'[t].activeLease.Some?
    decreases if parent.Some? then 1 + db.tasks[parent.value].depth else 0
  {
    if parent.Some? && Covered(db, parent.value) {
      var p := parent.value;
      var certified := SetTask(db, p, db.tasks[p].(state := TaskStateOf(CoverageOf(db, p))));
      StateKeepsTree(db.tasks, p, TaskStateOf(CoverageOf(db, p)));
      if p != ROOT {
        PropagateKeepsHolder(certified, db.tasks[p].parent, t);
      }
    }
  }

  /** The proof check may be finished without breaking exclusivity if and only if it is safe to finish. */
  lemma FinishUnsatExclusive(db: Db, c: Claim, verdict: UnsatVerdict, now: nat)
    requires ExclusiveDb(db) && TreeShaped(db.tasks) && c.m.task in db.tasks && c.m.manifest.UnsatProof?
    ensures ExclusiveDb(FinishUnsat(db, c, verdict, now).0) <==> SafeToFinish(db, c, verdict)
  {
    var t, artifact := c.m.task, c.m.manifest.artifact;
    assert TaskBacked(db.leases, t, db.tasks[t]);
    if Recorded(db.processed, c.session, c.m.message).None? {
      match verdict {
        case VALID_UNSAT =>
          if db.tasks[t].state.LEASED? {
            CertifyKeepsTree(db, t, artifact, CERTIFIED, SERVER_CERTIFIED);
            PropagateKeepsHolder(CertifyTask(db, t, artifact, CERTIFIED, SERVER_CERTIFIED), db.tasks[t].parent, t);
            var db' := SettleUnsat(db, c, verdict).0;
            assert !TaskBacked(db'.leases, t, db'.tasks[t]);
          } else {
            CertifiedUnheldExclusive(db, t, artifact, CERTIFIED, SERVER_CERTIFIED);
          }
        case VERIFICATION_TIMEOUT =>
          if db.tasks[t].state.LEASED? {
            assert !TaskBacked(RetryProof(db, t).leases, t, RetryProof(db, t).tasks[t]);
          } else {
            SetUnheldExclusive(db.tasks, db.leases, t, RetryProof(db, t).tasks[t]);
          }
        case INVALID_PROOF => RejectedExclusive(db, t, artifact, c.session);
        case INVALID_FORMULA => CloseAllExclusive(db, t);
        case OWNER_CHECK_REQUIRED =>
      }
    }
  }

  lemma ConfirmExclusive(db: Db, artifact: Id, sha256: Id)
    requires ExclusiveDb(db) && TreeShaped(db.tasks)
    requires artifact in db.proofs ==> db.proofs[artifact].task in db.tasks
    ensures ExclusiveDb(ConfirmOwner(db, artifact, sha256).0)
  {
    if artifact in db.proofs && db.proofs[artifact].status.OWNER_CHECK_REQUIRED? && db.proofs[artifact].sha256 == sha256 {
      var t := db.proofs[artifact].task;
      if db.tasks[t].state.VERIFYING_UNSAT? {
        CertifiedUnheldExclusive(db, t, artifact, OWNER_CHECKED, OWNER_VERIFIED);
      } else {
        CertifyKeepsTree(db, t, artifact, OWNER_CHECKED, OWNER_VERIFIED);
        PropagateExclusive(SetProofStatus(db, artifact, OWNER_VERIFIED), db.tasks[t].parent);
      }
    }
  }
}
