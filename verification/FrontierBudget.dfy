/**
 The frontier budget: unproved READY or LEASED tasks plus outstanding split permits.  Issuing
 permits is capped, consuming one trades a permit for a task, and only a SAT check that ends
 without a verdict can push the total past the cap.
 */
module FrontierBudget {
  import opened Wrappers
  import opened Cnf
  import opened Rows
  import opened CoordinatorTables
  import opened SearchSafety

  function Demand(db: Db, now: nat): nat {
    |Frontier(db.tasks)| + |Outstanding(db.permits, now)|
  }

  /** A search task with a holder is leased. */
  ghost predicate HeldIsLeased(tasks: map<Id, Task>) {
    forall t :: t in tasks && tasks[t].activeLease.Some? && !tasks[t].proofRequired ==> tasks[t].state.LEASED?
  }

  /** No new search work, no new or longer permits. */
  ghost predicate TasksShrink(tasks: map<Id, Task>, tasks': map<Id, Task>) {
    Frontier(tasks') <= Frontier(tasks) && HeldIsLeased(tasks')
  }

  ghost predicate PermitsShrink(permits: map<Id, Permit>, permits': map<Id, Permit>) {
    forall p :: p in permits' && permits'[p].status.ACTIVE? ==> p in permits && permits[p] == permits'[p]
  }

  ghost predicate Shrinks(db: Db, db': Db) {
    TasksShrink(db.tasks, db'.tasks) && PermitsShrink(db.permits, db'.permits)
  }

  lemma SubsetSize<T>(a: set<T>, b: set<T>)
    requires a <= b
    ensures |a| <= |b|
  {
    assert b == a + (b - a);
  }

  /** Permits run out with time, and shrinking blocks lower the demand. */
  lemma ShrinksLowers(db: Db, db': Db, now: nat, now': nat)
    requires Shrinks(db, db') && now <= now'
    ensures Demand(db', now') <= Demand(db, now)
  {
    SubsetSize(Frontier(db'.tasks), Frontier(db.tasks));
    SubsetSize(Outstanding(db'.permits, now'), Outstanding(db.permits, now));
  }

  lemma ShrinksTransitive(a: Db, b: Db, c: Db)
    requires Shrinks(a, b) && Shrinks(b, c)
    ensures Shrinks(a, c)
  {
  }

  lemma ReleasedShrink(tasks: map<Id, Task>, leases: map<Id, Lease>, ended: set<Id>, leasedOnly: bool)
    requires HeldIsLeased(tasks)
    ensures TasksShrink(tasks, ReleasedTasks(tasks, leases, ended, leasedOnly))
  {
  }

  lemma EndLeasesShrinks(db: Db, ended: set<Id>, status: LeaseStatus, leasedOnly: bool, rule: PermitRule)
    requires HeldIsLeased(db.tasks)
    ensures Shrinks(db, EndLeases(db, ended, status, leasedOnly, rule))
  {
    ReleasedShrink(db.tasks, db.leases, ended, leasedOnly);
  }

  lemma {:induction false} RemapShrinks(db: Db, existing: seq<Id>, slots: seq<Id>, claimed: set<Id>)
    requires HeldIsLeased(db.tasks) && forall l :: l in existing ==> l in db.leases
    ensures Shrinks(db, RemapSlots(db, existing, slots, claimed))
    decreases |existing|
  {
    if existing != [] {
      var l := existing[0];
      match ChooseSlot(db.leases[l].slot, slots, claimed)
      case None =>
        var next := EndLeases(db, {l}, YIELDED, false, KEEP_PERMITS);
        EndLeasesShrinks(db, {l}, YIELDED, false, KEEP_PERMITS);
        RemapShrinks(next, existing[1..], slots, claimed);
        ShrinksTransitive(db, next, RemapSlots(next, existing[1..], slots, claimed));
      case Some(slot) =>
        RemapShrinks(MoveLease(db, l, slot), existing[1..], slots, claimed + {slot});
    }
  }

  lemma HelloShrinks(db: Db, session: Id, slots: seq<Id>, proofGeneration: bool, now: nat)
    requires HeldIsLeased(db.tasks)
    ensures Shrinks(db, Hello(db, session, slots, proofGeneration, now))
  {
    var profiled := db.(proofCapable := if proofGeneration then db.proofCapable + {session} else db.proofCapable - {session});
    var existing := LeasesBy(db, session) * Busy(db, now);
    SortedIsOrdered(existing, IssueOrder(db));
    RemapShrinks(profiled, Sorted(existing, IssueOrder(db)), slots, {});
  }

  lemma LeaseWorkShrinks(db: Db, session: Id, slot: Id, now: nat, lease: Id)
    requires HeldIsLeased(db.tasks)
    ensures Shrinks(db, LeaseWork(db, session, slot, now, lease))
  {
  }

  lemma {:induction false} HeartbeatShrinks(db: Db, session: Id, slots: seq<Progress>, now: nat)
    requires HeldIsLeased(db.tasks)
    ensures Shrinks(db, Heartbeat(db, session, slots, now))
    decreases |slots|
  {
    if slots != [] {
      HeartbeatShrinks(RecordProgress(db, session, slots[0], now), session, slots[1..], now);
    }
  }

  lemma EnterShrinks(db: Db, c: Claim)
    requires HeldIsLeased(db.tasks) && c.m.task in db.tasks
    ensures Shrinks(db, EnterCandidate(db, c).0) && Shrinks(db, EnterSat(db, c)) && Shrinks(db, EnterProof(db, c))
  {
  }

  lemma QuarantineShrinks(db: Db, session: Id)
    requires HeldIsLeased(db.tasks)
    ensures Shrinks(db, Quarantine(db, session))
  {
    EndLeasesShrinks(db, LeasesBy(db, session), SUPERSEDED, true, CANCEL_PERMITS);
  }

  /** A task that can be certified is not search work. */
  lemma CertifyShrinks(db: Db, p: Id, state: TaskState)
    requires HeldIsLeased(db.tasks) && p in db.tasks && (state.UNSAT_CERTIFIED? || state.UNSAT_OWNER_VERIFIED?)
    requires db.tasks[p].activeLease.Some? && !db.tasks[p].proofRequired ==> db.tasks[p].state.LEASED?
    requires db.tasks[p].state.SPLIT?
    ensures Shrinks(db, SetTask(db, p, db.tasks[p].(state := state)))
  {
  }

  lemma CloseUnsatShrinks(db: Db, v: Terminal)
    requires HeldIsLeased(db.tasks)
    ensures Shrinks(db, CloseUnsat(db, v))
  {
  }

  lemma {:induction false} PropagateShrinks(db: Db, parent: Option<Id>)
    requires HeldIsLeased(db.tasks) && TreeShaped(db.tasks) && (parent.Some? ==> parent.value in db.tasks)
    requires parent.Some? && db.tasks[parent.value].activeLease.Some? && !db.tasks[parent.value].proofRequired ==> db.tasks[parent.value].state.LEASED?
    ensures Shrinks(db, Propagate(db, parent).0)
    decreases if parent.Some? then 1 + db.tasks[parent.value].depth else 0
  {
    if parent.Some? && Covered(db, parent.value) {
      var p := parent.value;
      var certified := SetTask(db, p, db.tasks[p].(state := TaskStateOf(CoverageOf(db, p))));
      ShapeKeepsTree(db.tasks, certified.tasks);
      assert db.tasks[p].parent.Some? ==> Below(db.tasks, p);
      CertifyShrinks(db, p, TaskStateOf(CoverageOf(db, p)));
      if p != ROOT {
        PropagateShrinks(certified, db.tasks[p].parent);
        ShrinksTransitive(db, certified, Propagate(certified, db.tasks[p].parent).0);
      } else {
        CloseUnsatShrinks(certified, CoverageOf(db, p));
        ShrinksTransitive(db, certified, CloseUnsat(certified, CoverageOf(db, p)));
      }
    } else if parent.None? && ROOT in db.tasks {
      CloseUnsatShrinks(db, CERTIFIED);
      CloseUnsatShrinks(db, OWNER_CHECKED);
    }
  }

  lemma CloseShrinks(db: Db, winner: Id)
    requires HeldIsLeased(db.tasks)
    ensures Shrinks(db, CloseSat(db, winner)) && Shrinks(db, CloseInvalid(db)) && Shrinks(db, Cancel(db))
  {
  }

  /** A proof check only ever concerns a task that already left the search frontier. */
  lemma FinishUnsatShrinks(db: Db, c: Claim, verdict: UnsatVerdict, now: nat)
    requires HeldIsLeased(db.tasks) && TreeShaped(db.tasks) && c.m.task in db.tasks && c.m.manifest.UnsatProof?
    requires db.tasks[c.m.task].proofRequired
    ensures Shrinks(db, FinishUnsat(db, c, verdict, now).0)
  {
    SettleUnsatShrinks(db, c, verdict);
  }

  lemma SettleUnsatShrinks(db: Db, c: Claim, verdict: UnsatVerdict)
    requires HeldIsLeased(db.tasks) && TreeShaped(db.tasks) && c.m.task in db.tasks && c.m.manifest.UnsatProof?
    requires db.tasks[c.m.task].proofRequired
    ensures Shrinks(db, SettleUnsat(db, c, verdict).0)
  {
    var t, artifact := c.m.task, c.m.manifest.artifact;
    match verdict {
      case VALID_UNSAT =>
        CertifyKeepsTree(db, t, artifact, CERTIFIED, SERVER_CERTIFIED);
        PropagateShrinks(CertifyTask(db, t, artifact, CERTIFIED, SERVER_CERTIFIED), db.tasks[t].parent);
      case INVALID_PROOF => QuarantineShrinks(RejectProof(db, t, artifact), c.session);
      case INVALID_FORMULA => CloseShrinks(db, t);
      case _ =>
    }
  }

  lemma ConfirmShrinks(db: Db, artifact: Id, sha256: Id)
    requires HeldIsLeased(db.tasks) && TreeShaped(db.tasks)
    requires artifact in db.proofs ==> db.proofs[artifact].task in db.tasks
    requires artifact in db.proofs ==> db.tasks[db.proofs[artifact].task].proofRequired
    ensures Shrinks(db, ConfirmOwner(db, artifact, sha256).0)
  {
    if artifact in db.proofs && db.proofs[artifact].status.OWNER_CHECK_REQUIRED? && db.proofs[artifact].sha256 == sha256 {
      var t := db.proofs[artifact].task;
      CertifyKeepsTree(db, t, artifact, OWNER_CHECKED, OWNER_VERIFIED);
      if db.tasks[t].state.VERIFYING_UNSAT? {
        PropagateShrinks(CertifyTask(db, t, artifact, OWNER_CHECKED, OWNER_VERIFIED), db.tasks[t].parent);
      } else {
        PropagateShrinks(SetProofStatus(db, artifact, OWNER_VERIFIED), db.tasks[t].parent);
      }
    }
  }

  // ----- the three blocks that can add demand -----

  /** One permit is traded for one extra task. */
  lemma DivideTrades(db: Db, session: Id, m: SplitMessage, now: nat, connectedSlots: nat, positive: Id, negative: Id)
    requires HeldIsLeased(db.tasks) && SplitAccepted(db, session, m, now, connectedSlots)
    requires positive !in db.tasks && negative !in db.tasks && positive != negative
    ensures var db' := Divide(db, session, m, now, positive, negative);
      Demand(db', now) == Demand(db, now) && HeldIsLeased(db'.tasks)
  {
    var db' := Divide(db, session, m, now, positive, negative);
    assert Frontier(db'.tasks) == Frontier(db.tasks) - {m.task} + {positive, negative};
    assert Outstanding(db'.permits, now) == Outstanding(db.permits, now) - {m.permit};
  }

  /** A SAT check without a verdict returns at most one task to the frontier. */
  lemma ReopenAddsOne(db: Db, t: Id, now: nat)
    requires HeldIsLeased(db.tasks) && t in db.tasks
    ensures Demand(Reopen(db, t), now) <= Demand(db, now) + 1 && HeldIsLeased(Reopen(db, t).tasks)
  {
    SubsetSize(Frontier(Reopen(db, t).tasks), Frontier(db.tasks) + {t});
  }

  lemma FinishSatAddsOne(db: Db, c: Claim, verdict: SatVerdict, now: nat)
    requires HeldIsLeased(db.tasks) && c.m.task in db.tasks
    ensures var db' := FinishSat(db, c, verdict, now);
      HeldIsLeased(db'.tasks) &&
      Demand(db', now) <= Demand(db, now) + if verdict.INVALID_MODEL? || verdict.VERIFICATION_TIMEOUT? then 1 else 0
  {
    CloseShrinks(db, c.m.task);
    ReopenAddsOne(db, c.m.task, now);
    QuarantineShrinks(Reopen(db, c.m.task), c.session);
    ShrinksLowers(Reopen(db, c.m.task), Quarantine(Reopen(db, c.m.task), c.session), now, now);
    if verdict.VALID_SAT? {
      ShrinksLowers(db, CloseSat(db, c.m.task), now, now);
    } else if verdict.INVALID_FORMULA? {
      ShrinksLowers(db, CloseInvalid(db), now, now);
    }
  }

  lemma {:induction false} OffersAddAllowance(
    db: Db, candidates: seq<Id>, reachable: set<Id>, ids: map<Id, Id>, undelivered: set<Id>, now: nat, allowance: nat)
    requires forall l :: l in candidates ==> l in db.leases && l in ids && ids[l] !in db.permits
    requires forall i, j :: 0 <= i < j < |candidates| ==> ids[candidates[i]] != ids[candidates[j]]
    ensures var db' := OfferPermits(db, candidates, reachable, ids, undelivered, now, allowance);
      db'.tasks == db.tasks && |Outstanding(db'.permits, now)| <= |Outstanding(db.permits, now)| + allowance
    decreases |candidates|
  {
    if candidates != [] && allowance > 0 {
      var l := candidates[0];
      if db.leases[l].session !in reachable {
        OffersAddAllowance(db, candidates[1..], reachable, ids, undelivered, now, allowance);
      } else {
        var delivered := l !in undelivered;
        var next := GrantPermit(db, l, ids[l], delivered, now);
        var allowance' := if delivered then allowance - 1 else allowance;
        forall k | k in candidates[1..] ensures ids[k] !in next.permits {
          var i :| 0 <= i < |candidates[1..]| && candidates[1..][i] == k;
          assert candidates[i + 1] == k;
        }
        SubsetSize(Outstanding(next.permits, now),
                   Outstanding(db.permits, now) + if delivered then {ids[l]} else {});
        OffersAddAllowance(next, candidates[1..], reachable, ids, undelivered, now, allowance');
      }
    }
  }

  /** Issuing fills the frontier up to its target and never beyond. */
  lemma IssuePermitsCapped(db: Db, sockets: seq<Connection>, ids: map<Id, Id>, undelivered: set<Id>, now: nat)
    requires HeldIsLeased(db.tasks)
    requires db.leases.Keys <= ids.Keys && (forall l :: l in db.leases ==> ids[l] !in db.permits)
    requires forall l, k :: l in db.leases && k in db.leases && l != k ==> ids[l] != ids[k]
    ensures var db' := IssuePermits(db, sockets, ids, undelivered, now);
      HeldIsLeased(db'.tasks) && Demand(db', now) <= Max(Demand(db, now), MAX_FRONTIER)
  {
    var db1 := CancelExpiredPermits(db, now);
    var connected := Connected(sockets, db.quarantined);
    var candidates := SplitCandidates(db1, now);
    SortedIsOrdered(candidates, IssueOrder(db1));
    OffersAddAllowance(db1, Sorted(candidates, IssueOrder(db1)), Reachable(connected), ids, undelivered, now,
                       PermitAllowance(db1, SlotCount(connected), now));
    CancelExpiredKeepsOutstanding(db, now);
    AllowanceFits(db1, SlotCount(connected), now);
    assert Demand(db1, now) == Demand(db, now);
  }

  lemma AllowanceFits(db: Db, connectedSlots: nat, now: nat)
    ensures Demand(db, now) + PermitAllowance(db, connectedSlots, now) <= Max(Demand(db, now), MAX_FRONTIER)
  {
  }

  lemma CancelExpiredKeepsOutstanding(db: Db, now: nat)
    ensures Outstanding(CancelExpiredPermits(db, now).permits, now) == Outstanding(db.permits, now)
  {
  }
}
