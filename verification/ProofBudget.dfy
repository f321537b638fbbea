/** Proof uploads: the recorded bytes stay within the job's budget and no stored object is orphaned. */
module ProofBudget {
  import opened Wrappers
  import opened Cnf
  import opened Rows
  import opened CoordinatorTables

  ghost predicate BudgetOk(db: Db) {
    TotalBytes(db.proofs) <= MAX_PROOF_COMPRESSED_BYTES
  }

  /** Every stored object is named by a proof row or belongs to an upload still under way. */
  ghost predicate ObjectsOwned(db: Db, uploading: set<Id>) {
    forall k :: k in db.objects ==> k in uploading || exists a :: a in db.proofs && db.proofs[a].objectKey == Some(k)
  }

  /** Blocks that at most change the verification status of proof rows. */
  ghost predicate SameUploads(db: Db, db': Db) {
    db'.objects == db.objects && db'.proofs.Keys == db.proofs.Keys &&
    forall a :: a in db.proofs ==> db'.proofs[a] == db.proofs[a].(status := db'.proofs[a].status)
  }

  lemma {:induction false} SumUnaffected(proofs: map<Id, Proof>, proofs': map<Id, Proof>, rows: set<Id>)
    requires rows <= proofs.Keys && rows <= proofs'.Keys
    requires forall a :: a in rows ==> proofs'[a].compressedBytes == proofs[a].compressedBytes
    ensures SumBytes(proofs', rows) == SumBytes(proofs, rows)
  {
    if rows != {} {
      var a :| a in rows && SumBytes(proofs, rows) == proofs[a].compressedBytes + SumBytes(proofs, rows - {a});
      SumRemove(proofs', rows, a);
      SumUnaffected(proofs, proofs', rows - {a});
    }
  }

  /** The total does not depend on the order in which rows are added up. */
  lemma {:induction false} SumRemove(proofs: map<Id, Proof>, rows: set<Id>, a: Id)
    requires rows <= proofs.Keys && a in rows
    ensures SumBytes(proofs, rows) == proofs[a].compressedBytes + SumBytes(proofs, rows - {a})
  {
    var b :| b in rows && SumBytes(proofs, rows) == proofs[b].compressedBytes + SumBytes(proofs, rows - {b});
    if b != a {
      SumRemove(proofs, rows - {b}, a);
      SumRemove(proofs, rows - {a}, b);
      assert rows - {b} - {a} == rows - {a} - {b};
    }
  }

  lemma SameUploadsKeeps(db: Db, db': Db, uploading: set<Id>)
    requires BudgetOk(db) && ObjectsOwned(db, uploading) && SameUploads(db, db')
    ensures BudgetOk(db') && ObjectsOwned(db', uploading)
  {
    SumUnaffected(db.proofs, db'.proofs, db.proofs.Keys);
    forall k | k in db'.objects && k !in uploading
      ensures exists a :: a in db'.proofs && db'.proofs[a].objectKey == Some(k)
    {
      var a :| a in db.proofs && db.proofs[a].objectKey == Some(k);
      assert db'.proofs[a].objectKey == Some(k);
    }
  }

  lemma {:induction false} RemapUploads(db: Db, existing: seq<Id>, slots: seq<Id>, claimed: set<Id>)
    requires forall l :: l in existing ==> l in db.leases
    ensures SameUploads(db, RemapSlots(db, existing, slots, claimed))
    decreases |existing|
  {
    if existing != [] {
      var l := existing[0];
      match ChooseSlot(db.leases[l].slot, slots, claimed)
      case None => RemapUploads(EndLeases(db, {l}, YIELDED, false, KEEP_PERMITS), existing[1..], slots, claimed);
      case Some(slot) => RemapUploads(MoveLease(db, l, slot), existing[1..], slots, claimed + {slot});
    }
  }

  lemma HelloUploads(db: Db, session: Id, slots: seq<Id>, proofGeneration: bool, now: nat)
    ensures SameUploads(db, Hello(db, session, slots, proofGeneration, now))
  {
    var profiled := db.(proofCapable := if proofGeneration then db.proofCapable + {session} else db.proofCapable - {session});
    var existing := LeasesBy(db, session) * Busy(db, now);
    SortedIsOrdered(existing, IssueOrder(db));
    RemapUploads(profiled, Sorted(existing, IssueOrder(db)), slots, {});
  }

  lemma {:induction false} OfferUploads(
    db: Db, candidates: seq<Id>, reachable: set<Id>, ids: map<Id, Id>, undelivered: set<Id>, now: nat, allowance: nat)
    requires forall l :: l in candidates ==> l in db.leases && l in ids
    ensures SameUploads(db, OfferPermits(db, candidates, reachable, ids, undelivered, now, allowance))
    decreases |candidates|
  {
    if candidates != [] && allowance > 0 {
      var l := candidates[0];
      if db.leases[l].session !in reachable {
        OfferUploads(db, candidates[1..], reachable, ids, undelivered, now, allowance);
      } else {
        var delivered := l !in undelivered;
        OfferUploads(GrantPermit(db, l, ids[l], delivered, now), candidates[1..], reachable, ids,
                     undelivered, now, if delivered then allowance - 1 else allowance);
      }
    }
  }

  lemma IssuePermitsUploads(db: Db, sockets: seq<Connection>, ids: map<Id, Id>, undelivered: set<Id>, now: nat)
    requires db.leases.Keys <= ids.Keys
    ensures SameUploads(db, IssuePermits(db, sockets, ids, undelivered, now))
  {
    var db1 := CancelExpiredPermits(db, now);
    var connected := Connected(sockets, db.quarantined);
    var candidates := SplitCandidates(db1, now);
    SortedIsOrdered(candidates, IssueOrder(db1));
    OfferUploads(db1, Sorted(candidates, IssueOrder(db1)), Reachable(connected), ids, undelivered, now,
                 PermitAllowance(db1, SlotCount(connected), now));
  }

  lemma {:induction false} HeartbeatUploads(db: Db, session: Id, slots: seq<Progress>, now: nat)
    ensures SameUploads(db, Heartbeat(db, session, slots, now))
    decreases |slots|
  {
    if slots != [] {
      HeartbeatUploads(RecordProgress(db, session, slots[0], now), session, slots[1..], now);
    }
  }

  lemma {:induction false} PropagateUploads(db: Db, parent: Option<Id>)
    requires TreeShaped(db.tasks) && (parent.Some? ==> parent.value in db.tasks)
    ensures SameUploads(db, Propagate(db, parent).0)
    decreases if parent.Some? then 1 + db.tasks[parent.value].depth else 0
  {
    if parent.Some? && Covered(db, parent.value) && parent.value != ROOT {
      var p := parent.value;
      var certified := SetTask(db, p, db.tasks[p].(state := TaskStateOf(CoverageOf(db, p))));
      ShapeKeepsTree(db.tasks, certified.tasks);
      assert Below(db.tasks, p);
      PropagateUploads(certified, db.tasks[p].parent);
    }
  }

  lemma FinishSatUploads(db: Db, c: Claim, verdict: SatVerdict, now: nat)
    requires c.m.task in db.tasks
    ensures SameUploads(db, FinishSat(db, c, verdict, now))
  {
  }

  lemma FinishUnsatUploads(db: Db, c: Claim, verdict: UnsatVerdict, now: nat)
    requires TreeShaped(db.tasks) && c.m.task in db.tasks && c.m.manifest.UnsatProof?
    ensures SameUploads(db, FinishUnsat(db, c, verdict, now).0)
  {
    SettleUnsatUploads(db, c, verdict);
  }

  lemma SettleUnsatUploads(db: Db, c: Claim, verdict: UnsatVerdict)
    requires TreeShaped(db.tasks) && c.m.task in db.tasks && c.m.manifest.UnsatProof?
    ensures SameUploads(db, SettleUnsat(db, c, verdict).0)
  {
    if verdict.VALID_UNSAT? {
      CertifyKeepsTree(db, c.m.task, c.m.manifest.artifact, CERTIFIED, SERVER_CERTIFIED);
      PropagateUploads(CertifyTask(db, c.m.task, c.m.manifest.artifact, CERTIFIED, SERVER_CERTIFIED), db.tasks[c.m.task].parent);
    }
  }

  lemma ConfirmUploads(db: Db, artifact: Id, sha256: Id)
    requires TreeShaped(db.tasks) && (artifact in db.proofs ==> db.proofs[artifact].task in db.tasks)
    ensures SameUploads(db, ConfirmOwner(db, artifact, sha256).0)
  {
    if artifact in db.proofs && db.proofs[artifact].status.OWNER_CHECK_REQUIRED? && db.proofs[artifact].sha256 == sha256 {
      var t := db.proofs[artifact].task;
      CertifyKeepsTree(db, t, artifact, OWNER_CHECKED, OWNER_VERIFIED);
      if db.tasks[t].state.VERIFYING_UNSAT? {
        PropagateUploads(CertifyTask(db, t, artifact, OWNER_CHECKED, OWNER_VERIFIED), db.tasks[t].parent);
      } else {
        PropagateUploads(SetProofStatus(db, artifact, OWNER_VERIFIED), db.tasks[t].parent);
      }
    }
  }

  /** However uploads interleave, a commit re-reads the budget, so the total never passes it. */
  lemma CommitKeepsBudget(db: Db, lease: Id, sha256: Id, bytes: nat, decompressedBytes: nat, key: Id, now: nat, uploading: set<Id>)
    requires BudgetOk(db) && ObjectsOwned(db, uploading)
    ensures var (db', kept) := CommitProof(db, lease, sha256, bytes, decompressedBytes, key, now);
      && BudgetOk(db') && ObjectsOwned(db', uploading - {key})
      && (kept ==> lease in db'.proofs && db'.proofs[lease].objectKey == Some(key) && lease !in db.proofs)
      && (!kept ==> key !in db'.objects && db'.proofs == db.proofs)
  {
    var (db', kept) := CommitProof(db, lease, sha256, bytes, decompressedBytes, key, now);
    if kept {
      SumRemove(db'.proofs, db'.proofs.Keys, lease);
      assert db'.proofs.Keys - {lease} == db.proofs.Keys;
      SumUnaffected(db.proofs, db'.proofs, db.proofs.Keys);
      assert db'.proofs[lease].objectKey == Some(key);
    }
    forall k | k in db'.objects && k !in uploading - {key}
      ensures exists a :: a in db'.proofs && db'.proofs[a].objectKey == Some(k)
    {
      if k != key {
        var a :| a in db.proofs && db.proofs[a].objectKey == Some(k);
        assert a in db'.proofs && db'.proofs[a].objectKey == Some(k);
      }
    }
  }
}
