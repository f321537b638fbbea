/**
 The coordinator object itself.  Its fields are the tables; each method is one atomic block,
 performed statement by statement, and leaves exactly the tables that `CoordinatorTables`
 specifies for the block.
 */
module JobCoordinatorObject {
  import opened Wrappers
  import opened Cnf
  import opened Rows
  import opened CoordinatorTables
  import opened LeaseSafety
  import opened LeaseSteps
  import SearchSteps
  import opened ProofBudget
  import opened VerdictEffects
  import opened LeaseEffects
  import opened MessageEffects

  lemma EndedOneMore(leases: map<Id, Lease>, done: set<Id>, l: Id, status: LeaseStatus)
    requires l !in done
    ensures EndedLeases(EndedLeases(leases, done, status), {l}, status) == EndedLeases(leases, done + {l}, status)
  {
  }

  lemma ReleasedOneMore(tasks: map<Id, Task>, leases: map<Id, Lease>, done: set<Id>, l: Id, status: LeaseStatus, leasedOnly: bool)
    requires l !in done && l in leases
    ensures ReleasedTasks(ReleasedTasks(tasks, leases, done, leasedOnly), EndedLeases(leases, done, status), {l}, leasedOnly)
         == ReleasedTasks(tasks, leases, done + {l}, leasedOnly)
  {
  }

  lemma DroppedOneMore(tasks: map<Id, Task>, leases: map<Id, Lease>, permits: map<Id, Permit>, done: set<Id>, l: Id,
                       status: LeaseStatus, leasedOnly: bool, rule: PermitRule)
    requires l !in done && l in leases
    ensures DroppedPermits(ReleasedTasks(tasks, leases, done, leasedOnly), EndedLeases(leases, done, status),
                           DroppedPermits(tasks, leases, permits, done, rule), {l}, rule)
         == DroppedPermits(tasks, leases, permits, done + {l}, rule)
  {
    assert Holds(ReleasedTasks(tasks, leases, done, leasedOnly), EndedLeases(leases, done, status), l) == Holds(tasks, leases, l);
  }

  /** Ending one lease after others is ending them together. */
  lemma EndOneMore(db: Db, done: set<Id>, l: Id, status: LeaseStatus, leasedOnly: bool, rule: PermitRule)
    requires l in db.leases && l !in done
    ensures EndLeases(EndLeases(db, done, status, leasedOnly, rule), {l}, status, leasedOnly, rule)
         == EndLeases(db, done + {l}, status, leasedOnly, rule)
  {
    EndedOneMore(db.leases, done, l, status);
    ReleasedOneMore(db.tasks, db.leases, done, l, status, leasedOnly);
    DroppedOneMore(db.tasks, db.leases, db.permits, done, l, status, leasedOnly, rule);
  }

  lemma EndedOne(leases: map<Id, Lease>, l: Id, status: LeaseStatus)
    requires l in leases
    ensures EndedLeases(leases, {l}, status)
         == if leases[l].status.ACTIVE? then leases[l := leases[l].(status := status)] else leases
  {
  }

  lemma ReleasedOne(tasks: map<Id, Task>, leases: map<Id, Lease>, l: Id, leasedOnly: bool)
    requires l in leases
    ensures var t := leases[l].task;
      ReleasedTasks(tasks, leases, {l}, leasedOnly)
      == if Holds(tasks, leases, l) && (leasedOnly ==> tasks[t].state.LEASED?)
         then tasks[t := tasks[t].(state := READY, activeLease := None)] else tasks
  {
  }

  lemma DroppedOne(tasks: map<Id, Task>, leases: map<Id, Lease>, permits: map<Id, Permit>, l: Id, rule: PermitRule)
    ensures DroppedPermits(tasks, leases, permits, {l}, rule)
         == if rule.CANCEL_PERMITS? || (rule.CANCEL_IF_HELD? && Holds(tasks, leases, l))
            then CancelPermitsOf(permits, l) else permits
  {
  }

  lemma EndOne(db: Db, l: Id, status: LeaseStatus, leasedOnly: bool, rule: PermitRule)
    requires l in db.leases
    ensures var t, held := db.leases[l].task, Holds(db.tasks, db.leases, l);
      EndLeases(db, {l}, status, leasedOnly, rule) == db.(
        permits := if rule.CANCEL_PERMITS? || (rule.CANCEL_IF_HELD? && held) then CancelPermitsOf(db.permits, l) else db.permits,
        tasks := if held && (leasedOnly ==> db.tasks[t].state.LEASED?)
                 then db.tasks[t := db.tasks[t].(state := READY, activeLease := None)] else db.tasks,
        leases := if db.leases[l].status.ACTIVE? then db.leases[l := db.leases[l].(status := status)] else db.leases)
  {
    EndedOne(db.leases, l, status);
    ReleasedOne(db.tasks, db.leases, l, leasedOnly);
    DroppedOne(db.tasks, db.leases, db.permits, l, rule);
  }

  lemma EndNone(db: Db, status: LeaseStatus, leasedOnly: bool, rule: PermitRule)
    ensures EndLeases(db, {}, status, leasedOnly, rule) == db
  {
    assert EndedLeases(db.leases, {}, status) == db.leases;
    assert ReleasedTasks(db.tasks, db.leases, {}, leasedOnly) == db.tasks;
    assert DroppedPermits(db.tasks, db.leases, db.permits, {}, rule) == db.permits;
  }

  /** Nobody can split, yield or prolong the task: it names no holder and no lease on it is active. */
  predicate Unheld(db: Db, t: Id) {
    t in db.tasks && db.tasks[t].activeLease.None? &&
    forall l :: l in db.leases && db.leases[l].task == t ==> !db.leases[l].status.ACTIVE?
  }

  function CancelUnverified(tasks: map<Id, Task>): map<Id, Task> {
    map t | t in tasks ::
      if tasks[t].state.CANCELLED? || tasks[t].state.SAT_VERIFIED? then tasks[t]
      else tasks[t].(state := TaskState.CANCELLED, activeLease := None)
  }

  function MarkVerified(tasks: map<Id, Task>, winner: Id): map<Id, Task> {
    map t | t in tasks ::
      if t == winner || t == ROOT then tasks[t].(state := TaskState.SAT_VERIFIED, activeLease := None) else tasks[t]
  }

  lemma WinInTwoUpdates(tasks: map<Id, Task>, winner: Id)
    requires TreeShaped(tasks)
    ensures MarkVerified(CancelUnverified(tasks), winner) == WinTasks(tasks, winner) && TreeShaped(WinTasks(tasks, winner))
    ensures WinTasks(tasks, winner).Keys == tasks.Keys
  {
    ShapeKeepsTree(tasks, WinTasks(tasks, winner));
  }

  /** What every block keeps: the tasks form a tree and every proof row names one of them. */
  ghost predicate Sound(db: Db) {
    TreeShaped(db.tasks) && ProofsKept(db.tasks, db.proofs)
  }

  lemma EndLeasesSound(db: Db, ended: set<Id>, status: LeaseStatus, leasedOnly: bool, rule: PermitRule)
    requires Sound(db)
    ensures Sound(EndLeases(db, ended, status, leasedOnly, rule))
  {
    ShapeKeepsTree(db.tasks, EndLeases(db, ended, status, leasedOnly, rule).tasks);
  }

  lemma LeaseWorkSound(db: Db, session: Id, slot: Id, now: nat, lease: Id)
    requires Sound(db)
    ensures Sound(LeaseWork(db, session, slot, now, lease))
  {
    ShapeKeepsTree(db.tasks, LeaseWork(db, session, slot, now, lease).tasks);
  }

  class JobCoordinator {
    var job: Job
    var tasks: map<Id, Task>
    var leases: map<Id, Lease>
    var permits: map<Id, Permit>
    var proofs: map<Id, Proof>
    var objects: set<Id>
    var processed: seq<Processed>
    var quarantined: set<Id>
    var proofCapable: set<Id>

    function Tables(): Db
      reads this
    {
      Db(job, tasks, leases, permits, proofs, objects, processed, quarantined, proofCapable)
    }

    ghost predicate Valid()
      reads this
    {
      Sound(Tables())
    }

    constructor (formulaHash: Id, variableCount: nat, createdAt: nat, expiresAt: nat)
      ensures Valid() && Tables() == Initial(formulaHash, variableCount, createdAt, expiresAt)
    {
      job := Job(UPLOADING, formulaHash, variableCount, expiresAt);
      tasks := map[ROOT := Task(None, 0, [], READY, createdAt, 0, None, false)];
      leases, permits, proofs, objects, processed := map[], map[], map[], {}, [];
      quarantined, proofCapable := {}, {};
    }

    // ----- the deduplication log -----

    method ProcessedResponse(session: Id, message: Id) returns (reply: Option<Reply>)
      ensures reply == Recorded(processed, session, message)
    {
      var i := 0;
      while i < |processed|
        invariant 0 <= i <= |processed|
        invariant Recorded(processed[i..], session, message) == Recorded(processed, session, message)
      {
        if processed[i].session == session && processed[i].message == message {
          return Some(processed[i].reply);
        }
        i := i + 1;
      }
      return None;
    }

    method RecordProcessed(session: Id, message: Id, reply: Reply, now: nat)
      modifies this`processed
      ensures processed == Record(old(processed), session, message, reply, now)
    {
      var duplicate := ProcessedResponse(session, message);
      if duplicate.None? {
        processed := processed + [Processed(session, message, reply, now)];
      }
      PruneProcessed();
    }

    /** DELETE ... ORDER BY processed_at DESC OFFSET: the oldest records go until the limit is met. */
    method PruneProcessed()
      modifies this`processed
      ensures processed == Prune(old(processed))
    {
      while |processed| > PROCESSED_MESSAGE_LIMIT
        invariant Prune(processed) == Prune(old(processed))
        decreases |processed|
      {
        var oldest := Oldest(processed);
        processed := processed[..oldest] + processed[oldest + 1..];
      }
    }

    // ----- ending leases -----

    /** The three UPDATE statements with which a lease is closed and its task returned. */
    method EndLease(l: Id, status: LeaseStatus, leasedOnly: bool, rule: PermitRule)
      requires l in leases
      modifies this`leases, this`tasks, this`permits
      ensures Tables() == EndLeases(old(Tables()), {l}, status, leasedOnly, rule)
    {
      EndOne(Tables(), l, status, leasedOnly, rule);
      var t := leases[l].task;
      var held := t in tasks && tasks[t].activeLease == Some(l);
      if rule.CANCEL_PERMITS? || (rule.CANCEL_IF_HELD? && held) {
        permits := CancelPermitsOf(permits, l);
      }
      if held && (leasedOnly ==> tasks[t].state.LEASED?) {
        tasks := tasks[t := tasks[t].(state := READY, activeLease := None)];
      }
      if leases[l].status.ACTIVE? {
        leases := leases[l := leases[l].(status := status)];
      }
    }

    method EndEach(ended: set<Id>, status: LeaseStatus, leasedOnly: bool, rule: PermitRule)
      requires Valid() && ended <= leases.Keys
      modifies this`leases, this`tasks, this`permits
      ensures Tables() == EndLeases(old(Tables()), ended, status, leasedOnly, rule)
      ensures Valid()
    {
      ghost var before, done := Tables(), {};
      var rest := ended;
      EndNone(before, status, leasedOnly, rule);
      while rest != {}
        invariant done + rest == ended && done !! rest
        invariant Tables() == EndLeases(before, done, status, leasedOnly, rule)
        decreases rest
      {
        var l :| l in rest;
        EndOneMore(before, done, l, status, leasedOnly, rule);
        assert l in EndLeases(before, done, status, leasedOnly, rule).leases;
        EndLease(l, status, leasedOnly, rule);
        rest, done := rest - {l}, done + {l};
      }
      assert done == ended;
      EndLeasesSound(before, ended, status, leasedOnly, rule);
    }

    method ReleaseQuarantinedSessionLeases(session: Id)
      requires Valid()
      modifies this`leases, this`tasks, this`permits
      ensures Tables() == EndLeases(old(Tables()), LeasesBy(old(Tables()), session), SUPERSEDED, true, CANCEL_PERMITS)
      ensures Valid()
    {
      EndEach(LeasesBy(Tables(), session), SUPERSEDED, true, CANCEL_PERMITS);
    }

    method WebSocketClose(session: Id)
      requires Valid()
      modifies this`leases, this`tasks, this`permits
      ensures Tables() == Disconnect(old(Tables()), session)
      ensures Disconnected(old(Tables()), Tables(), session)
      ensures Valid()
    {
      DisconnectIsExact(Tables(), session);
      EndEach(LeasesBy(Tables(), session), YIELDED, false, CANCEL_PERMITS);
    }

    method RollbackUndeliveredLease(lease: Id)
      requires Valid()
      modifies this`leases, this`tasks, this`permits
      ensures Tables() == RollbackUndelivered(old(Tables()), lease)
      ensures RolledBack(old(Tables()), Tables(), lease)
      ensures Valid()
    {
      RollbackIsExact(Tables(), lease);
      if lease in leases && leases[lease].status.ACTIVE? {
        EndLeasesSound(Tables(), {lease}, EXPIRED, false, KEEP_PERMITS);
        EndLease(lease, EXPIRED, false, KEEP_PERMITS);
      }
    }

    /** Ends the earliest expired leases, one batch at a time. */
    method ExpireBatch(now: nat)
      requires Valid()
      modifies this`leases, this`tasks, this`permits
      ensures Tables() == EndLeases(old(Tables()), (set l | l in AlarmBatch(old(Tables()), now)), EXPIRED, false, CANCEL_IF_HELD)
      ensures Valid()
    {
      SortedIsOrdered(Expired(Tables(), now), ExpiryOrder(Tables()));
      var due := SortRows(Expired(Tables(), now), ExpiryOrder(Tables()));
      if |due| > ALARM_BATCH_SIZE {
        due := due[..ALARM_BATCH_SIZE];
      }
      assert due == AlarmBatch(Tables(), now);
      EndEach((set l | l in due), EXPIRED, false, CANCEL_IF_HELD);
    }

    method AlarmHandler(now: nat)
      requires Valid()
      modifies this`leases, this`tasks, this`permits, this`processed
      ensures Tables() == Alarm(old(Tables()), now)
      ensures AlarmTaken(old(Tables()), Tables(), now)
      ensures Valid()
    {
      AlarmIsExact(Tables(), now);
      if job.state.CANCELLED? || now >= job.expiresAt {
        return;
      }
      ExpireBatch(now);
      PruneProcessed();
    }

    // ----- HELLO, dispatch, permits, heartbeat -----

    method PickSlot(current: Id, slots: seq<Id>, claimed: set<Id>) returns (slot: Option<Id>)
      ensures slot == ChooseSlot(current, slots, claimed)
    {
      if current in slots {
        return Some(current);
      }
      var i := 0;
      while i < |slots|
        invariant 0 <= i <= |slots|
        invariant FirstUnclaimed(slots[i..], claimed) == FirstUnclaimed(slots, claimed)
      {
        if slots[i] !in claimed {
          return Some(slots[i]);
        }
        i := i + 1;
      }
      return None;
    }

    /** After the await of the assignment. */
    method ResumeHello(session: Id, slots: seq<Id>, proofGeneration: bool, now: nat)
      requires Valid()
      modifies this`leases, this`tasks, this`permits, this`proofCapable
      ensures Tables() == Hello(old(Tables()), session, slots, proofGeneration, now)
      ensures Resumed(old(Tables()), Tables(), session, slots, proofGeneration, now)
      ensures Valid()
    {
      HelloIsExact(Tables(), session, slots, proofGeneration, now);
      var found := LeasesBy(Tables(), session) * Busy(Tables(), now);
      SortedIsOrdered(found, IssueOrder(Tables()));
      var existing := SortRows(found, IssueOrder(Tables()));
      proofCapable := if proofGeneration then proofCapable + {session} else proofCapable - {session};
      RefitLeases(existing, slots);
    }

    /** Each lease in turn keeps its slot, takes the first free one, or is yielded. */
    method RefitLeases(existing: seq<Id>, slots: seq<Id>)
      requires Valid()
      requires forall l :: l in existing ==> l in leases
      modifies this`leases, this`tasks, this`permits
      ensures Tables() == RemapSlots(old(Tables()), existing, slots, {})
      ensures Valid()
    {
      ghost var profiled := Tables();
      var claimed := {};
      var i := 0;
      while i < |existing|
        invariant 0 <= i <= |existing| && Valid()
        invariant forall l :: l in existing ==> l in leases && l in profiled.leases
        invariant RemapSlots(Tables(), existing[i..], slots, claimed) == RemapSlots(profiled, existing, slots, {})
      {
        var l := existing[i];
        var slot := PickSlot(leases[l].slot, slots, claimed);
        if slot.None? {
          EndLeasesSound(Tables(), {l}, YIELDED, false, KEEP_PERMITS);
          EndLease(l, YIELDED, false, KEEP_PERMITS);
        } else {
          claimed := claimed + {slot.value};
          leases := leases[l := leases[l].(slot := slot.value)];
        }
        i := i + 1;
      }
    }

    method LeaseWorkForSlot(session: Id, slot: Id, now: nat, lease: Id)
      requires Valid() && lease !in leases
      modifies this`leases, this`tasks, this`job
      ensures Tables() == LeaseWork(old(Tables()), session, slot, now, lease)
      ensures Dispatched(old(Tables()), Tables(), session, slot, now, lease)
      ensures Valid()
    {
      LeaseWorkIsExact(Tables(), session, slot, now, lease);
      if !Live(job) || now >= job.expiresAt || SlotBusy(Tables(), session, slot, now) {
        return;
      }
      var work := Leasable(Tables(), session in proofCapable);
      if work == {} {
        return;
      }
      EarliestExists(work, DispatchOrder(Tables()));
      var t :| t in work && IsEarliest(work, DispatchOrder(Tables()), t);
      EarliestIsUnique(work, DispatchOrder(Tables()), t, Earliest(work, DispatchOrder(Tables())));
      LeaseWorkSound(Tables(), session, slot, now, lease);
      GrantLease(session, slot, now, lease, t);
    }

    method GrantLease(session: Id, slot: Id, now: nat, lease: Id, t: Id)
      requires lease !in leases && t in tasks
      modifies this`leases, this`tasks, this`job
      ensures Tables() == Grant(old(Tables()), session, slot, now, lease, t)
    {
      var task := tasks[t];
      var maximum := Min(now + MAX_LEASE_TENURE_MS, job.expiresAt);
      leases := leases[lease := Lease(t, session, slot, task.leaseCount + 1, now,
                                      Min(now + LEASE_DURATION_MS, maximum), maximum, 0, LeaseStatus.ACTIVE)];
      tasks := tasks[t := task.(state := LEASED, leaseCount := task.leaseCount + 1, activeLease := Some(lease))];
      if job.state.QUEUED? {
        job := job.(state := RUNNING);
      }
    }

    method OfferEach(candidates: seq<Id>, reachable: set<Id>, ids: map<Id, Id>, undelivered: set<Id>, now: nat, allowance: nat)
      requires Valid()
      requires forall l :: l in candidates ==> l in leases && l in ids
      modifies this`permits
      ensures Tables() == OfferPermits(old(Tables()), candidates, reachable, ids, undelivered, now, allowance)
      ensures Valid()
    {
      var remaining := allowance;
      var i := 0;
      while i < |candidates| && remaining > 0
        invariant 0 <= i <= |candidates| && remaining >= 0
        invariant OfferPermits(Tables(), candidates[i..], reachable, ids, undelivered, now, remaining)
               == OfferPermits(old(Tables()), candidates, reachable, ids, undelivered, now, allowance)
      {
        var l := candidates[i];
        ghost var before := Tables();
        if leases[l].session in reachable {
          permits := permits[ids[l] := Permit(leases[l].task, l, leases[l].session, leases[l].slot,
                                              Min(now + SPLIT_PERMIT_MS, leases[l].expiresAt), PermitStatus.ACTIVE)];
          if l in undelivered {
            permits := permits[ids[l] := permits[ids[l]].(status := PermitStatus.CANCELLED)];
          } else {
            remaining := remaining - 1;
          }
          assert permits == GrantPermit(before, l, ids[l], l !in undelivered, now).permits;
        }
        i := i + 1;
      }
    }

    method IssueSplitPermits(sockets: seq<Connection>, ids: map<Id, Id>, undelivered: set<Id>, now: nat)
      requires Valid() && leases.Keys <= ids.Keys
      modifies this`permits
      ensures Tables() == IssuePermits(old(Tables()), sockets, ids, undelivered, now)
      ensures FreshPermits(old(Tables()), ids) ==> PermitsOffered(old(Tables()), Tables(), sockets, ids, undelivered, now)
      ensures Valid()
    {
      if FreshPermits(Tables(), ids) {
        IssuePermitsIsExact(Tables(), sockets, ids, undelivered, now);
      }
      permits := CancelExpiredPermits(Tables(), now).permits;
      var connected := Connected(sockets, quarantined);
      var remaining := PermitAllowance(Tables(), SlotCount(connected), now);
      SortedIsOrdered(SplitCandidates(Tables(), now), IssueOrder(Tables()));
      var candidates := SortRows(SplitCandidates(Tables(), now), IssueOrder(Tables()));
      OfferEach(candidates, Reachable(connected), ids, undelivered, now, remaining);
    }

    method HandleSessionHeartbeat(session: Id, slots: seq<Progress>, now: nat)
      requires Valid()
      modifies this`leases
      ensures Tables() == Heartbeat(old(Tables()), session, slots, now)
      ensures Beaten(old(Tables()), Tables(), session, slots, now)
      ensures Valid()
    {
      HeartbeatIsExact(Tables(), session, slots, now);
      var i := 0;
      while i < |slots|
        invariant 0 <= i <= |slots|
        invariant Heartbeat(Tables(), session, slots[i..], now) == Heartbeat(old(Tables()), session, slots, now)
      {
        var progress := slots[i];
        if progress.lease.Some? && progress.lease.value in leases {
          var lease := leases[progress.lease.value];
          if lease.session == session && lease.slot == progress.slot && lease.status.ACTIVE? &&
             progress.activeMs > lease.lastActiveMs {
            var crossedSplitSeed := lease.lastActiveMs < SPLIT_SEED_MS && progress.activeMs >= SPLIT_SEED_MS;
            var shouldRenew := lease.expiresAt - now <= LEASE_RENEW_THRESHOLD_MS;
            if crossedSplitSeed || shouldRenew {
              var expiresAt := if shouldRenew
                then Min(Min(now + LEASE_DURATION_MS, lease.maximumExpiresAt), job.expiresAt) else lease.expiresAt;
              var recordedActiveMs := if shouldRenew then progress.activeMs else SPLIT_SEED_MS;
              leases := leases[progress.lease.value := lease.(lastActiveMs := recordedActiveMs, expiresAt := expiresAt)];
            }
          }
        }
        i := i + 1;
      }
    }

    // ----- SPLIT and YIELD -----

    method HandleSplit(session: Id, m: SplitMessage, now: nat, connectedSlots: nat, positive: Id, negative: Id) returns (reply: Reply)
      requires Valid() && positive !in tasks && negative !in tasks && positive != negative
      modifies this`tasks, this`leases, this`permits, this`processed
      ensures (Tables(), reply) == SplitTask(old(Tables()), session, m, now, connectedSlots, positive, negative)
      ensures SplitAnswered(old(Tables()), Tables(), reply, session, m, now, connectedSlots, positive, negative)
      ensures Valid()
    {
      SplitIsExact(Tables(), session, m, now, connectedSlots, positive, negative);
      var duplicate := ProcessedResponse(session, m.message);
      if duplicate.Some? {
        return duplicate.value;
      }
      if !HoldsTask(Tables(), session, m.task, m.lease, now) {
        return Error(STALE_LEASE);
      }
      var task := tasks[m.task];
      if leases[m.lease].slot != m.slot || task.depth >= MAX_CUBE_DEPTH || task.proofRequired {
        return Error(INVALID_STATE);
      }
      if !PermitValid(Tables(), session, m, now) {
        return Error(SPLIT_NOT_NEEDED);
      }
      var busySlots := |Busy(Tables(), now)|;
      var frontier := |Frontier(tasks)|;
      if connectedSlots <= busySlots || frontier >= Min(connectedSlots * 2, MAX_FRONTIER) {
        permits := permits[m.permit := permits[m.permit].(status := PermitStatus.CANCELLED)];
        return Error(SPLIT_NOT_NEEDED);
      }
      if |tasks| > MAX_TASKS - 2 {
        permits := permits[m.permit := permits[m.permit].(status := PermitStatus.CANCELLED)];
        return Error(TASK_LIMIT);
      }
      if Abs(m.literal) > job.variableCount || exists l :: l in task.cube && Abs(l) == Abs(m.literal) {
        return Error(INVALID_STATE);
      }
      DivideTask(session, m, now, positive, negative);
      return Ack;
    }

    method DivideTask(session: Id, m: SplitMessage, now: nat, positive: Id, negative: Id)
      requires Valid() && positive !in tasks && negative !in tasks && positive != negative
      requires m.task in tasks && m.lease in leases && m.permit in permits
      modifies this`tasks, this`leases, this`permits, this`processed
      ensures Tables() == Divide(old(Tables()), session, m, now, positive, negative)
      ensures Valid()
    {
      SearchSteps.DivideTree(Tables(), session, m, now, positive, negative);
      var task := tasks[m.task];
      tasks := tasks[positive := Task(Some(m.task), task.depth + 1, task.cube + [m.literal], READY, now, 0, None, false)];
      tasks := tasks[negative := Task(Some(m.task), task.depth + 1, task.cube + [-m.literal], READY, now, 0, None, false)];
      tasks := tasks[m.task := task.(state := TaskState.SPLIT, activeLease := None)];
      leases := leases[m.lease := leases[m.lease].(status := LeaseStatus.SPLIT)];
      permits := permits[m.permit := permits[m.permit].(status := CONSUMED)];
      RecordProcessed(session, m.message, Ack, now);
    }

    method HandleYield(session: Id, m: YieldMessage, now: nat) returns (reply: Reply)
      requires Valid()
      modifies this`tasks, this`leases, this`permits, this`processed, this`proofCapable
      ensures (Tables(), reply) == YieldTask(old(Tables()), session, m, now)
      ensures YieldAnswered(old(Tables()), Tables(), reply, session, m, now)
      ensures Valid()
    {
      YieldIsExact(Tables(), session, m, now);
      var duplicate := ProcessedResponse(session, m.message);
      if duplicate.Some? {
        return duplicate.value;
      }
      if !HoldsTask(Tables(), session, m.task, m.lease, now) || leases[m.lease].slot != m.slot {
        return Error(STALE_LEASE);
      }
      EndLeasesSound(Tables(), {m.lease}, YIELDED, false, CANCEL_PERMITS);
      EndLease(m.lease, YIELDED, false, CANCEL_PERMITS);
      if m.unsupported {
        proofCapable := proofCapable - {session};
      }
      RecordProcessed(session, m.message, Ack, now);
      return Ack;
    }

    // ----- RESULT -----

    /** Up to the await of the path hash: rows are read and checked, nothing is written. */
    method HandleResult(session: Id, m: ResultMessage, now: nat) returns (r: Result<Claim, Reply>)
      ensures r == ReceiveResult(Tables(), session, m, now)
      ensures ResultReceived(Tables(), r, session, m, now)
    {
      ReceiveIsExact(Tables(), session, m, now);
      var duplicate := ProcessedResponse(session, m.message);
      if duplicate.Some? {
        return Err(duplicate.value);
      }
      if m.lease !in leases || leases[m.lease].task != m.task || leases[m.lease].session != session ||
         leases[m.lease].slot != m.slot {
        return Err(Error(STALE_LEASE));
      }
      if m.task !in tasks || now >= job.expiresAt || Closed(job) || tasks[m.task].state.CANCELLED? {
        return Err(Error(INVALID_STATE));
      }
      var lease, task := leases[m.lease], tasks[m.task];
      if m.formulaHash != job.formulaHash || !m.pathMatches || m.cube != task.cube {
        return Err(Error(INVALID_STATE));
      }
      var stale := !lease.status.ACTIVE? || lease.expiresAt <= now || task.activeLease != Some(m.lease);
      return Ok(Claim(session, m, lease, task, stale, now));
    }

    method HandleUnsatCandidate(c: Claim) returns (reply: Reply)
      requires Valid() && c.m.task in tasks
      modifies this`tasks, this`leases, this`permits, this`processed
      ensures (Tables(), reply) == EnterCandidate(old(Tables()), c)
      ensures CandidateAnswered(old(Tables()), Tables(), reply, c)
      ensures Valid()
    {
      CandidateIsExact(Tables(), c);
      if c.task.proofRequired {
        return Error(INVALID_STATE);
      }
      var duplicate := ProcessedResponse(c.session, c.m.message);
      if duplicate.Some? {
        return duplicate.value;
      }
      var reportingCurrentLease := c.lease.status.ACTIVE? && c.task.activeLease == Some(c.m.lease);
      if reportingCurrentLease && !c.task.state.VERIFYING_SAT? {
        QueueForProof(c);
      }
      RecordProcessed(c.session, c.m.message, AckResult(c.stale), c.receivedAt);
      return AckResult(c.stale);
    }

    method QueueForProof(c: Claim)
      requires Valid() && c.m.task in tasks
      modifies this`tasks, this`leases, this`permits
      ensures Tables() == RequestProof(old(Tables()), c)
      ensures Valid()
    {
      tasks := tasks[c.m.task := tasks[c.m.task].(state := READY, proofRequired := true, activeLease := None)];
      leases := EndTaskLeases(leases, c.m.task, c.m.lease);
      permits := CancelPermitsOf(permits, c.m.lease);
      ShapeKeepsTree(old(tasks), tasks);
    }

    method BeginSatVerification(c: Claim) returns (started: bool)
      requires Valid() && c.m.task in tasks
      modifies this`tasks, this`leases
      ensures started == SatClaimBound(old(Tables()), c)
      ensures Tables() == if started then EnterSat(old(Tables()), c) else old(Tables())
      ensures started <==> ModelIsBound(old(Tables()), c)
      ensures started ==> SatCheckBegun(old(Tables()), Tables(), c)
      ensures started ==> tasks[c.m.task].state.VERIFYING_SAT? && Unheld(Tables(), c.m.task)
      ensures Valid()
    {
      EnterSatIsExact(Tables(), c);
      if !c.m.manifest.SatModel? || c.m.manifest.artifact != c.m.lease || c.m.manifest.variableCount != job.variableCount {
        return false;
      }
      tasks := tasks[c.m.task := tasks[c.m.task].(state := VERIFYING_SAT, activeLease := None)];
      ShapeKeepsTree(old(tasks), tasks);
      leases := EndTaskLeases(leases, c.m.task, c.m.lease);
      return true;
    }

    method BeginProofVerification(c: Claim) returns (started: bool)
      requires Valid() && c.m.task in tasks && c.m.manifest.UnsatProof?
      modifies this`tasks, this`leases, this`permits
      ensures started == ProofClaimBound(old(Tables()), c)
      ensures Tables() == if started then EnterProof(old(Tables()), c) else old(Tables())
      ensures started <==> ProofIsBound(old(Tables()), c)
      ensures started ==> ProofCheckBegun(old(Tables()), Tables(), c)
      ensures started ==> tasks[c.m.task].state.VERIFYING_UNSAT? && Unheld(Tables(), c.m.task)
      ensures started ==> forall p :: p in permits && permits[p].task == c.m.task ==> !permits[p].status.ACTIVE?
      ensures Valid()
    {
      EnterProofIsExact(Tables(), c);
      var manifest := c.m.manifest;
      if !c.task.proofRequired || manifest.artifact != c.m.lease || manifest.artifact !in proofs {
        return false;
      }
      var artifact := proofs[manifest.artifact];
      if artifact.task != c.m.task || artifact.sha256 != manifest.sha256 ||
         artifact.compressedBytes != manifest.compressedBytes || artifact.decompressedBytes != manifest.decompressedBytes {
        return false;
      }
      tasks := tasks[c.m.task := tasks[c.m.task].(state := VERIFYING_UNSAT, activeLease := None)];
      ShapeKeepsTree(old(tasks), tasks);
      leases := EndTaskLeases(leases, c.m.task, c.m.lease);
      permits := CancelPermitsFor(permits, c.m.task);
      return true;
    }

    method FinishSatVerification(c: Claim, verdict: SatVerdict, finishedAt: nat)
      requires Valid() && c.m.task in tasks
      modifies this
      ensures Tables() == FinishSat(old(Tables()), c, verdict, finishedAt)
      ensures SatFinished(old(Tables()), Tables(), c, verdict, finishedAt)
      ensures Valid()
    {
      var duplicate := ProcessedResponse(c.session, c.m.message);
      if duplicate.Some? {
        return;
      }
      SettleSatCheck(c, verdict);
      RecordProcessed(c.session, c.m.message, AckResult(c.stale), finishedAt);
      FinishSatIsExact(old(Tables()), c, verdict, finishedAt);
    }

    method SettleSatCheck(c: Claim, verdict: SatVerdict)
      requires Valid() && c.m.task in tasks
      modifies this`job, this`tasks, this`leases, this`permits, this`quarantined
      ensures Tables() == SettleSat(old(Tables()), c, verdict)
      ensures Valid()
    {
      if verdict.VALID_SAT? {
        CloseSatJob(c.m.task);
      } else if verdict.INVALID_FORMULA? {
        CloseInvalidJob();
      } else {
        var task := tasks[c.m.task];
        if task.state.VERIFYING_SAT? {
          tasks := tasks[c.m.task := task.(state := READY, activeLease := None)];
          ShapeKeepsTree(old(tasks), tasks);
        }
        if verdict.INVALID_MODEL? {
          quarantined := quarantined + {c.session};
          ReleaseQuarantinedSessionLeases(c.session);
        }
      }
    }

    method CloseSatJob(winner: Id)
      requires Valid()
      modifies this`job, this`tasks, this`leases
      ensures Tables() == CloseSat(old(Tables()), winner)
      ensures Valid()
    {
      WinInTwoUpdates(tasks, winner);
      tasks := CancelUnverified(tasks);
      tasks := MarkVerified(tasks, winner);
      job := job.(state := JobState.SAT_VERIFIED);
      leases := EndAllLeases(leases, SUPERSEDED);
    }

    method CloseInvalidJob()
      requires Valid()
      modifies this`job, this`tasks, this`leases
      ensures Tables() == CloseInvalid(old(Tables()))
      ensures Valid()
    {
      job := job.(state := JobState.INVALID);
      tasks := AbandonTasks(tasks);
      ShapeKeepsTree(old(tasks), tasks);
      leases := EndAllLeases(leases, SUPERSEDED);
    }

    // ----- UNSAT coverage -----

    method CloseUnsatJob(v: Terminal)
      requires Valid()
      modifies this`job, this`tasks, this`leases
      ensures Tables() == CloseUnsat(old(Tables()), v)
      ensures Valid()
    {
      ShapeKeepsTree(tasks, CancelOpenTasks(tasks));
      job := job.(state := JobStateOf(v));
      tasks := CancelOpenTasks(tasks);
      leases := EndAllLeases(leases, SUPERSEDED);
    }

    /** The two child rows are compared with their parent before anything is concluded from them. */
    method ChildrenCover(p: Id) returns (covers: bool)
      ensures covers == Covered(Tables(), p)
    {
      if p !in tasks || !tasks[p].state.SPLIT? {
        return false;
      }
      var children := Children(Tables(), p);
      if |children| != 2 || exists c :: c in children && !tasks[c].Certified() {
        return false;
      }
      var left :| left in children;
      assert |children - {left}| == 1;
      var right :| right in children - {left};
      assert children == {left, right} by {
        assert |children - {left, right}| == 0;
      }
      var cube, a, b := tasks[p].cube, tasks[left].cube, tasks[right].cube;
      var prefixIntact := |a| == |cube| + 1 && |b| == |cube| + 1 && cube <= a && cube <= b;
      covers := prefixIntact && a[|a| - 1] == -b[|b| - 1];
      assert covers == Complementary(cube, a, b);
      assert Complementary(cube, a, b) == Complementary(cube, b, a);
    }

    method CertifyParent(p: Id) returns (v: Terminal)
      requires Valid() && p in tasks
      modifies this`tasks
      ensures v == CoverageOf(old(Tables()), p)
      ensures Tables() == SetTask(old(Tables()), p, old(tasks[p]).(state := TaskStateOf(v)))
      ensures Valid() && (tasks[p].parent.Some? ==> Below(tasks, p))
    {
      v := CoverageOf(Tables(), p);
      tasks := tasks[p := tasks[p].(state := TaskStateOf(v))];
      ShapeKeepsTree(old(tasks), tasks);
    }

    method PropagateUnsatCoverage(parent: Option<Id>) returns (terminal: Option<Terminal>)
      requires Valid() && (parent.Some? ==> parent.value in tasks)
      modifies this`job, this`tasks, this`leases
      ensures (Tables(), terminal) == Propagate(old(Tables()), parent)
      ensures Valid()
    {
      var parentId := parent;
      while parentId.Some?
        invariant Valid() && (parentId.Some? ==> parentId.value in tasks)
        invariant Propagate(Tables(), parentId) == Propagate(old(Tables()), parent)
        invariant proofs == old(proofs)
        decreases if parentId.Some? then 1 + tasks[parentId.value].depth else 0
      {
        var p := parentId.value;
        var covers := ChildrenCover(p);
        if !covers {
          return None;
        }
        var v := CertifyParent(p);
        if p == ROOT {
          CloseUnsatJob(v);
          return Some(v);
        }
        parentId := tasks[p].parent;
      }
      if tasks[ROOT].state.UNSAT_CERTIFIED? {
        CloseUnsatJob(CERTIFIED);
        return Some(CERTIFIED);
      }
      if tasks[ROOT].state.UNSAT_OWNER_VERIFIED? {
        CloseUnsatJob(OWNER_CHECKED);
        return Some(OWNER_CHECKED);
      }
      return None;
    }

    method MarkProof(artifact: Id, status: ProofStatus)
      requires Valid()
      modifies this`proofs
      ensures Tables() == SetProofStatus(old(Tables()), artifact, status)
      ensures Valid()
    {
      if artifact in proofs {
        proofs := proofs[artifact := proofs[artifact].(status := status)];
      }
    }

    method DiscardProof(t: Id, artifact: Id, session: Id)
      requires Valid() && t in tasks
      modifies this`tasks, this`leases, this`permits, this`proofs, this`quarantined
      ensures Tables() == Quarantine(RejectProof(old(Tables()), t, artifact), session)
      ensures Valid()
    {
      MarkProof(artifact, ProofStatus.INVALID);
      tasks := tasks[t := tasks[t].(state := READY, proofRequired := true, activeLease := None)];
      ShapeKeepsTree(old(tasks), tasks);
      quarantined := quarantined + {session};
      ReleaseQuarantinedSessionLeases(session);
    }

    method FinishProofVerification(c: Claim, verdict: UnsatVerdict, finishedAt: nat) returns (terminal: Option<Terminal>)
      requires Valid() && c.m.task in tasks && c.m.manifest.UnsatProof?
      modifies this
      ensures (Tables(), terminal) == FinishUnsat(old(Tables()), c, verdict, finishedAt)
      ensures ProofFinished(old(Tables()), Tables(), c, verdict, finishedAt, terminal)
      ensures Valid()
    {
      terminal := None;
      var duplicate := ProcessedResponse(c.session, c.m.message);
      if duplicate.Some? {
        return;
      }
      terminal := SettleProofCheck(c, verdict);
      RecordProcessed(c.session, c.m.message, AckResult(c.stale), finishedAt);
      FinishUnsatIsExact(old(Tables()), c, verdict, finishedAt);
    }

    method SettleProofCheck(c: Claim, verdict: UnsatVerdict) returns (terminal: Option<Terminal>)
      requires Valid() && c.m.task in tasks && c.m.manifest.UnsatProof?
      modifies this`job, this`tasks, this`leases, this`permits, this`proofs, this`quarantined
      ensures (Tables(), terminal) == SettleUnsat(old(Tables()), c, verdict)
      ensures Valid()
    {
      terminal := None;
      var t, artifact := c.m.task, c.m.manifest.artifact;
      match verdict {
        case VALID_UNSAT =>
          CertifyKeepsTree(Tables(), t, artifact, CERTIFIED, SERVER_CERTIFIED);
          MarkProof(artifact, SERVER_CERTIFIED);
          tasks := tasks[t := tasks[t].(state := TaskState.UNSAT_CERTIFIED)];
          terminal := PropagateUnsatCoverage(tasks[t].parent);
        case OWNER_CHECK_REQUIRED => MarkProof(artifact, ProofStatus.OWNER_CHECK_REQUIRED);
        case INVALID_FORMULA => CloseInvalidJob();
        case VERIFICATION_TIMEOUT =>
          tasks := tasks[t := tasks[t].(state := READY, proofRequired := true)];
          ShapeKeepsTree(old(tasks), tasks);
        case INVALID_PROOF =>
          DiscardProof(t, artifact, c.session);
      }
    }

    method ConfirmOwnerProof(artifact: Id, sha256: Id) returns (terminal: Option<Terminal>)
      requires Valid()
      modifies this
      ensures (Tables(), terminal) == ConfirmOwner(old(Tables()), artifact, sha256)
      ensures OwnerOutcome(old(Tables()), Tables(), artifact, sha256, terminal)
      ensures Valid()
    {
      ConfirmIsExact(Tables(), artifact, sha256);
      if artifact !in proofs || !proofs[artifact].status.OWNER_CHECK_REQUIRED? || proofs[artifact].sha256 != sha256 {
        return None;
      }
      var t := proofs[artifact].task;
      CertifyKeepsTree(Tables(), t, artifact, OWNER_CHECKED, OWNER_VERIFIED);
      MarkProof(artifact, OWNER_VERIFIED);
      if tasks[t].state.VERIFYING_UNSAT? {
        tasks := tasks[t := tasks[t].(state := TaskState.UNSAT_OWNER_VERIFIED)];
      }
      terminal := PropagateUnsatCoverage(tasks[t].parent);
    }

    /** Nothing is left to lease, finish or check. */
    method CancelJob()
      requires Valid()
      modifies this`job, this`tasks, this`leases
      ensures Tables() == Cancel(old(Tables()))
      ensures JobCancelled(old(Tables()), Tables())
      ensures job.state.CANCELLED? && job.(state := old(job).state) == old(job)
      ensures old(job).state.CANCELLED? || forall l :: l in leases ==> !leases[l].status.ACTIVE?
      ensures old(job).state.CANCELLED? || forall t :: t in tasks ==> tasks[t].activeLease.None? && !tasks[t].Open()
      ensures Valid()
    {
      CancelIsExact(Tables());
      if !job.state.CANCELLED? {
        job := job.(state := JobState.CANCELLED);
        tasks := CancelTasks(tasks);
        ShapeKeepsTree(old(tasks), tasks);
        leases := EndAllLeases(leases, LeaseStatus.CANCELLED);
      }
    }

    // ----- proof uploads -----

    /** SELECT SUM(compressed_bytes), row by row. */
    method UsedProofBytes() returns (total: nat)
      ensures total == TotalBytes(proofs)
    {
      total := 0;
      var rest := proofs.Keys;
      while rest != {}
        invariant rest <= proofs.Keys
        invariant total + SumBytes(proofs, rest) == TotalBytes(proofs)
        decreases rest
      {
        var a :| a in rest;
        SumRemove(proofs, rest, a);
        total := total + proofs[a].compressedBytes;
        rest := rest - {a};
      }
    }

    method AuthorizeProofUpload(lease: Id, bytes: nat, decompressedBytes: nat, now: nat) returns (ok: bool)
      ensures ok == (MayUploadProof(Tables(), lease, decompressedBytes, now) && WithinBudget(Tables(), bytes))
    {
      if !MayUploadProof(Tables(), lease, decompressedBytes, now) {
        return false;
      }
      var used := UsedProofBytes();
      return 1 <= bytes <= MAX_PROOF_COMPRESSED_BYTES - used;
    }

    /** First half of `storeProof`: authorization and the upload of the object. */
    method BeginStoreProof(lease: Id, bytes: nat, decompressedBytes: nat, key: Id, now: nat) returns (stored: bool)
      requires Valid()
      modifies this`objects
      ensures (Tables(), stored) == PutProof(old(Tables()), lease, bytes, decompressedBytes, key, now)
      ensures UploadBegun(old(Tables()), Tables(), stored, lease, bytes, decompressedBytes, key, now)
      ensures Valid()
    {
      UploadIsExact(Tables(), lease, lease, bytes, decompressedBytes, key, now);
      stored := AuthorizeProofUpload(lease, bytes, decompressedBytes, now);
      if stored {
        objects := objects + {key};
      }
    }

    /** Second half: authorization is repeated, the row inserted, or the object deleted again. */
    method CommitStoreProof(lease: Id, sha256: Id, bytes: nat, decompressedBytes: nat, key: Id, now: nat) returns (kept: bool)
      requires Valid()
      modifies this`objects, this`proofs
      ensures (Tables(), kept) == CommitProof(old(Tables()), lease, sha256, bytes, decompressedBytes, key, now)
      ensures UploadEnded(old(Tables()), Tables(), kept, lease, sha256, bytes, decompressedBytes, key, now)
      ensures Valid()
    {
      UploadIsExact(Tables(), lease, sha256, bytes, decompressedBytes, key, now);
      kept := AuthorizeProofUpload(lease, bytes, decompressedBytes, now);
      if kept && lease !in proofs {
        proofs := proofs[lease := Proof(leases[lease].task, sha256, bytes, decompressedBytes, Some(key), UPLOADED)];
      } else {
        kept := false;
        objects := objects - {key};
      }
    }
  }
}
