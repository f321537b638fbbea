/**
 Bookkeeping of leases, permits and tasks: what one atomic block may do to each record,
 exclusivity of leases, lease deadlines, and the conservation laws of splitting.
 */
module LeaseSafety {
  import opened Wrappers
  import opened Cnf
  import opened Rows
  import opened CoordinatorTables

  // ----- how single records evolve -----

  /** An ended lease never changes status again; deadlines and active time never go back. */
  predicate LeaseEvolves(a: Lease, b: Lease) {
    && b.task == a.task && b.session == a.session && b.issuedAt == a.issuedAt
    && b.maximumExpiresAt == a.maximumExpiresAt
    && b.expiresAt >= a.expiresAt && b.lastActiveMs >= a.lastActiveMs
    && (b.status == a.status || a.status.ACTIVE?)
  }

  predicate PermitEvolves(a: Permit, b: Permit) {
    b == a || (a.status.ACTIVE? && b == a.(status := b.status))
  }

  /** Every lease lives inside its tenure and inside the job. */
  predicate DeadlineOk(job: Job, lease: Lease) {
    lease.issuedAt < lease.expiresAt <= lease.maximumExpiresAt <= lease.issuedAt + MAX_LEASE_TENURE_MS &&
    lease.maximumExpiresAt <= job.expiresAt
  }

  /** Cubes name distinct variables of the formula and are as long as the task is deep. */
  ghost predicate CubesOk(db: Db) {
    forall t :: t in db.tasks ==> CubeOk(db.tasks[t].cube, db.job.variableCount)
  }

  ghost predicate CubeOk(cube: Cube, variableCount: nat) {
    |cube| <= MAX_CUBE_DEPTH &&
    (forall i :: 0 <= i < |cube| ==> 1 <= Abs(cube[i]) <= variableCount) &&
    (forall i, j :: 0 <= i < j < |cube| ==> Abs(cube[i]) != Abs(cube[j]))
  }

  function SplitLeases(db: Db): set<Id> {
    set l | l in db.leases && db.leases[l].status.SPLIT?
  }

  function ConsumedPermits(db: Db): set<Id> {
    set p | p in db.permits && db.permits[p].status.CONSUMED?
  }

  /** Every two tasks beyond the root were paid for by one split lease and one consumed permit. */
  ghost predicate Conserved(db: Db) {
    |db.tasks| == 1 + 2 * |SplitLeases(db)| && |SplitLeases(db)| == |ConsumedPermits(db)| && |db.tasks| <= MAX_TASKS - 1
  }

  predicate HeldThoughClosed(task: Task) {
    (task.state.CANCELLED? || task.state.SAT_VERIFIED?) && task.activeLease.Some?
  }

  /** Cancelled and satisfied tasks have no holder. */
  ghost predicate ClosedIsFree(tasks: map<Id, Task>) {
    forall t :: t in tasks ==> !HeldThoughClosed(tasks[t])
  }

  ghost predicate RecordsOk(db: Db) {
    LinksOk(db) && CubesOk(db) && Conserved(db) && TreeShaped(db.tasks) && ClosedIsFree(db.tasks)
  }

  // ----- blocks other than an accepted split -----

  ghost predicate LeasesKept(job: Job, tasks: map<Id, Task>, leases: map<Id, Lease>, leases': map<Id, Lease>) {
    && (forall l :: l in leases ==> l in leases' && LeaseEvolves(leases[l], leases'[l]))
    && (forall l :: l in leases' ==>
          DeadlineOk(job, leases'[l]) && leases'[l].task in tasks && (leases'[l].status.SPLIT? ==> l in leases && leases[l].status.SPLIT?))
  }

  ghost predicate PermitsKept(leases: map<Id, Lease>, permits: map<Id, Permit>, permits': map<Id, Permit>) {
    && (forall p :: p in permits ==> p in permits' && PermitEvolves(permits[p], permits'[p]))
    && (forall p :: p in permits' ==>
          permits'[p].lease in leases && (permits'[p].status.CONSUMED? ==> p in permits && permits[p].status.CONSUMED?))
  }

  ghost predicate ProofsKept(tasks: map<Id, Task>, proofs: map<Id, Proof>) {
    forall a :: a in proofs ==> proofs[a].task in tasks
  }

  /** Tasks that once asked for a proof keep asking, none is closed while held; the tree and the job's limits stay. */
  ghost predicate TasksKept(tasks: map<Id, Task>, tasks': map<Id, Task>) {
    && SameShape(tasks, tasks')
    && (forall t :: t in tasks && tasks[t].proofRequired ==> tasks'[t].proofRequired)
    && (forall t :: t in tasks && !HeldThoughClosed(tasks[t]) ==> !HeldThoughClosed(tasks'[t]))
  }

  ghost predicate JobKept(job: Job, job': Job) {
    job' == job.(state := job'.state)
  }

  ghost predicate Orderly(db: Db, db': Db) {
    LeasesKept(db.job, db.tasks, db.leases, db'.leases) && PermitsKept(db'.leases, db.permits, db'.permits) &&
    ProofsKept(db.tasks, db'.proofs) && TasksKept(db.tasks, db'.tasks) && JobKept(db.job, db'.job)
  }

  /** Leases name tasks, permits name leases, proofs name tasks; every lease keeps its deadlines. */
  ghost predicate LinksOk(db: Db) {
    Orderly(db, db)
  }

  lemma OrderlyKeeps(db: Db, db': Db)
    requires LinksOk(db) && Orderly(db, db')
    ensures LinksOk(db')
  {
  }

  lemma OrderlyConserves(db: Db, db': Db)
    requires Conserved(db) && Orderly(db, db')
    ensures Conserved(db')
  {
    assert SplitLeases(db') == SplitLeases(db) by {
      assert LeasesKept(db.job, db.tasks, db.leases, db'.leases);
    }
    assert ConsumedPermits(db') == ConsumedPermits(db) by {
      assert PermitsKept(db'.leases, db.permits, db'.permits);
    }
    assert |db'.tasks| == |db'.tasks.Keys| == |db.tasks|;
  }

  lemma OrderlyKeepsCubes(db: Db, db': Db)
    requires CubesOk(db) && Orderly(db, db')
    ensures CubesOk(db')
  {
  }

  lemma OrderlyKeepsRecords(db: Db, db': Db)
    requires RecordsOk(db) && Orderly(db, db')
    ensures RecordsOk(db')
  {
    OrderlyKeeps(db, db');
    OrderlyConserves(db, db');
    OrderlyKeepsCubes(db, db');
    ShapeKeepsTree(db.tasks, db'.tasks);
  }

  lemma LeasesKeptTransitive(job: Job, tasks: map<Id, Task>, a: map<Id, Lease>, b: map<Id, Lease>, c: map<Id, Lease>)
    requires LeasesKept(job, tasks, a, b) && LeasesKept(job, tasks, b, c)
    ensures LeasesKept(job, tasks, a, c)
  {
  }

  lemma PermitsKeptTransitive(la: map<Id, Lease>, lb: map<Id, Lease>, a: map<Id, Permit>, b: map<Id, Permit>, c: map<Id, Permit>)
    requires PermitsKept(la, a, b) && PermitsKept(lb, b, c)
    ensures PermitsKept(lb, a, c)
  {
  }

  lemma SameTasksAndJob(job: Job, job': Job, tasks: map<Id, Task>, tasks': map<Id, Task>, leases: map<Id, Lease>, leases': map<Id, Lease>)
    requires JobKept(job, job') && SameShape(tasks, tasks')
    ensures LeasesKept(job', tasks', leases, leases') <==> LeasesKept(job, tasks, leases, leases')
  {
  }

  lemma OrderlyTransitive(a: Db, b: Db, c: Db)
    requires Orderly(a, b) && Orderly(b, c)
    ensures Orderly(a, c)
  {
    SameTasksAndJob(a.job, b.job, a.tasks, b.tasks, b.leases, c.leases);
    LeasesKeptTransitive(a.job, a.tasks, a.leases, b.leases, c.leases);
    PermitsKeptTransitive(b.leases, c.leases, a.permits, b.permits, c.permits);
  }

  lemma EndedLeasesKept(job: Job, tasks: map<Id, Task>, leases: map<Id, Lease>, ended: set<Id>, status: LeaseStatus)
    requires LeasesKept(job, tasks, leases, leases) && !status.SPLIT?
    ensures LeasesKept(job, tasks, leases, EndedLeases(leases, ended, status))
    ensures EndedLeases(leases, ended, status).Keys == leases.Keys
  {
  }

  lemma DroppedPermitsKept(tasks: map<Id, Task>, leases: map<Id, Lease>, permits: map<Id, Permit>, ended: set<Id>,
                           rule: PermitRule, leases': map<Id, Lease>)
    requires PermitsKept(leases, permits, permits) && leases'.Keys == leases.Keys
    ensures PermitsKept(leases', permits, DroppedPermits(tasks, leases, permits, ended, rule))
  {
  }

  lemma ReleasedTasksKept(tasks: map<Id, Task>, leases: map<Id, Lease>, ended: set<Id>, leasedOnly: bool)
    ensures TasksKept(tasks, ReleasedTasks(tasks, leases, ended, leasedOnly))
  {
  }

  lemma EndLeasesOrderly(db: Db, ended: set<Id>, status: LeaseStatus, leasedOnly: bool, rule: PermitRule)
    requires LinksOk(db) && !status.SPLIT?
    ensures Orderly(db, EndLeases(db, ended, status, leasedOnly, rule))
  {
    EndedLeasesKept(db.job, db.tasks, db.leases, ended, status);
    DroppedPermitsKept(db.tasks, db.leases, db.permits, ended, rule, EndedLeases(db.leases, ended, status));
    ReleasedTasksKept(db.tasks, db.leases, ended, leasedOnly);
  }

  lemma {:induction false} RemapOrderly(db: Db, existing: seq<Id>, slots: seq<Id>, claimed: set<Id>)
    requires LinksOk(db) && forall l :: l in existing ==> l in db.leases
    ensures Orderly(db, RemapSlots(db, existing, slots, claimed))
    decreases |existing|
  {
    if existing == [] {
      assert Orderly(db, db);
    } else {
      var l := existing[0];
      match ChooseSlot(db.leases[l].slot, slots, claimed)
      case None =>
        var next := EndLeases(db, {l}, YIELDED, false, KEEP_PERMITS);
        EndLeasesOrderly(db, {l}, YIELDED, false, KEEP_PERMITS);
        OrderlyKeeps(db, next);
        RemapOrderly(next, existing[1..], slots, claimed);
        OrderlyTransitive(db, next, RemapSlots(next, existing[1..], slots, claimed));
      case Some(slot) =>
        var next := MoveLease(db, l, slot);
        assert Orderly(db, next);
        OrderlyKeeps(db, next);
        RemapOrderly(next, existing[1..], slots, claimed + {slot});
        OrderlyTransitive(db, next, RemapSlots(next, existing[1..], slots, claimed + {slot}));
    }
  }

  lemma HelloOrderly(db: Db, session: Id, slots: seq<Id>, proofGeneration: bool, now: nat)
    requires LinksOk(db)
    ensures Orderly(db, Hello(db, session, slots, proofGeneration, now))
  {
    assert Orderly(db, db);
    var profiled := db.(proofCapable := if proofGeneration then db.proofCapable + {session} else db.proofCapable - {session});
    var existing := LeasesBy(db, session) * Busy(db, now);
    SortedIsOrdered(existing, IssueOrder(db));
    assert Orderly(db, profiled);
    OrderlyKeeps(db, profiled);
    RemapOrderly(profiled, Sorted(existing, IssueOrder(db)), slots, {});
    OrderlyTransitive(db, profiled, Hello(db, session, slots, proofGeneration, now));
  }

  lemma LeaseWorkOrderly(db: Db, session: Id, slot: Id, now: nat, lease: Id)
    requires LinksOk(db) && lease !in db.leases
    ensures Orderly(db, LeaseWork(db, session, slot, now, lease))
  {
    var work := Leasable(db, session in db.proofCapable);
    if work != {} && now < db.job.expiresAt {
      GrantOrderly(db, session, slot, now, lease, Earliest(work, DispatchOrder(db)));
    }
  }

  lemma GrantOrderly(db: Db, session: Id, slot: Id, now: nat, lease: Id, t: Id)
    requires LinksOk(db) && lease !in db.leases && t in db.tasks && now < db.job.expiresAt
    ensures Orderly(db, Grant(db, session, slot, now, lease, t))
  {
  }

  lemma {:induction false} OfferPermitsOrderly(
    db: Db, candidates: seq<Id>, reachable: set<Id>, ids: map<Id, Id>, undelivered: set<Id>, now: nat, allowance: nat)
    requires LinksOk(db)
    requires forall l :: l in candidates ==> l in db.leases && l in ids && ids[l] !in db.permits
    requires forall i, j :: 0 <= i < j < |candidates| ==> ids[candidates[i]] != ids[candidates[j]]
    ensures Orderly(db, OfferPermits(db, candidates, reachable, ids, undelivered, now, allowance))
    decreases |candidates|
  {
    if candidates == [] || allowance == 0 {
      assert Orderly(db, db);
    } else {
      var l := candidates[0];
      if db.leases[l].session !in reachable {
        OfferPermitsOrderly(db, candidates[1..], reachable, ids, undelivered, now, allowance);
      } else {
        var delivered := l !in undelivered;
        var next := GrantPermit(db, l, ids[l], delivered, now);
        assert Orderly(db, next);
        OrderlyKeeps(db, next);
        var allowance' := if delivered then allowance - 1 else allowance;
        forall k | k in candidates[1..] ensures ids[k] !in next.permits {
          var i :| 0 <= i < |candidates[1..]| && candidates[1..][i] == k;
          assert candidates[i + 1] == k;
        }
        OfferPermitsOrderly(next, candidates[1..], reachable, ids, undelivered, now, allowance');
        OrderlyTransitive(db, next, OfferPermits(next, candidates[1..], reachable, ids, undelivered, now, allowance'));
      }
    }
  }

  /** New permit identifiers are unused and distinct. */
  ghost predicate FreshPermits(db: Db, ids: map<Id, Id>) {
    db.leases.Keys <= ids.Keys &&
    (forall l :: l in db.leases ==> ids[l] !in db.permits) &&
    (forall l, k :: l in db.leases && k in db.leases && l != k ==> ids[l] != ids[k])
  }

  lemma CancelExpiredOrderly(db: Db, now: nat)
    requires LinksOk(db)
    ensures Orderly(db, CancelExpiredPermits(db, now)) && LinksOk(CancelExpiredPermits(db, now))
  {
    OrderlyKeeps(db, CancelExpiredPermits(db, now));
  }

  lemma IssuePermitsOrderly(db: Db, sockets: seq<Connection>, ids: map<Id, Id>, undelivered: set<Id>, now: nat)
    requires LinksOk(db) && FreshPermits(db, ids)
    ensures Orderly(db, IssuePermits(db, sockets, ids, undelivered, now))
  {
    var db1 := CancelExpiredPermits(db, now);
    var connected := Connected(sockets, db.quarantined);
    var candidates := SplitCandidates(db1, now);
    SortedIsOrdered(candidates, IssueOrder(db1));
    CancelExpiredOrderly(db, now);
    OfferPermitsOrderly(db1, Sorted(candidates, IssueOrder(db1)), Reachable(connected), ids, undelivered, now,
                        PermitAllowance(db1, SlotCount(connected), now));
    OrderlyTransitive(db, db1, IssuePermits(db, sockets, ids, undelivered, now));
  }

  /** A heartbeat can only move a deadline later, and never past the tenure or the job. */
  lemma ProgressOrderly(db: Db, session: Id, progress: Progress, now: nat)
    requires LinksOk(db)
    ensures Orderly(db, RecordProgress(db, session, progress, now))
  {
  }

  lemma {:induction false} HeartbeatOrderly(db: Db, session: Id, slots: seq<Progress>, now: nat)
    requires LinksOk(db)
    ensures Orderly(db, Heartbeat(db, session, slots, now))
    decreases |slots|
  {
    if slots == [] {
      assert Orderly(db, db);
    } else {
      var next := RecordProgress(db, session, slots[0], now);
      ProgressOrderly(db, session, slots[0], now);
      OrderlyKeeps(db, next);
      HeartbeatOrderly(next, session, slots[1..], now);
      OrderlyTransitive(db, next, Heartbeat(next, session, slots[1..], now));
    }
  }

  lemma YieldOrderly(db: Db, session: Id, m: YieldMessage, now: nat)
    requires LinksOk(db)
    ensures Orderly(db, YieldTask(db, session, m, now).0)
  {
    EndLeasesOrderly(db, {m.lease}, YIELDED, false, CANCEL_PERMITS);
  }

  lemma TaskLeasesKept(job: Job, tasks: map<Id, Task>, leases: map<Id, Lease>, task: Id, reporting: Id)
    requires LeasesKept(job, tasks, leases, leases)
    ensures LeasesKept(job, tasks, leases, EndTaskLeases(leases, task, reporting))
    ensures EndTaskLeases(leases, task, reporting).Keys == leases.Keys
  {
  }

  lemma CancelledPermitsKept(leases: map<Id, Lease>, permits: map<Id, Permit>, lease: Id, task: Id, leases': map<Id, Lease>)
    requires PermitsKept(leases, permits, permits) && leases'.Keys == leases.Keys
    ensures PermitsKept(leases', permits, permits)
    ensures PermitsKept(leases', permits, CancelPermitsOf(permits, lease))
    ensures PermitsKept(leases', permits, CancelPermitsFor(permits, task))
  {
  }

  lemma EnterCandidateOrderly(db: Db, c: Claim)
    requires LinksOk(db) && c.m.task in db.tasks
    ensures Orderly(db, EnterCandidate(db, c).0)
  {
    var db' := EnterCandidate(db, c).0;
    if db' != db {
      RequestProofOrderly(db, c);
      var requested := RequestProof(db, c);
      assert db' == Logged(db, c, c.receivedAt) || db' == Logged(requested, c, c.receivedAt);
    }
  }

  lemma RequestProofOrderly(db: Db, c: Claim)
    requires LinksOk(db) && c.m.task in db.tasks
    ensures Orderly(db, RequestProof(db, c))
  {
    TaskLeasesKept(db.job, db.tasks, db.leases, c.m.task, c.m.lease);
    CancelledPermitsKept(db.leases, db.permits, c.m.lease, c.m.task, EndTaskLeases(db.leases, c.m.task, c.m.lease));
  }

  lemma EnterSatOrderly(db: Db, c: Claim)
    requires LinksOk(db) && c.m.task in db.tasks
    ensures Orderly(db, EnterSat(db, c))
  {
    TaskLeasesKept(db.job, db.tasks, db.leases, c.m.task, c.m.lease);
    CancelledPermitsKept(db.leases, db.permits, c.m.lease, c.m.task, EndTaskLeases(db.leases, c.m.task, c.m.lease));
  }

  lemma EnterProofOrderly(db: Db, c: Claim)
    requires LinksOk(db) && c.m.task in db.tasks
    ensures Orderly(db, EnterProof(db, c))
  {
    TaskLeasesKept(db.job, db.tasks, db.leases, c.m.task, c.m.lease);
    CancelledPermitsKept(db.leases, db.permits, c.m.lease, c.m.task, EndTaskLeases(db.leases, c.m.task, c.m.lease));
  }

  lemma QuarantineOrderly(db: Db, session: Id)
    requires LinksOk(db)
    ensures Orderly(db, Quarantine(db, session))
  {
    EndLeasesOrderly(db.(quarantined := db.quarantined + {session}), LeasesBy(db, session), SUPERSEDED, true, CANCEL_PERMITS);
  }

  lemma AllLeasesKept(job: Job, tasks: map<Id, Task>, leases: map<Id, Lease>, status: LeaseStatus)
    requires LeasesKept(job, tasks, leases, leases) && !status.SPLIT?
    ensures LeasesKept(job, tasks, leases, EndAllLeases(leases, status))
    ensures EndAllLeases(leases, status).Keys == leases.Keys
  {
  }

  /** Closing a job rewrites task states and ends leases, nothing else. */
  lemma CloseOrderly(db: Db, db': Db, status: LeaseStatus)
    requires LinksOk(db) && !status.SPLIT?
    requires db' == db.(job := db'.job, tasks := db'.tasks, leases := EndAllLeases(db.leases, status))
    requires JobKept(db.job, db'.job) && TasksKept(db.tasks, db'.tasks)
    ensures Orderly(db, db')
  {
    AllLeasesKept(db.job, db.tasks, db.leases, status);
    CancelledPermitsKept(db.leases, db.permits, ROOT, ROOT, db'.leases);
  }
}
