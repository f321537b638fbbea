/**
 The tables of one job coordinator and, for each atomic block of the coordinator, the
 new tables it leaves behind.  `JobCoordinator.dfy` performs these blocks statement by
 statement on mutable fields; the safety arguments are about the functions here.
 */
module CoordinatorTables {
  import opened Wrappers
  import opened Cnf
  import opened Rows

  const ROOT := Id(0)

  const LEASE_DURATION_MS := 5 * 60_000
  const LEASE_RENEW_THRESHOLD_MS := 3 * 60_000
  const MAX_LEASE_TENURE_MS := 60 * 60_000
  const ALARM_BATCH_SIZE := 64
  const MAX_CUBE_DEPTH := 64
  const MAX_TASKS := 10_000
  const MAX_FRONTIER := 16
  const SPLIT_SEED_MS := 1_000
  const SPLIT_PERMIT_MS := 2 * 60_000
  const PROCESSED_MESSAGE_LIMIT := 2_048
  const MAX_PROOF_COMPRESSED_BYTES := 25 * 1024 * 1024
  const MAX_PROOF_DECOMPRESSED_BYTES := 128 * 1024 * 1024

  datatype JobState =
    | UPLOADING | QUEUED | RUNNING | SAT_VERIFIED | UNSAT_CERTIFIED | UNSAT_OWNER_VERIFIED
    | INVALID | UNKNOWN | CANCELLED

  datatype TaskState =
    | READY | LEASED | SPLIT | VERIFYING_SAT | SAT_VERIFIED | VERIFYING_UNSAT
    | UNSAT_CERTIFIED | UNSAT_OWNER_VERIFIED | UNKNOWN | CANCELLED

  datatype LeaseStatus = ACTIVE | EXPIRED | SPLIT | YIELDED | RESULT | SUPERSEDED | CANCELLED

  datatype PermitStatus = ACTIVE | CONSUMED | CANCELLED

  datatype ProofStatus = UPLOADED | SERVER_CERTIFIED | OWNER_CHECK_REQUIRED | OWNER_VERIFIED | INVALID

  datatype Job = Job(state: JobState, formulaHash: Id, variableCount: nat, expiresAt: nat)

  datatype Task = Task(
    parent: Option<Id>, depth: nat, cube: Cube, state: TaskState, createdAt: nat,
    leaseCount: nat, activeLease: Option<Id>, proofRequired: bool)
  {
    predicate Certified() {
      state.UNSAT_CERTIFIED? || state.UNSAT_OWNER_VERIFIED?
    }

    /** Work that is still being searched or checked. */
    predicate Open() {
      state.READY? || state.LEASED? || state.VERIFYING_SAT? || state.VERIFYING_UNSAT?
    }
  }

  datatype Lease = Lease(
    task: Id, session: Id, slot: Id, leaseCount: nat, issuedAt: nat, expiresAt: nat,
    maximumExpiresAt: nat, lastActiveMs: nat, status: LeaseStatus)

  datatype Permit = Permit(task: Id, lease: Id, session: Id, slot: Id, expiresAt: nat, status: PermitStatus)

  /** A proof upload; its artifact identifier is the lease that produced it. */
  datatype Proof = Proof(
    task: Id, sha256: Id, compressedBytes: nat, decompressedBytes: nat, objectKey: Option<Id>, status: ProofStatus)

  datatype ErrorCode = STALE_LEASE | INVALID_STATE | SPLIT_NOT_NEEDED | TASK_LIMIT
  datatype Reply = Ack | AckResult(stale: bool) | Error(code: ErrorCode)
  datatype Processed = Processed(session: Id, message: Id, reply: Reply, at: nat)

  datatype Db = Db(
    job: Job,
    tasks: map<Id, Task>,
    leases: map<Id, Lease>,
    permits: map<Id, Permit>,
    proofs: map<Id, Proof>,
    objects: set<Id>,
    processed: seq<Processed>,
    quarantined: set<Id>,
    proofCapable: set<Id>)

  predicate Live(job: Job) {
    job.state.QUEUED? || job.state.RUNNING?
  }

  /** Job states in which no further result is accepted. */
  predicate Closed(job: Job) {
    job.state.CANCELLED? || job.state.INVALID? || job.state.SAT_VERIFIED? ||
    job.state.UNSAT_CERTIFIED? || job.state.UNSAT_OWNER_VERIFIED? || job.state.UNKNOWN?
  }

  function Initial(formulaHash: Id, variableCount: nat, createdAt: nat, expiresAt: nat): Db {
    Db(Job(UPLOADING, formulaHash, variableCount, expiresAt),
       map[ROOT := Task(None, 0, [], READY, createdAt, 0, None, false)],
       map[], map[], map[], {}, [], {}, {})
  }

  function CompleteUpload(db: Db): Db {
    if db.job.state.UPLOADING? then db.(job := db.job.(state := QUEUED)) else db
  }

  // ----- the deduplication log -----

  function Recorded(log: seq<Processed>, session: Id, message: Id): Option<Reply> {
    if log == [] then None
    else if log[0].session == session && log[0].message == message then Some(log[0].reply)
    else Recorded(log[1..], session, message)
  }

  /** The first record with the least timestamp. */
  predicate IsOldest(log: seq<Processed>, i: nat) {
    i < |log| && (forall k :: 0 <= k < i ==> log[i].at < log[k].at) && (forall k :: i <= k < |log| ==> log[i].at <= log[k].at)
  }

  function Oldest(log: seq<Processed>): (i: nat)
    requires log != []
    ensures IsOldest(log, i)
  {
    if |log| == 1 then 0 else
      var i := Oldest(log[1..]);
      if log[0].at <= log[1..][i].at then 0 else i + 1
  }

  /** Keeps the newest records; timestamps need not follow the order of insertion. */
  function Prune(log: seq<Processed>): seq<Processed>
    decreases |log|
  {
    if |log| <= PROCESSED_MESSAGE_LIMIT then log else
      var i := Oldest(log);
      Prune(log[..i] + log[i + 1..])
  }

  /** Removing the oldest record removes one that is no newer than any other. */
  lemma WithoutOldest(log: seq<Processed>, i: nat)
    requires IsOldest(log, i)
    ensures multiset(log) == multiset(log[..i] + log[i + 1..]) + multiset{log[i]}
    ensures forall kept :: kept in log ==> log[i].at <= kept.at
  {
    assert log == log[..i] + [log[i]] + log[i + 1..];
  }

  /** Pruning keeps the newest 2,048 records: none that it drops is newer than one it keeps. */
  lemma {:induction false} PruneKeepsNewest(log: seq<Processed>)
    ensures |Prune(log)| == Min(|log|, PROCESSED_MESSAGE_LIMIT) && multiset(Prune(log)) <= multiset(log)
    ensures forall dropped, kept ::
      dropped in multiset(log) - multiset(Prune(log)) && kept in Prune(log) ==> dropped.at <= kept.at
    decreases |log|
  {
    if |log| > PROCESSED_MESSAGE_LIMIT {
      var i := Oldest(log);
      var rest := log[..i] + log[i + 1..];
      PruneKeepsNewest(rest);
      WithoutOldest(log, i);
      DroppedIsOlder(log, rest, Prune(rest), log[i]);
    }
  }

  lemma DroppedIsOlder(log: seq<Processed>, rest: seq<Processed>, pruned: seq<Processed>, oldest: Processed)
    requires multiset(log) == multiset(rest) + multiset{oldest} && multiset(pruned) <= multiset(rest)
    requires forall kept :: kept in log ==> oldest.at <= kept.at
    requires forall dropped, kept :: dropped in multiset(rest) - multiset(pruned) && kept in pruned ==> dropped.at <= kept.at
    ensures forall dropped, kept :: dropped in multiset(log) - multiset(pruned) && kept in pruned ==> dropped.at <= kept.at
  {
    forall dropped, kept | dropped in multiset(log) - multiset(pruned) && kept in pruned
      ensures dropped.at <= kept.at
    {
      assert kept in multiset(pruned) && kept in multiset(log);
      if dropped !in multiset(rest) - multiset(pruned) {
        assert dropped == oldest;
      }
    }
  }

  function Record(log: seq<Processed>, session: Id, message: Id, reply: Reply, at: nat): seq<Processed> {
    Prune(if Recorded(log, session, message).Some? then log else log + [Processed(session, message, reply, at)])
  }

  // ----- counting queries -----

  function Busy(db: Db, now: nat): set<Id> {
    set l | l in db.leases && db.leases[l].status.ACTIVE? && db.leases[l].expiresAt > now
  }

  /** Tasks that count as available search work. */
  function Frontier(tasks: map<Id, Task>): set<Id> {
    set t | t in tasks && !tasks[t].proofRequired && (tasks[t].state.READY? || tasks[t].state.LEASED?)
  }

  function Outstanding(permits: map<Id, Permit>, now: nat): set<Id> {
    set p | p in permits && permits[p].status.ACTIVE? && permits[p].expiresAt > now
  }

  function Children(db: Db, parent: Id): set<Id> {
    set t | t in db.tasks && db.tasks[t].parent == Some(parent)
  }

  function LeasesBy(db: Db, session: Id): set<Id> {
    set l | l in db.leases && db.leases[l].session == session && db.leases[l].status.ACTIVE?
  }

  function FrontierTarget(connectedSlots: nat): nat {
    Min(connectedSlots * 2, MAX_FRONTIER)
  }

  // ----- ending leases -----

  /** Which permits an ended lease takes with it. */
  datatype PermitRule = KEEP_PERMITS | CANCEL_PERMITS | CANCEL_IF_HELD

  /** The lease's task still names it as its holder. */
  predicate Holds(tasks: map<Id, Task>, leases: map<Id, Lease>, l: Id) {
    l in leases && leases[l].task in tasks && tasks[leases[l].task].activeLease == Some(l)
  }

  predicate ReleasedBy(tasks: map<Id, Task>, leases: map<Id, Lease>, t: Id, ended: set<Id>, leasedOnly: bool)
    requires t in tasks
  {
    tasks[t].activeLease.Some? && tasks[t].activeLease.value in ended && tasks[t].activeLease.value in leases &&
    leases[tasks[t].activeLease.value].task == t && (leasedOnly ==> tasks[t].state.LEASED?)
  }

  predicate PermitDropped(tasks: map<Id, Task>, leases: map<Id, Lease>, permit: Permit, ended: set<Id>, rule: PermitRule) {
    permit.status.ACTIVE? && permit.lease in ended &&
    match rule
    case KEEP_PERMITS => false
    case CANCEL_PERMITS => true
    case CANCEL_IF_HELD => Holds(tasks, leases, permit.lease)
  }

  function EndedLeases(leases: map<Id, Lease>, ended: set<Id>, status: LeaseStatus): map<Id, Lease> {
    map l | l in leases :: if l in ended && leases[l].status.ACTIVE? then leases[l].(status := status) else leases[l]
  }

  function ReleasedTasks(tasks: map<Id, Task>, leases: map<Id, Lease>, ended: set<Id>, leasedOnly: bool): map<Id, Task> {
    map t | t in tasks ::
      if ReleasedBy(tasks, leases, t, ended, leasedOnly) then tasks[t].(state := READY, activeLease := None) else tasks[t]
  }

  function DroppedPermits(tasks: map<Id, Task>, leases: map<Id, Lease>, permits: map<Id, Permit>,
                          ended: set<Id>, rule: PermitRule): map<Id, Permit> {
    map p | p in permits ::
      if PermitDropped(tasks, leases, permits[p], ended, rule)
      then permits[p].(status := PermitStatus.CANCELLED) else permits[p]
  }

  /** Ends every active lease of a set at once and returns the tasks they hold to the queue. */
  function EndLeases(db: Db, ended: set<Id>, status: LeaseStatus, leasedOnly: bool, rule: PermitRule): Db {
    db.(leases := EndedLeases(db.leases, ended, status),
        tasks := ReleasedTasks(db.tasks, db.leases, ended, leasedOnly),
        permits := DroppedPermits(db.tasks, db.leases, db.permits, ended, rule))
  }

  function CancelPermitsOf(permits: map<Id, Permit>, lease: Id): map<Id, Permit> {
    map p | p in permits ::
      if permits[p].lease == lease && permits[p].status.ACTIVE?
      then permits[p].(status := PermitStatus.CANCELLED) else permits[p]
  }

  function CancelPermitsFor(permits: map<Id, Permit>, task: Id): map<Id, Permit> {
    map p | p in permits ::
      if permits[p].task == task && permits[p].status.ACTIVE?
      then permits[p].(status := PermitStatus.CANCELLED) else permits[p]
  }

  /** Closes all active leases of one task; the reporting lease becomes RESULT. */
  function EndTaskLeases(leases: map<Id, Lease>, task: Id, reporting: Id): map<Id, Lease> {
    map l | l in leases ::
      if leases[l].task == task && leases[l].status.ACTIVE?
      then leases[l].(status := if l == reporting then RESULT else SUPERSEDED)
      else leases[l]
  }

  function EndAllLeases(leases: map<Id, Lease>, status: LeaseStatus): map<Id, Lease> {
    map l | l in leases :: if leases[l].status.ACTIVE? then leases[l].(status := status) else leases[l]
  }

  // ----- HELLO -----

  function ChooseSlot(current: Id, slots: seq<Id>, claimed: set<Id>): Option<Id> {
    if current in slots then Some(current) else FirstUnclaimed(slots, claimed)
  }

  function FirstUnclaimed(slots: seq<Id>, claimed: set<Id>): Option<Id> {
    if slots == [] then None
    else if slots[0] !in claimed then Some(slots[0])
    else FirstUnclaimed(slots[1..], claimed)
  }

  function MoveLease(db: Db, l: Id, slot: Id): Db
    requires l in db.leases
  {
    db.(leases := db.leases[l := db.leases[l].(slot := slot)])
  }

  /** Fits a resuming session's leases, in issue order, into the slots it now offers. */
  function RemapSlots(db: Db, existing: seq<Id>, slots: seq<Id>, claimed: set<Id>): Db
    requires forall l :: l in existing ==> l in db.leases
    decreases |existing|
  {
    if existing == [] then db else
      var l := existing[0];
      match ChooseSlot(db.leases[l].slot, slots, claimed)
      case None => RemapSlots(EndLeases(db, {l}, YIELDED, false, KEEP_PERMITS), existing[1..], slots, claimed)
      case Some(slot) => RemapSlots(MoveLease(db, l, slot), existing[1..], slots, claimed + {slot})
  }

  function IssueOrder(db: Db): map<Id, Key> {
    map l | l in db.leases :: (db.leases[l].issuedAt, 0, 0)
  }

  /** The part of HELLO after the await of the assignment; quarantine was tested before it. */
  ghost function Hello(db: Db, session: Id, slots: seq<Id>, proofGeneration: bool, now: nat): Db {
    var profiled := db.(proofCapable := if proofGeneration then db.proofCapable + {session} else db.proofCapable - {session});
    var existing := LeasesBy(db, session) * Busy(db, now);
    SortedIsOrdered(existing, IssueOrder(db));
    RemapSlots(profiled, Sorted(existing, IssueOrder(db)), slots, {})
  }

  // ----- dispatch -----

  function Leasable(db: Db, proofGeneration: bool): set<Id> {
    set t | t in db.tasks && db.tasks[t].state.READY? && (db.tasks[t].proofRequired ==> proofGeneration)
  }

  function DispatchOrder(db: Db): map<Id, Key> {
    map t | t in db.tasks :: (if db.tasks[t].proofRequired then 0 else 1, db.tasks[t].depth, db.tasks[t].createdAt)
  }

  predicate SlotBusy(db: Db, session: Id, slot: Id, now: nat) {
    exists l :: l in Busy(db, now) && db.leases[l].session == session && db.leases[l].slot == slot
  }

  function Grant(db: Db, session: Id, slot: Id, now: nat, lease: Id, t: Id): Db
    requires t in db.tasks
  {
    var task := db.tasks[t];
    var maximum := Min(now + MAX_LEASE_TENURE_MS, db.job.expiresAt);
    db.(leases := db.leases[lease := Lease(t, session, slot, task.leaseCount + 1, now,
                                            Min(now + LEASE_DURATION_MS, maximum), maximum, 0, LeaseStatus.ACTIVE)],
        tasks := db.tasks[t := task.(state := LEASED, leaseCount := task.leaseCount + 1, activeLease := Some(lease))],
        job := if db.job.state.QUEUED? then db.job.(state := RUNNING) else db.job)
  }

  ghost function LeaseWork(db: Db, session: Id, slot: Id, now: nat, lease: Id): Db {
    var work := Leasable(db, session in db.proofCapable);
    if !Live(db.job) || now >= db.job.expiresAt || SlotBusy(db, session, slot, now) || work == {} then db
    else Grant(db, session, slot, now, lease, Earliest(work, DispatchOrder(db)))
  }

  function RollbackUndelivered(db: Db, lease: Id): Db {
    if lease in db.leases && db.leases[lease].status.ACTIVE?
    then EndLeases(db, {lease}, EXPIRED, false, KEEP_PERMITS) else db
  }

  // ----- split permits -----

  /** The newest open socket of a session and the slots it offers. */
  datatype Connection = Connection(session: Id, slots: seq<Id>)

  function Connected(sockets: seq<Connection>, quarantined: set<Id>): seq<Connection> {
    if sockets == [] then []
    else
      var rest := Connected(sockets[1..], quarantined);
      if sockets[0].session in quarantined then rest else [sockets[0]] + rest
  }

  function SlotCount(sockets: seq<Connection>): nat {
    if sockets == [] then 0 else |sockets[0].slots| + SlotCount(sockets[1..])
  }

  function Reachable(sockets: seq<Connection>): set<Id> {
    set c | c in sockets :: c.session
  }

  function CancelExpiredPermits(db: Db, now: nat): Db {
    db.(permits := map p | p in db.permits ::
          if db.permits[p].status.ACTIVE? && db.permits[p].expiresAt <= now
          then db.permits[p].(status := PermitStatus.CANCELLED) else db.permits[p])
  }

  function SplitCandidates(db: Db, now: nat): set<Id> {
    set l | l in Busy(db, now)
      && (db.leases[l].issuedAt <= now - SPLIT_SEED_MS || db.leases[l].lastActiveMs >= SPLIT_SEED_MS)
      && db.leases[l].task in db.tasks
      && db.tasks[db.leases[l].task].state.LEASED?
      && !db.tasks[db.leases[l].task].proofRequired
      && db.tasks[db.leases[l].task].depth < MAX_CUBE_DEPTH
      && (forall p :: p in db.permits ==> !(db.permits[p].lease == l && db.permits[p].status.ACTIVE?))
  }

  function GrantPermit(db: Db, l: Id, permit: Id, delivered: bool, now: nat): Db
    requires l in db.leases
  {
    var lease := db.leases[l];
    db.(permits := db.permits[permit := Permit(lease.task, l, lease.session, lease.slot,
          Min(now + SPLIT_PERMIT_MS, lease.expiresAt),
          if delivered then PermitStatus.ACTIVE else PermitStatus.CANCELLED)])
  }

  /** Offers one permit per candidate lease until the allowance is used up. */
  function OfferPermits(db: Db, candidates: seq<Id>, reachable: set<Id>, ids: map<Id, Id>,
                        undelivered: set<Id>, now: nat, allowance: nat): Db
    requires forall l :: l in candidates ==> l in db.leases && l in ids
    decreases |candidates|
  {
    if candidates == [] || allowance == 0 then db else
      var l := candidates[0];
      if db.leases[l].session !in reachable then
        OfferPermits(db, candidates[1..], reachable, ids, undelivered, now, allowance)
      else
        var delivered := l !in undelivered;
        OfferPermits(GrantPermit(db, l, ids[l], delivered, now), candidates[1..], reachable, ids,
                     undelivered, now, if delivered then allowance - 1 else allowance)
  }

  /** How many permits may be handed out now. */
  function PermitAllowance(db: Db, connectedSlots: nat, now: nat): nat {
    if |db.tasks| > MAX_TASKS - 2 then 0 else
      Min(Max(0, connectedSlots - |Busy(db, now)|),
          Max(0, FrontierTarget(connectedSlots) - |Frontier(db.tasks)| - |Outstanding(db.permits, now)|))
  }

  /** `ids` names a new permit for every lease; `undelivered` are the leases whose socket failed. */
  ghost function IssuePermits(db: Db, sockets: seq<Connection>, ids: map<Id, Id>, undelivered: set<Id>, now: nat): Db
    requires db.leases.Keys <= ids.Keys
  {
    var db1 := CancelExpiredPermits(db, now);
    var connected := Connected(sockets, db.quarantined);
    var candidates := SplitCandidates(db1, now);
    SortedIsOrdered(candidates, IssueOrder(db1));
    OfferPermits(db1, Sorted(candidates, IssueOrder(db1)), Reachable(connected), ids, undelivered, now,
                 PermitAllowance(db1, SlotCount(connected), now))
  }

  // ----- heartbeat -----

  datatype Progress = Progress(slot: Id, lease: Option<Id>, activeMs: nat)

  predicate Renews(lease: Lease, now: nat) {
    lease.expiresAt - now <= LEASE_RENEW_THRESHOLD_MS
  }

  predicate AcceptsProgress(db: Db, session: Id, progress: Progress, now: nat) {
    progress.lease.Some? && progress.lease.value in db.leases &&
    var lease := db.leases[progress.lease.value];
    lease.session == session && lease.slot == progress.slot && lease.status.ACTIVE? &&
    progress.activeMs > lease.lastActiveMs &&
    (Renews(lease, now) || (lease.lastActiveMs < SPLIT_SEED_MS <= progress.activeMs))
  }

  function RecordProgress(db: Db, session: Id, progress: Progress, now: nat): Db {
    if !AcceptsProgress(db, session, progress, now) then db else
      var lease := db.leases[progress.lease.value];
      db.(leases := db.leases[progress.lease.value :=
        if Renews(lease, now)
        then lease.(lastActiveMs := progress.activeMs,
                    expiresAt := Min(Min(now + LEASE_DURATION_MS, lease.maximumExpiresAt), db.job.expiresAt))
        else lease.(lastActiveMs := SPLIT_SEED_MS)])
  }

  function Heartbeat(db: Db, session: Id, slots: seq<Progress>, now: nat): Db
    decreases |slots|
  {
    if slots == [] then db else Heartbeat(RecordProgress(db, session, slots[0], now), session, slots[1..], now)
  }

  // ----- SPLIT and YIELD -----

  predicate HoldsTask(db: Db, session: Id, task: Id, lease: Id, now: nat) {
    lease in db.leases && db.leases[lease].task == task && db.leases[lease].session == session &&
    db.leases[lease].status.ACTIVE? && db.leases[lease].expiresAt > now &&
    task in db.tasks && db.tasks[task].state.LEASED? && db.tasks[task].activeLease == Some(lease)
  }

  datatype SplitMessage = SplitMessage(message: Id, slot: Id, task: Id, lease: Id, permit: Id, literal: Literal)

  predicate PermitValid(db: Db, session: Id, m: SplitMessage, now: nat) {
    m.permit in db.permits &&
    var p := db.permits[m.permit];
    p.task == m.task && p.lease == m.lease && p.session == session && p.slot == m.slot &&
    p.status.ACTIVE? && p.expiresAt > now
  }

  predicate SplitNeeded(db: Db, connectedSlots: nat, now: nat) {
    connectedSlots > |Busy(db, now)| && |Frontier(db.tasks)| < FrontierTarget(connectedSlots)
  }

  predicate Splittable(db: Db, task: Id, literal: Literal)
    requires task in db.tasks
  {
    Abs(literal) <= db.job.variableCount && (forall l :: l in db.tasks[task].cube ==> Abs(l) != Abs(literal))
  }

  function DropPermit(db: Db, permit: Id): Db {
    if permit in db.permits
    then db.(permits := db.permits[permit := db.permits[permit].(status := PermitStatus.CANCELLED)])
    else db
  }

  function Child(task: Task, parent: Id, literal: Literal, now: nat): Task {
    Task(Some(parent), task.depth + 1, task.cube + [literal], READY, now, 0, None, false)
  }

  function Divide(db: Db, session: Id, m: SplitMessage, now: nat, positive: Id, negative: Id): Db
    requires m.task in db.tasks && m.lease in db.leases && m.permit in db.permits
  {
    var task := db.tasks[m.task];
    db.(tasks := db.tasks[positive := Child(task, m.task, m.literal, now)]
                         [negative := Child(task, m.task, -m.literal, now)]
                         [m.task := task.(state := TaskState.SPLIT, activeLease := None)],
        leases := db.leases[m.lease := db.leases[m.lease].(status := LeaseStatus.SPLIT)],
        permits := db.permits[m.permit := db.permits[m.permit].(status := CONSUMED)],
        processed := Record(db.processed, session, m.message, Ack, now))
  }

  /** The split goes through exactly under these conditions. */
  predicate SplitAccepted(db: Db, session: Id, m: SplitMessage, now: nat, connectedSlots: nat) {
    Recorded(db.processed, session, m.message).None? && HoldsTask(db, session, m.task, m.lease, now) &&
    db.leases[m.lease].slot == m.slot && db.tasks[m.task].depth < MAX_CUBE_DEPTH && !db.tasks[m.task].proofRequired &&
    PermitValid(db, session, m, now) && SplitNeeded(db, connectedSlots, now) &&
    |db.tasks| <= MAX_TASKS - 2 && Splittable(db, m.task, m.literal)
  }

  function SplitTask(db: Db, session: Id, m: SplitMessage, now: nat, connectedSlots: nat, positive: Id, negative: Id): (Db, Reply) {
    var duplicate := Recorded(db.processed, session, m.message);
    if duplicate.Some? then (db, duplicate.value)
    else if !HoldsTask(db, session, m.task, m.lease, now) then (db, Error(STALE_LEASE))
    else if db.leases[m.lease].slot != m.slot || db.tasks[m.task].depth >= MAX_CUBE_DEPTH || db.tasks[m.task].proofRequired then
      (db, Error(INVALID_STATE))
    else if !PermitValid(db, session, m, now) then (db, Error(SPLIT_NOT_NEEDED))
    else if !SplitNeeded(db, connectedSlots, now) then (DropPermit(db, m.permit), Error(SPLIT_NOT_NEEDED))
    else if |db.tasks| > MAX_TASKS - 2 then (DropPermit(db, m.permit), Error(TASK_LIMIT))
    else if !Splittable(db, m.task, m.literal) then (db, Error(INVALID_STATE))
    else (Divide(db, session, m, now, positive, negative), Ack)
  }

  datatype YieldMessage = YieldMessage(message: Id, slot: Id, task: Id, lease: Id, unsupported: bool)

  function YieldTask(db: Db, session: Id, m: YieldMessage, now: nat): (Db, Reply) {
    var duplicate := Recorded(db.processed, session, m.message);
    if duplicate.Some? then (db, duplicate.value)
    else if !HoldsTask(db, session, m.task, m.lease, now) || db.leases[m.lease].slot != m.slot then
      (db, Error(STALE_LEASE))
    else
      var ended := EndLeases(db, {m.lease}, YIELDED, false, CANCEL_PERMITS);
      (ended.(proofCapable := if m.unsupported then db.proofCapable - {session} else db.proofCapable,
              processed := Record(db.processed, session, m.message, Ack, now)), Ack)
  }

  // ----- RESULT: rows are read, the path hash is awaited, the claim is entered, checked and finished -----

  datatype Manifest =
    | SatModel(artifact: Id, variableCount: nat)
    | UnsatCandidate
    | UnsatProof(artifact: Id, sha256: Id, compressedBytes: nat, decompressedBytes: nat)

  datatype ResultMessage = ResultMessage(
    message: Id, slot: Id, task: Id, lease: Id, formulaHash: Id, cube: Cube, pathMatches: bool, manifest: Manifest)

  /** What a result handler remembers across its awaits: the rows and the time as they were when it read them. */
  datatype Claim = Claim(session: Id, m: ResultMessage, lease: Lease, task: Task, stale: bool, receivedAt: nat)

  function ReceiveResult(db: Db, session: Id, m: ResultMessage, now: nat): Result<Claim, Reply> {
    var duplicate := Recorded(db.processed, session, m.message);
    if duplicate.Some? then Err(duplicate.value)
    else if m.lease !in db.leases || db.leases[m.lease].task != m.task || db.leases[m.lease].session != session
      || db.leases[m.lease].slot != m.slot then Err(Error(STALE_LEASE))
    else if m.task !in db.tasks || now >= db.job.expiresAt || Closed(db.job) || db.tasks[m.task].state.CANCELLED? then
      Err(Error(INVALID_STATE))
    else if m.formulaHash != db.job.formulaHash || !m.pathMatches || m.cube != db.tasks[m.task].cube then
      Err(Error(INVALID_STATE))
    else
      var lease, task := db.leases[m.lease], db.tasks[m.task];
      Ok(Claim(session, m, lease, task,
               !lease.status.ACTIVE? || lease.expiresAt <= now || task.activeLease != Some(m.lease), now))
  }

  function SetTask(db: Db, t: Id, task: Task): Db {
    db.(tasks := db.tasks[t := task])
  }

  function Logged(db: Db, c: Claim, at: nat): Db {
    db.(processed := Record(db.processed, c.session, c.m.message, AckResult(c.stale), at))
  }

  function RequestProof(db: Db, c: Claim): Db
    requires c.m.task in db.tasks
  {
    db.(tasks := db.tasks[c.m.task := db.tasks[c.m.task].(state := READY, proofRequired := true, activeLease := None)],
        leases := EndTaskLeases(db.leases, c.m.task, c.m.lease),
        permits := CancelPermitsOf(db.permits, c.m.lease))
  }

  /** An unproved UNSAT report: the same cube is queued again, now asking for a proof. */
  function EnterCandidate(db: Db, c: Claim): (Db, Reply)
    requires c.m.task in db.tasks
  {
    var duplicate := Recorded(db.processed, c.session, c.m.message);
    if c.task.proofRequired then (db, Error(INVALID_STATE))
    else if duplicate.Some? then (db, duplicate.value)
    else
      var current := c.lease.status.ACTIVE? && c.task.activeLease == Some(c.m.lease) && !c.task.state.VERIFYING_SAT?;
      (Logged(if current then RequestProof(db, c) else db, c, c.receivedAt), AckResult(c.stale))
  }

  predicate SatClaimBound(db: Db, c: Claim) {
    c.m.manifest.SatModel? && c.m.manifest.artifact == c.m.lease && c.m.manifest.variableCount == db.job.variableCount
  }

  function EnterSat(db: Db, c: Claim): Db
    requires c.m.task in db.tasks
  {
    db.(tasks := db.tasks[c.m.task := db.tasks[c.m.task].(state := VERIFYING_SAT, activeLease := None)],
        leases := EndTaskLeases(db.leases, c.m.task, c.m.lease))
  }

  predicate ProofClaimBound(db: Db, c: Claim) {
    c.m.manifest.UnsatProof? && c.task.proofRequired && c.m.manifest.artifact == c.m.lease &&
    c.m.manifest.artifact in db.proofs &&
    var proof := db.proofs[c.m.manifest.artifact];
    proof.task == c.m.task && proof.sha256 == c.m.manifest.sha256 &&
    proof.compressedBytes == c.m.manifest.compressedBytes && proof.decompressedBytes == c.m.manifest.decompressedBytes
  }

  function EnterProof(db: Db, c: Claim): Db
    requires c.m.task in db.tasks
  {
    db.(tasks := db.tasks[c.m.task := db.tasks[c.m.task].(state := VERIFYING_UNSAT, activeLease := None)],
        leases := EndTaskLeases(db.leases, c.m.task, c.m.lease),
        permits := CancelPermitsFor(db.permits, c.m.task))
  }

  datatype SatVerdict = VALID_SAT | INVALID_FORMULA | INVALID_MODEL | VERIFICATION_TIMEOUT

  datatype UnsatVerdict = VALID_UNSAT | OWNER_CHECK_REQUIRED | INVALID_FORMULA | INVALID_PROOF | VERIFICATION_TIMEOUT

  function Quarantine(db: Db, session: Id): Db {
    EndLeases(db.(quarantined := db.quarantined + {session}), LeasesBy(db, session), SUPERSEDED, true, CANCEL_PERMITS)
  }

  function AbandonTasks(tasks: map<Id, Task>): map<Id, Task> {
    map t | t in tasks ::
      if tasks[t].state.CANCELLED? then tasks[t] else tasks[t].(state := TaskState.UNKNOWN, activeLease := None)
  }

  function WinTasks(tasks: map<Id, Task>, winner: Id): map<Id, Task> {
    map t | t in tasks ::
      if t == winner || t == ROOT then tasks[t].(state := TaskState.SAT_VERIFIED, activeLease := None)
      else if tasks[t].state.CANCELLED? || tasks[t].state.SAT_VERIFIED? then tasks[t]
      else tasks[t].(state := TaskState.CANCELLED, activeLease := None)
  }

  function CancelOpenTasks(tasks: map<Id, Task>): map<Id, Task> {
    map t | t in tasks ::
      if tasks[t].state.READY? || tasks[t].state.LEASED?
      then tasks[t].(state := TaskState.CANCELLED, activeLease := None) else tasks[t]
  }

  function CancelTasks(tasks: map<Id, Task>): map<Id, Task> {
    map t | t in tasks :: tasks[t].(state := TaskState.CANCELLED, activeLease := None)
  }

  /** The stored formula is unusable: nothing is left to search. */
  function CloseInvalid(db: Db): Db {
    db.(job := db.job.(state := JobState.INVALID),
        tasks := AbandonTasks(db.tasks),
        leases := EndAllLeases(db.leases, SUPERSEDED))
  }

  function CloseSat(db: Db, winner: Id): Db {
    db.(job := db.job.(state := JobState.SAT_VERIFIED),
        tasks := WinTasks(db.tasks, winner),
        leases := EndAllLeases(db.leases, SUPERSEDED))
  }

  function Reopen(db: Db, t: Id): Db
    requires t in db.tasks
  {
    if db.tasks[t].state.VERIFYING_SAT?
    then SetTask(db, t, db.tasks[t].(state := READY, activeLease := None)) else db
  }

  function SettleSat(db: Db, c: Claim, verdict: SatVerdict): Db
    requires c.m.task in db.tasks
  {
    match verdict
    case VALID_SAT => CloseSat(db, c.m.task)
    case INVALID_FORMULA => CloseInvalid(db)
    case INVALID_MODEL => Quarantine(Reopen(db, c.m.task), c.session)
    case VERIFICATION_TIMEOUT => Reopen(db, c.m.task)
  }

  function FinishSat(db: Db, c: Claim, verdict: SatVerdict, finishedAt: nat): Db
    requires c.m.task in db.tasks
  {
    if Recorded(db.processed, c.session, c.m.message).Some? then db else Logged(SettleSat(db, c, verdict), c, finishedAt)
  }

  // ----- UNSAT coverage -----

  datatype Terminal = CERTIFIED | OWNER_CHECKED

  function TaskStateOf(v: Terminal): TaskState {
    if v.CERTIFIED? then TaskState.UNSAT_CERTIFIED else TaskState.UNSAT_OWNER_VERIFIED
  }

  function JobStateOf(v: Terminal): JobState {
    if v.CERTIFIED? then JobState.UNSAT_CERTIFIED else JobState.UNSAT_OWNER_VERIFIED
  }

  function CloseUnsat(db: Db, v: Terminal): Db {
    db.(job := db.job.(state := JobStateOf(v)),
        tasks := CancelOpenTasks(db.tasks),
        leases := EndAllLeases(db.leases, SUPERSEDED))
  }

  /** Every task but the root hangs one level below its parent and extends its cube by one literal. */
  ghost predicate TreeShaped(tasks: map<Id, Task>) {
    && ROOT in tasks
    && (forall t :: t in tasks ==> |tasks[t].cube| == tasks[t].depth)
    && (forall t :: t in tasks ==> (tasks[t].parent.None? <==> t == ROOT))
    && tasks[ROOT].depth == 0
    && (forall t {:trigger Below(tasks, t)} :: t in tasks && tasks[t].parent.Some? ==> Below(tasks, t))
  }

  ghost predicate Below(tasks: map<Id, Task>, t: Id)
    requires t in tasks && tasks[t].parent.Some?
  {
    var p := tasks[t].parent.value;
    p in tasks && tasks[t].depth == tasks[p].depth + 1 && tasks[p].cube <= tasks[t].cube
  }

  /** Same tasks in the same tree; only states, leases and flags may differ. */
  ghost predicate SameShape(tasks: map<Id, Task>, tasks': map<Id, Task>) {
    tasks'.Keys == tasks.Keys &&
    forall t :: t in tasks ==>
      tasks'[t].parent == tasks[t].parent && tasks'[t].depth == tasks[t].depth && tasks'[t].cube == tasks[t].cube
  }

  lemma ShapeKeepsTree(tasks: map<Id, Task>, tasks': map<Id, Task>)
    requires TreeShaped(tasks) && SameShape(tasks, tasks')
    ensures TreeShaped(tasks')
  {
    forall t | t in tasks' && tasks'[t].parent.Some?
      ensures Below(tasks', t)
    {
      assert Below(tasks, t);
    }
  }

  /** A new state for one task leaves the tree, and the way up from the task, as they were. */
  lemma StateKeepsTree(tasks: map<Id, Task>, p: Id, state: TaskState)
    requires TreeShaped(tasks) && p in tasks
    ensures TreeShaped(tasks[p := tasks[p].(state := state)])
    ensures tasks[p].parent.Some? ==> tasks[p].parent.value in tasks && tasks[tasks[p].parent.value].depth + 1 == tasks[p].depth
  {
    ShapeKeepsTree(tasks, tasks[p := tasks[p].(state := state)]);
    assert tasks[p].parent.Some? ==> Below(tasks, p);
  }

  /** Two cubes extend a third by complementary literals. */
  predicate Complementary(cube: Cube, left: Cube, right: Cube) {
    |left| == |cube| + 1 && |right| == |cube| + 1 && cube <= left && cube <= right &&
    left[|cube|] == -right[|cube|]
  }

  /** A split task whose two children are certified and split its cube exactly. */
  ghost predicate Covered(db: Db, p: Id) {
    p in db.tasks && db.tasks[p].state.SPLIT? && |Children(db, p)| == 2 &&
    (forall c :: c in Children(db, p) ==> db.tasks[c].Certified()) &&
    (forall a, b :: a in Children(db, p) && b in Children(db, p) && a != b ==>
      Complementary(db.tasks[p].cube, db.tasks[a].cube, db.tasks[b].cube))
  }

  /** One owner-checked child taints the parent. */
  function CoverageOf(db: Db, p: Id): Terminal {
    if exists c :: c in Children(db, p) && db.tasks[c].state.UNSAT_OWNER_VERIFIED? then OWNER_CHECKED else CERTIFIED
  }

  /** Carries certification upwards from `parent`, closing the job when the root is reached. */
  ghost function Propagate(db: Db, parent: Option<Id>): (Db, Option<Terminal>)
    requires TreeShaped(db.tasks) && (parent.Some? ==> parent.value in db.tasks)
    decreases if parent.Some? then 1 + db.tasks[parent.value].depth else 0
  {
    if parent.None? then
      match db.tasks[ROOT].state
      case UNSAT_CERTIFIED => (CloseUnsat(db, CERTIFIED), Some(CERTIFIED))
      case UNSAT_OWNER_VERIFIED => (CloseUnsat(db, OWNER_CHECKED), Some(OWNER_CHECKED))
      case _ => (db, None)
    else
      var p := parent.value;
      if !Covered(db, p) then (db, None) else
        var v := CoverageOf(db, p);
        var certified := SetTask(db, p, db.tasks[p].(state := TaskStateOf(v)));
        ShapeKeepsTree(db.tasks, certified.tasks);
        assert db.tasks[p].parent.Some? ==> Below(db.tasks, p);
        if p == ROOT then (CloseUnsat(certified, v), Some(v))
        else Propagate(certified, db.tasks[p].parent)
  }

  function SetProofStatus(db: Db, artifact: Id, status: ProofStatus): Db {
    if artifact in db.proofs
    then db.(proofs := db.proofs[artifact := db.proofs[artifact].(status := status)]) else db
  }

  function CertifyTask(db: Db, t: Id, artifact: Id, v: Terminal, status: ProofStatus): Db
    requires t in db.tasks
  {
    SetTask(SetProofStatus(db, artifact, status), t, db.tasks[t].(state := TaskStateOf(v)))
  }

  function RejectProof(db: Db, t: Id, artifact: Id): Db
    requires t in db.tasks
  {
    SetTask(SetProofStatus(db, artifact, ProofStatus.INVALID), t,
            db.tasks[t].(state := READY, proofRequired := true, activeLease := None))
  }

  function RetryProof(db: Db, t: Id): Db
    requires t in db.tasks
  {
    SetTask(db, t, db.tasks[t].(state := READY, proofRequired := true))
  }

  lemma CertifyKeepsTree(db: Db, t: Id, artifact: Id, v: Terminal, status: ProofStatus)
    requires TreeShaped(db.tasks) && t in db.tasks
    ensures TreeShaped(CertifyTask(db, t, artifact, v, status).tasks)
    ensures db.tasks[t].parent.Some? ==> db.tasks[t].parent.value in db.tasks
  {
    ShapeKeepsTree(db.tasks, CertifyTask(db, t, artifact, v, status).tasks);
    assert db.tasks[t].parent.Some? ==> Below(db.tasks, t);
  }

  ghost function SettleUnsat(db: Db, c: Claim, verdict: UnsatVerdict): (Db, Option<Terminal>)
    requires TreeShaped(db.tasks) && c.m.task in db.tasks && c.m.manifest.UnsatProof?
  {
    var t, artifact := c.m.task, c.m.manifest.artifact;
    match verdict
    case VALID_UNSAT =>
      CertifyKeepsTree(db, t, artifact, CERTIFIED, SERVER_CERTIFIED);
      Propagate(CertifyTask(db, t, artifact, CERTIFIED, SERVER_CERTIFIED), db.tasks[t].parent)
    case OWNER_CHECK_REQUIRED => (SetProofStatus(db, artifact, ProofStatus.OWNER_CHECK_REQUIRED), None)
    case INVALID_FORMULA => (CloseInvalid(db), None)
    case VERIFICATION_TIMEOUT => (RetryProof(db, t), None)
    case INVALID_PROOF => (Quarantine(RejectProof(db, t, artifact), c.session), None)
  }

  ghost function FinishUnsat(db: Db, c: Claim, verdict: UnsatVerdict, finishedAt: nat): (Db, Option<Terminal>)
    requires TreeShaped(db.tasks) && c.m.task in db.tasks && c.m.manifest.UnsatProof?
  {
    if Recorded(db.processed, c.session, c.m.message).Some? then (db, None) else
      var (settled, terminal) := SettleUnsat(db, c, verdict);
      (Logged(settled, c, finishedAt), terminal)
  }

  /** The owner reports that the pinned checker accepted a proof the server could not check. */
  ghost function ConfirmOwner(db: Db, artifact: Id, sha256: Id): (Db, Option<Terminal>)
    requires TreeShaped(db.tasks) && (artifact in db.proofs ==> db.proofs[artifact].task in db.tasks)
  {
    if artifact !in db.proofs || !db.proofs[artifact].status.OWNER_CHECK_REQUIRED? || db.proofs[artifact].sha256 != sha256 then
      (db, None)
    else
      var t := db.proofs[artifact].task;
      CertifyKeepsTree(db, t, artifact, OWNER_CHECKED, OWNER_VERIFIED);
      if db.tasks[t].state.VERIFYING_UNSAT?
      then Propagate(CertifyTask(db, t, artifact, OWNER_CHECKED, OWNER_VERIFIED), db.tasks[t].parent)
      else Propagate(SetProofStatus(db, artifact, OWNER_VERIFIED), db.tasks[t].parent)
  }

  // ----- proof uploads -----

  ghost function SumBytes(proofs: map<Id, Proof>, rows: set<Id>): nat
    requires rows <= proofs.Keys
  {
    if rows == {} then 0 else
      var a :| a in rows;
      proofs[a].compressedBytes + SumBytes(proofs, rows - {a})
  }

  ghost function TotalBytes(proofs: map<Id, Proof>): nat {
    SumBytes(proofs, proofs.Keys)
  }

  predicate MayUploadProof(db: Db, lease: Id, decompressedBytes: nat, now: nat) {
    Holds(db.tasks, db.leases, lease) && db.leases[lease].status.ACTIVE? &&
    db.tasks[db.leases[lease].task].proofRequired && db.tasks[db.leases[lease].task].state.LEASED? &&
    now < db.job.expiresAt && 1 <= decompressedBytes <= MAX_PROOF_DECOMPRESSED_BYTES
  }

  ghost predicate WithinBudget(db: Db, bytes: nat) {
    1 <= bytes <= MAX_PROOF_COMPRESSED_BYTES - TotalBytes(db.proofs)
  }

  /** The upload is authorized and its object stored under a new key; the commit follows after an await. */
  ghost function PutProof(db: Db, lease: Id, bytes: nat, decompressedBytes: nat, key: Id, now: nat): (Db, bool) {
    if MayUploadProof(db, lease, decompressedBytes, now) && WithinBudget(db, bytes) && lease in db.leases
    then (db.(objects := db.objects + {key}), true) else (db, false)
  }

  /** Authorization is repeated after the await; an upload that loses is deleted again. */
  ghost function CommitProof(db: Db, lease: Id, sha256: Id, bytes: nat, decompressedBytes: nat, key: Id, now: nat): (Db, bool) {
    if MayUploadProof(db, lease, decompressedBytes, now) && WithinBudget(db, bytes) && lease !in db.proofs
    then (db.(proofs := db.proofs[lease :=
            Proof(db.leases[lease].task, sha256, bytes, decompressedBytes, Some(key), UPLOADED)]), true)
    else (db.(objects := db.objects - {key}), false)
  }

  // ----- cancellation, expiry, disconnect -----

  function Cancel(db: Db): Db {
    if db.job.state.CANCELLED? then db else
      db.(job := db.job.(state := JobState.CANCELLED),
          tasks := CancelTasks(db.tasks),
          leases := EndAllLeases(db.leases, LeaseStatus.CANCELLED))
  }

  function Expired(db: Db, now: nat): set<Id> {
    set l | l in db.leases && db.leases[l].status.ACTIVE? && db.leases[l].expiresAt <= now
  }

  function ExpiryOrder(db: Db): map<Id, Key> {
    map l | l in db.leases :: (db.leases[l].expiresAt, 0, 0)
  }

  /** The leases one alarm recovers: the earliest deadlines first, at most a batch. */
  ghost function AlarmBatch(db: Db, now: nat): seq<Id> {
    var due := Sorted(Expired(db, now), ExpiryOrder(db));
    if |due| > ALARM_BATCH_SIZE then due[..ALARM_BATCH_SIZE] else due
  }

  ghost function Alarm(db: Db, now: nat): Db {
    if db.job.state.CANCELLED? || now >= db.job.expiresAt then db else
      var ended := EndLeases(db, (set l | l in AlarmBatch(db, now)), EXPIRED, false, CANCEL_IF_HELD);
      ended.(processed := Prune(db.processed))
  }

  function Disconnect(db: Db, session: Id): Db {
    EndLeases(db, LeasesBy(db, session), YIELDED, false, CANCEL_PERMITS)
  }
}
