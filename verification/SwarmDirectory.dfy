/**
 The directory that hands browsers to jobs: a ledger of reservations with refunds and expiry,
 its conservation law, and the bound on how unfairly any two jobs can be served.
 */
module SwarmDirectory {
  import opened Wrappers
  import opened Rows
  import opened FairScheduler

  const ACTIVATION_MS := 5 * 60_000

  datatype Status = PENDING | ACTIVE | COMPLETE | EXPIRED | CANCELLED

  datatype Assignment = Assignment(
    id: Id, job: Id, session: Id, workers: int, reserved: int, actual: int, status: Status, assignedAt: int, expiresAt: int)
  {
    predicate Live() {
      status.PENDING? || status.ACTIVE?
    }
  }

  datatype Job = Job(virtual: int, reserved: int, workers: int, lastServiceAt: int, expiresAt: int, eligible: bool)

  datatype Directory = Directory(jobs: map<Id, Job>, rows: seq<Assignment>)

  datatype Previous = Previous(assignment: Id, activeWorkerMs: nat)

  datatype Answer = Assigned(assignment: Id, job: Id, workers: int, reservedWorkerMs: int) | NoWork | InvalidAssignment

  // ----- what each operation does to the tables -----

  function Freed(job: Job, r: Assignment): Job {
    job.(reserved := Max(0, job.reserved - r.reserved), workers := Max(0, job.workers - r.workers))
  }

  /** A reservation never activated is refunded; one that was is charged in full. */
  function ExpireRow(d: Directory, i: nat): Directory
    requires i < |d.rows|
  {
    var r := d.rows[i];
    var rows := d.rows[i := r.(status := EXPIRED)];
    if r.job !in d.jobs then Directory(d.jobs, rows) else
      var job := d.jobs[r.job];
      var charged := if r.status.PENDING? then job.(virtual := Max(0, job.virtual - r.reserved)) else job;
      Directory(d.jobs[r.job := Freed(charged, r)], rows)
  }

  function ExpireFrom(d: Directory, now: int, i: nat): (d': Directory)
    ensures |d'.rows| == |d.rows|
    decreases |d.rows| - i
  {
    if i >= |d.rows| then d
    else if d.rows[i].Live() && d.rows[i].expiresAt <= now then ExpireFrom(ExpireRow(d, i), now, i + 1)
    else ExpireFrom(d, now, i + 1)
  }

  function ExpireAssignments(d: Directory, now: int): Directory {
    ExpireFrom(d, now, 0)
  }

  function FindRow(rows: seq<Assignment>, id: Id, session: Id): (k: nat)
    ensures k <= |rows| && (k < |rows| ==> rows[k].id == id && rows[k].session == session)
    ensures forall i :: 0 <= i < k ==> rows[i].id != id || rows[i].session != session
  {
    if rows == [] then 0
    else if rows[0].id == id && rows[0].session == session then 0
    else 1 + FindRow(rows[1..], id, session)
  }

  function Complete(d: Directory, k: nat, actual: nat): Directory
    requires k < |d.rows|
  {
    var r := d.rows[k];
    var rows := d.rows[k := r.(status := COMPLETE, actual := actual)];
    if r.job !in d.jobs then Directory(d.jobs, rows) else
      var job := d.jobs[r.job];
      Directory(d.jobs[r.job := Freed(job.(virtual := ReconciledVirtualRuntime(job.virtual, r.reserved, actual)), r)], rows)
  }

  function Reconcile(d: Directory, session: Id, previous: Previous): (Directory, bool) {
    var k := FindRow(d.rows, previous.assignment, session);
    if k == |d.rows| || previous.activeWorkerMs > d.rows[k].reserved then (d, false)
    else if !d.rows[k].Live() then (d, true)
    else (Complete(d, k, previous.activeWorkerMs), true)
  }

  function FairJobs(jobs: map<Id, Job>): map<Id, FairJob> {
    map j | j in jobs && jobs[j].eligible && jobs[j].workers < MAX_JOB_WORKERS ::
      FairJob(jobs[j].virtual, jobs[j].workers, jobs[j].lastServiceAt)
  }

  function Reserve(d: Directory, s: Selection, session: Id, id: Id, now: int): Directory
    requires s.job in d.jobs
  {
    var reserved, job := QUANTUM_MS * s.workers, d.jobs[s.job];
    Directory(
      d.jobs[s.job := job.(virtual := job.virtual + reserved, reserved := job.reserved + reserved,
                           workers := job.workers + s.workers, lastServiceAt := now)],
      d.rows + [Assignment(id, s.job, session, s.workers, reserved, 0, PENDING, now, now + ACTIVATION_MS)])
  }

  /** Expiry and the refund of the browser's previous assignment come first; the `bool` is false if that is refused. */
  function Settle(d: Directory, session: Id, previous: Option<Previous>, now: int): (Directory, bool) {
    var expired := ExpireAssignments(d, now);
    if previous.None? then (expired, true) else Reconcile(expired, session, previous.value)
  }

  ghost function Assign(d: Directory, session: Id, maxWorkers: int, previous: Option<Previous>, now: int, id: Id): (Directory, Answer) {
    var (settled, accepted) := Settle(d, session, previous, now);
    if !accepted then (settled, InvalidAssignment) else
      var selected := Selected(FairJobs(settled.jobs), maxWorkers, now);
      if selected.None? then (settled, NoWork)
      else
        var s := selected.value;
        SelectionIsFair(FairJobs(settled.jobs), maxWorkers, now);
        (Reserve(settled, s, session, id, now), Assigned(id, s.job, s.workers, QUANTUM_MS * s.workers))
  }

  predicate Spare(d: Directory, i: Id) {
    i in d.jobs && d.jobs[i].eligible && d.jobs[i].workers < MAX_JOB_WORKERS
  }

  ghost predicate ServedBeforeJob(d: Directory, j: Id, k: Id, now: int)
    requires j in d.jobs && k in d.jobs
  {
    ServedBefore(j, FairJob(d.jobs[j].virtual, d.jobs[j].workers, d.jobs[j].lastServiceAt),
                 k, FairJob(d.jobs[k].virtual, d.jobs[k].workers, d.jobs[k].lastServiceAt), now)
  }

  /** From the settled tables: the first eligible job with room gets the share asked for, and one row and its counters grow by it. */
  ghost predicate Granted(settled: Directory, d': Directory, session: Id, maxWorkers: int, now: int, id: Id, j: Id, workers: int, reserved: int) {
    && Spare(settled, j) && FillsRequest(workers, maxWorkers, MAX_JOB_WORKERS - settled.jobs[j].workers)
    && reserved == QUANTUM_MS * workers
    && (forall k :: Spare(settled, k) ==> ServedBeforeJob(settled, j, k, now))
    && d'.rows == settled.rows + [Assignment(id, j, session, workers, reserved, 0, PENDING, now, now + ACTIVATION_MS)]
    && d'.jobs.Keys == settled.jobs.Keys
    && (forall k :: k in settled.jobs && k != j ==> d'.jobs[k] == settled.jobs[k])
    && var job := settled.jobs[j];
       d'.jobs[j] == Job(job.virtual + reserved, job.reserved + reserved, job.workers + workers, now, job.expiresAt, job.eligible)
  }

  ghost predicate Answers(settled: Directory, accepted: bool, d': Directory, answer: Answer, session: Id, maxWorkers: int, now: int, id: Id) {
    match answer
    case InvalidAssignment => !accepted && d' == settled
    case NoWork => accepted && d' == settled && forall j :: !Spare(settled, j)
    case Assigned(assignment, job, workers, reserved) =>
      accepted && assignment == id && Granted(settled, d', session, maxWorkers, now, id, job, workers, reserved)
  }

  lemma AssignmentIsExact(d: Directory, session: Id, maxWorkers: int, previous: Option<Previous>, now: int, id: Id)
    ensures var (settled, accepted) := Settle(d, session, previous, now);
      var (d', answer) := Assign(d, session, maxWorkers, previous, now, id);
      Answers(settled, accepted, d', answer, session, maxWorkers, now, id)
  {
    var (settled, accepted) := Settle(d, session, previous, now);
    var jobs := FairJobs(settled.jobs);
    SelectionIsFair(jobs, maxWorkers, now);
    var selected := Selected(jobs, maxWorkers, now);
    if accepted && selected.None? {
      forall j ensures !Spare(settled, j) {
        assert Spare(settled, j) ==> j in jobs;
      }
    } else if accepted {
      forall k | Spare(settled, k) ensures ServedBeforeJob(settled, selected.value.job, k, now) {
        assert k in Available(jobs);
      }
    }
  }

  function Activate(d: Directory, assignment: Id, session: Id, job: Id, now: int): (Directory, bool) {
    var expired := ExpireAssignments(d, now);
    var k := FindRow(expired.rows, assignment, session);
    if k == |expired.rows| || expired.rows[k].job != job then (expired, false)
    else if expired.rows[k].status.ACTIVE? then (expired, true)
    else if !expired.rows[k].status.PENDING? || expired.rows[k].expiresAt <= now then (expired, false)
    else
      (expired.(rows := expired.rows[k := expired.rows[k].(status := ACTIVE, assignedAt := now, expiresAt := now + QUANTUM_MS)]), true)
  }

  ghost function Admit(d: Directory, id: Id, createdAt: int, expiresAt: int): Directory {
    d.(jobs := d.jobs[id := Job(NewJobVirtualRuntime(FairJobs(d.jobs)), 0, 0, createdAt, expiresAt, false)])
  }

  function SetEligible(d: Directory, id: Id, eligible: bool, now: int): Directory {
    if id in d.jobs && d.jobs[id].eligible != eligible
    then d.(jobs := d.jobs[id := d.jobs[id].(eligible := eligible, lastServiceAt := now)]) else d
  }

  function CancelRows(rows: seq<Assignment>, job: Id): (rows': seq<Assignment>)
    ensures |rows'| == |rows|
  {
    seq(|rows|, i requires 0 <= i < |rows| => if rows[i].job == job && rows[i].Live() then rows[i].(status := CANCELLED) else rows[i])
  }

  function Close(d: Directory, id: Id): Directory {
    Directory(d.jobs - {id}, CancelRows(d.rows, id))
  }

  function Rollback(d: Directory, id: Id): Directory {
    d.(jobs := d.jobs - {id})
  }

  function Alarm(d: Directory, now: int): Directory {
    var expired := ExpireAssignments(d, now);
    expired.(jobs := map j | j in expired.jobs && expired.jobs[j].expiresAt > now :: expired.jobs[j])
  }

  // ----- the ledger -----

  function LiveWorkers(r: Assignment): int {
    if r.Live() then r.workers else 0
  }

  function LiveReserved(r: Assignment): int {
    if r.Live() then r.reserved else 0
  }

  /** What a row has cost its job: an expired row counts in full exactly when its deadline is an active one. */
  function Charge(r: Assignment): int {
    match r.status
    case PENDING => r.reserved
    case ACTIVE => r.reserved
    case COMPLETE => r.actual
    case EXPIRED => if r.expiresAt == r.assignedAt + QUANTUM_MS then r.reserved else 0
    case CANCELLED => 0
  }

  function Sum(rows: seq<Assignment>, job: Id, f: Assignment -> int): int {
    if rows == [] then 0 else
      Sum(rows[..|rows| - 1], job, f) + (if rows[|rows| - 1].job == job then f(rows[|rows| - 1]) else 0)
  }

  predicate RowOk(r: Assignment) {
    && r.workers >= 1 && r.reserved == QUANTUM_MS * r.workers
    && (r.status.PENDING? ==> r.expiresAt == r.assignedAt + ACTIVATION_MS)
    && (r.status.ACTIVE? ==> r.expiresAt == r.assignedAt + QUANTUM_MS)
    && (r.status.COMPLETE? ==> 0 <= r.actual <= r.reserved)
  }

  predicate RowsOk(rows: seq<Assignment>) {
    forall i :: 0 <= i < |rows| ==> RowOk(rows[i])
  }

  /** A job's counters are the sums over its rows, and its runtime is what it started with plus what its rows cost. */
  ghost predicate JobBalanced(job: Job, rows: seq<Assignment>, j: Id, entry: int) {
    && job.workers == Sum(rows, j, LiveWorkers) <= MAX_JOB_WORKERS
    && job.reserved == Sum(rows, j, LiveReserved)
    && job.virtual == entry + Sum(rows, j, Charge) && entry >= 0
  }

  ghost predicate Balanced(d: Directory, entry: map<Id, int>) {
    RowsOk(d.rows) && forall j :: j in d.jobs ==> j in entry && JobBalanced(d.jobs[j], d.rows, j, entry[j])
  }

  lemma {:induction false} SumUpdate(rows: seq<Assignment>, i: nat, r: Assignment, job: Id, f: Assignment -> int)
    requires i < |rows| && r.job == rows[i].job
    ensures Sum(rows[i := r], job, f) == Sum(rows, job, f) + if r.job == job then f(r) - f(rows[i]) else 0
  {
    var init := rows[..|rows| - 1];
    if i < |init| {
      SumUpdate(init, i, r, job, f);
      assert rows[i := r][..|rows| - 1] == init[i := r];
    } else {
      assert rows[i := r][..|rows| - 1] == init;
    }
  }

  lemma SumAppend(rows: seq<Assignment>, r: Assignment, job: Id, f: Assignment -> int)
    ensures Sum(rows + [r], job, f) == Sum(rows, job, f) + if r.job == job then f(r) else 0
  {
    assert (rows + [r])[..|rows|] == rows;
  }

  /** No row of a job takes more than the job's total. */
  lemma {:induction false} SumCovers(rows: seq<Assignment>, job: Id, f: Assignment -> int, i: nat)
    requires i < |rows| && rows[i].job == job && forall k :: 0 <= k < |rows| ==> f(rows[k]) >= 0
    ensures 0 <= f(rows[i]) <= Sum(rows, job, f)
  {
    var init := rows[..|rows| - 1];
    if i < |init| {
      SumCovers(init, job, f, i);
    } else {
      SumNonNegative(init, job, f);
    }
  }

  lemma {:induction false} SumNonNegative(rows: seq<Assignment>, job: Id, f: Assignment -> int)
    requires forall k :: 0 <= k < |rows| ==> f(rows[k]) >= 0
    ensures Sum(rows, job, f) >= 0
  {
    if rows != [] {
      SumNonNegative(rows[..|rows| - 1], job, f);
    }
  }

  lemma CountersCover(d: Directory, entry: map<Id, int>, i: nat)
    requires Balanced(d, entry) && i < |d.rows| && d.rows[i].job in d.jobs && d.rows[i].Live()
    ensures var job, r := d.jobs[d.rows[i].job], d.rows[i];
      job.workers >= r.workers && job.reserved >= r.reserved && job.virtual >= r.reserved
  {
    var j := d.rows[i].job;
    SumCovers(d.rows, j, LiveWorkers, i);
    SumCovers(d.rows, j, LiveReserved, i);
    SumCovers(d.rows, j, Charge, i);
  }

  /** One row and its job change together, by the same amounts. */
  lemma RowChanges(d: Directory, entry: map<Id, int>, i: nat, r: Assignment, jobs': map<Id, Job>)
    requires Balanced(d, entry) && i < |d.rows| && RowOk(r) && r.job == d.rows[i].job
    requires jobs'.Keys == d.jobs.Keys && forall j :: j in d.jobs && j != r.job ==> jobs'[j] == d.jobs[j]
    requires r.job in d.jobs ==>
      var job, job' := d.jobs[r.job], jobs'[r.job];
      && job'.workers == job.workers + LiveWorkers(r) - LiveWorkers(d.rows[i]) <= MAX_JOB_WORKERS
      && job'.reserved == job.reserved + LiveReserved(r) - LiveReserved(d.rows[i])
      && job'.virtual == job.virtual + Charge(r) - Charge(d.rows[i])
    ensures Balanced(Directory(jobs', d.rows[i := r]), entry)
  {
    forall j | j in jobs' ensures j in entry && JobBalanced(jobs'[j], d.rows[i := r], j, entry[j]) {
      SumUpdate(d.rows, i, r, j, LiveWorkers);
      SumUpdate(d.rows, i, r, j, LiveReserved);
      SumUpdate(d.rows, i, r, j, Charge);
    }
  }

  lemma ExpireRowBalances(d: Directory, entry: map<Id, int>, i: nat)
    requires Balanced(d, entry) && i < |d.rows| && d.rows[i].Live()
    ensures Balanced(ExpireRow(d, i), entry)
  {
    if d.rows[i].job in d.jobs {
      CountersCover(d, entry, i);
    }
    RowChanges(d, entry, i, d.rows[i].(status := EXPIRED), ExpireRow(d, i).jobs);
  }

  lemma {:induction false} ExpireBalances(d: Directory, entry: map<Id, int>, now: int, i: nat)
    requires Balanced(d, entry)
    ensures Balanced(ExpireFrom(d, now, i), entry)
    decreases |d.rows| - i
  {
    if i < |d.rows| {
      if d.rows[i].Live() && d.rows[i].expiresAt <= now {
        ExpireRowBalances(d, entry, i);
        ExpireBalances(ExpireRow(d, i), entry, now, i + 1);
      } else {
        ExpireBalances(d, entry, now, i + 1);
      }
    }
  }

  lemma CompleteBalances(d: Directory, entry: map<Id, int>, k: nat, actual: nat)
    requires Balanced(d, entry) && k < |d.rows| && d.rows[k].Live() && actual <= d.rows[k].reserved
    ensures Balanced(Complete(d, k, actual), entry)
  {
    if d.rows[k].job in d.jobs {
      CountersCover(d, entry, k);
    }
    RowChanges(d, entry, k, d.rows[k].(status := COMPLETE, actual := actual), Complete(d, k, actual).jobs);
  }

  lemma SettleBalances(d: Directory, entry: map<Id, int>, session: Id, previous: Option<Previous>, now: int)
    requires Balanced(d, entry)
    ensures Balanced(Settle(d, session, previous, now).0, entry)
  {
    var expired := ExpireAssignments(d, now);
    ExpireBalances(d, entry, now, 0);
    if previous.Some? {
      var k := FindRow(expired.rows, previous.value.assignment, session);
      if k < |expired.rows| && previous.value.activeWorkerMs <= expired.rows[k].reserved && expired.rows[k].Live() {
        CompleteBalances(expired, entry, k, previous.value.activeWorkerMs);
      }
    }
  }

  lemma ReserveBalances(d: Directory, entry: map<Id, int>, s: Selection, session: Id, id: Id, now: int)
    requires Balanced(d, entry) && s.job in d.jobs && 1 <= s.workers <= MAX_JOB_WORKERS - d.jobs[s.job].workers
    ensures Balanced(Reserve(d, s, session, id, now), entry)
  {
    var d' := Reserve(d, s, session, id, now);
    var r := d'.rows[|d.rows|];
    forall j | j in d'.jobs ensures j in entry && JobBalanced(d'.jobs[j], d'.rows, j, entry[j]) {
      SumAppend(d.rows, r, j, LiveWorkers);
      SumAppend(d.rows, r, j, LiveReserved);
      SumAppend(d.rows, r, j, Charge);
    }
  }

  lemma AssignBalances(d: Directory, entry: map<Id, int>, session: Id, maxWorkers: int, previous: Option<Previous>, now: int, id: Id)
    requires Balanced(d, entry)
    ensures Balanced(Assign(d, session, maxWorkers, previous, now, id).0, entry)
  {
    var (settled, accepted) := Settle(d, session, previous, now);
    SettleBalances(d, entry, session, previous, now);
    var selected := Selected(FairJobs(settled.jobs), maxWorkers, now);
    SelectionIsFair(FairJobs(settled.jobs), maxWorkers, now);
    if accepted && selected.Some? {
      ReserveBalances(settled, entry, selected.value, session, id, now);
    }
  }

  lemma ActivateBalances(d: Directory, entry: map<Id, int>, assignment: Id, session: Id, job: Id, now: int)
    requires Balanced(d, entry)
    ensures Balanced(Activate(d, assignment, session, job, now).0, entry)
  {
    var expired := ExpireAssignments(d, now);
    ExpireBalances(d, entry, now, 0);
    var d' := Activate(d, assignment, session, job, now).0;
    if d' != expired {
      var k := FindRow(expired.rows, assignment, session);
      RowChanges(expired, entry, k, d'.rows[k], expired.jobs);
    }
  }

  lemma {:induction false} SumCancelled(rows: seq<Assignment>, closed: Id, job: Id, f: Assignment -> int)
    requires job != closed
    ensures Sum(CancelRows(rows, closed), job, f) == Sum(rows, job, f)
  {
    if rows != [] {
      SumCancelled(rows[..|rows| - 1], closed, job, f);
      assert CancelRows(rows, closed)[..|rows| - 1] == CancelRows(rows[..|rows| - 1], closed);
    }
  }

  lemma CloseBalances(d: Directory, entry: map<Id, int>, id: Id)
    requires Balanced(d, entry)
    ensures Balanced(Close(d, id), entry)
  {
    var d' := Close(d, id);
    forall j | j in d'.jobs ensures j in entry && JobBalanced(d'.jobs[j], d'.rows, j, entry[j]) {
      SumCancelled(d.rows, id, j, LiveWorkers);
      SumCancelled(d.rows, id, j, LiveReserved);
      SumCancelled(d.rows, id, j, Charge);
    }
  }

  ghost predicate NeverUsed(d: Directory, id: Id) {
    id !in d.jobs && forall i :: 0 <= i < |d.rows| ==> d.rows[i].job != id
  }

  lemma {:induction false} SumUnused(rows: seq<Assignment>, id: Id, f: Assignment -> int)
    requires forall i :: 0 <= i < |rows| ==> rows[i].job != id
    ensures Sum(rows, id, f) == 0
  {
    if rows != [] {
      SumUnused(rows[..|rows| - 1], id, f);
    }
  }

  lemma VirtualNonNegative(d: Directory, entry: map<Id, int>, j: Id)
    requires Balanced(d, entry) && j in d.jobs
    ensures d.jobs[j].virtual >= 0
  {
    SumNonNegative(d.rows, j, Charge);
  }

  lemma AdmitBalances(d: Directory, entry: map<Id, int>, id: Id, createdAt: int, expiresAt: int)
    requires Balanced(d, entry) && NeverUsed(d, id)
    ensures Balanced(Admit(d, id, createdAt, expiresAt), entry[id := NewJobVirtualRuntime(FairJobs(d.jobs))])
  {
    var d' := Admit(d, id, createdAt, expiresAt);
    SumUnused(d.rows, id, LiveWorkers);
    SumUnused(d.rows, id, LiveReserved);
    SumUnused(d.rows, id, Charge);
    forall j | j in d.jobs ensures d.jobs[j].virtual >= 0 {
      VirtualNonNegative(d, entry, j);
    }
    assert NewJobVirtualRuntime(FairJobs(d.jobs)) >= 0;
  }

  // ----- runs -----

  datatype Event =
    | AssignWorker(session: Id, maxWorkers: int, previous: Option<Previous>, id: Id)
    | ActivateAssignment(assignment: Id, activatedBy: Id, job: Id)
    | AdmitJob(admitted: Id, expiresAt: int)
    | ChangeEligibility(changed: Id, eligible: bool)
    | CloseJob(closed: Id)
    | RollBackJob(rolledBack: Id)
    | AlarmRings

  datatype Timed = Timed(event: Event, now: int)

  ghost function Step(d: Directory, step: Timed): Directory {
    match step.event
    case AssignWorker(session, maxWorkers, previous, id) => Assign(d, session, maxWorkers, previous, step.now, id).0
    case ActivateAssignment(assignment, session, job) => Activate(d, assignment, session, job, step.now).0
    case AdmitJob(id, expiresAt) => Admit(d, id, step.now, expiresAt)
    case ChangeEligibility(id, eligible) => SetEligible(d, id, eligible, step.now)
    case CloseJob(id) => Close(d, id)
    case RollBackJob(id) => Rollback(d, id)
    case AlarmRings => Alarm(d, step.now)
  }

  /** Job identifiers are fresh; everything else may happen at any time. */
  ghost predicate Follows(d: Directory, step: Timed, d': Directory) {
    (step.event.AdmitJob? ==> NeverUsed(d, step.event.admitted)) && d' == Step(d, step)
  }

  ghost predicate Run(trace: seq<Directory>, steps: seq<Timed>) {
    && |trace| == |steps| + 1 && trace[0] == Directory(map[], [])
    && forall i {:trigger Follows(trace[i], steps[i], trace[i + 1])} :: 0 <= i < |steps| ==> Follows(trace[i], steps[i], trace[i + 1])
  }

  lemma StepBalances(d: Directory, entry: map<Id, int>, step: Timed) returns (entry': map<Id, int>)
    requires Balanced(d, entry) && (step.event.AdmitJob? ==> NeverUsed(d, step.event.admitted))
    ensures Balanced(Step(d, step), entry')
    ensures forall j :: j in d.jobs ==> j in entry' && entry'[j] == entry[j]
    ensures step.event.AdmitJob? ==> entry' == entry[step.event.admitted := NewJobVirtualRuntime(FairJobs(d.jobs))]
  {
    entry' := entry;
    match step.event {
      case AssignWorker(session, maxWorkers, previous, id) => AssignBalances(d, entry, session, maxWorkers, previous, step.now, id);
      case ActivateAssignment(assignment, session, job) => ActivateBalances(d, entry, assignment, session, job, step.now);
      case AdmitJob(id, expiresAt) =>
        AdmitBalances(d, entry, id, step.now, expiresAt);
        entry' := entry[id := NewJobVirtualRuntime(FairJobs(d.jobs))];
      case CloseJob(id) => CloseBalances(d, entry, id);
      case AlarmRings => ExpireBalances(d, entry, step.now, 0);
      case _ =>
    }
  }

  /** Step `k` admits the job, and it is in the directory from then on up to state `n`. */
  ghost predicate EntersAt(trace: seq<Directory>, steps: seq<Timed>, k: nat, n: nat, j: Id)
    requires |trace| == |steps| + 1 && n < |trace|
  {
    k < n && steps[k].event.AdmitJob? && steps[k].event.admitted == j && forall m :: k < m <= n ==> j in trace[m].jobs
  }

  /** The refund of any live assignment takes away only what its job has, so no `max(0, ...)` ever bites. */
  ghost predicate NoClampBites(d: Directory) {
    forall i :: 0 <= i < |d.rows| && d.rows[i].Live() && d.rows[i].job in d.jobs ==>
      var job, r := d.jobs[d.rows[i].job], d.rows[i];
      job.workers >= r.workers && job.reserved >= r.reserved && job.virtual >= r.reserved
  }

  lemma StepKeys(d: Directory, entry: map<Id, int>, step: Timed)
    requires Balanced(d, entry)
    ensures forall j :: j in Step(d, step).jobs ==> j in d.jobs || (step.event.AdmitJob? && step.event.admitted == j)
  {
    match step.event {
      case AssignWorker(session, maxWorkers, previous, id) =>
        SettleGentle(d, entry, session, previous, step.now);
        SelectionIsFair(FairJobs(Settle(d, session, previous, step.now).0.jobs), maxWorkers, step.now);
      case ActivateAssignment(assignment, session, job) => ExpireGentle(d, entry, step.now, 0);
      case AlarmRings => ExpireGentle(d, entry, step.now, 0);
      case _ =>
    }
  }

  lemma StepEnters(trace: seq<Directory>, steps: seq<Timed>, entry: map<Id, int>, k: nat, n: nat, j: Id)
    requires Run(trace, steps) && k < |steps| && n == k + 1 && Balanced(trace[k], entry) && j in trace[n].jobs
    requires j in trace[k].jobs ==> exists m: nat :: EntersAt(trace, steps, m, k, j)
    ensures exists m: nat :: EntersAt(trace, steps, m, n, j)
  {
    assert Follows(trace[k], steps[k], trace[k + 1]);
    StepKeys(trace[k], entry, steps[k]);
    if j in trace[k].jobs {
      var m: nat :| EntersAt(trace, steps, m, k, j);
      assert EntersAt(trace, steps, m, n, j);
    } else {
      assert EntersAt(trace, steps, k, n, j);
    }
  }

  /**
   In every reachable directory each job's counters equal the sums over its live assignments, at most
   8 workers are assigned to it, and its virtual runtime is what it had when it was admitted plus the
   actual time of completed, the full time of expired active and the reserved time of live assignments.
   */
  lemma {:induction false} LedgerIsConserved(trace: seq<Directory>, steps: seq<Timed>, n: nat) returns (entry: map<Id, int>)
    requires Run(trace, steps) && n < |trace|
    ensures Balanced(trace[n], entry) && NoClampBites(trace[n])
    ensures forall j :: j in trace[n].jobs ==> exists k: nat :: EntersAt(trace, steps, k, n, j)
    ensures forall k: nat, j :: EntersAt(trace, steps, k, n, j) ==> entry[j] == trace[k + 1].jobs[j].virtual
  {
    if n == 0 {
      entry := map[];
    } else {
      var k := n - 1;
      var before := LedgerIsConserved(trace, steps, k);
      assert Follows(trace[k], steps[k], trace[k + 1]);
      entry := StepBalances(trace[k], before, steps[k]);
      forall j | j in trace[n].jobs ensures exists m: nat :: EntersAt(trace, steps, m, n, j) {
        StepEnters(trace, steps, before, k, n, j);
      }
      forall m: nat, j | EntersAt(trace, steps, m, n, j) ensures entry[j] == trace[m + 1].jobs[j].virtual {
        assert m < k ==> EntersAt(trace, steps, m, k, j);
      }
    }
    ClampsNeverBite(trace[n], entry);
  }

  lemma ClampsNeverBite(d: Directory, entry: map<Id, int>)
    requires Balanced(d, entry)
    ensures NoClampBites(d)
  {
    forall i | 0 <= i < |d.rows| && d.rows[i].Live() && d.rows[i].job in d.jobs
      ensures d.jobs[d.rows[i].job].workers >= d.rows[i].workers && d.jobs[d.rows[i].job].reserved >= d.rows[i].reserved
      ensures d.jobs[d.rows[i].job].virtual >= d.rows[i].reserved
    {
      CountersCover(d, entry, i);
    }
  }

  // ----- fairness -----

  /** Runtime that can no longer be refunded. */
  function Settled(job: Job): int {
    job.virtual - job.reserved
  }

  predicate Within(d: Directory, i: Id, j: Id) {
    i in d.jobs && j in d.jobs && d.jobs[j].virtual <= Settled(d.jobs[i]) + 16 * QUANTUM_MS
  }

  /** If the scheduler makes a choice in this step, the job has room at that moment, after expiries and refunds. */
  predicate SpareAtChoice(d: Directory, step: Timed, i: Id) {
    step.event.AssignWorker? ==> Spare(Settle(d, step.event.session, step.event.previous, step.now).0, i)
  }

  /** No job gains runtime or loses settled runtime. */
  ghost predicate Gentle(d: Directory, d': Directory) {
    forall j :: j in d.jobs && j in d'.jobs ==>
      d'.jobs[j].virtual <= d.jobs[j].virtual && Settled(d'.jobs[j]) >= Settled(d.jobs[j])
  }

  lemma ExpireRowGentle(d: Directory, entry: map<Id, int>, i: nat)
    requires Balanced(d, entry) && i < |d.rows| && d.rows[i].Live()
    ensures Gentle(d, ExpireRow(d, i)) && ExpireRow(d, i).jobs.Keys == d.jobs.Keys
  {
    if d.rows[i].job in d.jobs {
      CountersCover(d, entry, i);
    }
  }

  lemma GentleTransitive(a: Directory, b: Directory, c: Directory)
    requires Gentle(a, b) && Gentle(b, c) && a.jobs.Keys == b.jobs.Keys == c.jobs.Keys
    ensures Gentle(a, c)
  {
  }

  lemma {:induction false} ExpireGentle(d: Directory, entry: map<Id, int>, now: int, i: nat)
    requires Balanced(d, entry)
    ensures Gentle(d, ExpireFrom(d, now, i)) && ExpireFrom(d, now, i).jobs.Keys == d.jobs.Keys
    decreases |d.rows| - i
  {
    if i < |d.rows| {
      if d.rows[i].Live() && d.rows[i].expiresAt <= now {
        var next := ExpireRow(d, i);
        ExpireRowGentle(d, entry, i);
        ExpireRowBalances(d, entry, i);
        ExpireGentle(next, entry, now, i + 1);
        GentleTransitive(d, next, ExpireFrom(next, now, i + 1));
      } else {
        ExpireGentle(d, entry, now, i + 1);
      }
    }
  }

  lemma SettleGentle(d: Directory, entry: map<Id, int>, session: Id, previous: Option<Previous>, now: int)
    requires Balanced(d, entry)
    ensures Gentle(d, Settle(d, session, previous, now).0) && Settle(d, session, previous, now).0.jobs.Keys == d.jobs.Keys
  {
    var expired := ExpireAssignments(d, now);
    ExpireGentle(d, entry, now, 0);
    ExpireBalances(d, entry, now, 0);
    if previous.Some? {
      var k := FindRow(expired.rows, previous.value.assignment, session);
      if k < |expired.rows| && expired.rows[k].Live() && expired.rows[k].job in expired.jobs {
        CountersCover(expired, entry, k);
      }
    }
  }

  lemma {:induction false} ReservedAtMost(rows: seq<Assignment>, j: Id)
    requires RowsOk(rows)
    ensures Sum(rows, j, LiveReserved) == QUANTUM_MS * Sum(rows, j, LiveWorkers)
  {
    if rows != [] {
      ReservedAtMost(rows[..|rows| - 1], j);
    }
  }

  /** A job with room has reserved at most seven quanta. */
  lemma SpareReserved(d: Directory, entry: map<Id, int>, i: Id)
    requires Balanced(d, entry) && Spare(d, i)
    ensures d.jobs[i].reserved <= 7 * QUANTUM_MS
  {
    ReservedAtMost(d.rows, i);
  }

  lemma WorkersNonNegative(d: Directory, entry: map<Id, int>, j: Id)
    requires Balanced(d, entry) && j in d.jobs
    ensures 0 <= d.jobs[j].workers
  {
    SumNonNegative(d.rows, j, LiveWorkers);
  }

  /** Serving `j` while `i` has room keeps `j` within sixteen quanta of what `i` has settled. */
  lemma ReserveWithin(d: Directory, entry: map<Id, int>, maxWorkers: int, session: Id, id: Id, now: int, i: Id, j: Id)
    requires Balanced(d, entry) && Within(d, i, j)
    requires Selected(FairJobs(d.jobs), maxWorkers, now).Some?
    requires Selected(FairJobs(d.jobs), maxWorkers, now).value.job == j ==> Spare(d, i)
    ensures Selected(FairJobs(d.jobs), maxWorkers, now).value.job in d.jobs
    ensures Within(Reserve(d, Selected(FairJobs(d.jobs), maxWorkers, now).value, session, id, now), i, j)
  {
    var s := Selected(FairJobs(d.jobs), maxWorkers, now).value;
    SelectionIsFair(FairJobs(d.jobs), maxWorkers, now);
    WorkersNonNegative(d, entry, s.job);
    if s.job == j {
      assert i in Available(FairJobs(d.jobs));
      assert FairJobs(d.jobs)[j].virtualWorkerMs <= FairJobs(d.jobs)[i].virtualWorkerMs + QUANTUM_MS;
      SpareReserved(d, entry, i);
    }
    ChargeWithin(d, s, session, id, now, i, j);
  }

  lemma ChargeWithin(d: Directory, s: Selection, session: Id, id: Id, now: int, i: Id, j: Id)
    requires s.job in d.jobs && s.workers <= MAX_JOB_WORKERS && Within(d, i, j)
    requires s.job == j ==> d.jobs[j].virtual <= d.jobs[i].virtual + QUANTUM_MS && d.jobs[i].reserved <= 7 * QUANTUM_MS
    ensures Within(Reserve(d, s, session, id, now), i, j)
  {
  }

  lemma StepWithin(d: Directory, entry: map<Id, int>, step: Timed, i: Id, j: Id)
    requires Balanced(d, entry) && Within(d, i, j) && i in Step(d, step).jobs && j in Step(d, step).jobs
    requires step.event.AdmitJob? ==> NeverUsed(d, step.event.admitted)
    requires SpareAtChoice(d, step, i)
    ensures Within(Step(d, step), i, j)
  {
    match step.event {
      case AssignWorker(session, maxWorkers, previous, id) =>
        var (settled, accepted) := Settle(d, session, previous, step.now);
        SettleGentle(d, entry, session, previous, step.now);
        SettleBalances(d, entry, session, previous, step.now);
        if accepted && Selected(FairJobs(settled.jobs), maxWorkers, step.now).Some? {
          ReserveWithin(settled, entry, maxWorkers, session, id, step.now, i, j);
        }
      case ActivateAssignment(assignment, session, job) => ExpireGentle(d, entry, step.now, 0);
      case AlarmRings => ExpireGentle(d, entry, step.now, 0);
      case _ =>
    }
  }

  /**
   Over any stretch of a run in which both jobs stay in the directory and `i` has room whenever the
   scheduler chooses: if `j` starts within sixteen quanta of what `i` has settled, it stays there,
   through every assignment, activation, refund and expiry.
   */
  lemma {:induction false} FairnessBound(trace: seq<Directory>, steps: seq<Timed>, a: nat, b: nat, i: Id, j: Id)
    requires Run(trace, steps) && a <= b < |trace| && Within(trace[a], i, j)
    requires forall k :: a <= k <= b ==> i in trace[k].jobs && j in trace[k].jobs
    requires forall k :: a <= k < b ==> SpareAtChoice(trace[k], steps[k], i)
    ensures Within(trace[b], i, j)
    decreases b
  {
    if a < b {
      FairnessBound(trace, steps, a, b - 1, i, j);
      var entry := LedgerIsConserved(trace, steps, b - 1);
      var k := b - 1;
      assert Follows(trace[k], steps[k], trace[k + 1]);
      StepWithin(trace[b - 1], entry, steps[b - 1], i, j);
    }
  }

  // ----- the directory object -----

  class SwarmDirectory {
    var jobs: map<Id, Job>
    var rows: seq<Assignment>

    ghost function Tables(): Directory
      reads this
    {
      Directory(jobs, rows)
    }

    constructor ()
      ensures Tables() == Directory(map[], [])
    {
      jobs, rows := map[], [];
    }

    method Expire(now: int)
      modifies this
      ensures Tables() == ExpireAssignments(old(Tables()), now)
    {
      ghost var before := Tables();
      for i := 0 to |rows|
        invariant |rows| == |before.rows|
        invariant ExpireFrom(before, now, 0) == ExpireFrom(Tables(), now, i)
      {
        var r := rows[i];
        if r.Live() && r.expiresAt <= now {
          if r.job in jobs {
            var job := jobs[r.job];
            if r.status.PENDING? {
              job := job.(virtual := Max(0, job.virtual - r.reserved));
            }
            jobs := jobs[r.job := Freed(job, r)];
          }
          rows := rows[i := r.(status := EXPIRED)];
        }
      }
    }

    method Lookup(id: Id, session: Id) returns (k: nat)
      ensures k == FindRow(rows, id, session)
    {
      k := 0;
      while k < |rows| && (rows[k].id != id || rows[k].session != session)
        invariant 0 <= k <= |rows| && FindRow(rows, id, session) == k + FindRow(rows[k..], id, session)
      {
        k := k + 1;
      }
    }

    method ReconcilePrevious(session: Id, previous: Previous) returns (ok: bool)
      modifies this
      ensures (Tables(), ok) == Reconcile(old(Tables()), session, previous)
    {
      var k := Lookup(previous.assignment, session);
      if k == |rows| || previous.activeWorkerMs > rows[k].reserved {
        return false;
      }
      var r := rows[k];
      if !r.Live() {
        return true;
      }
      if r.job in jobs {
        var job := jobs[r.job];
        var virtual := ReconciledVirtualRuntime(job.virtual, r.reserved, previous.activeWorkerMs);
        jobs := jobs[r.job := Freed(job.(virtual := virtual), r)];
      }
      rows := rows[k := r.(status := COMPLETE, actual := previous.activeWorkerMs)];
      return true;
    }

    method AssignSession(session: Id, maxWorkers: int, previous: Option<Previous>, now: int, id: Id) returns (answer: Answer)
      modifies this
      ensures (Tables(), answer) == Assign(old(Tables()), session, maxWorkers, previous, now, id)
      ensures var (settled, accepted) := Settle(old(Tables()), session, previous, now);
        Answers(settled, accepted, Tables(), answer, session, maxWorkers, now, id)
    {
      AssignmentIsExact(Tables(), session, maxWorkers, previous, now, id);
      Expire(now);
      if previous.Some? {
        var ok := ReconcilePrevious(session, previous.value);
        if !ok {
          return InvalidAssignment;
        }
      }
      SelectionIsFair(FairJobs(jobs), maxWorkers, now);
      var selected := SelectFairJob(FairJobs(jobs), maxWorkers, now);
      if selected.None? {
        return NoWork;
      }
      AddAssignment(selected.value, session, id, now);
      return Assigned(id, selected.value.job, selected.value.workers, QUANTUM_MS * selected.value.workers);
    }

    method AddAssignment(selected: Selection, session: Id, id: Id, now: int)
      requires selected.job in jobs
      modifies this
      ensures Tables() == Reserve(old(Tables()), selected, session, id, now)
    {
      var chosen, workers := selected.job, selected.workers;
      var reservedWorkerMs, job := QUANTUM_MS * workers, jobs[chosen];
      rows := rows + [Assignment(id, chosen, session, workers, reservedWorkerMs, 0, PENDING, now, now + ACTIVATION_MS)];
      jobs := jobs[chosen := job.(virtual := job.virtual + reservedWorkerMs, reserved := job.reserved + reservedWorkerMs,
                                  workers := job.workers + workers, lastServiceAt := now)];
    }

    method ActivateSession(assignment: Id, session: Id, job: Id, now: int) returns (ok: bool)
      modifies this
      ensures (Tables(), ok) == Activate(old(Tables()), assignment, session, job, now)
    {
      Expire(now);
      var k := Lookup(assignment, session);
      if k == |rows| || rows[k].job != job {
        return false;
      }
      if rows[k].status.ACTIVE? {
        return true;
      }
      if !rows[k].status.PENDING? || rows[k].expiresAt <= now {
        return false;
      }
      rows := rows[k := rows[k].(status := ACTIVE, assignedAt := now, expiresAt := now + QUANTUM_MS)];
      return true;
    }

    method AdmitNew(id: Id, createdAt: int, expiresAt: int)
      modifies this
      ensures Tables() == Admit(old(Tables()), id, createdAt, expiresAt)
    {
      var initial := LeastVirtualRuntime(FairJobs(jobs));
      jobs := jobs[id := Job(initial, 0, 0, createdAt, expiresAt, false)];
    }

    method MakeEligible(id: Id, eligible: bool, now: int) returns (changed: bool)
      modifies this
      ensures Tables() == SetEligible(old(Tables()), id, eligible, now)
      ensures changed <==> id in old(jobs) && old(jobs)[id].eligible != eligible
      ensures forall i, j :: Within(Tables(), i, j) <==> Within(old(Tables()), i, j)
    {
      changed := id in jobs && jobs[id].eligible != eligible;
      if changed {
        jobs := jobs[id := jobs[id].(eligible := eligible, lastServiceAt := now)];
      }
    }

    method CloseFinished(id: Id)
      modifies this
      ensures Tables() == Close(old(Tables()), id)
    {
      ghost var before := rows;
      for i := 0 to |rows|
        invariant jobs == old(jobs) && |rows| == |before| && rows[..i] == CancelRows(before, id)[..i] && rows[i..] == before[i..]
      {
        if rows[i].job == id && rows[i].Live() {
          rows := rows[i := rows[i].(status := CANCELLED)];
        }
      }
      assert rows[..|rows|] == rows && CancelRows(before, id)[..|rows|] == CancelRows(before, id);
      jobs := jobs - {id};
    }

    method RollbackAdmission(id: Id)
      modifies this
      ensures Tables() == Rollback(old(Tables()), id)
    {
      jobs := jobs - {id};
    }

    method AlarmHandler(now: int)
      modifies this
      ensures Tables() == Alarm(old(Tables()), now)
    {
      Expire(now);
      jobs := map j | j in jobs && jobs[j].expiresAt > now :: jobs[j];
    }
  }
}
