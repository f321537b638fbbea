/**
 What each operation of the directory does, row by row and counter by counter, for every directory
 whose ledger balances. No clamp, loop or fold appears in these statements.
 */
module SwarmEffects {
  import opened Wrappers
  import opened Rows
  import opened FairScheduler
  import opened SwarmDirectory

  // ----- expiry -----

  predicate Late(r: Assignment, now: int) {
    r.Live() && r.expiresAt <= now
  }

  function LateWorkers(now: int): Assignment -> int {
    (r: Assignment) => if Late(r, now) then r.workers else 0
  }

  function LateReserved(now: int): Assignment -> int {
    (r: Assignment) => if Late(r, now) then r.reserved else 0
  }

  /** Only a late row that was never activated is refunded. */
  function LateRefund(now: int): Assignment -> int {
    (r: Assignment) => if Late(r, now) && r.status.PENDING? then r.reserved else 0
  }

  ghost predicate RowsExpired(rows: seq<Assignment>, rows': seq<Assignment>, now: int) {
    && |rows'| == |rows|
    && forall i :: 0 <= i < |rows| ==> rows'[i] == if Late(rows[i], now) then rows[i].(status := EXPIRED) else rows[i]
  }

  /** The late rows end; each job loses exactly what its late rows held and gets back what was never activated. */
  ghost predicate Expired(d: Directory, d': Directory, now: int) {
    && RowsExpired(d.rows, d'.rows, now) && d'.jobs.Keys == d.jobs.Keys
    && forall j :: j in d.jobs ==>
      d'.jobs[j] == d.jobs[j].(
        virtual := d.jobs[j].virtual - Sum(d.rows, j, LateRefund(now)),
        reserved := d.jobs[j].reserved - Sum(d.rows, j, LateReserved(now)),
        workers := d.jobs[j].workers - Sum(d.rows, j, LateWorkers(now)))
  }

  lemma {:induction false} SumFalls(rows: seq<Assignment>, rows': seq<Assignment>, j: Id, f: Assignment -> int, g: Assignment -> int)
    requires |rows'| == |rows|
    requires forall i :: 0 <= i < |rows| ==> rows'[i].job == rows[i].job && f(rows'[i]) == f(rows[i]) - g(rows[i])
    ensures Sum(rows', j, f) == Sum(rows, j, f) - Sum(rows, j, g)
  {
    if rows != [] {
      SumFalls(rows[..|rows| - 1], rows'[..|rows| - 1], j, f, g);
    }
  }

  predicate SameTerms(job: Job, job': Job) {
    job'.lastServiceAt == job.lastServiceAt && job'.expiresAt == job.expiresAt && job'.eligible == job.eligible
  }

  lemma {:induction false} ExpiryRows(d: Directory, now: int, i: nat)
    requires i <= |d.rows|
    ensures var d' := ExpireFrom(d, now, i);
      && d'.rows[..i] == d.rows[..i] && RowsExpired(d.rows[i..], d'.rows[i..], now)
      && d'.jobs.Keys == d.jobs.Keys && forall j :: j in d.jobs ==> SameTerms(d.jobs[j], d'.jobs[j])
    decreases |d.rows| - i
  {
    if i < |d.rows| {
      var d' := ExpireFrom(d, now, i);
      var next := if Late(d.rows[i], now) then ExpireRow(d, i) else d;
      ExpiryRows(next, now, i + 1);
      assert d'.rows[i] == d'.rows[..i + 1][i] == next.rows[..i + 1][i] == next.rows[i];
      assert d'.rows[..i] == d'.rows[..i + 1][..i] == next.rows[..i + 1][..i] == d.rows[..i];
      forall k | 0 <= k < |d.rows[i..]|
        ensures d'.rows[i..][k] == if Late(d.rows[i..][k], now) then d.rows[i..][k].(status := EXPIRED) else d.rows[i..][k]
      {
        if k > 0 {
          var m := k - 1;
          assert d'.rows[i + 1..][m] == d'.rows[i..][k] && next.rows[i + 1..][m] == d.rows[i..][k];
        }
      }
    }
  }

  lemma ExpiryIsExact(d: Directory, entry: map<Id, int>, now: int)
    requires Balanced(d, entry)
    ensures Expired(d, ExpireAssignments(d, now), now)
  {
    var d' := ExpireAssignments(d, now);
    ExpireBalances(d, entry, now, 0);
    ExpiryRows(d, now, 0);
    assert d.rows[0..] == d.rows && d'.rows[0..] == d'.rows;
    forall j | j in d.jobs
      ensures d'.jobs[j].virtual == d.jobs[j].virtual - Sum(d.rows, j, LateRefund(now))
      ensures d'.jobs[j].reserved == d.jobs[j].reserved - Sum(d.rows, j, LateReserved(now))
      ensures d'.jobs[j].workers == d.jobs[j].workers - Sum(d.rows, j, LateWorkers(now))
    {
      SumFalls(d.rows, d'.rows, j, Charge, LateRefund(now));
      SumFalls(d.rows, d'.rows, j, LiveReserved, LateReserved(now));
      SumFalls(d.rows, d'.rows, j, LiveWorkers, LateWorkers(now));
    }
  }

  // ----- refunds -----

  /** The row a browser means: the first under this identifier and session. */
  ghost predicate Named(rows: seq<Assignment>, k: nat, id: Id, session: Id) {
    k < |rows| && rows[k].id == id && rows[k].session == session && forall i :: 0 <= i < k ==> rows[i].id != id || rows[i].session != session
  }

  /** The row is complete and its job gets back what was reserved but not used. */
  ghost predicate Refunded(d: Directory, d': Directory, k: nat, actual: nat)
    requires k < |d.rows|
  {
    var r := d.rows[k];
    && d'.rows == d.rows[k := r.(status := COMPLETE, actual := actual)]
    && d'.jobs.Keys == d.jobs.Keys && (forall j :: j in d.jobs && j != r.job ==> d'.jobs[j] == d.jobs[j])
    && (r.job in d.jobs ==>
          var job := d.jobs[r.job];
          d'.jobs[r.job] ==
          job.(virtual := job.virtual - (r.reserved - actual), reserved := job.reserved - r.reserved, workers := job.workers - r.workers))
  }

  ghost predicate Affordable(d: Directory, k: nat, session: Id, previous: Previous) {
    Named(d.rows, k, previous.assignment, session) && previous.activeWorkerMs <= d.rows[k].reserved
  }

  /** A report is accepted if the row exists and covers it; it takes effect once, while the row is live. */
  ghost predicate Reconciled(d: Directory, d': Directory, ok: bool, session: Id, previous: Previous) {
    && (ok <==> exists k: nat :: Affordable(d, k, session, previous))
    && (forall k: nat :: Affordable(d, k, session, previous) && d.rows[k].Live() ==> Refunded(d, d', k, previous.activeWorkerMs))
    && ((forall k: nat :: Affordable(d, k, session, previous) ==> !d.rows[k].Live()) ==> d' == d)
  }

  lemma ReconcileIsExact(d: Directory, entry: map<Id, int>, session: Id, previous: Previous)
    requires Balanced(d, entry)
    ensures var (d', ok) := Reconcile(d, session, previous);
      Reconciled(d, d', ok, session, previous)
  {
    var (d', ok) := Reconcile(d, session, previous);
    var k := FindRow(d.rows, previous.assignment, session);
    forall m: nat | Affordable(d, m, session, previous) ensures m == k {
    }
    if k < |d.rows| && previous.activeWorkerMs <= d.rows[k].reserved {
      assert Affordable(d, k, session, previous);
      if d.rows[k].Live() && d.rows[k].job in d.jobs {
        CountersCover(d, entry, k);
      }
    }
  }

  /** An assignment begins with the expiries and the refund, in this order. */
  ghost predicate Settlement(d: Directory, settled: Directory, accepted: bool, session: Id, previous: Option<Previous>, now: int) {
    exists expired ::
      && Expired(d, expired, now)
      && match previous {
           case None => accepted && settled == expired
           case Some(p) => Reconciled(expired, settled, accepted, session, p)
         }
  }

  lemma SettlementIsExact(d: Directory, entry: map<Id, int>, session: Id, previous: Option<Previous>, now: int)
    requires Balanced(d, entry)
    ensures var (settled, accepted) := Settle(d, session, previous, now);
      Settlement(d, settled, accepted, session, previous, now)
  {
    var expired := ExpireAssignments(d, now);
    ExpiryIsExact(d, entry, now);
    ExpireBalances(d, entry, now, 0);
    if previous.Some? {
      ReconcileIsExact(expired, entry, session, previous.value);
    }
    assert Expired(d, expired, now);
  }

  /** Expiry, refund, choice and reservation of one assignment, from the tables before it to the answer. */
  lemma AssignmentIsSpelledOut(d: Directory, entry: map<Id, int>, session: Id, maxWorkers: int, previous: Option<Previous>, now: int, id: Id)
    requires Balanced(d, entry)
    ensures var (d', answer) := Assign(d, session, maxWorkers, previous, now, id);
      exists settled, accepted ::
        Settlement(d, settled, accepted, session, previous, now) && Answers(settled, accepted, d', answer, session, maxWorkers, now, id)
  {
    SettlementIsExact(d, entry, session, previous, now);
    AssignmentIsExact(d, session, maxWorkers, previous, now, id);
    var (settled, accepted) := Settle(d, session, previous, now);
    assert Settlement(d, settled, accepted, session, previous, now);
  }

  // ----- activation -----

  /** A named row of this job that is live and not late. */
  ghost predicate Activatable(d: Directory, k: nat, assignment: Id, session: Id, job: Id, now: int) {
    Named(d.rows, k, assignment, session) && d.rows[k].job == job && d.rows[k].Live() && !Late(d.rows[k], now)
  }

  /** After the expiries a pending row becomes active for one quantum from now; an active one keeps its deadline. */
  ghost predicate Activated(d: Directory, d': Directory, assignment: Id, session: Id, job: Id, now: int) {
    exists expired ::
      && Expired(d, expired, now) && d'.jobs == expired.jobs && |d'.rows| == |d.rows|
      && forall k: nat :: k < |d.rows| ==>
        d'.rows[k] ==
        if Activatable(d, k, assignment, session, job, now) && d.rows[k].status.PENDING?
        then d.rows[k].(status := ACTIVE, assignedAt := now, expiresAt := now + QUANTUM_MS) else expired.rows[k]
  }

  lemma ActivationIsExact(d: Directory, entry: map<Id, int>, assignment: Id, session: Id, job: Id, now: int)
    requires Balanced(d, entry)
    ensures var (d', ok) := Activate(d, assignment, session, job, now);
      && Activated(d, d', assignment, session, job, now)
      && (ok <==> exists k: nat :: Activatable(d, k, assignment, session, job, now))
  {
    var expired := ExpireAssignments(d, now);
    ExpiryIsExact(d, entry, now);
    var k := FindRow(expired.rows, assignment, session);
    forall m: nat | m < |d.rows| ensures Named(d.rows, m, assignment, session) <==> m == k {
      assert forall i :: 0 <= i < |d.rows| ==> d.rows[i].id == expired.rows[i].id && d.rows[i].session == expired.rows[i].session;
    }
    if k < |d.rows| {
      assert Activatable(d, k, assignment, session, job, now) <==> d.rows[k].job == job && d.rows[k].Live() && !Late(d.rows[k], now);
    }
    assert Expired(d, expired, now);
  }

  // ----- jobs -----

  /** A job enters without workers, not eligible, at the least runtime of those it will compete with. */
  ghost predicate Admitted(d: Directory, d': Directory, id: Id, createdAt: int, expiresAt: int) {
    && d'.rows == d.rows && d'.jobs.Keys == d.jobs.Keys + {id}
    && (forall j :: j in d.jobs && j != id ==> d'.jobs[j] == d.jobs[j])
    && var job := d'.jobs[id];
       && job == Job(job.virtual, 0, 0, createdAt, expiresAt, false)
       && (forall j :: Spare(d, j) ==> job.virtual <= d.jobs[j].virtual)
       && (if exists j :: Spare(d, j) then exists j :: Spare(d, j) && job.virtual == d.jobs[j].virtual else job.virtual == 0)
  }

  lemma AdmissionIsExact(d: Directory, id: Id, createdAt: int, expiresAt: int)
    ensures Admitted(d, Admit(d, id, createdAt, expiresAt), id, createdAt, expiresAt)
  {
    var jobs := FairJobs(d.jobs);
    assert forall j :: Spare(d, j) <==> j in jobs;
  }

  /** Eligibility is set and the wait starts anew, but only if it changes. */
  ghost predicate EligibilitySet(d: Directory, d': Directory, id: Id, eligible: bool, now: int) {
    && d'.rows == d.rows && d'.jobs.Keys == d.jobs.Keys && (forall j :: j in d.jobs && j != id ==> d'.jobs[j] == d.jobs[j])
    && (id in d.jobs ==>
          var job := d.jobs[id];
          d'.jobs[id] ==
          Job(job.virtual, job.reserved, job.workers, if job.eligible == eligible then job.lastServiceAt else now, job.expiresAt, eligible))
  }

  /** The job goes and its live rows are cancelled; no other row or job changes. */
  ghost predicate Closed(d: Directory, d': Directory, id: Id) {
    && d'.jobs == d.jobs - {id} && |d'.rows| == |d.rows|
    && forall i :: 0 <= i < |d.rows| ==>
      d'.rows[i] == if d.rows[i].job == id && d.rows[i].Live() then d.rows[i].(status := CANCELLED) else d.rows[i]
  }

  /** The late assignments end, then the jobs past their deadline go; the others keep all but their expiries. */
  ghost predicate Rang(d: Directory, d': Directory, now: int) {
    exists expired ::
      && Expired(d, expired, now) && d'.rows == expired.rows
      && (forall j :: j in d'.jobs <==> j in d.jobs && d.jobs[j].expiresAt > now)
      && (forall j :: j in d'.jobs ==> d'.jobs[j] == expired.jobs[j])
  }

  // ----- every step of every run -----

  ghost predicate Effect(d: Directory, step: Timed, d': Directory) {
    match step.event
    case AssignWorker(session, maxWorkers, previous, id) =>
      exists settled, accepted, answer ::
        && Settlement(d, settled, accepted, session, previous, step.now)
        && Answers(settled, accepted, d', answer, session, maxWorkers, step.now, id)
    case ActivateAssignment(assignment, session, job) => Activated(d, d', assignment, session, job, step.now)
    case AdmitJob(id, expiresAt) => Admitted(d, d', id, step.now, expiresAt)
    case ChangeEligibility(id, eligible) => EligibilitySet(d, d', id, eligible, step.now)
    case CloseJob(id) => Closed(d, d', id)
    case RollBackJob(id) => d'.rows == d.rows && d'.jobs == d.jobs - {id}
    case AlarmRings => Rang(d, d', step.now)
  }

  lemma StepIsExact(d: Directory, entry: map<Id, int>, step: Timed)
    requires Balanced(d, entry)
    ensures Effect(d, step, Step(d, step))
  {
    var now := step.now;
    match step.event {
      case AssignWorker(session, maxWorkers, previous, id) =>
        AssignmentIsSpelledOut(d, entry, session, maxWorkers, previous, now, id);
        var answer := Assign(d, session, maxWorkers, previous, now, id).1;
      case ActivateAssignment(assignment, session, job) => ActivationIsExact(d, entry, assignment, session, job, now);
      case AdmitJob(id, expiresAt) => AdmissionIsExact(d, id, now, expiresAt);
      case AlarmRings =>
        ExpiryIsExact(d, entry, now);
        assert Expired(d, ExpireAssignments(d, now), now);
      case _ =>
    }
  }

  /** In every run each step has exactly the effect spelled out for it. */
  lemma StepsAreExact(trace: seq<Directory>, steps: seq<Timed>, k: nat)
    requires Run(trace, steps) && k < |steps|
    ensures Effect(trace[k], steps[k], trace[k + 1])
  {
    var entry := LedgerIsConserved(trace, steps, k);
    assert Follows(trace[k], steps[k], trace[k + 1]);
    StepIsExact(trace[k], entry, steps[k]);
  }
}
