/**
 Jobs that begin to compete.  A job is admitted ineligible and is served only after it has been made
 eligible, which leaves its runtime as it was; how it then stands to the other jobs is decided by what
 they were charged in the meantime.
 */
module Newcomers {
  import opened Wrappers
  import opened Rows
  import opened FairScheduler
  import opened SwarmDirectory

  // ----- while a job is not eligible -----

  /** Nothing of the job is reserved, charged or ever was. */
  ghost predicate Untouched(d: Directory, i: Id, runtime: int) {
    && i in d.jobs && d.jobs[i].virtual == runtime && d.jobs[i].workers == 0 && d.jobs[i].reserved == 0
    && forall r :: 0 <= r < |d.rows| ==> d.rows[r].job != i
  }

  lemma {:induction false} ExpiryLeavesUntouched(d: Directory, now: int, k: nat, i: Id, runtime: int)
    requires Untouched(d, i, runtime)
    ensures Untouched(ExpireFrom(d, now, k), i, runtime) && ExpireFrom(d, now, k).jobs[i] == d.jobs[i]
    decreases |d.rows| - k
  {
    if k < |d.rows| {
      ExpiryLeavesUntouched(if d.rows[k].Live() && d.rows[k].expiresAt <= now then ExpireRow(d, k) else d, now, k + 1, i, runtime);
    }
  }

  lemma SettlingLeavesUntouched(d: Directory, session: Id, previous: Option<Previous>, now: int, i: Id, runtime: int)
    requires Untouched(d, i, runtime)
    ensures var d' := Settle(d, session, previous, now).0; Untouched(d', i, runtime) && d'.jobs[i] == d.jobs[i]
  {
    ExpiryLeavesUntouched(d, now, 0, i, runtime);
  }

  /** The scheduler chooses among eligible jobs only. */
  lemma ChosenIsEligible(d: Directory, maxWorkers: int, now: int)
    requires Selected(FairJobs(d.jobs), maxWorkers, now).Some?
    ensures var j := Selected(FairJobs(d.jobs), maxWorkers, now).value.job; j in d.jobs && d.jobs[j].eligible
  {
    SelectionIsFair(FairJobs(d.jobs), maxWorkers, now);
  }

  lemma StepLeavesUntouched(d: Directory, step: Timed, i: Id, runtime: int)
    requires Untouched(d, i, runtime) && !d.jobs[i].eligible && i in Step(d, step).jobs
    requires step.event.AdmitJob? ==> NeverUsed(d, step.event.admitted)
    ensures Untouched(Step(d, step), i, runtime)
  {
    match step.event {
      case AssignWorker(session, maxWorkers, previous, id) =>
        var settled := Settle(d, session, previous, step.now).0;
        SettlingLeavesUntouched(d, session, previous, step.now, i, runtime);
        if Selected(FairJobs(settled.jobs), maxWorkers, step.now).Some? {
          ChosenIsEligible(settled, maxWorkers, step.now);
        }
      case ActivateAssignment(assignment, session, job) => ExpiryLeavesUntouched(d, step.now, 0, i, runtime);
      case AlarmRings => ExpiryLeavesUntouched(d, step.now, 0, i, runtime);
      case _ =>
    }
  }

  /** The job is in the directory from state `a` to state `b`, and never eligible. */
  ghost predicate Waits(trace: seq<Directory>, a: nat, b: nat, i: Id) {
    b < |trace| && forall k {:trigger trace[k]} :: a <= k <= b ==> i in trace[k].jobs && !trace[k].jobs[i].eligible
  }

  /** Step `a` admits the job, which then waits until state `b`. */
  ghost predicate WaitsSinceAdmission(trace: seq<Directory>, steps: seq<Timed>, a: nat, b: nat, i: Id) {
    a < b && |trace| == |steps| + 1 && Waits(trace, a + 1, b, i) && steps[a].event.AdmitJob? && steps[a].event.admitted == i
  }

  /** From its admission until it is first made eligible a job keeps the least runtime it was given, and has no assignment. */
  lemma {:induction false} WaitingJobIsUntouched(trace: seq<Directory>, steps: seq<Timed>, a: nat, b: nat, i: Id)
    requires Run(trace, steps) && WaitsSinceAdmission(trace, steps, a, b, i)
    ensures Untouched(trace[b], i, NewJobVirtualRuntime(FairJobs(trace[a].jobs)))
    decreases b
  {
    var k := b - 1;
    assert Follows(trace[k], steps[k], trace[k + 1]);
    if a < k {
      WaitingJobIsUntouched(trace, steps, a, k, i);
      StepLeavesUntouched(trace[k], steps[k], i, NewJobVirtualRuntime(FairJobs(trace[a].jobs)));
    }
  }

  /** Serving a job does not change what it has settled; refunds and expiries only add to it. */
  lemma StepSettles(d: Directory, entry: map<Id, int>, step: Timed, j: Id)
    requires Balanced(d, entry) && j in d.jobs && j in Step(d, step).jobs
    requires step.event.AdmitJob? ==> NeverUsed(d, step.event.admitted)
    ensures Settled(Step(d, step).jobs[j]) >= Settled(d.jobs[j])
    ensures !d.jobs[j].eligible ==> Step(d, step).jobs[j].virtual <= d.jobs[j].virtual
  {
    match step.event {
      case AssignWorker(session, maxWorkers, previous, id) =>
        var settled := Settle(d, session, previous, step.now).0;
        SettleGentle(d, entry, session, previous, step.now);
        SettlingKeepsEligibility(d, session, previous, step.now, j);
        if Selected(FairJobs(settled.jobs), maxWorkers, step.now).Some? {
          ChosenIsEligible(settled, maxWorkers, step.now);
        }
      case ActivateAssignment(assignment, session, job) => ExpireGentle(d, entry, step.now, 0);
      case AlarmRings => ExpireGentle(d, entry, step.now, 0);
      case _ =>
    }
  }

  lemma {:induction false} ExpiryKeepsEligibility(d: Directory, now: int, k: nat, j: Id)
    requires j in d.jobs
    ensures j in ExpireFrom(d, now, k).jobs && ExpireFrom(d, now, k).jobs[j].eligible == d.jobs[j].eligible
    decreases |d.rows| - k
  {
    if k < |d.rows| {
      ExpiryKeepsEligibility(if d.rows[k].Live() && d.rows[k].expiresAt <= now then ExpireRow(d, k) else d, now, k + 1, j);
    }
  }

  lemma SettlingKeepsEligibility(d: Directory, session: Id, previous: Option<Previous>, now: int, j: Id)
    requires j in d.jobs
    ensures var d' := Settle(d, session, previous, now).0; j in d'.jobs && d'.jobs[j].eligible == d.jobs[j].eligible
  {
    ExpiryKeepsEligibility(d, now, 0, j);
  }

  /**
   A job that waits, new or suspended, never gets further ahead of another job: its runtime does not grow
   while the other's settled runtime does not shrink.
   */
  lemma {:induction false} WaitingNeverGetsAhead(trace: seq<Directory>, steps: seq<Timed>, a: nat, b: nat, i: Id, j: Id)
    requires Run(trace, steps) && a <= b && Waits(trace, a, b, i) && forall k :: a <= k <= b ==> j in trace[k].jobs
    ensures trace[b].jobs[i].virtual <= trace[a].jobs[i].virtual && Settled(trace[b].jobs[j]) >= Settled(trace[a].jobs[j])
    ensures Within(trace[a], j, i) ==> Within(trace[b], j, i)
    decreases b
  {
    if a < b {
      var k := b - 1;
      WaitingNeverGetsAhead(trace, steps, a, k, i, j);
      var entry := LedgerIsConserved(trace, steps, k);
      assert Follows(trace[k], steps[k], trace[k + 1]);
      StepSettles(trace[k], entry, steps[k], i);
      StepSettles(trace[k], entry, steps[k], j);
    }
  }

  // ----- the step that makes a job eligible -----

  /**
   Where a job stands when it becomes eligible, or eligible again, is decided by the rows alone: what each
   of the two jobs entered with and was charged, and what the one has still reserved.
   */
  lemma EligibilityDecides(d: Directory, entry: map<Id, int>, i: Id, now: int, j: Id)
    requires Balanced(d, entry) && i in d.jobs && j in d.jobs
    ensures var d' := SetEligible(d, i, true, now);
      && (Within(d', i, j) <==>
           entry[j] + Sum(d.rows, j, Charge) <= entry[i] + Sum(d.rows, i, Charge) - Sum(d.rows, i, LiveReserved) + 16 * QUANTUM_MS)
      && (Within(d', j, i) <==>
           entry[i] + Sum(d.rows, i, Charge) <= entry[j] + Sum(d.rows, j, Charge) - Sum(d.rows, j, LiveReserved) + 16 * QUANTUM_MS)
  {
    assert JobBalanced(d.jobs[i], d.rows, i, entry[i]) && JobBalanced(d.jobs[j], d.rows, j, entry[j]);
  }

  /**
   A job that step `b` makes eligible, for the first time or again, is then within the bound of `j` if and
   only if what `j` entered with and has been charged is at most sixteen quanta above what it has settled
   itself; if so, it stays within the bound for as long as it has room at each choice.
   */
  lemma EligibleJobCompetes(trace: seq<Directory>, steps: seq<Timed>, b: nat, e: nat, ci: nat, cj: nat, i: Id, j: Id)
    requires Run(trace, steps) && b < e < |trace| && steps[b].event == ChangeEligibility(i, true)
    requires (forall k :: b <= k <= e ==> i in trace[k].jobs && j in trace[k].jobs)
    requires EntersAt(trace, steps, ci, b, i) && EntersAt(trace, steps, cj, b, j)
    requires forall k :: b < k < e ==> SpareAtChoice(trace[k], steps[k], i)
    ensures var rows := trace[b].rows;
      Within(trace[b + 1], i, j) <==>
        trace[cj + 1].jobs[j].virtual + Sum(rows, j, Charge)
        <= trace[ci + 1].jobs[i].virtual + Sum(rows, i, Charge) - Sum(rows, i, LiveReserved) + 16 * QUANTUM_MS
    ensures Within(trace[b + 1], i, j) ==> Within(trace[e], i, j)
  {
    EligibleJobStands(trace, steps, b, ci, cj, i, j);
    if Within(trace[b + 1], i, j) {
      FairnessBound(trace, steps, b + 1, e, i, j);
    }
  }

  lemma EligibleJobStands(trace: seq<Directory>, steps: seq<Timed>, b: nat, ci: nat, cj: nat, i: Id, j: Id)
    requires Run(trace, steps) && b < |steps| && steps[b].event == ChangeEligibility(i, true)
    requires EntersAt(trace, steps, ci, b, i) && EntersAt(trace, steps, cj, b, j)
    ensures var rows := trace[b].rows;
      Within(trace[b + 1], i, j) <==>
        trace[cj + 1].jobs[j].virtual + Sum(rows, j, Charge)
        <= trace[ci + 1].jobs[i].virtual + Sum(rows, i, Charge) - Sum(rows, i, LiveReserved) + 16 * QUANTUM_MS
  {
    var entry := LedgerIsConserved(trace, steps, b);
    assert Follows(trace[b], steps[b], trace[b + 1]);
    EligibilityDecides(trace[b], entry, i, steps[b].now, j);
  }

  /**
   A new job starts to compete within the bound of `j` if and only if what `j` entered with and has been
   charged is at most sixteen quanta above the least runtime at the admission, and then stays there for as
   long as it has room at each choice.  The other way round the bound is never lost by waiting.
   */
  lemma NewcomerCompetes(trace: seq<Directory>, steps: seq<Timed>, a: nat, b: nat, e: nat, c: nat, i: Id, j: Id)
    requires Run(trace, steps) && WaitsSinceAdmission(trace, steps, a, b, i) && b < e < |trace|
    requires steps[b].event == ChangeEligibility(i, true)
    requires (forall k :: a < k <= e ==> i in trace[k].jobs && j in trace[k].jobs) && EntersAt(trace, steps, c, b, j)
    requires forall k :: b < k < e ==> SpareAtChoice(trace[k], steps[k], i)
    ensures Within(trace[b + 1], i, j) <==>
      trace[c + 1].jobs[j].virtual + Sum(trace[b].rows, j, Charge)
      <= NewJobVirtualRuntime(FairJobs(trace[a].jobs)) + 16 * QUANTUM_MS
    ensures Within(trace[b + 1], i, j) ==> Within(trace[e], i, j)
    ensures Within(trace[a + 1], j, i) ==> Within(trace[b + 1], j, i)
  {
    assert EntersAt(trace, steps, a, b, i);
    assert Follows(trace[a], steps[a], trace[a + 1]);
    EligibleJobCompetes(trace, steps, b, e, a, c, i, j);
    WaitingJobIsUntouched(trace, steps, a, b, i);
    NothingCharged(trace[b].rows, i);
    WaitingNeverGetsAhead(trace, steps, a + 1, b, i, j);
    assert Follows(trace[b], steps[b], trace[b + 1]);
  }

  lemma NothingCharged(rows: seq<Assignment>, i: Id)
    requires forall r :: 0 <= r < |rows| ==> rows[r].job != i
    ensures Sum(rows, i, Charge) == 0 && Sum(rows, i, LiveReserved) == 0
  {
    SumUnused(rows, i, Charge);
    SumUnused(rows, i, LiveReserved);
  }

  // ----- at the instant of admission -----

  lemma {:induction false} LiveReservedCharged(rows: seq<Assignment>, j: Id)
    requires RowsOk(rows)
    ensures 0 <= Sum(rows, j, LiveReserved) <= Sum(rows, j, Charge)
  {
    if rows != [] {
      LiveReservedCharged(rows[..|rows| - 1], j);
    }
  }

  ghost predicate AllWithin(d: Directory, jobs: set<Id>) {
    forall i, j :: i in jobs && j in jobs ==> Within(d, i, j)
  }

  /** Jobs the newcomer is compared with. */
  ghost function Runnable(d: Directory): set<Id> {
    set j | j in d.jobs && d.jobs[j].eligible
  }

  /**
   A job admitted while some eligible job has room starts within the bound of every eligible job, both
   ways; admitted while none has room it starts at zero, and is within the bound of exactly the jobs
   whose runtime is at most sixteen quanta.
   */
  lemma NewcomerIsFair(d: Directory, entry: map<Id, int>, id: Id, createdAt: int, expiresAt: int, j: Id)
    requires Balanced(d, entry) && NeverUsed(d, id) && AllWithin(d, Runnable(d)) && j in Runnable(d)
    ensures var d' := Admit(d, id, createdAt, expiresAt);
      if exists k :: Spare(d, k) then Within(d', id, j) && Within(d', j, id)
      else (Within(d', id, j) <==> d.jobs[j].virtual <= 16 * QUANTUM_MS) && Within(d', j, id)
  {
    ReservedAtMost(d.rows, j);
    VirtualNonNegative(d, entry, j);
    LiveReservedCharged(d.rows, j);
    if k :| Spare(d, k) {
      var fair := FairJobs(d.jobs);
      assert k in fair;
      var m :| m in fair && fair[m].virtualWorkerMs == NewJobVirtualRuntime(fair);
      assert Within(d, m, j) && Within(d, j, m);
      SumNonNegative(d.rows, m, LiveReserved);
    } else {
      forall k | k in FairJobs(d.jobs) ensures false {
        assert Spare(d, k);
      }
      assert FairJobs(d.jobs) == map[];
    }
  }

  // ----- runs that leave a newcomer behind -----

  lemma OnlyChoice(jobs: map<Id, FairJob>, j: Id, maxWorkers: int, now: int)
    requires jobs.Keys == {j} && jobs[j].assignedWorkers < MAX_JOB_WORKERS
    ensures Selected(jobs, maxWorkers, now) == Some(Selection(j, Share(jobs[j], maxWorkers)))
  {
    assert j in Available(jobs);
  }

  /** `j` is the only job that competes. */
  predicate OnlyRunnable(d: Directory, j: Id) {
    j in d.jobs && forall k :: k in d.jobs ==> (d.jobs[k].eligible <==> k == j)
  }

  /** One session hands back a fully used eight-worker assignment and is given the next one. */
  lemma FullTurn(d: Directory, j: Id, session: Id, previous: Option<Previous>, id: Id, now: int)
    requires OnlyRunnable(d, j) && (forall i :: 0 <= i < |d.rows| ==> d.rows[i].expiresAt > now)
    requires if previous.None? then d.jobs[j].workers == 0 else
      var k := FindRow(d.rows, previous.value.assignment, session);
      k < |d.rows| && d.rows[k].job == j && d.rows[k].Live() && d.rows[k].workers == d.jobs[j].workers == 8 &&
      d.rows[k].reserved == previous.value.activeWorkerMs <= d.jobs[j].virtual
    ensures var d' := Assign(d, session, 8, previous, now, id).0;
      && d'.jobs.Keys == d.jobs.Keys && OnlyRunnable(d', j) && d'.jobs[j].workers == 8
      && d'.jobs[j].virtual == d.jobs[j].virtual + 8 * QUANTUM_MS
      && (forall k :: k in d.jobs && k != j ==> d'.jobs[k] == d.jobs[k])
      && |d'.rows| == |d.rows| + 1 && d'.rows[|d.rows|] == Assignment(id, j, session, 8, 8 * QUANTUM_MS, 0, PENDING, now, now + ACTIVATION_MS)
      && forall i :: 0 <= i < |d.rows| ==>
           d'.rows[i].id == d.rows[i].id && d'.rows[i].job == d.rows[i].job && d'.rows[i].expiresAt == d.rows[i].expiresAt
  {
    NothingExpires(d, now, 0);
    var settled := Settle(d, session, previous, now).0;
    assert FairJobs(settled.jobs).Keys == {j};
    OnlyChoice(FairJobs(settled.jobs), j, 8, now);
  }

  lemma {:induction false} NothingExpires(d: Directory, now: int, i: nat)
    requires forall k :: 0 <= k < |d.rows| ==> d.rows[k].expiresAt > now
    ensures ExpireFrom(d, now, i) == d
    decreases |d.rows| - i
  {
    if i < |d.rows| {
      NothingExpires(d, now, i + 1);
    }
  }

  lemma RunSnoc(trace: seq<Directory>, steps: seq<Timed>, step: Timed) returns (trace': seq<Directory>, steps': seq<Timed>)
    requires Run(trace, steps) && (step.event.AdmitJob? ==> NeverUsed(trace[|steps|], step.event.admitted))
    ensures Run(trace', steps') && |steps'| == |steps| + 1 && steps'[|steps|] == step && steps <= steps'
    ensures trace <= trace' && trace'[|steps'|] == Step(trace[|steps|], step)
  {
    trace', steps' := trace + [Step(trace[|steps|], step)], steps + [step];
    forall i | 0 <= i < |steps'| ensures Follows(trace'[i], steps'[i], trace'[i + 1]) {
      assert i < |steps| ==> Follows(trace[i], steps[i], trace[i + 1]);
    }
  }

  /** The only competing job after some turns of eight quanta, 28,800,000 ms, each: its latest reservation is live, all its time is charged. */
  predicate Turned(d: Directory, j: Id, session: Id, turns: nat) {
    && OnlyRunnable(d, j) && |d.rows| == turns
    && d.jobs[j].workers == (if turns == 0 then 0 else 8) && d.jobs[j].virtual == 28_800_000 * turns
    && (forall i :: 0 <= i < turns ==> d.rows[i].id == Id(i) && d.rows[i].job == j && d.rows[i].expiresAt == ACTIVATION_MS)
    && (turns > 0 ==> d.rows[turns - 1] == Assignment(Id(turns - 1), j, session, 8, 8 * QUANTUM_MS, 0, PENDING, 0, ACTIVATION_MS))
  }

  /** A job stands in state `d` as it stood in state `d0`. */
  predicate SameJob(d0: Directory, d: Directory, i: Id) {
    if i in d0.jobs then i in d.jobs && d.jobs[i] == d0.jobs[i] else i !in d.jobs
  }

  lemma AnotherTurn(d: Directory, i: Id, j: Id, session: Id, turns: nat) returns (step: Timed)
    requires Turned(d, j, session, turns) && i != j
    ensures !step.event.AdmitJob? && Turned(Step(d, step), j, session, turns + 1)
    ensures SameJob(d, Step(d, step), i)
  {
    var previous := if turns == 0 then None else Some(Previous(Id(turns - 1), 8 * QUANTUM_MS));
    step := Timed(AssignWorker(session, 8, previous, Id(turns)), 0);
    if turns > 0 {
      var k := FindRow(d.rows, Id(turns - 1), session);
      assert d.rows[turns - 1].id == Id(turns - 1);
      assert k == turns - 1;
    }
    FullTurn(d, j, session, previous, Id(turns), 0);
    OneMoreTurn(d, Step(d, step), j, session, turns);
  }

  lemma OneMoreTurn(d: Directory, d': Directory, j: Id, session: Id, turns: nat)
    requires Turned(d, j, session, turns) && OnlyRunnable(d', j) && d'.jobs[j].workers == 8 && |d'.rows| == turns + 1
    requires d'.jobs[j].virtual == d.jobs[j].virtual + 8 * QUANTUM_MS
    requires d'.rows[turns] == Assignment(Id(turns), j, session, 8, 8 * QUANTUM_MS, 0, PENDING, 0, ACTIVATION_MS)
    requires forall i :: 0 <= i < turns ==>
      d'.rows[i].id == d.rows[i].id && d'.rows[i].job == d.rows[i].job && d'.rows[i].expiresAt == d.rows[i].expiresAt
    ensures Turned(d', j, session, turns + 1)
  {
  }

  /** Any run whose only competing job has had no turn yet can be continued by as many turns as one likes. */
  lemma {:induction false} ManyTurns(trace0: seq<Directory>, steps0: seq<Timed>, i: Id, j: Id, turns: nat)
    returns (trace: seq<Directory>, steps: seq<Timed>)
    requires Run(trace0, steps0) && Turned(trace0[|steps0|], j, j, 0) && i != j
    ensures Run(trace, steps) && trace0 <= trace && steps0 <= steps && Turned(trace[|steps|], j, j, turns)
    ensures forall m :: |steps0| <= m <= |steps| ==> SameJob(trace0[|steps0|], trace[m], i)
  {
    if turns == 0 {
      return trace0, steps0;
    }
    var before, done := ManyTurns(trace0, steps0, i, j, turns - 1);
    var step := AnotherTurn(before[|done|], i, j, j, turns - 1);
    trace, steps := RunSnoc(before, done, step);
    forall m | |steps0| <= m <= |steps| ensures SameJob(trace0[|steps0|], trace[m], i) {
      assert m < |steps| ==> trace[m] == before[m];
    }
  }

  lemma FirstJob(j: Id) returns (trace: seq<Directory>, steps: seq<Timed>)
    ensures Run(trace, steps) && |steps| == 2 && Turned(trace[2], j, j, 0)
    ensures trace[2].jobs.Keys == {j} && trace[2].jobs[j].reserved == 0
  {
    var d0 := Directory(map[], []);
    assert FairJobs(d0.jobs) == map[];
    trace, steps := RunSnoc([d0], [], Timed(AdmitJob(j, 1_000_000_000), 0));
    trace, steps := RunSnoc(trace, steps, Timed(ChangeEligibility(j, true), 0));
  }

  /** Once the only job has used more than two full turns, a job admitted while all its eight workers are taken is out of bounds at once. */
  lemma NewcomerCanStartFarBehind(turns: nat) returns (trace: seq<Directory>, steps: seq<Timed>, i: Id, j: Id)
    requires turns >= 3
    ensures Run(trace, steps) && i in trace[|steps|].jobs && j in trace[|steps|].jobs
    ensures trace[|steps|].jobs[j].virtual == 28_800_000 * turns && trace[|steps|].jobs[i].virtual == 0
    ensures !Within(trace[|steps|], i, j)
  {
    j, i := Id(0), Id(1);
    trace, steps := FirstJob(j);
    trace, steps := ManyTurns(trace, steps, i, j, turns);
    assert FairJobs(trace[|steps|].jobs) == map[];
    trace, steps := RunSnoc(trace, steps, Timed(AdmitJob(i, 1_000_000_000), 0));
  }

  /** A second job is admitted while the first, eligible and idle, has room: both start within the bound. */
  lemma SecondJob(i: Id, j: Id) returns (trace: seq<Directory>, steps: seq<Timed>)
    requires i != j
    ensures Run(trace, steps) && |steps| == 3 && steps[2] == Timed(AdmitJob(i, 1_000_000_000), 0)
    ensures StartsLevel(trace[2], trace[3], i, j) && Turned(trace[3], j, j, 0)
    ensures trace[3].jobs[i] == Job(0, 0, 0, 0, 1_000_000_000, false)
  {
    trace, steps := FirstJob(j);
    assert FairJobs(trace[2].jobs).Keys == {j};
    trace, steps := RunSnoc(trace, steps, Timed(AdmitJob(i, 1_000_000_000), 0));
  }

  lemma StepIsSetEligible(d: Directory, i: Id)
    ensures Step(d, Timed(ChangeEligibility(i, true), 0)) == SetEligible(d, i, true, 0)
  {
  }

  /** The newcomer is behind by more than the bound, with room to be served. */
  predicate LeavesBehind(d: Directory, turns: nat, i: Id, j: Id) {
    Spare(d, i) && !Within(d, i, j) && j in d.jobs && d.jobs[j].virtual == 28_800_000 * turns && d.jobs[i].virtual == 0
  }

  /** At its admission it was within the bound of the one job there, which had room. */
  ghost predicate StartsLevel(d: Directory, d': Directory, i: Id, j: Id) {
    j in Runnable(d) && d.jobs[j].workers == 0 && Within(d', i, j) && Within(d', j, i)
  }

  lemma LateStart(met: seq<Directory>, admitted: seq<Timed>, turned: seq<Directory>, served: seq<Timed>, i: Id, j: Id, turns: nat)
    requires |met| == 4 && met <= turned && |admitted| == 3 && admitted <= served && |turned| == |served| + 1 && i != j && turns >= 3
    requires admitted[2] == Timed(AdmitJob(i, 1_000_000_000), 0) && i in met[3].jobs && met[3].jobs[i] == Job(0, 0, 0, 0, 1_000_000_000, false)
    requires j in turned[|served|].jobs && turned[|served|].jobs[j].virtual == 28_800_000 * turns
    requires forall m :: 3 <= m <= |served| ==> SameJob(met[3], turned[m], i)
    ensures WaitsSinceAdmission(turned, served, 2, |served|, i)
    ensures LeavesBehind(SetEligible(turned[|served|], i, true, 0), turns, i, j)
  {
    assert turned[3] == met[3] && served[2] == admitted[2];
    assert SameJob(met[3], turned[|served|], i);
    forall k {:trigger turned[k]} | 3 <= k <= |served| ensures i in turned[k].jobs && !turned[k].jobs[i].eligible {
      assert SameJob(met[3], turned[k], i);
    }
    StartsOutOfBounds(turned[|served|], i, j, turns);
  }

  lemma StartsOutOfBounds(d: Directory, i: Id, j: Id, turns: nat)
    requires j in d.jobs && d.jobs[j].virtual == 28_800_000 * turns && turns >= 3 && i != j && i in d.jobs && d.jobs[i] == Job(0, 0, 0, 0, 1_000_000_000, false)
    ensures LeavesBehind(SetEligible(d, i, true, 0), turns, i, j)
  {
  }

  lemma LongWait(met: seq<Directory>, admitted: seq<Timed>, turns: nat, i: Id, j: Id) returns (trace: seq<Directory>, steps: seq<Timed>)
    requires Run(met, admitted) && Turned(met[|admitted|], j, j, 0) && i != j && turns >= 3
    requires |admitted| == 3 && admitted[2] == Timed(AdmitJob(i, 1_000_000_000), 0)
    requires i in met[3].jobs && met[3].jobs[i] == Job(0, 0, 0, 0, 1_000_000_000, false)
    ensures Run(trace, steps) && met <= trace && WaitsSinceAdmission(trace, steps, 2, |steps|, i)
    ensures LeavesBehind(SetEligible(trace[|steps|], i, true, 0), turns, i, j)
  {
    trace, steps := ManyTurns(met, admitted, i, j, turns);
    LateStart(met, admitted, trace, steps, i, j, turns);
  }

  lemma SamePrefix(turned: seq<Directory>, served: seq<Timed>, trace: seq<Directory>, steps: seq<Timed>, i: Id)
    requires turned <= trace && served <= steps && |trace| == |steps| + 1
    requires WaitsSinceAdmission(turned, served, 2, |served|, i)
    ensures WaitsSinceAdmission(trace, steps, 2, |served|, i)
  {
    assert forall k {:trigger trace[k]} :: 3 <= k <= |served| ==> trace[k] == turned[k];
    assert steps[2] == served[2];
  }

  /**
   A job admitted while the only other job is idle is within the bound both ways; if it is made eligible
   only after the other has had three or more full turns of eight quanta, 28,800,000 ms, it begins to
   compete out of bounds, with room and at runtime zero.
   */
  lemma NewcomerCanFallBehindWaiting(turns: nat) returns (trace: seq<Directory>, steps: seq<Timed>, b: nat, i: Id, j: Id)
    requires turns >= 3
    ensures Run(trace, steps) && WaitsSinceAdmission(trace, steps, 2, b, i) && b + 1 == |steps|
    ensures StartsLevel(trace[2], trace[3], i, j)
    ensures steps[b].event == ChangeEligibility(i, true) && LeavesBehind(trace[|steps|], turns, i, j)
  {
    j, i := Id(0), Id(1);
    var met, admitted := SecondJob(i, j);
    var turned, served := LongWait(met, admitted, turns, i, j);
    StepIsSetEligible(turned[|served|], i);
    trace, steps := RunSnoc(turned, served, Timed(ChangeEligibility(i, true), 0));
    SamePrefix(turned, served, trace, steps, i);
    b := |served|;
    assert trace[2] == met[2] && trace[3] == met[3];
  }
}
