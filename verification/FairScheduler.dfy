/** Which job is served next: the least virtual runtime, less a capped credit for waiting. */
module FairScheduler {
  import opened Wrappers
  import opened Rows

  const QUANTUM_MS := 60 * 60_000
  const MAX_JOB_WORKERS := 8

  datatype FairJob = FairJob(virtualWorkerMs: int, assignedWorkers: int, lastServiceAt: int)

  function AgingCreditMs(job: FairJob, now: int): (credit: real)
    ensures 0.0 <= credit <= QUANTUM_MS as real
  {
    var waited := Max(0, now - job.lastServiceAt) as real * 0.05;
    if waited < QUANTUM_MS as real then waited else QUANTUM_MS as real
  }

  function FairServiceScore(job: FairJob, now: int): real {
    job.virtualWorkerMs as real - AgingCreditMs(job, now)
  }

  /** Twenty times the score, which is a whole number of milliseconds. */
  function ScaledScore(job: FairJob, now: int): int {
    20 * job.virtualWorkerMs - Min(20 * QUANTUM_MS, Max(0, now - job.lastServiceAt))
  }

  lemma ScaledScoreIsScore(job: FairJob, now: int)
    ensures ScaledScore(job, now) as real == 20.0 * FairServiceScore(job, now)
  {
  }

  /** Score first, then the longest unserved, then the identifier. */
  function ServiceOrder(jobs: map<Id, FairJob>, now: int): map<Id, Key> {
    map j | j in jobs :: (ScaledScore(jobs[j], now), jobs[j].lastServiceAt, 0)
  }

  function Available(jobs: map<Id, FairJob>): set<Id> {
    set j | j in jobs && jobs[j].assignedWorkers < MAX_JOB_WORKERS
  }

  function Share(job: FairJob, requestedWorkers: int): int {
    Max(1, Min(requestedWorkers, MAX_JOB_WORKERS - job.assignedWorkers))
  }

  datatype Selection = Selection(job: Id, workers: int)

  ghost function Selected(jobs: map<Id, FairJob>, requestedWorkers: int, now: int): Option<Selection> {
    if Available(jobs) == {} then None else
      var j := Earliest(Available(jobs), ServiceOrder(jobs, now));
      Some(Selection(j, Share(jobs[j], requestedWorkers)))
  }

  method SelectFairJob(jobs: map<Id, FairJob>, requestedWorkers: int, now: int) returns (r: Option<Selection>)
    ensures r == Selected(jobs, requestedWorkers, now)
  {
    var available := SortRows(Available(jobs), ServiceOrder(jobs, now));
    SortedIsOrdered(Available(jobs), ServiceOrder(jobs, now));
    if |available| == 0 {
      return None;
    }
    assert available[0] in available;
    return Some(Selection(available[0], Share(jobs[available[0]], requestedWorkers)));
  }

  /** At least one worker, no more than asked for, and either all that was asked for or all the room there is. */
  predicate FillsRequest(workers: int, requestedWorkers: int, room: int) {
    && 1 <= workers <= room && (workers <= requestedWorkers || workers == 1)
    && (workers >= requestedWorkers || workers == room)
  }

  /** A quantum of lead is made up by twenty quanta of waiting; equal scores go to the longest unserved, then the least identifier. */
  predicate ServedBefore(a: Id, first: FairJob, b: Id, second: FairJob, now: int) {
    var lead := 20 * (first.virtualWorkerMs - second.virtualWorkerMs);
    var credit := Min(20 * QUANTUM_MS, Max(0, now - first.lastServiceAt)) - Min(20 * QUANTUM_MS, Max(0, now - second.lastServiceAt));
    || lead < credit
    || (lead == credit && first.lastServiceAt < second.lastServiceAt)
    || (lead == credit && first.lastServiceAt == second.lastServiceAt && a.n <= b.n)
  }

  /**
   The chosen job comes before every other job with room, so it has the least score and is at most one
   quantum ahead of any of them. Its share is what was asked for, as far as it has room.
   */
  lemma SelectionIsFair(jobs: map<Id, FairJob>, requestedWorkers: int, now: int)
    ensures Selected(jobs, requestedWorkers, now).None? <==> forall j :: j in jobs ==> jobs[j].assignedWorkers >= MAX_JOB_WORKERS
    ensures Selected(jobs, requestedWorkers, now).Some? ==>
      var s := Selected(jobs, requestedWorkers, now).value;
      && s.job in Available(jobs)
      && FillsRequest(s.workers, requestedWorkers, MAX_JOB_WORKERS - jobs[s.job].assignedWorkers)
      && (forall k :: k in Available(jobs) ==>
            ServedBefore(s.job, jobs[s.job], k, jobs[k], now) &&
            FairServiceScore(jobs[s.job], now) <= FairServiceScore(jobs[k], now) &&
            jobs[s.job].virtualWorkerMs <= jobs[k].virtualWorkerMs + QUANTUM_MS)
  {
    if Available(jobs) == {} {
      forall j | j in jobs ensures jobs[j].assignedWorkers >= MAX_JOB_WORKERS {
        assert j !in Available(jobs);
      }
    } else {
      var order := ServiceOrder(jobs, now);
      var s := Earliest(Available(jobs), order);
      assert s in Available(jobs);
      forall k | k in Available(jobs)
        ensures ServedBefore(s, jobs[s], k, jobs[k], now)
        ensures FairServiceScore(jobs[s], now) <= FairServiceScore(jobs[k], now)
        ensures jobs[s].virtualWorkerMs <= jobs[k].virtualWorkerMs + QUANTUM_MS
      {
        assert NotAfter(order, s, k);
        ScaledScoreIsScore(jobs[s], now);
        ScaledScoreIsScore(jobs[k], now);
      }
    }
  }

  function ByRuntime(jobs: map<Id, FairJob>): map<Id, Key> {
    map j | j in jobs :: (jobs[j].virtualWorkerMs, 0, 0)
  }

  ghost function NewJobVirtualRuntime(jobs: map<Id, FairJob>): (v: int)
    ensures jobs == map[] ==> v == 0
    ensures jobs != map[] ==> (exists j :: j in jobs && jobs[j].virtualWorkerMs == v) && forall j :: j in jobs ==> v <= jobs[j].virtualWorkerMs
  {
    if jobs.Keys == {} then 0 else
      var m := Earliest(jobs.Keys, ByRuntime(jobs));
      assert forall j :: j in jobs ==> NotAfter(ByRuntime(jobs), m, j);
      jobs[m].virtualWorkerMs
  }

  method LeastVirtualRuntime(jobs: map<Id, FairJob>) returns (v: int)
    ensures v == NewJobVirtualRuntime(jobs)
  {
    v := 0;
    var rest := jobs.Keys;
    while rest != {}
      invariant rest <= jobs.Keys
      invariant forall j :: j in jobs && j !in rest ==> v <= jobs[j].virtualWorkerMs
      invariant rest == jobs.Keys || exists j :: j in jobs && jobs[j].virtualWorkerMs == v
      invariant jobs == map[] ==> v == 0
      decreases rest
    {
      var j :| j in rest;
      v := if rest == jobs.Keys then jobs[j].virtualWorkerMs else Min(v, jobs[j].virtualWorkerMs);
      rest := rest - {j};
    }
  }

  function ReconciledVirtualRuntime(virtualWorkerMs: int, reservedWorkerMs: int, actualWorkerMs: int): int {
    Max(0, virtualWorkerMs - reservedWorkerMs + Max(0, Min(reservedWorkerMs, actualWorkerMs)))
  }
}
