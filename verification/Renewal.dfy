/** A browser that reports progress often enough keeps its lease until the tenure or the job ends. */
module Renewal {
  import opened Wrappers
  import opened Cnf
  import opened Rows
  import opened CoordinatorTables
  import opened LeaseSafety
  import opened LeaseSteps
  import opened CoordinatorRuns
  import opened CoordinatorTheorems
  import opened LeaseEffects
  import opened StepEffects

  const REPORT_GAP_MS := 3 * 60_000

  /** In step `r` the lease's own session reports more active time for it than is recorded. */
  ghost predicate ReportedAt(trace: seq<System>, steps: seq<Timed>, r: nat, l: Id)
    requires |trace| == |steps| + 1
  {
    r < |steps| && steps[r].event.Beat? && l in trace[r].db.leases &&
    Advances(trace[r].db, steps[r].event.session, steps[r].event.progress, l)
  }

  /** Step `r` issues the lease. */
  ghost predicate IssuedAt(trace: seq<System>, steps: seq<Timed>, r: nat, l: Id)
    requires |trace| == |steps| + 1
  {
    r < |steps| && steps[r].event.Dispatch? && steps[r].event.lease == l && l in trace[r + 1].db.leases
  }

  ghost predicate ServedAt(trace: seq<System>, steps: seq<Timed>, r: nat, l: Id)
    requires |trace| == |steps| + 1
  {
    ReportedAt(trace, steps, r, l) || IssuedAt(trace, steps, r, l)
  }

  /** At time `t` the deadline is still ahead, unless the tenure or the job is over. */
  predicate InTime(db: Db, l: Id, t: int) {
    l in db.leases && (t < db.leases[l].expiresAt || t >= db.leases[l].maximumExpiresAt || t >= db.job.expiresAt)
  }

  lemma BeatIsInTime(db: Db, db': Db, session: Id, slots: seq<Progress>, now: nat, l: Id, t: int)
    requires Beaten(db, db', session, slots, now) && l in db.leases && Advances(db, session, slots, l) && t <= now + REPORT_GAP_MS
    ensures InTime(db', l, t)
  {
    assert LeaseBeaten(db, db', session, slots, now, l);
  }

  lemma GrantIsInTime(db: Db, db': Db, session: Id, slot: Id, now: nat, l: Id, t: int)
    requires Dispatched(db, db', session, slot, now, l) && l !in db.leases && l in db'.leases && t <= now + REPORT_GAP_MS
    ensures InTime(db', l, t)
  {
    assert db' != db;
    var task :| Granted(db, db', session, slot, now, l, task);
  }

  lemma ServedIsInTime(f: Formula, trace: seq<System>, steps: seq<Timed>, r: nat, l: Id, t: int)
    requires Run(f, trace, steps) && ServedAt(trace, steps, r, l) && t <= steps[r].now + REPORT_GAP_MS
    ensures InTime(trace[r + 1].db, l, t)
  {
    assert Follows(f, trace[r], steps[r], trace[r + 1]);
    StepsAreExact(f, trace, steps, r);
    var e, now, db, db' := steps[r].event, steps[r].now, trace[r].db, trace[r + 1].db;
    if e.Beat? {
      BeatIsInTime(db, db', e.session, e.progress, now, l, t);
    } else {
      GrantIsInTime(db, db', e.session, e.slot, now, l, t);
    }
  }

  /** For three minutes after it was issued or reported a lease is not past its deadline, whatever else happens. */
  lemma ReportKeepsLeaseInTime(f: Formula, trace: seq<System>, steps: seq<Timed>, r: nat, m: nat, l: Id, t: int)
    requires Run(f, trace, steps) && r < m < |trace| && ServedAt(trace, steps, r, l) && t <= steps[r].now + REPORT_GAP_MS
    ensures InTime(trace[m].db, l, t)
  {
    var first: nat := r + 1;
    ServedIsInTime(f, trace, steps, r, l, t);
    RunEvolves(f, trace, steps, first, m);
    assert LeaseEvolves(trace[first].db.leases[l], trace[m].db.leases[l]);
  }

  ghost predicate RecentlyServed(trace: seq<System>, steps: seq<Timed>, k: nat, l: Id, t: int)
    requires |trace| == |steps| + 1
  {
    exists r: nat :: r < k && ServedAt(trace, steps, r, l) && t <= steps[r].now + REPORT_GAP_MS
  }

  /** An alarm passes over a lease that was issued or reported in the last three minutes. */
  lemma AlarmSparesReported(f: Formula, trace: seq<System>, steps: seq<Timed>, k: nat, l: Id)
    requires Run(f, trace, steps) && k < |steps| && steps[k].event.AlarmFired? && l in trace[k].db.leases
    requires RecentlyServed(trace, steps, k, l, steps[k].now) && steps[k].now < trace[k].db.leases[l].maximumExpiresAt
    ensures l in trace[k + 1].db.leases && trace[k + 1].db.leases[l] == trace[k].db.leases[l]
  {
    var now, db, db' := steps[k].now, trace[k].db, trace[k + 1].db;
    var r: nat :| r < k && ServedAt(trace, steps, r, l) && now <= steps[r].now + REPORT_GAP_MS;
    ReportKeepsLeaseInTime(f, trace, steps, r, k, l, now);
    assert Follows(f, trace[k], steps[k], trace[k + 1]);
    StepsAreExact(f, trace, steps, k);
    assert AlarmTaken(db, db', now);
    if !(db.job.state.CANCELLED? || now >= db.job.expiresAt) {
      var batch, holding :| BatchExpires(db, db', now, batch, holding);
      assert !PastDeadline(db, l, now);
    }
  }

  predicate ActiveAt(s: System, l: Id) {
    l in s.db.leases && s.db.leases[l].status.ACTIVE?
  }

  /** Some step other than an alarm ends the lease. */
  ghost predicate EndedOtherwise(trace: seq<System>, steps: seq<Timed>, k: nat, l: Id)
    requires |trace| == |steps| + 1
  {
    k < |steps| && !steps[k].event.AlarmFired? && ActiveAt(trace[k], l) && !ActiveAt(trace[k + 1], l)
  }

  /** Over any stretch with reports at gaps of at most three minutes, within the tenure, time alone never ends the lease. */
  lemma {:induction false} ReportsKeepLease(f: Formula, trace: seq<System>, steps: seq<Timed>, a: nat, b: nat, l: Id)
    requires Run(f, trace, steps) && a <= b < |trace| && ActiveAt(trace[a], l)
    requires forall k: nat :: a <= k < b ==>
      RecentlyServed(trace, steps, k, l, steps[k].now) && steps[k].now < trace[a].db.leases[l].maximumExpiresAt
    ensures ActiveAt(trace[b], l) || exists k: nat :: a <= k < b && EndedOtherwise(trace, steps, k, l)
    decreases b
  {
    if a < b {
      var k: nat := b - 1;
      ReportsKeepLease(f, trace, steps, a, k, l);
      if ActiveAt(trace[k], l) && !ActiveAt(trace[b], l) {
        if steps[k].event.AlarmFired? {
          RunEvolves(f, trace, steps, a, k);
          assert LeaseEvolves(trace[a].db.leases[l], trace[k].db.leases[l]);
          AlarmSparesReported(f, trace, steps, k, l);
        }
        assert EndedOtherwise(trace, steps, k, l);
      }
    }
  }
}
