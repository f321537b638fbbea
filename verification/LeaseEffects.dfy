/**
 What heartbeats, dispatch, disconnects, alarms, HELLO and permit offers do to leases, row by row.
 The statements compare the tables before with the tables after and spell out every deadline.
 */
module LeaseEffects {
  import opened Wrappers
  import opened Cnf
  import opened Rows
  import opened CoordinatorTables
  import opened LeaseSafety
  import Seqs

  // ----- heartbeat -----

  /** The lease is active and its own session and slot report it. */
  predicate Names(db: Db, session: Id, p: Progress, l: Id) {
    p.lease == Some(l) && l in db.leases && db.leases[l].session == session && db.leases[l].slot == p.slot && db.leases[l].status.ACTIVE?
  }

  /** Some entry reports more active time for the lease than is recorded. */
  ghost predicate Advances(db: Db, session: Id, slots: seq<Progress>, l: Id) {
    exists k :: 0 <= k < |slots| && Names(db, session, slots[k], l) && slots[k].activeMs > db.leases[l].lastActiveMs
  }

  /** Five minutes from now, unless the lease's tenure or the job ends before that. */
  predicate IsRenewedDeadline(deadline: int, now: int, maximum: int, jobExpiry: int) {
    && deadline <= now + 5 * 60_000 && deadline <= maximum && deadline <= jobExpiry
    && (deadline == now + 5 * 60_000 || deadline == maximum || deadline == jobExpiry)
  }

  predicate Due(lease: Lease, now: int) {
    lease.expiresAt <= now + 3 * 60_000
  }

  /** The deadline moves exactly if the lease's own browser reports progress in the last three minutes. */
  ghost predicate DeadlineFollows(db: Db, db': Db, session: Id, slots: seq<Progress>, now: nat, l: Id)
    requires l in db.leases && l in db'.leases
  {
    if Advances(db, session, slots, l) && Due(db.leases[l], now)
    then IsRenewedDeadline(db'.leases[l].expiresAt, now, db.leases[l].maximumExpiresAt, db.job.expiresAt)
    else db'.leases[l].expiresAt == db.leases[l].expiresAt
  }

  /** What one entry does to the recorded active time: a renewal takes the report, crossing one second is noted. */
  predicate ActiveTimeFollows(lease: Lease, recorded: nat, reported: nat, now: int) {
    recorded == if reported > lease.lastActiveMs && Due(lease, now) then reported
                else if lease.lastActiveMs < 1_000 <= reported then 1_000 else lease.lastActiveMs
  }

  ghost predicate OnlyNamedBy(slots: seq<Progress>, k: nat, l: Id) {
    k < |slots| && forall j :: 0 <= j < |slots| && j != k ==> slots[j].lease != Some(l)
  }

  /** A heartbeat changes nothing but the deadlines and active times of leases it reports. */
  ghost predicate Beaten(db: Db, db': Db, session: Id, slots: seq<Progress>, now: nat) {
    && db' == db.(leases := db'.leases) && db'.leases.Keys == db.leases.Keys
    && forall l :: l in db.leases ==> LeaseBeaten(db, db', session, slots, now, l)
  }

  ghost predicate LeaseBeaten(db: Db, db': Db, session: Id, slots: seq<Progress>, now: nat, l: Id)
    requires l in db.leases && l in db'.leases
  {
    && db'.leases[l] == db.leases[l].(expiresAt := db'.leases[l].expiresAt, lastActiveMs := db'.leases[l].lastActiveMs)
    && DeadlineFollows(db, db', session, slots, now, l)
    && (!Advances(db, session, slots, l) ==> db'.leases[l] == db.leases[l])
    && (forall k: nat :: OnlyNamedBy(slots, k, l) && Names(db, session, slots[k], l) ==>
          ActiveTimeFollows(db.leases[l], db'.leases[l].lastActiveMs, slots[k].activeMs, now))
  }

  /** The row of the lease after the first entry. */
  predicate Entered(db: Db, lease: Lease, session: Id, p: Progress, now: nat, l: Id)
    requires l in db.leases
  {
    var was := db.leases[l];
    && lease == was.(expiresAt := lease.expiresAt, lastActiveMs := lease.lastActiveMs)
    && (if Names(db, session, p, l) && p.activeMs > was.lastActiveMs && Due(was, now)
        then IsRenewedDeadline(lease.expiresAt, now, was.maximumExpiresAt, db.job.expiresAt)
        else lease.expiresAt == was.expiresAt)
    && (if Names(db, session, p, l) then ActiveTimeFollows(was, lease.lastActiveMs, p.activeMs, now) else lease == was)
  }

  lemma ProgressIsExact(db: Db, session: Id, p: Progress, now: nat)
    ensures var next := RecordProgress(db, session, p, now);
      && next == db.(leases := next.leases) && next.leases.Keys == db.leases.Keys
      && forall l :: l in db.leases ==> Entered(db, next.leases[l], session, p, now, l)
  {
  }

  lemma {:induction false} HeartbeatIsExact(db: Db, session: Id, slots: seq<Progress>, now: nat)
    ensures Beaten(db, Heartbeat(db, session, slots, now), session, slots, now)
    decreases |slots|
  {
    var db' := Heartbeat(db, session, slots, now);
    if slots != [] {
      var next, rest := RecordProgress(db, session, slots[0], now), slots[1..];
      HeartbeatIsExact(next, session, rest, now);
      ProgressIsExact(db, session, slots[0], now);
      forall l | l in db.leases ensures LeaseBeaten(db, db', session, slots, now, l) {
        BeatGrows(db, next, db', session, slots, now, l);
      }
    }
  }

  /** Who reports the lease first, and who reports it later. */
  lemma AdvancesFirst(db: Db, next: Db, session: Id, slots: seq<Progress>, l: Id)
    requires slots != [] && l in db.leases && l in next.leases && next.leases[l].session == db.leases[l].session
    requires next.leases[l].slot == db.leases[l].slot && next.leases[l].status == db.leases[l].status
    ensures next.leases[l].lastActiveMs == db.leases[l].lastActiveMs ==>
      (Advances(db, session, slots, l) <==>
         (Names(db, session, slots[0], l) && slots[0].activeMs > db.leases[l].lastActiveMs) || Advances(next, session, slots[1..], l))
    ensures forall k: nat :: k > 0 && OnlyNamedBy(slots, k, l) ==>
      var j: nat := k - 1; OnlyNamedBy(slots[1..], j, l) && slots[1..][j] == slots[k] && slots[0].lease != Some(l)
  {
    var rest := slots[1..];
    if Advances(db, session, slots, l) {
      var k :| 0 <= k < |slots| && Names(db, session, slots[k], l) && slots[k].activeMs > db.leases[l].lastActiveMs;
      if k > 0 {
        var j := k - 1;
        assert rest[j] == slots[k] && Names(next, session, rest[j], l);
      }
    }
    if Advances(next, session, rest, l) {
      var j :| 0 <= j < |rest| && Names(next, session, rest[j], l) && rest[j].activeMs > next.leases[l].lastActiveMs;
      var k := j + 1;
      assert slots[k] == rest[j] && Names(db, session, slots[k], l);
    }
    forall k: nat | k > 0 && OnlyNamedBy(slots, k, l)
      ensures var j: nat := k - 1; OnlyNamedBy(rest, j, l) && rest[j] == slots[k] && slots[0].lease != Some(l)
    {
      var j: nat := k - 1;
      forall i | 0 <= i < |rest| && i != j ensures rest[i].lease != Some(l) {
        var m := i + 1;
        assert slots[m] == rest[i];
      }
    }
  }

  lemma BeatGrows(db: Db, next: Db, db': Db, session: Id, slots: seq<Progress>, now: nat, l: Id)
    requires slots != [] && l in db.leases && l in db'.leases && l in next.leases && next.job == db.job
    requires Entered(db, next.leases[l], session, slots[0], now, l)
    requires LeaseBeaten(next, db', session, slots[1..], now, l)
    ensures LeaseBeaten(db, db', session, slots, now, l)
  {
    AdvancesFirst(db, next, session, slots, l);
    var first := Names(db, session, slots[0], l) && slots[0].activeMs > db.leases[l].lastActiveMs;
    assert first ==> Advances(db, session, slots, l);
    forall k: nat | OnlyNamedBy(slots, k, l) && Names(db, session, slots[k], l)
      ensures ActiveTimeFollows(db.leases[l], db'.leases[l].lastActiveMs, slots[k].activeMs, now)
    {
      if k == 0 {
        OnlyFirst(next, session, slots, l);
      } else {
        var j: nat := k - 1;
        assert Names(next, session, slots[1..][j], l);
      }
    }
  }

  lemma OnlyFirst(db: Db, session: Id, slots: seq<Progress>, l: Id)
    requires OnlyNamedBy(slots, 0, l) && l in db.leases
    ensures !Advances(db, session, slots[1..], l)
  {
    forall j | 0 <= j < |slots[1..]| ensures !Names(db, session, slots[1..][j], l) {
      var k := j + 1;
      assert slots[k] == slots[1..][j];
    }
  }

  // ----- dispatch -----

  predicate MayTake(db: Db, session: Id, t: Id) {
    t in db.tasks && db.tasks[t].state.READY? && (db.tasks[t].proofRequired ==> session in db.proofCapable)
  }

  /** Proof work first, then the shallower cube, then the older row, then the identifier. */
  predicate TakenFirst(t: Id, task: Task, u: Id, other: Task) {
    || (task.proofRequired && !other.proofRequired)
    || (task.proofRequired == other.proofRequired &&
        (|| task.depth < other.depth
         || (task.depth == other.depth && task.createdAt < other.createdAt)
         || (task.depth == other.depth && task.createdAt == other.createdAt && t.n <= u.n)))
  }

  predicate SlotIdle(db: Db, session: Id, slot: Id, now: nat) {
    forall l :: l in db.leases && db.leases[l].session == session && db.leases[l].slot == slot && db.leases[l].status.ACTIVE? ==>
      db.leases[l].expiresAt <= now
  }

  /** The first task the session may take is leased to its slot for five minutes of at most an hour, within the job. */
  ghost predicate Granted(db: Db, db': Db, session: Id, slot: Id, now: nat, lease: Id, t: Id) {
    && MayTake(db, session, t) && (forall u :: MayTake(db, session, u) ==> TakenFirst(t, db.tasks[t], u, db.tasks[u]))
    && db' == db.(job := db.job.(state := RUNNING), tasks := db'.tasks, leases := db'.leases)
    && var count := db.tasks[t].leaseCount + 1;
       && db'.tasks == db.tasks[t := db.tasks[t].(state := LEASED, leaseCount := count, activeLease := Some(lease))]
       && lease in db'.leases && db'.leases == db.leases[lease := db'.leases[lease]]
       && var row := db'.leases[lease];
          && row == Lease(t, session, slot, count, now, row.expiresAt, row.maximumExpiresAt, 0, LeaseStatus.ACTIVE)
          && row.maximumExpiresAt == Min(now + 60 * 60_000, db.job.expiresAt)
          && IsRenewedDeadline(row.expiresAt, now, row.maximumExpiresAt, db.job.expiresAt)
  }

  ghost predicate Dispatched(db: Db, db': Db, session: Id, slot: Id, now: nat, lease: Id) {
    if (db.job.state.QUEUED? || db.job.state.RUNNING?) && now < db.job.expiresAt && SlotIdle(db, session, slot, now) &&
       exists t :: MayTake(db, session, t)
    then exists t :: Granted(db, db', session, slot, now, lease, t)
    else db' == db
  }

  lemma LeaseWorkIsExact(db: Db, session: Id, slot: Id, now: nat, lease: Id)
    ensures Dispatched(db, LeaseWork(db, session, slot, now, lease), session, slot, now, lease)
  {
    var work := Leasable(db, session in db.proofCapable);
    assert forall t :: MayTake(db, session, t) <==> t in work;
    assert SlotIdle(db, session, slot, now) <==> !SlotBusy(db, session, slot, now);
    if work != {} && Live(db.job) && now < db.job.expiresAt && SlotIdle(db, session, slot, now) {
      var t := Earliest(work, DispatchOrder(db));
      forall u | MayTake(db, session, u) ensures TakenFirst(t, db.tasks[t], u, db.tasks[u]) {
        assert NotAfter(DispatchOrder(db), t, u);
      }
      assert Granted(db, LeaseWork(db, session, slot, now, lease), session, slot, now, lease, t);
    }
  }

  // ----- leases that end -----

  predicate HeldUnder(db: Db, t: Id, ended: set<Id>) {
    t in db.tasks && db.tasks[t].activeLease.Some? && db.tasks[t].activeLease.value in ended &&
    db.tasks[t].activeLease.value in db.leases && db.leases[db.tasks[t].activeLease.value].task == t
  }

  /** The active leases among `ended` end, and what they held is ready for someone else. */
  ghost predicate LeasesEnd(db: Db, db': Db, ended: set<Id>, status: LeaseStatus) {
    && db'.leases.Keys == db.leases.Keys && db'.tasks.Keys == db.tasks.Keys
    && (forall l :: l in db.leases ==>
          db'.leases[l] == if l in ended && db.leases[l].status.ACTIVE? then db.leases[l].(status := status) else db.leases[l])
    && (forall t :: t in db.tasks ==>
          db'.tasks[t] == if HeldUnder(db, t, ended) then db.tasks[t].(state := READY, activeLease := None) else db.tasks[t])
  }

  /** The open permits of these leases are cancelled, and no others. */
  ghost predicate PermitsEnd(permits: map<Id, Permit>, permits': map<Id, Permit>, leases: set<Id>) {
    && permits'.Keys == permits.Keys
    && forall p :: p in permits ==>
      permits'[p] == if permits[p].lease in leases && permits[p].status.ACTIVE?
                     then permits[p].(status := PermitStatus.CANCELLED) else permits[p]
  }

  ghost predicate RolledBack(db: Db, db': Db, lease: Id) {
    if lease in db.leases && db.leases[lease].status.ACTIVE?
    then db' == db.(leases := db'.leases, tasks := db'.tasks) && LeasesEnd(db, db', {lease}, EXPIRED)
    else db' == db
  }

  lemma RollbackIsExact(db: Db, lease: Id)
    ensures RolledBack(db, RollbackUndelivered(db, lease), lease)
  {
    assert DroppedPermits(db.tasks, db.leases, db.permits, {lease}, KEEP_PERMITS) == db.permits;
  }

  ghost predicate Disconnected(db: Db, db': Db, session: Id) {
    && db' == db.(leases := db'.leases, tasks := db'.tasks, permits := db'.permits)
    && exists ended ::
      && (forall l :: l in ended <==> l in db.leases && db.leases[l].session == session && db.leases[l].status.ACTIVE?)
      && LeasesEnd(db, db', ended, YIELDED) && PermitsEnd(db.permits, db'.permits, ended)
  }

  lemma DisconnectIsExact(db: Db, session: Id)
    ensures Disconnected(db, Disconnect(db, session), session)
  {
    assert LeasesEnd(db, Disconnect(db, session), LeasesBy(db, session), YIELDED);
  }

  // ----- the alarm -----

  predicate PastDeadline(db: Db, l: Id, now: nat) {
    l in db.leases && db.leases[l].status.ACTIVE? && db.leases[l].expiresAt <= now
  }

  /** The earliest deadlines, at most 64 of them. */
  ghost predicate IsBatch(db: Db, now: nat, batch: set<Id>) {
    && (forall l :: l in batch ==> PastDeadline(db, l, now)) && |batch| <= 64
    && forall k :: PastDeadline(db, k, now) && k !in batch ==>
      |batch| == 64 && forall l :: l in batch ==> EndsFirst(db, l, k)
  }

  predicate EndsFirst(db: Db, l: Id, k: Id) {
    l in db.leases && k in db.leases &&
    (db.leases[l].expiresAt < db.leases[k].expiresAt || (db.leases[l].expiresAt == db.leases[k].expiresAt && l.n <= k.n))
  }

  /** Until the job ends one batch expires; the permits of those that still held their task go, and the log is cut to size. */
  ghost predicate AlarmTaken(db: Db, db': Db, now: nat) {
    if db.job.state.CANCELLED? || now >= db.job.expiresAt then db' == db
    else
      && db' == db.(leases := db'.leases, tasks := db'.tasks, permits := db'.permits, processed := db'.processed)
      && |db'.processed| == Min(|db.processed|, 2_048) && multiset(db'.processed) <= multiset(db.processed)
      && (forall gone, kept :: gone in multiset(db.processed) - multiset(db'.processed) && kept in db'.processed ==> gone.at <= kept.at)
      && exists batch, holding :: BatchExpires(db, db', now, batch, holding)
  }

  ghost predicate BatchExpires(db: Db, db': Db, now: nat, batch: set<Id>, holding: set<Id>) {
    && IsBatch(db, now, batch) && LeasesEnd(db, db', batch, EXPIRED)
    && (forall l :: l in holding <==> l in batch && l in db.leases && HeldUnder(db, db.leases[l].task, {l}))
    && PermitsEnd(db.permits, db'.permits, holding)
  }

  lemma {:induction false} BatchSize(batch: seq<Id>)
    requires forall i, j :: 0 <= i < j < |batch| ==> batch[i] != batch[j]
    ensures |set l | l in batch| == |batch|
  {
    if batch != [] {
      var init := batch[..|batch| - 1];
      BatchSize(init);
      assert (set l | l in batch) == (set l | l in init) + {batch[|batch| - 1]};
    }
  }

  lemma PrefixIsFirst(s: seq<Id>, key: map<Id, Key>, n: nat, l: Id, k: Id)
    requires n <= |s| && forall x :: x in s ==> x in key
    requires forall i, j :: 0 <= i < j < |s| ==> NotAfter(key, s[i], s[j])
    requires l in s[..n] && k in s && k !in s[..n]
    ensures NotAfter(key, l, k)
  {
    var i :| 0 <= i < n && s[..n][i] == l;
    var j :| 0 <= j < |s| && s[j] == k;
    assert NotAfter(key, s[i], s[j]);
  }

  lemma OutsideBatch(db: Db, now: nat, k: Id)
    requires PastDeadline(db, k, now) && k !in AlarmBatch(db, now)
    ensures |AlarmBatch(db, now)| == 64 && forall l :: l in AlarmBatch(db, now) ==> EndsFirst(db, l, k)
  {
    var due, key := Sorted(Expired(db, now), ExpiryOrder(db)), ExpiryOrder(db);
    SortedIsOrdered(Expired(db, now), key);
    assert k in Expired(db, now) && k in due;
    assert AlarmBatch(db, now) == due[..64];
    forall l | l in AlarmBatch(db, now) ensures EndsFirst(db, l, k) {
      PrefixIsFirst(due, key, 64, l, k);
      assert l in due;
    }
  }

  lemma BatchIsExact(db: Db, now: nat)
    ensures IsBatch(db, now, set l | l in AlarmBatch(db, now))
  {
    var due, taken := Sorted(Expired(db, now), ExpiryOrder(db)), AlarmBatch(db, now);
    var batch := set l | l in AlarmBatch(db, now);
    SortedIsOrdered(Expired(db, now), ExpiryOrder(db));
    BatchSize(taken);
    assert batch == (set l | l in taken) && |batch| == |taken|;
    forall l | l in batch ensures PastDeadline(db, l, now) {
      assert l in due;
    }
    forall k | PastDeadline(db, k, now) && k !in batch ensures |batch| == 64 && forall l :: l in batch ==> EndsFirst(db, l, k) {
      OutsideBatch(db, now, k);
    }
  }

  lemma BatchEnds(db: Db, now: nat, batch: set<Id>)
    requires IsBatch(db, now, batch)
    ensures var db' := EndLeases(db, batch, EXPIRED, false, CANCEL_IF_HELD);
      exists holding :: BatchExpires(db, db', now, batch, holding)
  {
    var db' := EndLeases(db, batch, EXPIRED, false, CANCEL_IF_HELD);
    var holding := set l | l in batch && l in db.leases && HeldUnder(db, db.leases[l].task, {l});
    assert forall l :: l in batch ==> PastDeadline(db, l, now);
    assert forall l :: l in batch ==> (l in holding <==> Holds(db.tasks, db.leases, l));
    assert BatchExpires(db, db', now, batch, holding);
  }

  lemma AlarmIsExact(db: Db, now: nat)
    ensures AlarmTaken(db, Alarm(db, now), now)
  {
    if !(db.job.state.CANCELLED? || now >= db.job.expiresAt) {
      var batch := set l | l in AlarmBatch(db, now);
      BatchIsExact(db, now);
      BatchEnds(db, now, batch);
      PruneKeepsNewest(db.processed);
      var ended := EndLeases(db, batch, EXPIRED, false, CANCEL_IF_HELD);
      var holding :| BatchExpires(db, ended, now, batch, holding);
      assert BatchExpires(db, Alarm(db, now), now, batch, holding);
    }
  }

  // ----- HELLO -----

  /** A lease keeps its slot if the browser still offers it, else it takes the first offered slot that is free, else none. */
  ghost predicate Fits(current: Id, slots: seq<Id>, taken: set<Id>, choice: Option<Id>) {
    if current in slots then choice == Some(current)
    else match choice
      case None => forall s :: s in slots ==> s in taken
      case Some(slot) => slot !in taken && exists k :: 0 <= k < |slots| && slots[k] == slot && forall j :: 0 <= j < k ==> slots[j] in taken
  }

  function Taken(choices: seq<Option<Id>>): set<Id> {
    set c | c in choices && c.Some? :: c.value
  }

  function GivenUp(existing: seq<Id>, choices: seq<Option<Id>>): set<Id>
    requires |choices| == |existing|
  {
    set i | 0 <= i < |existing| && choices[i].None? :: existing[i]
  }

  predicate Moved(lease: Lease, lease': Lease, choice: Option<Id>) {
    lease' == match choice case None => lease.(status := YIELDED) case Some(slot) => lease.(slot := slot)
  }

  ghost predicate LeasesMoved(leases: map<Id, Lease>, leases': map<Id, Lease>, existing: seq<Id>, choices: seq<Option<Id>>)
    requires |choices| == |existing|
  {
    && leases'.Keys == leases.Keys
    && (forall i :: 0 <= i < |existing| ==> existing[i] in leases && Moved(leases[existing[i]], leases'[existing[i]], choices[i]))
    && (forall l :: l in leases && l !in existing ==> leases'[l] == leases[l])
  }

  ghost predicate AllFit(leases: map<Id, Lease>, existing: seq<Id>, slots: seq<Id>, claimed: set<Id>, choices: seq<Option<Id>>)
    requires |choices| == |existing|
  {
    forall i :: 0 <= i < |existing| ==> existing[i] in leases && Fits(leases[existing[i]].slot, slots, claimed + Taken(choices[..i]), choices[i])
  }

  ghost predicate TasksGivenUp(db: Db, tasks': map<Id, Task>, ended: set<Id>) {
    && tasks'.Keys == db.tasks.Keys
    && forall t :: t in db.tasks ==>
      tasks'[t] == if HeldUnder(db, t, ended) then db.tasks[t].(state := READY, activeLease := None) else db.tasks[t]
  }

  /** The leases are refitted one after the other; those that find no slot are yielded with what they held. */
  ghost predicate Refitted(db: Db, db': Db, existing: seq<Id>, slots: seq<Id>, claimed: set<Id>, choices: seq<Option<Id>>) {
    && |choices| == |existing| && AllFit(db.leases, existing, slots, claimed, choices)
    && db' == db.(leases := db'.leases, tasks := db'.tasks)
    && LeasesMoved(db.leases, db'.leases, existing, choices) && TasksGivenUp(db, db'.tasks, GivenUp(existing, choices))
  }

  lemma ChosenFits(current: Id, slots: seq<Id>, taken: set<Id>)
    ensures Fits(current, slots, taken, ChooseSlot(current, slots, taken))
  {
    if current !in slots {
      FirstIsFree(slots, taken);
    }
  }

  lemma {:induction false} FirstIsFree(slots: seq<Id>, taken: set<Id>)
    ensures match FirstUnclaimed(slots, taken)
      case None => forall s :: s in slots ==> s in taken
      case Some(slot) => slot !in taken && exists k :: 0 <= k < |slots| && slots[k] == slot && forall j :: 0 <= j < k ==> slots[j] in taken
  {
    if slots != [] && slots[0] in taken {
      var rest := slots[1..];
      FirstIsFree(rest, taken);
      match FirstUnclaimed(rest, taken)
      case None =>
        assert forall s :: s in slots ==> s == slots[0] || s in rest;
      case Some(slot) =>
        var k :| 0 <= k < |rest| && rest[k] == slot && forall j :: 0 <= j < k ==> rest[j] in taken;
        var n := k + 1;
        assert slots[n] == slot;
        forall j | 0 <= j < n ensures slots[j] in taken {
          if j > 0 {
            var i := j - 1;
            assert rest[i] == slots[j];
          }
        }
    }
  }

  predicate Distinct(s: seq<Id>) {
    forall i, j :: 0 <= i < j < |s| ==> s[i] != s[j]
  }

  lemma FitsGrow(leases: map<Id, Lease>, next: map<Id, Lease>, existing: seq<Id>, slots: seq<Id>, claimed: set<Id>,
                 choice: Option<Id>, rest: seq<Option<Id>>)
    requires existing != [] && |rest| == |existing| - 1 && Distinct(existing) && existing[0] in leases
    requires forall l :: l in leases && l != existing[0] ==> l in next && next[l] == leases[l]
    requires forall l :: l in existing ==> l in leases
    requires Fits(leases[existing[0]].slot, slots, claimed, choice)
    requires AllFit(next, existing[1..], slots, claimed + Taken([choice]), rest)
    ensures AllFit(leases, existing, slots, claimed, [choice] + rest)
  {
    var choices := [choice] + rest;
    forall i | 0 <= i < |existing|
      ensures existing[i] in leases && Fits(leases[existing[i]].slot, slots, claimed + Taken(choices[..i]), choices[i])
    {
      if i == 0 {
        assert claimed + Taken(choices[..0]) == claimed;
      } else {
        var k := i - 1;
        assert choices[..i] == [choice] + rest[..k] && existing[1..][k] == existing[i];
        TakenGrows([choice], rest[..k]);
        assert claimed + Taken(choices[..i]) == (claimed + Taken([choice])) + Taken(rest[..k]);
      }
    }
  }

  lemma TakenGrows(a: seq<Option<Id>>, b: seq<Option<Id>>)
    ensures Taken(a + b) == Taken(a) + Taken(b)
  {
  }

  lemma GivenUpGrows(existing: seq<Id>, choice: Option<Id>, rest: seq<Option<Id>>)
    requires existing != [] && |rest| == |existing| - 1
    ensures GivenUp(existing, [choice] + rest) == (if choice.None? then {existing[0]} else {}) + GivenUp(existing[1..], rest)
  {
    var choices := [choice] + rest;
    forall l | l in GivenUp(existing[1..], rest) ensures l in GivenUp(existing, choices) {
      var k :| 0 <= k < |rest| && rest[k].None? && existing[1..][k] == l;
      var i := k + 1;
      assert choices[i].None? && existing[i] == l;
    }
    forall l | l in GivenUp(existing, choices) ensures (choice.None? && l == existing[0]) || l in GivenUp(existing[1..], rest) {
      var i :| 0 <= i < |existing| && choices[i].None? && existing[i] == l;
      if i > 0 {
        var k := i - 1;
        assert rest[k].None? && existing[1..][k] == l;
      }
    }
  }

  lemma MovesGrow(leases: map<Id, Lease>, next: map<Id, Lease>, leases': map<Id, Lease>, existing: seq<Id>,
                  choice: Option<Id>, rest: seq<Option<Id>>)
    requires existing != [] && |rest| == |existing| - 1 && Distinct(existing) && existing[0] in leases
    requires next.Keys == leases.Keys && Moved(leases[existing[0]], next[existing[0]], choice)
    requires forall l :: l in leases && l != existing[0] ==> next[l] == leases[l]
    requires LeasesMoved(next, leases', existing[1..], rest)
    ensures LeasesMoved(leases, leases', existing, [choice] + rest)
  {
    var choices := [choice] + rest;
    forall i | 0 <= i < |existing| ensures existing[i] in leases && Moved(leases[existing[i]], leases'[existing[i]], choices[i]) {
      if i == 0 {
        assert existing[0] !in existing[1..];
      } else {
        var k := i - 1;
        assert existing[1..][k] == existing[i];
      }
    }
  }

  lemma TasksGrow(db: Db, next: Db, tasks': map<Id, Task>, first: set<Id>, rest: set<Id>)
    requires TasksGivenUp(db, next.tasks, first) && TasksGivenUp(next, tasks', rest) && next.leases.Keys == db.leases.Keys
    requires forall l :: l in db.leases ==> next.leases[l].task == db.leases[l].task
    ensures TasksGivenUp(db, tasks', first + rest)
  {
  }

  lemma {:induction false} RemapIsExact(db: Db, existing: seq<Id>, slots: seq<Id>, claimed: set<Id>) returns (choices: seq<Option<Id>>)
    requires Distinct(existing) && forall l :: l in existing ==> l in db.leases && db.leases[l].status.ACTIVE?
    ensures Refitted(db, RemapSlots(db, existing, slots, claimed), existing, slots, claimed, choices)
    decreases |existing|
  {
    if existing == [] {
      choices := [];
    } else {
      var l, rest := existing[0], existing[1..];
      var choice := ChooseSlot(db.leases[l].slot, slots, claimed);
      ChosenFits(db.leases[l].slot, slots, claimed);
      var next := if choice.None? then EndLeases(db, {l}, YIELDED, false, KEEP_PERMITS) else MoveLease(db, l, choice.value);
      assert next.permits == db.permits && l !in rest;
      assert claimed + Taken([choice]) == if choice.None? then claimed else claimed + {choice.value};
      assert RemapSlots(db, existing, slots, claimed) == RemapSlots(next, rest, slots, claimed + Taken([choice]));
      var later := RemapIsExact(next, rest, slots, claimed + Taken([choice]));
      RefitGrows(db, next, RemapSlots(db, existing, slots, claimed), existing, slots, claimed, choice, later);
      choices := [choice] + later;
    }
  }

  lemma RefitGrows(db: Db, next: Db, db': Db, existing: seq<Id>, slots: seq<Id>, claimed: set<Id>, choice: Option<Id>, rest: seq<Option<Id>>)
    requires existing != [] && Distinct(existing) && forall l :: l in existing ==> l in db.leases && db.leases[l].status.ACTIVE?
    requires Fits(db.leases[existing[0]].slot, slots, claimed, choice)
    requires next == if choice.None? then EndLeases(db, {existing[0]}, YIELDED, false, KEEP_PERMITS) else MoveLease(db, existing[0], choice.value)
    requires next.permits == db.permits
    requires Refitted(next, db', existing[1..], slots, claimed + Taken([choice]), rest)
    ensures Refitted(db, db', existing, slots, claimed, [choice] + rest)
  {
    FitsGrow(db.leases, next.leases, existing, slots, claimed, choice, rest);
    MovesGrow(db.leases, next.leases, db'.leases, existing, choice, rest);
    GivenUpGrows(existing, choice, rest);
    GivesUpFirst(db, next, existing[0], choice);
    TasksGrow(db, next, db'.tasks, if choice.None? then {existing[0]} else {}, GivenUp(existing[1..], rest));
  }

  lemma GivesUpFirst(db: Db, next: Db, l: Id, choice: Option<Id>)
    requires l in db.leases
    requires next == if choice.None? then EndLeases(db, {l}, YIELDED, false, KEEP_PERMITS) else MoveLease(db, l, choice.value)
    ensures TasksGivenUp(db, next.tasks, if choice.None? then {l} else {})
  {
  }

  /** The session's unexpired leases in the order in which they were issued. */
  ghost predicate IssuedTo(db: Db, session: Id, now: nat, existing: seq<Id>) {
    && Distinct(existing)
    && (forall l :: l in existing <==> l in db.leases && db.leases[l].session == session && db.leases[l].status.ACTIVE? && db.leases[l].expiresAt > now)
    && forall i, j :: 0 <= i < j < |existing| ==> IssuedFirst(db, existing[i], existing[j])
  }

  predicate IssuedFirst(db: Db, l: Id, k: Id) {
    l in db.leases && k in db.leases &&
    (db.leases[l].issuedAt < db.leases[k].issuedAt || (db.leases[l].issuedAt == db.leases[k].issuedAt && l.n <= k.n))
  }

  /** After a HELLO the session's profile is as told and its leases are refitted into the slots it offers. */
  ghost predicate Resumed(db: Db, db': Db, session: Id, slots: seq<Id>, proofGeneration: bool, now: nat) {
    && (forall s :: s in db'.proofCapable <==> if s == session then proofGeneration else s in db.proofCapable)
    && exists existing, choices ::
      IssuedTo(db, session, now, existing) && Refitted(db.(proofCapable := db'.proofCapable), db', existing, slots, {}, choices)
  }

  lemma SortedIsIssued(db: Db, session: Id, now: nat)
    ensures IssuedTo(db, session, now, Sorted(LeasesBy(db, session) * Busy(db, now), IssueOrder(db)))
  {
    var found := LeasesBy(db, session) * Busy(db, now);
    SortedIsOrdered(found, IssueOrder(db));
    var existing := Sorted(found, IssueOrder(db));
    forall i, j | 0 <= i < j < |existing| ensures IssuedFirst(db, existing[i], existing[j]) {
      assert existing[i] in existing && existing[j] in existing && NotAfter(IssueOrder(db), existing[i], existing[j]);
    }
  }

  lemma HelloIsExact(db: Db, session: Id, slots: seq<Id>, proofGeneration: bool, now: nat)
    ensures Resumed(db, Hello(db, session, slots, proofGeneration, now), session, slots, proofGeneration, now)
  {
    var existing := Sorted(LeasesBy(db, session) * Busy(db, now), IssueOrder(db));
    SortedIsIssued(db, session, now);
    var db' := Hello(db, session, slots, proofGeneration, now);
    var profiled := db.(proofCapable := if proofGeneration then db.proofCapable + {session} else db.proofCapable - {session});
    var choices := RemapIsExact(profiled, existing, slots, {});
    assert Refitted(profiled, db', existing, slots, {}, choices);
    assert profiled == db.(proofCapable := db'.proofCapable);
  }

  // ----- split permits -----

  /** A lease that has worked a second on a search task that may be split, and has no open permit. */
  predicate MaySplitLater(db: Db, now: nat, l: Id) {
    && l in db.leases && db.leases[l].status.ACTIVE? && db.leases[l].expiresAt > now
    && (now >= db.leases[l].issuedAt + 1_000 || db.leases[l].lastActiveMs >= 1_000)
    && db.leases[l].task in db.tasks
    && (var task := db.tasks[db.leases[l].task]; task.state.LEASED? && !task.proofRequired && task.depth < 64)
    && forall p :: p in db.permits && db.permits[p].lease == l && db.permits[p].status.ACTIVE? ==> db.permits[p].expiresAt <= now
  }

  /** The idle slots, the room under twice the slots or 16, and the room for two more tasks limit the offers. */
  ghost predicate IsAllowance(db: Db, connectedSlots: nat, now: nat, allowance: nat) {
    var idle := connectedSlots - |Busy(db, now)|;
    var room := Min(2 * connectedSlots, 16) - |Frontier(db.tasks)| - |Outstanding(db.permits, now)|;
    if |db.tasks| > 9_998 || idle <= 0 || room <= 0 then allowance == 0 else allowance == Min(idle, room)
  }

  function Pool(leases: map<Id, Lease>, candidates: seq<Id>, reachable: set<Id>): set<Id> {
    set l | l in candidates && l in leases && leases[l].session in reachable
  }

  function Delivered(leases: map<Id, Lease>, candidates: seq<Id>, n: nat, reachable: set<Id>, undelivered: set<Id>): nat
    requires n <= |candidates|
  {
    |Pool(leases, candidates[..n], reachable) - undelivered|
  }

  /** Candidates are asked in order until as many offers as allowed were delivered. */
  ghost predicate AskedInTurn(leases: map<Id, Lease>, candidates: seq<Id>, taken: nat, reachable: set<Id>, undelivered: set<Id>, allowance: nat) {
    && taken <= |candidates|
    && (taken == |candidates| || Delivered(leases, candidates, taken, reachable, undelivered) == allowance)
    && (forall n: nat :: n < taken ==> Delivered(leases, candidates, n, reachable, undelivered) < allowance)
  }

  predicate IsOffer(leases: map<Id, Lease>, permit: Permit, l: Id, failed: bool, now: nat)
    requires l in leases
  {
    var lease := leases[l];
    permit == Permit(lease.task, l, lease.session, lease.slot, Min(now + 2 * 60_000, lease.expiresAt),
                     if failed then PermitStatus.CANCELLED else PermitStatus.ACTIVE)
  }

  /** One permit for each lease asked, cancelled at once if it could not be delivered; all others stay. */
  ghost predicate OffersMade(leases: map<Id, Lease>, permits: map<Id, Permit>, permits': map<Id, Permit>, asked: set<Id>, ids: map<Id, Id>,
                             undelivered: set<Id>, now: nat)
    requires asked <= leases.Keys && asked <= ids.Keys
  {
    && permits'.Keys == permits.Keys + (set l | l in asked :: ids[l])
    && (forall l :: l in asked ==> IsOffer(leases, permits'[ids[l]], l, l in undelivered, now))
    && (forall p :: p in permits && (forall l :: l in asked ==> ids[l] != p) ==> permits'[p] == permits[p])
  }

  lemma PoolGrows(leases: map<Id, Lease>, l: Id, rest: seq<Id>, reachable: set<Id>)
    ensures Pool(leases, [l] + rest, reachable) == Pool(leases, [l], reachable) + Pool(leases, rest, reachable)
  {
  }

  lemma AskedGrows(leases: map<Id, Lease>, candidates: seq<Id>, taken: nat, reachable: set<Id>, undelivered: set<Id>, allowance: nat, spent: nat)
    requires candidates != [] && Distinct(candidates) && candidates[0] in leases && spent <= allowance && allowance > 0
    requires spent == if leases[candidates[0]].session in reachable && candidates[0] !in undelivered then 1 else 0
    requires AskedInTurn(leases, candidates[1..], taken, reachable, undelivered, allowance - spent)
    ensures AskedInTurn(leases, candidates, taken + 1, reachable, undelivered, allowance)
  {
    forall n: nat | n < taken + 1 ensures Delivered(leases, candidates, n, reachable, undelivered) < allowance {
      if n == 0 {
        assert Pool(leases, candidates[..0], reachable) == {};
      } else {
        DeliveredGrows(leases, candidates, n - 1, n, reachable, undelivered, spent);
      }
    }
    DeliveredGrows(leases, candidates, taken, taken + 1, reachable, undelivered, spent);
  }

  /** The first candidate adds what it spends to what the following ones use. */
  lemma DeliveredGrows(leases: map<Id, Lease>, candidates: seq<Id>, n: nat, m: nat, reachable: set<Id>, undelivered: set<Id>, spent: nat)
    requires candidates != [] && Distinct(candidates) && candidates[0] in leases && m == n + 1 <= |candidates|
    requires spent == if leases[candidates[0]].session in reachable && candidates[0] !in undelivered then 1 else 0
    ensures Delivered(leases, candidates, m, reachable, undelivered) == spent + Delivered(leases, candidates[1..], n, reachable, undelivered)
  {
    var l, rest := candidates[0], candidates[1..][..n];
    Seqs.TakeFromFirst(candidates, n);
    PoolOfFirst(leases, l, rest, reachable, undelivered, spent);
  }

  lemma PoolOfFirst(leases: map<Id, Lease>, l: Id, rest: seq<Id>, reachable: set<Id>, undelivered: set<Id>, spent: nat)
    requires l in leases && l !in rest && spent == if leases[l].session in reachable && l !in undelivered then 1 else 0
    ensures |Pool(leases, [l] + rest, reachable) - undelivered| == spent + |Pool(leases, rest, reachable) - undelivered|
  {
    var later := Pool(leases, rest, reachable) - undelivered;
    PoolGrows(leases, l, rest, reachable);
    assert Pool(leases, [l] + rest, reachable) - undelivered == if spent == 1 then {l} + later else later;
  }

  /** The permit identifiers of these leases are unused and different. */
  ghost predicate FreshFor(permits: map<Id, Permit>, candidates: seq<Id>, ids: map<Id, Id>) {
    && (forall l :: l in candidates ==> l in ids && ids[l] !in permits)
    && forall l, k :: l in candidates && k in candidates && l != k ==> ids[l] != ids[k]
  }

  ghost predicate OffersFit(db: Db, db': Db, candidates: seq<Id>, reachable: set<Id>, ids: map<Id, Id>, undelivered: set<Id>, now: nat,
                            allowance: nat, taken: nat) {
    && AskedInTurn(db.leases, candidates, taken, reachable, undelivered, allowance)
    && db' == db.(permits := db'.permits)
    && var asked := Pool(db.leases, candidates[..taken], reachable);
       asked <= ids.Keys && OffersMade(db.leases, db.permits, db'.permits, asked, ids, undelivered, now)
  }

  /** Some number of candidates was asked. */
  ghost predicate Offers(db: Db, db': Db, candidates: seq<Id>, reachable: set<Id>, ids: map<Id, Id>, undelivered: set<Id>, now: nat,
                         allowance: nat) {
    exists taken :: OffersFit(db, db', candidates, reachable, ids, undelivered, now, allowance, taken)
  }

  /** The tables after the first candidate was asked. */
  function Asked(db: Db, l: Id, reachable: set<Id>, ids: map<Id, Id>, undelivered: set<Id>, now: nat): Db
    requires l in db.leases && l in ids
  {
    if db.leases[l].session in reachable then GrantPermit(db, l, ids[l], l !in undelivered, now) else db
  }

  lemma FreshRest(db: Db, candidates: seq<Id>, reachable: set<Id>, ids: map<Id, Id>, undelivered: set<Id>, now: nat)
    requires candidates != [] && Distinct(candidates) && FreshFor(db.permits, candidates, ids)
    requires forall l :: l in candidates ==> l in db.leases && l in ids
    ensures var next := Asked(db, candidates[0], reachable, ids, undelivered, now);
      && Distinct(candidates[1..]) && (forall l :: l in candidates[1..] ==> l in next.leases && l in ids)
      && FreshFor(next.permits, candidates[1..], ids)
  {
    assert forall k :: k in candidates[1..] ==> k in candidates && k != candidates[0];
  }

  lemma NoOffers(db: Db, candidates: seq<Id>, reachable: set<Id>, ids: map<Id, Id>, undelivered: set<Id>, now: nat, allowance: nat)
    requires candidates == [] || allowance == 0
    ensures Offers(db, db, candidates, reachable, ids, undelivered, now, allowance)
  {
    assert Pool(db.leases, candidates[..0], reachable) == {};
    assert OffersFit(db, db, candidates, reachable, ids, undelivered, now, allowance, 0);
  }

  lemma {:induction false} OffersAreExact(db: Db, candidates: seq<Id>, reachable: set<Id>, ids: map<Id, Id>, undelivered: set<Id>, now: nat,
                                          allowance: nat)
    requires Distinct(candidates) && (forall l :: l in candidates ==> l in db.leases && l in ids) && FreshFor(db.permits, candidates, ids)
    ensures Offers(db, OfferPermits(db, candidates, reachable, ids, undelivered, now, allowance), candidates, reachable, ids, undelivered,
                   now, allowance)
    decreases |candidates|
  {
    if candidates == [] || allowance == 0 {
      NoOffers(db, candidates, reachable, ids, undelivered, now, allowance);
    } else {
      var l, rest := candidates[0], candidates[1..];
      assert l in candidates;
      var spent := if db.leases[l].session in reachable && l !in undelivered then 1 else 0;
      var next := Asked(db, l, reachable, ids, undelivered, now);
      FreshRest(db, candidates, reachable, ids, undelivered, now);
      OffersAreExact(next, rest, reachable, ids, undelivered, now, allowance - spent);
      OffersStep(db, next, OfferPermits(next, rest, reachable, ids, undelivered, now, allowance - spent), candidates, reachable, ids,
                 undelivered, now, allowance, spent);
    }
  }

  lemma OffersStep(db: Db, next: Db, db': Db, candidates: seq<Id>, reachable: set<Id>, ids: map<Id, Id>, undelivered: set<Id>, now: nat,
                   allowance: nat, spent: nat)
    requires candidates != [] && Distinct(candidates) && allowance > 0
    requires (forall l :: l in candidates ==> l in db.leases && l in ids) && FreshFor(db.permits, candidates, ids)
    requires spent == if db.leases[candidates[0]].session in reachable && candidates[0] !in undelivered then 1 else 0
    requires next == Asked(db, candidates[0], reachable, ids, undelivered, now)
    requires Offers(next, db', candidates[1..], reachable, ids, undelivered, now, allowance - spent)
    ensures Offers(db, db', candidates, reachable, ids, undelivered, now, allowance)
  {
    var later: nat :| OffersFit(next, db', candidates[1..], reachable, ids, undelivered, now, allowance - spent, later);
    var taken := later + 1;
    var l, rest := candidates[0], candidates[1..][..later];
    AskedGrows(db.leases, candidates, later, reachable, undelivered, allowance, spent);
    Seqs.TakeFromFirst(candidates, later);
    OffersGrow(db, next, db'.permits, l, rest, reachable, ids, undelivered, now);
    assert OffersFit(db, db', candidates, reachable, ids, undelivered, now, allowance, taken);
  }

  lemma OffersGrow(db: Db, next: Db, permits': map<Id, Permit>, l: Id, rest: seq<Id>, reachable: set<Id>, ids: map<Id, Id>,
                   undelivered: set<Id>, now: nat)
    requires l in db.leases && l !in rest && (forall k :: k in rest ==> k in db.leases) && FreshFor(db.permits, [l] + rest, ids)
    requires next == if db.leases[l].session in reachable then GrantPermit(db, l, ids[l], l !in undelivered, now) else db
    requires OffersMade(db.leases, next.permits, permits', Pool(db.leases, rest, reachable), ids, undelivered, now)
    ensures Pool(db.leases, [l] + rest, reachable) <= ids.Keys
    ensures OffersMade(db.leases, db.permits, permits', Pool(db.leases, [l] + rest, reachable), ids, undelivered, now)
  {
    PoolGrows(db.leases, l, rest, reachable);
    assert l in [l] + rest && forall k :: k in rest ==> k in [l] + rest;
    var asked, later := Pool(db.leases, [l] + rest, reachable), Pool(db.leases, rest, reachable);
    if db.leases[l].session in reachable {
      assert asked == {l} + later;
      assert forall k :: k in later ==> ids[k] != ids[l];
    } else {
      assert asked == later;
    }
  }

  /** Open permits past their time are cancelled, and no others. */
  ghost predicate LatePermitsEnd(permits: map<Id, Permit>, permits': map<Id, Permit>, now: nat) {
    && permits'.Keys == permits.Keys
    && forall p :: p in permits ==>
      permits'[p] == if permits[p].status.ACTIVE? && permits[p].expiresAt <= now
                     then permits[p].(status := PermitStatus.CANCELLED) else permits[p]
  }

  /** The slots of the sockets whose sessions are not quarantined, each under its socket's and its own number. */
  function OpenSlots(sockets: seq<Connection>, quarantined: set<Id>): set<(nat, nat)> {
    set i: nat, k: nat | i < |sockets| && sockets[i].session !in quarantined && k < |sockets[i].slots| :: (i, k)
  }

  function FirstSlots(n: nat): set<(nat, nat)> {
    set k: nat | k < n :: (0, k)
  }

  function Shifted(slots: set<(nat, nat)>): set<(nat, nat)> {
    set p | p in slots :: (p.0 + 1, p.1)
  }

  lemma {:induction false} FirstSlotsSize(n: nat)
    ensures |FirstSlots(n)| == n
  {
    if n > 0 {
      var m := n - 1;
      FirstSlotsSize(m);
      assert FirstSlots(n) == FirstSlots(m) + {(0, m)};
    }
  }

  lemma ShiftedOneMore(slots: set<(nat, nat)>, p: (nat, nat))
    requires p in slots
    ensures Shifted(slots) == Shifted(slots - {p}) + {(p.0 + 1, p.1)} && (p.0 + 1, p.1) !in Shifted(slots - {p})
  {
  }

  lemma {:induction false} ShiftedSize(slots: set<(nat, nat)>)
    ensures |Shifted(slots)| == |slots|
  {
    if slots != {} {
      var p :| p in slots;
      ShiftedSize(slots - {p});
      ShiftedOneMore(slots, p);
    }
  }

  lemma OpenSlotsSplit(sockets: seq<Connection>, quarantined: set<Id>)
    requires sockets != []
    ensures OpenSlots(sockets, quarantined) ==
      (if sockets[0].session in quarantined then {} else FirstSlots(|sockets[0].slots|)) + Shifted(OpenSlots(sockets[1..], quarantined))
  {
    var later := OpenSlots(sockets[1..], quarantined);
    forall p | p in OpenSlots(sockets, quarantined) && p.0 > 0 ensures p in Shifted(later) {
      var i: nat := p.0 - 1;
      assert sockets[1..][i] == sockets[p.0] && (i, p.1) in later;
    }
    forall p | p in Shifted(later) ensures p in OpenSlots(sockets, quarantined) {
      var q :| q in later && p == (q.0 + 1, q.1);
      assert sockets[1..][q.0] == sockets[p.0];
    }
  }

  lemma {:induction false} SlotsAreCounted(sockets: seq<Connection>, quarantined: set<Id>)
    ensures SlotCount(Connected(sockets, quarantined)) == |OpenSlots(sockets, quarantined)|
    ensures forall s :: s in Reachable(Connected(sockets, quarantined)) <==> s !in quarantined && exists c :: c in sockets && c.session == s
  {
    if sockets == [] {
      assert OpenSlots(sockets, quarantined) == {};
    } else {
      var first, rest := sockets[0], sockets[1..];
      SlotsAreCounted(rest, quarantined);
      OpenSlotsSplit(sockets, quarantined);
      FirstSlotsSize(|first.slots|);
      ShiftedSize(OpenSlots(rest, quarantined));
      ReachableGrows(first, rest, quarantined);
      assert sockets == [first] + rest;
    }
  }

  lemma ReachableGrows(first: Connection, rest: seq<Connection>, quarantined: set<Id>)
    ensures Reachable(Connected([first] + rest, quarantined)) ==
      Reachable(Connected(rest, quarantined)) + if first.session in quarantined then {} else {first.session}
    ensures SlotCount(Connected([first] + rest, quarantined)) ==
      SlotCount(Connected(rest, quarantined)) + if first.session in quarantined then 0 else |first.slots|
  {
    var all := [first] + rest;
    assert all[0] == first && all[1..] == rest;
    var later := Connected(rest, quarantined);
    assert first.session !in quarantined ==> Connected(all, quarantined) == [first] + later && ([first] + later)[1..] == later;
  }

  /** The leases that may be split, in the order in which they were issued. */
  ghost predicate Eligible(db: Db, now: nat, candidates: seq<Id>) {
    && Distinct(candidates) && (forall l :: l in candidates <==> MaySplitLater(db, now, l))
    && forall i, j :: 0 <= i < j < |candidates| ==> IssuedFirst(db, candidates[i], candidates[j])
  }

  /** Late permits end; then the eligible leases of reachable sessions are offered permits in turn, within the allowance. */
  ghost predicate PermitsOffered(db: Db, db': Db, sockets: seq<Connection>, ids: map<Id, Id>, undelivered: set<Id>, now: nat) {
    exists candidates, reachable, allowance ::
      OfferedTo(db, db', sockets, ids, undelivered, now, candidates, reachable, allowance)
  }

  ghost predicate OfferedTo(db: Db, db': Db, sockets: seq<Connection>, ids: map<Id, Id>, undelivered: set<Id>, now: nat,
                            candidates: seq<Id>, reachable: set<Id>, allowance: nat) {
    && Eligible(db, now, candidates)
    && (forall s :: s in reachable <==> s !in db.quarantined && exists c :: c in sockets && c.session == s)
    && IsAllowance(db, |OpenSlots(sockets, db.quarantined)|, now, allowance)
    && OfferedAfterCut(db, db', candidates, reachable, ids, undelivered, now, allowance)
  }

  ghost predicate OfferedAfterCut(db: Db, db': Db, candidates: seq<Id>, reachable: set<Id>, ids: map<Id, Id>, undelivered: set<Id>, now: nat,
                                  allowance: nat) {
    exists cut: Db ::
      && cut == db.(permits := cut.permits) && LatePermitsEnd(db.permits, cut.permits, now)
      && Offers(cut, db', candidates, reachable, ids, undelivered, now, allowance)
  }

  lemma CandidatesAreEligible(db: Db, now: nat)
    ensures Eligible(db, now, Sorted(SplitCandidates(CancelExpiredPermits(db, now), now), IssueOrder(CancelExpiredPermits(db, now))))
  {
    var cut := CancelExpiredPermits(db, now);
    var found := SplitCandidates(cut, now);
    SortedIsOrdered(found, IssueOrder(cut));
    var candidates := Sorted(found, IssueOrder(cut));
    forall i, j | 0 <= i < j < |candidates| ensures IssuedFirst(db, candidates[i], candidates[j]) {
      assert candidates[i] in candidates && candidates[j] in candidates && NotAfter(IssueOrder(cut), candidates[i], candidates[j]);
    }
    forall l ensures l in found <==> MaySplitLater(db, now, l) {
      CutKeepsCandidates(db, now, l);
    }
  }

  lemma CutKeepsCandidates(db: Db, now: nat, l: Id)
    ensures l in SplitCandidates(CancelExpiredPermits(db, now), now) <==> MaySplitLater(db, now, l)
  {
    var cut := CancelExpiredPermits(db, now);
    if MaySplitLater(db, now, l) {
      forall p | p in cut.permits ensures !(cut.permits[p].lease == l && cut.permits[p].status.ACTIVE?) {
        assert p in db.permits;
      }
    }
    if l in SplitCandidates(cut, now) {
      forall p | p in db.permits && db.permits[p].lease == l && db.permits[p].status.ACTIVE? ensures db.permits[p].expiresAt <= now {
        assert p in cut.permits;
      }
    }
  }

  lemma AllowanceIsExact(db: Db, connectedSlots: nat, now: nat)
    ensures IsAllowance(db, connectedSlots, now, PermitAllowance(CancelExpiredPermits(db, now), connectedSlots, now))
  {
    var cut := CancelExpiredPermits(db, now);
    assert Busy(cut, now) == Busy(db, now);
    assert Outstanding(cut.permits, now) == Outstanding(db.permits, now);
  }

  lemma FreshCandidates(db: Db, now: nat, candidates: seq<Id>, ids: map<Id, Id>)
    requires FreshPermits(db, ids) && Eligible(db, now, candidates)
    ensures Distinct(candidates) && (forall l :: l in candidates ==> l in db.leases && l in ids)
    ensures FreshFor(CancelExpiredPermits(db, now).permits, candidates, ids)
  {
    assert forall l :: l in candidates ==> MaySplitLater(db, now, l);
  }

  lemma CutThenOffer(db: Db, candidates: seq<Id>, reachable: set<Id>, ids: map<Id, Id>, undelivered: set<Id>, now: nat, allowance: nat)
    requires FreshPermits(db, ids) && Eligible(db, now, candidates)
    ensures forall l :: l in candidates ==> l in CancelExpiredPermits(db, now).leases && l in ids
    ensures OfferedAfterCut(db, OfferPermits(CancelExpiredPermits(db, now), candidates, reachable, ids, undelivered, now, allowance),
                            candidates, reachable, ids, undelivered, now, allowance)
  {
    var cut := CancelExpiredPermits(db, now);
    FreshCandidates(db, now, candidates, ids);
    OffersAreExact(cut, candidates, reachable, ids, undelivered, now, allowance);
    assert LatePermitsEnd(db.permits, cut.permits, now);
  }

  lemma IssuePermitsIsExact(db: Db, sockets: seq<Connection>, ids: map<Id, Id>, undelivered: set<Id>, now: nat)
    requires FreshPermits(db, ids)
    ensures PermitsOffered(db, IssuePermits(db, sockets, ids, undelivered, now), sockets, ids, undelivered, now)
  {
    var cut, reachable := CancelExpiredPermits(db, now), Reachable(Connected(sockets, db.quarantined));
    var candidates := Sorted(SplitCandidates(cut, now), IssueOrder(cut));
    var allowance := PermitAllowance(cut, |OpenSlots(sockets, db.quarantined)|, now);
    CandidatesAreEligible(db, now);
    SlotsAreCounted(sockets, db.quarantined);
    AllowanceIsExact(db, |OpenSlots(sockets, db.quarantined)|, now);
    CutThenOffer(db, candidates, reachable, ids, undelivered, now, allowance);
    assert OfferedTo(db, IssuePermits(db, sockets, ids, undelivered, now), sockets, ids, undelivered, now, candidates, reachable, allowance);
  }
}
