/**
 The browser runtime: worker slots, the outbox of unacknowledged mutations, reconnection, and
 results that finish long after they were started.
 */
module CubeRuntime {
  import opened Wrappers
  import opened Rows
  import opened Seqs

  datatype Phase = IDLE | LOADING | CONNECTING | RUNNING | PAUSED | FINISHED | FAILED

  datatype Purpose = SEARCH | PROOF_FINISHER

  datatype Action = SPLIT | YIELD | RESULT

  datatype Work = Work(task: Id, lease: Id, purpose: Purpose)

  datatype Metrics = Metrics(conflicts: int, decisions: int, propagations: int)

  /** Slots are named by their position. */
  datatype Slot = Slot(
    ready: bool, mode: Purpose, task: Option<Id>, lease: Option<Id>, pendingWork: Option<Work>, pendingMutation: Option<Id>,
    runActiveBaseMs: real, lastActiveMs: real, lastMetrics: Metrics)

  datatype Entry = Entry(id: Id, slot: nat, lease: Id, action: Action)

  datatype Snapshot = Snapshot(
    phase: Phase, activeWorkers: nat, acceptedTasks: nat, completedTasks: nat, splitTasks: nat, yieldedTasks: nat,
    activeComputeMs: real, metrics: Metrics)

  /** `outbox` is in insertion order; `sent` lists the mutations handed to an open socket. */
  datatype State = State(
    snapshot: Snapshot, formula: bool, slots: seq<Slot>, socket: bool, outbox: seq<Entry>, lifecycle: nat, sent: seq<Id>)

  const NO_METRICS := Metrics(0, 0, 0)
  const FRESH_SLOT: Slot := Slot(false, SEARCH, None, None, None, None, 0.0, 0.0, NO_METRICS)

  // ----- building blocks -----

  function FreshSlots(n: nat): (slots: seq<Slot>)
    ensures |slots| == n
  {
    if n == 0 then [] else FreshSlots(n - 1) + [FRESH_SLOT]
  }

  function ActiveCount(slots: seq<Slot>): nat {
    if slots == [] then 0 else ActiveCount(slots[..|slots| - 1]) + if slots[|slots| - 1].task.Some? then 1 else 0
  }

  function Remove(outbox: seq<Entry>, id: Id): seq<Entry> {
    if outbox == [] then []
    else if outbox[|outbox| - 1].id == id then Remove(outbox[..|outbox| - 1], id)
    else Remove(outbox[..|outbox| - 1], id) + [outbox[|outbox| - 1]]
  }

  function Find(outbox: seq<Entry>, id: Id): Option<Entry> {
    if outbox == [] then None
    else if outbox[|outbox| - 1].id == id then Some(outbox[|outbox| - 1])
    else Find(outbox[..|outbox| - 1], id)
  }

  function Ids(outbox: seq<Entry>): seq<Id> {
    seq(|outbox|, i requires 0 <= i < |outbox| => outbox[i].id)
  }

  function SetSlot(s: State, i: nat, slot: Slot): State
    requires i < |s.slots|
  {
    s.(slots := s.slots[i := slot])
  }

  function Refresh(s: State): State {
    s.(snapshot := s.snapshot.(activeWorkers := ActiveCount(s.slots)))
  }

  function Dispose(s: State): State {
    s.(lifecycle := s.lifecycle + 1, socket := false, slots := [], outbox := [], formula := false)
  }

  function End(s: State, phase: Phase): State {
    var d := Dispose(s);
    d.(snapshot := d.snapshot.(phase := phase, activeWorkers := 0))
  }

  function ClearPending(s: State, i: nat): State
    requires i < |s.slots|
  {
    var slot := s.slots[i];
    var cleared := SetSlot(s, i, slot.(pendingMutation := None));
    if slot.pendingMutation.Some? then cleared.(outbox := Remove(s.outbox, slot.pendingMutation.value)) else cleared
  }

  function Release(s: State, i: nat): State
    requires i < |s.slots|
  {
    Refresh(SetSlot(s, i, s.slots[i].(task := None, lease := None, pendingWork := None)))
  }

  function InitializeSlot(s: State, i: nat, mode: Purpose): State {
    if i >= |s.slots| || !s.formula then End(s, FAILED)
    else SetSlot(s, i, s.slots[i].(ready := false, mode := mode, lastMetrics := NO_METRICS))
  }

  function RunTask(s: State, i: nat, work: Work): State
    requires i < |s.slots|
  {
    var slot := s.slots[i].(task := Some(work.task), lease := Some(work.lease), runActiveBaseMs := 0.0, lastActiveMs := 0.0,
                            pendingWork := None);
    var taken := Refresh(SetSlot(s, i, slot));
    var started := taken.(snapshot := taken.snapshot.(acceptedTasks := taken.snapshot.acceptedTasks + 1));
    if work.purpose.PROOF_FINISHER? || slot.mode != work.purpose || !slot.ready
    then InitializeSlot(SetSlot(started, i, slot.(pendingWork := Some(work))), i, work.purpose)
    else started
  }

  function ReplaceWork(s: State, i: nat, work: Work): State
    requires i < |s.slots|
  {
    RunTask(ClearPending(s, i), i, work)
  }

  /** One unacknowledged mutation for each slot. */
  function SendMutation(s: State, i: nat, id: Id, lease: Id, action: Action): State
    requires i < |s.slots|
  {
    if s.slots[i].pendingMutation.Some? then s else
      SetSlot(s, i, s.slots[i].(pendingMutation := Some(id)))
      .(outbox := s.outbox + [Entry(id, i, lease, action)], sent := if s.socket then s.sent + [id] else s.sent)
  }

  function Flush(s: State): State {
    if s.socket then s.(sent := s.sent + Ids(s.outbox)) else s
  }

  // ----- messages from the coordinator -----

  /** What is left of a slot once a pending mutation for another lease is dropped. */
  function Kept(s: State, i: nat, lease: Id): State
    requires i < |s.slots|
  {
    var slot := s.slots[i];
    var pending := if slot.pendingMutation.Some? then Find(s.outbox, slot.pendingMutation.value) else None;
    if pending.Some? && pending.value.lease != lease then ClearPending(s, i) else s
  }

  function WelcomeSlot(s: State, i: nat, actives: map<nat, Work>): State
    requires i < |s.slots|
  {
    if i !in actives then Release(ClearPending(s, i), i)
    else
      var active, slot := actives[i], s.slots[i];
      var kept := Kept(s, i, active.lease);
      if kept.slots[i].pendingMutation.Some? then kept
      else if slot.lease == Some(active.lease) && slot.task == Some(active.task) then kept
      else ReplaceWork(kept, i, active)
  }

  function WelcomeFrom(s: State, i: nat, n: nat, actives: map<nat, Work>): State
    decreases n - i
  {
    if i >= n || i >= |s.slots| then s else WelcomeFrom(WelcomeSlot(s, i, actives), i + 1, n, actives)
  }

  /** Every slot is reconciled with the leases the coordinator lists, then the outbox is sent again. */
  function Welcome(s: State, actives: map<nat, Work>): State {
    Flush(WelcomeFrom(s, 0, |s.slots|, actives))
  }

  function ReceiveWork(s: State, slot: nat, leaseSlot: nat, work: Work): State {
    if slot >= |s.slots| || leaseSlot != slot then End(s, FAILED)
    else if s.slots[slot].lease == Some(work.lease) then s
    else ReplaceWork(s, slot, work)
  }

  function Settle(s: State, i: nat, id: Id): State
    requires i < |s.slots|
  {
    if s.slots[i].pendingMutation == Some(id) then SetSlot(s, i, s.slots[i].(pendingMutation := None)) else s
  }

  function Count(snapshot: Snapshot, action: Action): Snapshot {
    match action
    case SPLIT => snapshot.(splitTasks := snapshot.splitTasks + 1)
    case YIELD => snapshot.(yieldedTasks := snapshot.yieldedTasks + 1)
    case RESULT => snapshot.(completedTasks := snapshot.completedTasks + 1)
  }

  function Acknowledge(s: State, id: Id, action: Action): State {
    var pending := Find(s.outbox, id);
    if pending.None? || pending.value.action != action then s else
      var removed, i := s.(outbox := Remove(s.outbox, id)), pending.value.slot;
      if i >= |s.slots| then removed else
        var released := Release(Settle(removed, i, id), i);
        released.(snapshot := Count(released.snapshot, action))
  }

  datatype Code = SPLIT_NOT_NEEDED | TASK_LIMIT | STALE_LEASE | INVALID_STATE | OTHER

  function MutationError(s: State, id: Option<Id>, code: Code, retryable: bool): State {
    var pending := if id.Some? then Find(s.outbox, id.value) else None;
    if pending.None? then if retryable then s else End(s, FAILED)
    else
      var removed, i := s.(outbox := Remove(s.outbox, id.value)), pending.value.slot;
      if i >= |s.slots| then removed else
        var settled := Settle(removed, i, id.value);
        if pending.value.action.SPLIT? && (code.SPLIT_NOT_NEEDED? || code.TASK_LIMIT?)
        then SetSlot(settled, i, settled.slots[i].(runActiveBaseMs := settled.slots[i].lastActiveMs))
        else
          var released := Release(settled, i);
          if !retryable && !code.STALE_LEASE? && !code.INVALID_STATE? then End(released, FAILED) else released
  }

  // ----- messages from workers -----

  function MaxReal(a: real, b: real): real {
    if a < b then b else a
  }

  function Later(a: Metrics, b: Metrics): Metrics {
    Metrics(Max(a.conflicts, b.conflicts), Max(a.decisions, b.decisions), Max(a.propagations, b.propagations))
  }

  function Gained(total: Metrics, before: Metrics, now: Metrics): Metrics {
    Metrics(total.conflicts + Max(0, now.conflicts - before.conflicts),
            total.decisions + Max(0, now.decisions - before.decisions),
            total.propagations + Max(0, now.propagations - before.propagations))
  }

  function RecordTelemetry(s: State, i: nat, activeMs: real, metrics: Metrics): State
    requires i < |s.slots|
  {
    var slot, snapshot := s.slots[i], s.snapshot;
    SetSlot(s, i, slot.(lastActiveMs := MaxReal(slot.lastActiveMs, activeMs), lastMetrics := Later(slot.lastMetrics, metrics)))
    .(snapshot := snapshot.(activeComputeMs := snapshot.activeComputeMs + MaxReal(0.0, activeMs - slot.lastActiveMs),
                            metrics := Gained(snapshot.metrics, slot.lastMetrics, metrics)))
  }

  function Connect(s: State): State {
    if s.socket || !(s.snapshot.phase.LOADING? || s.snapshot.phase.CONNECTING? || s.snapshot.phase.RUNNING?) then s
    else s.(socket := true, snapshot := s.snapshot.(phase := CONNECTING))
  }

  function WorkerReady(s: State, i: nat): State {
    if i >= |s.slots| then s else
      var ready := SetSlot(s, i, s.slots[i].(ready := true));
      if s.slots[i].pendingWork.Some? then SetSlot(ready, i, ready.slots[i].(pendingWork := None))
      else if forall k :: 0 <= k < |ready.slots| ==> ready.slots[k].ready then Connect(ready)
      else ready
  }

  /** A report counts only while its slot still holds the task and the lease it names. */
  predicate Holds(s: State, i: nat, task: Id, lease: Id) {
    i < |s.slots| && s.slots[i].task == Some(task) && s.slots[i].lease == Some(lease)
  }

  datatype Report = Report(slot: nat, task: Id, lease: Id, activeMs: real, metrics: Metrics)

  function Progress(s: State, r: Report): State {
    if Holds(s, r.slot, r.task, r.lease)
    then RecordTelemetry(s, r.slot, s.slots[r.slot].runActiveBaseMs + r.activeMs, r.metrics) else s
  }

  function Mutate(s: State, r: Report, action: Action, id: Id): State {
    if Holds(s, r.slot, r.task, r.lease) then SendMutation(Progress(s, r), r.slot, id, r.lease, action) else s
  }

  /** What an unfinished result handler remembers. */
  datatype Unfinished = Unfinished(slot: nat, task: Id, lease: Id, lifecycle: nat)

  predicate IsCurrent(s: State, u: Unfinished) {
    s.lifecycle == u.lifecycle && Holds(s, u.slot, u.task, u.lease)
  }

  /** The last resumption of a result: its evidence was uploaded, or that failed. */
  function FinishResult(s: State, u: Unfinished, uploaded: bool, id: Id): State {
    if !IsCurrent(s, u) then s
    else if !uploaded then End(s, FAILED)
    else SendMutation(s, u.slot, id, u.lease, RESULT)
  }

  // ----- lifecycle -----

  function CreateSlots(s: State, capacity: nat): State {
    if !s.formula || s.slots != [] then s else s.(slots := FreshSlots(capacity))
  }

  function StartRuntime(s: State, capacity: nat): State {
    if !(s.snapshot.phase.IDLE? || s.snapshot.phase.PAUSED? || s.snapshot.phase.FAILED?) then s
    else if s.snapshot.phase.PAUSED? && s.formula then
      CreateSlots(s.(lifecycle := s.lifecycle + 1, snapshot := s.snapshot.(phase := LOADING)), capacity)
    else
      var d := Dispose(s);
      d.(snapshot := d.snapshot.(phase := LOADING))
  }

  function FormulaLoaded(s: State, lifecycle: nat, capacity: nat): State {
    if lifecycle != s.lifecycle || !s.snapshot.phase.LOADING? then s else CreateSlots(s.(formula := true), capacity)
  }

  function Pause(s: State): State {
    if !(s.snapshot.phase.LOADING? || s.snapshot.phase.CONNECTING? || s.snapshot.phase.RUNNING?) then s
    else s.(lifecycle := s.lifecycle + 1, slots := [], outbox := [], socket := false,
            snapshot := s.snapshot.(phase := PAUSED, activeWorkers := 0))
  }

  // ----- the outbox invariant -----

  ghost predicate Distinct(outbox: seq<Entry>) {
    forall a, b :: 0 <= a < b < |outbox| ==> outbox[a].id != outbox[b].id
  }

  /** Every entry is the pending mutation of its slot, for the lease that slot still holds; and conversely. */
  ghost predicate OutboxOk(s: State) {
    && Distinct(s.outbox)
    && (forall e :: e in s.outbox ==>
          e.slot < |s.slots| && s.slots[e.slot].pendingMutation == Some(e.id) && s.slots[e.slot].lease == Some(e.lease))
    && (forall i :: 0 <= i < |s.slots| && s.slots[i].pendingMutation.Some? ==>
          exists e :: e in s.outbox && e.slot == i && e.id == s.slots[i].pendingMutation.value)
  }

  predicate Inactive(phase: Phase) {
    phase.IDLE? || phase.PAUSED? || phase.FINISHED? || phase.FAILED?
  }

  ghost predicate RuntimeOk(s: State) {
    && OutboxOk(s)
    && (Inactive(s.snapshot.phase) ==> s.slots == [])
    && (s.slots != [] ==> s.formula)
    && (forall i :: 0 <= i < |s.slots| ==> (s.slots[i].task.Some? <==> s.slots[i].lease.Some?))
    && s.snapshot.activeWorkers == ActiveCount(s.slots)
  }

  lemma {:induction false} RemoveIs(outbox: seq<Entry>, id: Id)
    ensures forall e :: e in Remove(outbox, id) <==> e in outbox && e.id != id
    ensures Distinct(outbox) ==> Distinct(Remove(outbox, id))
  {
    if outbox != [] {
      var init, last := outbox[..|outbox| - 1], outbox[|outbox| - 1];
      RemoveIs(init, id);
      assert outbox == init + [last];
      if Distinct(outbox) && last.id != id {
        var rest := Remove(init, id);
        forall a | 0 <= a < |rest| ensures rest[a].id != last.id {
          assert rest[a] in init;
          var b :| 0 <= b < |init| && init[b] == rest[a];
          assert outbox[b].id != outbox[|outbox| - 1].id;
        }
      }
    }
  }

  lemma {:induction false} FindIs(outbox: seq<Entry>, id: Id)
    ensures Find(outbox, id).Some? ==> Find(outbox, id).value in outbox && Find(outbox, id).value.id == id
    ensures Find(outbox, id).None? ==> forall e :: e in outbox ==> e.id != id
  {
    if outbox != [] {
      FindIs(outbox[..|outbox| - 1], id);
      assert outbox == outbox[..|outbox| - 1] + [outbox[|outbox| - 1]];
    }
  }

  lemma {:induction false} CountUpdate(slots: seq<Slot>, i: nat, slot: Slot)
    requires i < |slots| && (slot.task.Some? <==> slots[i].task.Some?)
    ensures ActiveCount(slots[i := slot]) == ActiveCount(slots)
  {
    if i == |slots| - 1 {
      assert slots[i := slot][..i] == slots[..i];
    } else {
      CountUpdate(slots[..|slots| - 1], i, slot);
      assert slots[i := slot][..|slots| - 1] == slots[..|slots| - 1][i := slot];
    }
  }

  /** The slot that changes loses its own entry, if it had one; the others keep theirs. */
  lemma OutboxWithout(s: State, i: nat, slot: Slot, outbox: seq<Entry>)
    requires OutboxOk(s) && i < |s.slots| && slot.pendingMutation.None? && Distinct(outbox)
    requires forall e :: e in outbox <==> e in s.outbox && s.slots[i].pendingMutation != Some(e.id)
    ensures OutboxOk(SetSlot(s, i, slot).(outbox := outbox))
  {
    var s' := SetSlot(s, i, slot).(outbox := outbox);
    forall k | 0 <= k < |s'.slots| && s'.slots[k].pendingMutation.Some?
      ensures exists e :: e in s'.outbox && e.slot == k && e.id == s'.slots[k].pendingMutation.value
    {
      var e :| e in s.outbox && e.slot == k && e.id == s.slots[k].pendingMutation.value;
      assert e in s'.outbox;
    }
  }

  lemma SameEntry(outbox: seq<Entry>, a: Entry, b: Entry)
    requires Distinct(outbox) && a in outbox && b in outbox && a.id == b.id
    ensures a == b
  {
    var i :| 0 <= i < |outbox| && outbox[i] == a;
    var j :| 0 <= j < |outbox| && outbox[j] == b;
    assert i == j;
  }

  lemma ClearPendingOk(s: State, i: nat)
    requires RuntimeOk(s) && i < |s.slots|
    ensures RuntimeOk(ClearPending(s, i)) && ClearPending(s, i).slots[i].pendingMutation.None?
    ensures forall e :: e in ClearPending(s, i).outbox <==> e in s.outbox && e.slot != i
  {
    var slot := s.slots[i].(pendingMutation := None);
    CountUpdate(s.slots, i, slot);
    if s.slots[i].pendingMutation.Some? {
      RemoveIs(s.outbox, s.slots[i].pendingMutation.value);
      forall e | e in s.outbox && e.id == s.slots[i].pendingMutation.value ensures e.slot == i {
        var own :| own in s.outbox && own.slot == i && own.id == s.slots[i].pendingMutation.value;
        SameEntry(s.outbox, e, own);
      }
    }
    OutboxWithout(s, i, slot, ClearPending(s, i).outbox);
  }

  /** A slot with nothing pending may change its work freely. */
  lemma WorkChangeOk(s: State, i: nat, slot: Slot)
    requires RuntimeOk(s) && i < |s.slots| && s.slots[i].pendingMutation.None? && slot.pendingMutation.None?
    requires slot.task.Some? <==> slot.lease.Some?
    ensures RuntimeOk(Refresh(SetSlot(s, i, slot)))
  {
    assert forall e :: e in s.outbox ==> s.slots[i].pendingMutation != Some(e.id);
    OutboxWithout(s, i, slot, s.outbox);
  }

  lemma ReleaseOk(s: State, i: nat)
    requires RuntimeOk(s) && i < |s.slots| && s.slots[i].pendingMutation.None?
    ensures RuntimeOk(Release(s, i))
  {
    WorkChangeOk(s, i, s.slots[i].(task := None, lease := None, pendingWork := None));
  }

  /** Changes that touch neither work nor the pending mutation. */
  lemma DetailChangeOk(s: State, i: nat, slot: Slot, snapshot: Snapshot)
    requires RuntimeOk(s) && i < |s.slots| && snapshot.activeWorkers == s.snapshot.activeWorkers && !Inactive(snapshot.phase)
    requires slot.task == s.slots[i].task && slot.lease == s.slots[i].lease && slot.pendingMutation == s.slots[i].pendingMutation
    ensures RuntimeOk(SetSlot(s, i, slot).(snapshot := snapshot))
  {
    CountUpdate(s.slots, i, slot);
    var s' := SetSlot(s, i, slot).(snapshot := snapshot);
    forall k | 0 <= k < |s'.slots| && s'.slots[k].pendingMutation.Some?
      ensures exists e :: e in s'.outbox && e.slot == k && e.id == s'.slots[k].pendingMutation.value
    {
      var e :| e in s.outbox && e.slot == k && e.id == s.slots[k].pendingMutation.value;
      assert e in s'.outbox;
    }
  }

  lemma RunTaskOk(s: State, i: nat, work: Work)
    requires RuntimeOk(s) && i < |s.slots| && s.slots[i].pendingMutation.None?
    ensures var s' := RunTask(s, i, work);
      RuntimeOk(s') && |s'.slots| == |s.slots| && s'.slots[i].lease == Some(work.lease) && s'.slots[i].pendingMutation.None?
    ensures forall k :: 0 <= k < |s.slots| && k != i ==> RunTask(s, i, work).slots[k] == s.slots[k]
  {
    var slot := s.slots[i].(task := Some(work.task), lease := Some(work.lease), runActiveBaseMs := 0.0, lastActiveMs := 0.0,
                            pendingWork := None);
    var after := RunTask(s, i, work).slots[i];
    var base := Refresh(SetSlot(s, i, after));
    WorkChangeOk(s, i, after);
    SnapshotOk(base, base.snapshot.(acceptedTasks := base.snapshot.acceptedTasks + 1));
    CountUpdate(s.slots[i := slot], i, after);
    assert s.slots[i := slot][i := after] == s.slots[i := after];
    assert RunTask(s, i, work) == base.(snapshot := base.snapshot.(acceptedTasks := base.snapshot.acceptedTasks + 1));
  }

  lemma SendMutationOk(s: State, i: nat, id: Id, lease: Id, action: Action)
    requires RuntimeOk(s) && i < |s.slots| && s.slots[i].lease == Some(lease) && forall e :: e in s.outbox ==> e.id != id
    ensures RuntimeOk(SendMutation(s, i, id, lease, action))
  {
    if s.slots[i].pendingMutation.None? {
      var s' := SendMutation(s, i, id, lease, action);
      CountUpdate(s.slots, i, s'.slots[i]);
      assert Entry(id, i, lease, action) in s'.outbox;
      forall e | e in s.outbox ensures e.slot != i {
        assert s.slots[e.slot].pendingMutation == Some(e.id);
      }
      forall k | 0 <= k < |s'.slots| && s'.slots[k].pendingMutation.Some?
        ensures exists e :: e in s'.outbox && e.slot == k && e.id == s'.slots[k].pendingMutation.value
      {
        if k != i {
          var e :| e in s.outbox && e.slot == k && e.id == s.slots[k].pendingMutation.value;
          assert e in s'.outbox;
        }
      }
    }
  }

  // ----- reconnection -----

  /** The slot holds exactly the lease the coordinator lists for it, or none. */
  predicate Agrees(s: State, i: nat, actives: map<nat, Work>) {
    i < |s.slots| && s.slots[i].lease == if i in actives then Some(actives[i].lease) else None
  }

  lemma PendingLease(s: State, i: nat)
    requires OutboxOk(s) && i < |s.slots| && s.slots[i].pendingMutation.Some?
    ensures var found := Find(s.outbox, s.slots[i].pendingMutation.value);
      found.Some? && found.value.slot == i && s.slots[i].lease == Some(found.value.lease)
  {
    var id := s.slots[i].pendingMutation.value;
    var own :| own in s.outbox && own.slot == i && own.id == id;
    FindIs(s.outbox, id);
    SameEntry(s.outbox, own, Find(s.outbox, id).value);
  }

  lemma KeptOk(s: State, i: nat, lease: Id)
    requires RuntimeOk(s) && i < |s.slots|
    ensures var kept := Kept(s, i, lease);
      && RuntimeOk(kept) && |kept.slots| == |s.slots| && kept.slots[i].lease == s.slots[i].lease
      && kept.slots[i].task == s.slots[i].task && (kept.slots[i].pendingMutation.Some? ==> s.slots[i].lease == Some(lease))
      && forall k :: 0 <= k < |s.slots| && k != i ==> kept.slots[k] == s.slots[k]
  {
    if s.slots[i].pendingMutation.Some? {
      PendingLease(s, i);
      ClearPendingOk(s, i);
    }
  }

  lemma ReplaceWorkOk(s: State, i: nat, work: Work)
    requires RuntimeOk(s) && i < |s.slots|
    ensures var s' := ReplaceWork(s, i, work);
      && RuntimeOk(s') && |s'.slots| == |s.slots| && s'.slots[i].lease == Some(work.lease)
      && forall k :: 0 <= k < |s.slots| && k != i ==> s'.slots[k] == s.slots[k]
  {
    ClearPendingOk(s, i);
    RunTaskOk(ClearPending(s, i), i, work);
  }

  lemma WelcomeSlotOk(s: State, i: nat, actives: map<nat, Work>)
    requires RuntimeOk(s) && i < |s.slots|
    ensures var s' := WelcomeSlot(s, i, actives);
      && RuntimeOk(s') && |s'.slots| == |s.slots| && Agrees(s', i, actives)
      && forall k :: 0 <= k < |s.slots| && k != i ==> s'.slots[k] == s.slots[k]
  {
    if i !in actives {
      ClearPendingOk(s, i);
      ReleaseOk(ClearPending(s, i), i);
    } else {
      KeptOk(s, i, actives[i].lease);
      ReplaceWorkOk(Kept(s, i, actives[i].lease), i, actives[i]);
    }
  }

  lemma {:induction false} WelcomeFromOk(s: State, i: nat, n: nat, actives: map<nat, Work>)
    requires RuntimeOk(s) && i <= n == |s.slots| && forall k: nat :: k < i ==> Agrees(s, k, actives)
    ensures var s' := WelcomeFrom(s, i, n, actives);
      RuntimeOk(s') && |s'.slots| == n && forall k: nat :: k < n ==> Agrees(s', k, actives)
    decreases n - i
  {
    if i < n {
      WelcomeSlotOk(s, i, actives);
      forall k: nat | k < i + 1 ensures Agrees(WelcomeSlot(s, i, actives), k, actives) {
        assert k < i ==> Agrees(s, k, actives);
      }
      WelcomeFromOk(WelcomeSlot(s, i, actives), i + 1, n, actives);
    }
  }

  /**
   After a reconnection every slot holds exactly the lease the coordinator lists for it, every mutation
   still in the outbox is for such a lease, and each is sent again once, in its original order.
   */
  lemma WelcomeReconciles(s: State, actives: map<nat, Work>)
    requires RuntimeOk(s)
    ensures var s' := Welcome(s, actives);
      && RuntimeOk(s') && |s'.slots| == |s.slots| && (forall k: nat :: k < |s.slots| ==> Agrees(s', k, actives))
      && (forall e :: e in s'.outbox ==> e.slot in actives && actives[e.slot].lease == e.lease)
      && (s'.socket ==> s'.sent == WelcomeFrom(s, 0, |s.slots|, actives).sent + Ids(s'.outbox))
  {
    WelcomeFromOk(s, 0, |s.slots|, actives);
    var before, s' := WelcomeFrom(s, 0, |s.slots|, actives), Welcome(s, actives);
    forall k: nat | k < |s.slots| ensures Agrees(s', k, actives) {
      assert Agrees(before, k, actives);
    }
    forall i | 0 <= i < |s'.slots| && s'.slots[i].pendingMutation.Some?
      ensures exists e :: e in s'.outbox && e.slot == i && e.id == s'.slots[i].pendingMutation.value
    {
      var e :| e in before.outbox && e.slot == i && e.id == before.slots[i].pendingMutation.value;
      assert e in s'.outbox;
    }
    forall e | e in s'.outbox ensures e.slot in actives && actives[e.slot].lease == e.lease {
      assert Agrees(s', e.slot, actives);
    }
  }

  // ----- every event -----

  datatype Event =
    | Welcomed(actives: map<nat, Work>)
    | WorkArrived(slot: nat, leaseSlot: nat, work: Work)
    | Acknowledged(request: Id, action: Action)
    | Refused(failed: Option<Id>, code: Code, retryable: bool)
    | JobEnded
    | SlotReady(readySlot: nat)
    | WorkerFailed
    | Progressed(report: Report)
    | Mutated(mutation: Report, kind: Action, message: Id)
    | ResultFinished(unfinished: Unfinished, uploaded: bool, resultMessage: Id)
    | Started(capacity: nat)
    | Loaded(forLifecycle: nat, withCapacity: nat)
    | Paused
    | Stopped
    | SocketChanged(connected: bool)

  function Step(s: State, e: Event): State {
    match e
    case Welcomed(actives) => Welcome(s, actives)
    case WorkArrived(slot, leaseSlot, work) => ReceiveWork(s, slot, leaseSlot, work)
    case Acknowledged(id, action) => Acknowledge(s, id, action)
    case Refused(id, code, retryable) => MutationError(s, id, code, retryable)
    case JobEnded => End(s, FINISHED)
    case SlotReady(i) => WorkerReady(s, i)
    case WorkerFailed => End(s, FAILED)
    case Progressed(r) => Progress(s, r)
    case Mutated(r, action, id) => Mutate(s, r, action, id)
    case ResultFinished(u, uploaded, id) => FinishResult(s, u, uploaded, id)
    case Started(capacity) => StartRuntime(s, capacity)
    case Loaded(lifecycle, capacity) => FormulaLoaded(s, lifecycle, capacity)
    case Paused => Pause(s)
    case Stopped => End(s, IDLE)
    case SocketChanged(connected) =>
      s.(snapshot := s.snapshot.(phase := if connected then RUNNING else CONNECTING))
  }

  /** Message identifiers are fresh. */
  ghost predicate Enabled(s: State, e: Event) {
    && (e.Mutated? ==> forall x :: x in s.outbox ==> x.id != e.message)
    && (e.ResultFinished? ==> forall x :: x in s.outbox ==> x.id != e.resultMessage)
  }

  /** Taking an entry out of the outbox and clearing its slot leaves the rest as it was. */
  lemma SettledOk(s: State, id: Id)
    requires RuntimeOk(s) && Find(s.outbox, id).Some?
    ensures var i := Find(s.outbox, id).value.slot;
      i < |s.slots| && s.slots[i].pendingMutation == Some(id) &&
      Settle(s.(outbox := Remove(s.outbox, id)), i, id) == ClearPending(s, i)
  {
    FindIs(s.outbox, id);
  }

  lemma AcknowledgeOk(s: State, id: Id, action: Action)
    requires RuntimeOk(s)
    ensures RuntimeOk(Acknowledge(s, id, action))
  {
    var pending := Find(s.outbox, id);
    if pending.Some? && pending.value.action == action {
      var i := pending.value.slot;
      SettledOk(s, id);
      ClearPendingOk(s, i);
      ReleaseOk(ClearPending(s, i), i);
      SnapshotOk(Release(ClearPending(s, i), i), Count(Release(ClearPending(s, i), i).snapshot, action));
    }
  }

  lemma SnapshotOk(s: State, snapshot: Snapshot)
    requires RuntimeOk(s) && snapshot.activeWorkers == s.snapshot.activeWorkers && (Inactive(snapshot.phase) ==> s.slots == [])
    ensures RuntimeOk(s.(snapshot := snapshot))
  {
    var s' := s.(snapshot := snapshot);
    forall i | 0 <= i < |s'.slots| && s'.slots[i].pendingMutation.Some?
      ensures exists e :: e in s'.outbox && e.slot == i && e.id == s'.slots[i].pendingMutation.value
    {
      var e :| e in s.outbox && e.slot == i && e.id == s.slots[i].pendingMutation.value;
      assert e in s'.outbox;
    }
  }

  lemma MutationErrorOk(s: State, id: Option<Id>, code: Code, retryable: bool)
    requires RuntimeOk(s)
    ensures RuntimeOk(MutationError(s, id, code, retryable))
  {
    if id.Some? && Find(s.outbox, id.value).Some? {
      var i := Find(s.outbox, id.value).value.slot;
      SettledOk(s, id.value);
      ClearPendingOk(s, i);
      var cleared := ClearPending(s, i);
      ReleaseOk(cleared, i);
      DetailChangeOk(cleared, i, cleared.slots[i].(runActiveBaseMs := cleared.slots[i].lastActiveMs), cleared.snapshot);
    }
  }

  lemma WorkerReadyOk(s: State, i: nat)
    requires RuntimeOk(s)
    ensures RuntimeOk(WorkerReady(s, i))
  {
    if i < |s.slots| {
      var ready := SetSlot(s, i, s.slots[i].(ready := true));
      assert SetSlot(ready, i, ready.slots[i].(pendingWork := None)) == SetSlot(s, i, s.slots[i].(ready := true, pendingWork := None));
      DetailChangeOk(s, i, s.slots[i].(ready := true, pendingWork := None), s.snapshot);
      DetailChangeOk(s, i, s.slots[i].(ready := true), s.snapshot);
      DetailChangeOk(s, i, s.slots[i].(ready := true), s.snapshot.(phase := CONNECTING));
    }
  }

  lemma ReceiveWorkOk(s: State, slot: nat, leaseSlot: nat, work: Work)
    requires RuntimeOk(s)
    ensures RuntimeOk(ReceiveWork(s, slot, leaseSlot, work))
  {
    if slot < |s.slots| {
      ReplaceWorkOk(s, slot, work);
    }
  }

  lemma ProgressOk(s: State, r: Report)
    requires RuntimeOk(s)
    ensures RuntimeOk(Progress(s, r)) && Progress(s, r).outbox == s.outbox
    ensures Holds(s, r.slot, r.task, r.lease) ==> Holds(Progress(s, r), r.slot, r.task, r.lease)
  {
    if Holds(s, r.slot, r.task, r.lease) {
      var s' := Progress(s, r);
      DetailChangeOk(s, r.slot, s'.slots[r.slot], s'.snapshot);
    }
  }

  lemma {:induction false} FreshCount(n: nat)
    ensures ActiveCount(FreshSlots(n)) == 0
    ensures forall i :: 0 <= i < n ==> FreshSlots(n)[i] == FRESH_SLOT
  {
    if n > 0 {
      FreshCount(n - 1);
      assert FreshSlots(n)[..n - 1] == FreshSlots(n - 1);
    }
  }

  lemma MutateOk(s: State, r: Report, action: Action, id: Id)
    requires RuntimeOk(s) && forall x :: x in s.outbox ==> x.id != id
    ensures RuntimeOk(Mutate(s, r, action, id))
  {
    ProgressOk(s, r);
    if Holds(s, r.slot, r.task, r.lease) {
      SendMutationOk(Progress(s, r), r.slot, id, r.lease, action);
    }
  }

  lemma FinishResultOk(s: State, u: Unfinished, uploaded: bool, id: Id)
    requires RuntimeOk(s) && forall x :: x in s.outbox ==> x.id != id
    ensures RuntimeOk(FinishResult(s, u, uploaded, id))
  {
    if IsCurrent(s, u) {
      SendMutationOk(s, u.slot, id, u.lease, RESULT);
    }
  }

  lemma StartOk(s: State, capacity: nat)
    requires RuntimeOk(s)
    ensures RuntimeOk(StartRuntime(s, capacity))
  {
    FreshCount(capacity);
  }

  lemma LoadedOk(s: State, lifecycle: nat, capacity: nat)
    requires RuntimeOk(s)
    ensures RuntimeOk(FormulaLoaded(s, lifecycle, capacity))
  {
    FreshCount(capacity);
    if s.slots != [] {
      assert s.(formula := true) == s;
    }
  }

  lemma EndOk(s: State, phase: Phase)
    ensures RuntimeOk(End(s, phase))
  {
  }

  lemma PauseOk(s: State)
    requires RuntimeOk(s)
    ensures RuntimeOk(Pause(s))
  {
  }

  lemma StepKeeps(s: State, e: Event)
    requires RuntimeOk(s) && Enabled(s, e)
    ensures RuntimeOk(Step(s, e))
  {
    match e {
      case Welcomed(actives) => WelcomeReconciles(s, actives);
      case WorkArrived(slot, leaseSlot, work) => ReceiveWorkOk(s, slot, leaseSlot, work);
      case Acknowledged(id, action) => AcknowledgeOk(s, id, action);
      case Refused(id, code, retryable) => MutationErrorOk(s, id, code, retryable);
      case SlotReady(i) => WorkerReadyOk(s, i);
      case Progressed(r) => ProgressOk(s, r);
      case Mutated(r, action, id) => MutateOk(s, r, action, id);
      case ResultFinished(u, uploaded, id) => FinishResultOk(s, u, uploaded, id);
      case Started(capacity) => StartOk(s, capacity);
      case Loaded(lifecycle, capacity) => LoadedOk(s, lifecycle, capacity);
      case SocketChanged(connected) => SnapshotOk(s, s.snapshot.(phase := if connected then RUNNING else CONNECTING));
      case JobEnded => EndOk(s, FINISHED);
      case WorkerFailed => EndOk(s, FAILED);
      case Stopped => EndOk(s, IDLE);
      case Paused => PauseOk(s);
    }
  }

  const NOTHING := State(Snapshot(IDLE, 0, 0, 0, 0, 0, 0.0, NO_METRICS), false, [], false, [], 0, [])

  ghost predicate Follows(s: State, e: Event, s': State) {
    Enabled(s, e) && s' == Step(s, e)
  }

  ghost predicate Run(trace: seq<State>, events: seq<Event>) {
    && |trace| == |events| + 1 && trace[0] == NOTHING
    && forall i {:trigger Follows(trace[i], events[i], trace[i + 1])} :: 0 <= i < |events| ==> Follows(trace[i], events[i], trace[i + 1])
  }

  /**
   In every reachable state the outbox holds exactly the slots' pending mutations, at most one for each
   slot, each for the lease its slot still holds.
   */
  lemma {:induction false} OutboxIsConsistent(trace: seq<State>, events: seq<Event>, n: nat)
    requires Run(trace, events) && n < |trace|
    ensures RuntimeOk(trace[n])
    ensures forall a, b :: a in trace[n].outbox && b in trace[n].outbox && a.slot == b.slot ==> a == b
  {
    if n > 0 {
      OutboxIsConsistent(trace, events, n - 1);
      var k := n - 1;
      assert Follows(trace[k], events[k], trace[k + 1]);
      StepKeeps(trace[n - 1], events[n - 1]);
    }
    forall a, b | a in trace[n].outbox && b in trace[n].outbox && a.slot == b.slot ensures a == b {
      SameEntry(trace[n].outbox, a, b);
    }
  }

  /** Slots are given up only together with the lifecycle they belong to. */
  ghost predicate Grows(s: State, s': State) {
    s'.lifecycle >= s.lifecycle && (s'.slots == [] && s.slots != [] ==> s'.lifecycle > s.lifecycle)
  }

  lemma RepliesGrow(s: State, id: Id, action: Action, failed: Option<Id>, code: Code, retryable: bool)
    ensures Grows(s, Acknowledge(s, id, action)) && Grows(s, MutationError(s, failed, code, retryable))
  {
  }

  lemma LifecycleOnlyGrows(s: State, e: Event)
    ensures Grows(s, Step(s, e))
  {
    match e {
      case Welcomed(actives) => WelcomeLifecycle(s, 0, |s.slots|, actives);
      case WorkArrived(slot, leaseSlot, work) =>
        if slot < |s.slots| {
          ReplaceLifecycle(s, slot, work);
        }
      case Acknowledged(id, action) => RepliesGrow(s, id, action, None, OTHER, false);
      case Refused(id, code, retryable) => RepliesGrow(s, Id(0), SPLIT, id, code, retryable);
      case _ =>
    }
  }

  lemma {:induction false} LifecycleAfterEmpty(trace: seq<State>, events: seq<Event>, a: nat, b: nat)
    requires Run(trace, events) && a <= b < |trace| && trace[a].slots != []
    ensures trace[b].lifecycle >= trace[a].lifecycle
    ensures (exists m :: a <= m <= b && trace[m].slots == []) ==> trace[b].lifecycle > trace[a].lifecycle
    decreases b
  {
    if a < b {
      LifecycleAfterEmpty(trace, events, a, b - 1);
      var k := b - 1;
      assert Follows(trace[k], events[k], trace[k + 1]);
      LifecycleOnlyGrows(trace[b - 1], events[b - 1]);
    }
  }

  /**
   A result begun before the slots were given up, by a pause, a stop, a failure or the job's end, never
   has any effect again, even after the runtime restarted with the same slots and leases.
   */
  lemma StoppedResultsStayDropped(trace: seq<State>, events: seq<Event>, a: nat, m: nat, b: nat, u: Unfinished, uploaded: bool, id: Id)
    requires Run(trace, events) && a <= m <= b < |trace| && trace[a].slots != [] && trace[m].slots == []
    requires u.lifecycle == trace[a].lifecycle
    ensures FinishResult(trace[b], u, uploaded, id) == trace[b]
  {
    LifecycleAfterEmpty(trace, events, a, b);
  }

  /**
   A result begun in state `a` is put into the outbox by step `b` only if the slots were never given up
   in between and its slot then has the same task and the same lease, with nothing else pending.
   */
  lemma LateResultsAreDropped(trace: seq<State>, events: seq<Event>, a: nat, b: nat, u: Unfinished, uploaded: bool, id: Id, e: Entry)
    requires Run(trace, events) && a <= b < |events| && events[b] == ResultFinished(u, uploaded, id)
    requires u.lifecycle == trace[a].lifecycle && Holds(trace[a], u.slot, u.task, u.lease)
    requires e in trace[b + 1].outbox && e !in trace[b].outbox
    ensures uploaded && e == Entry(id, u.slot, u.lease, RESULT)
    ensures forall m :: a <= m <= b ==> trace[m].lifecycle == trace[a].lifecycle && trace[m].slots != []
    ensures Holds(trace[b], u.slot, u.task, u.lease) && trace[b].slots[u.slot].pendingMutation.None?
  {
    assert Follows(trace[b], events[b], trace[b + 1]);
    assert IsCurrent(trace[b], u);
    forall m | a <= m <= b ensures trace[m].lifecycle == trace[a].lifecycle && trace[m].slots != [] {
      LifecycleAfterEmpty(trace, events, a, b);
      LifecycleAfterEmpty(trace, events, a, m);
      LifecycleAfterEmpty(trace, events, m, b);
    }
  }

  lemma WelcomeSlotLifecycle(s: State, i: nat, actives: map<nat, Work>)
    requires i < |s.slots|
    ensures var s' := WelcomeSlot(s, i, actives);
      s'.lifecycle >= s.lifecycle && (s'.slots == [] ==> s'.lifecycle > s.lifecycle)
  {
    if i in actives {
      ReplaceLifecycle(Kept(s, i, actives[i].lease), i, actives[i]);
    }
  }

  lemma ReplaceLifecycle(s: State, i: nat, work: Work)
    requires i < |s.slots|
    ensures ReplaceWork(s, i, work).lifecycle >= s.lifecycle
    ensures ReplaceWork(s, i, work).slots == [] ==> ReplaceWork(s, i, work).lifecycle > s.lifecycle
  {
  }

  lemma {:induction false} WelcomeLifecycle(s: State, i: nat, n: nat, actives: map<nat, Work>)
    ensures var s' := WelcomeFrom(s, i, n, actives);
      s'.lifecycle >= s.lifecycle && (s'.slots == [] && s.slots != [] ==> s'.lifecycle > s.lifecycle)
    decreases n - i
  {
    if i < n && i < |s.slots| {
      WelcomeSlotLifecycle(s, i, actives);
      WelcomeLifecycle(WelcomeSlot(s, i, actives), i + 1, n, actives);
    }
  }

  /**
   A report adds to the totals exactly what it adds to the high-water marks of its slot, so each millisecond
   and each conflict, decision and propagation counts once: late, smaller or repeated reports add nothing.
   */
  lemma TelemetryCountsOnce(s: State, r: Report)
    requires Holds(s, r.slot, r.task, r.lease)
    ensures var s' := Progress(s, r);
      var before, after, counted, now := s.slots[r.slot], s'.slots[r.slot], s.snapshot.metrics, s'.snapshot.metrics;
      && after.lastActiveMs >= before.lastActiveMs
      && s'.snapshot.activeComputeMs - s.snapshot.activeComputeMs == after.lastActiveMs - before.lastActiveMs
      && now.conflicts - counted.conflicts == after.lastMetrics.conflicts - before.lastMetrics.conflicts >= 0
      && now.decisions - counted.decisions == after.lastMetrics.decisions - before.lastMetrics.decisions >= 0
      && now.propagations - counted.propagations == after.lastMetrics.propagations - before.lastMetrics.propagations >= 0
      && (before.runActiveBaseMs + r.activeMs <= before.lastActiveMs ==> s'.snapshot.activeComputeMs == s.snapshot.activeComputeMs)
      && (NoMore(r.metrics, before.lastMetrics) ==> now == counted)
      && Progress(s', r) == s'
  {
    var s' := Progress(s, r);
    assert Holds(s', r.slot, r.task, r.lease);
    assert Progress(s', r).slots == s'.slots;
  }

  predicate NoMore(a: Metrics, b: Metrics) {
    a.conflicts <= b.conflicts && a.decisions <= b.decisions && a.propagations <= b.propagations
  }

  // ----- the runtime object -----

  ghost predicate Unsent(outbox: seq<Entry>, id: Id) {
    forall e :: e in outbox ==> e.id != id
  }

  class DistributedCubeRuntime {
    const capacity: nat
    var snapshot: Snapshot
    var formula: bool
    var slots: seq<Slot>
    var socket: bool
    var outbox: seq<Entry>
    var lifecycle: nat
    var sent: seq<Id>

    ghost function Current(): State
      reads this
    {
      State(snapshot, formula, slots, socket, outbox, lifecycle, sent)
    }

    constructor (capacity: nat)
      ensures Current() == NOTHING && this.capacity == capacity
    {
      this.capacity := capacity;
      snapshot := Snapshot(IDLE, 0, 0, 0, 0, 0, 0.0, NO_METRICS);
      formula, slots, socket, outbox, lifecycle, sent := false, [], false, [], 0, [];
    }

    method RefreshActiveWorkers()
      modifies this`snapshot
      ensures Current() == Refresh(old(Current()))
    {
      var count := 0;
      for i := 0 to |slots|
        invariant count == ActiveCount(slots[..i]) && Current() == old(Current())
      {
        TakeTake(slots, i);
        if slots[i].task.Some? {
          count := count + 1;
        }
      }
      Whole(slots);
      snapshot := snapshot.(activeWorkers := count);
    }

    method DisposeAll(phase: Phase)
      modifies this
      ensures Current() == End(old(Current()), phase)
    {
      lifecycle := lifecycle + 1;
      socket, slots, outbox, formula := false, [], [], false;
      snapshot := snapshot.(phase := phase, activeWorkers := 0);
    }

    method DeleteEntry(id: Id)
      modifies this`outbox
      ensures outbox == Remove(old(outbox), id)
    {
      var rest: seq<Entry> := [];
      for i := 0 to |outbox|
        invariant outbox == old(outbox) && rest == Remove(outbox[..i], id)
      {
        TakeTake(outbox, i);
        if outbox[i].id != id {
          rest := rest + [outbox[i]];
        }
      }
      Whole(outbox);
      outbox := rest;
    }

    method ClearPendingMutation(i: nat)
      requires i < |slots|
      modifies this`slots, this`outbox
      ensures Current() == ClearPending(old(Current()), i)
    {
      var slot := slots[i];
      if slot.pendingMutation.Some? {
        DeleteEntry(slot.pendingMutation.value);
      }
      slots := slots[i := slot.(pendingMutation := None)];
    }

    method ReleaseWork(i: nat)
      requires i < |slots|
      modifies this`slots, this`snapshot
      ensures Current() == Release(old(Current()), i)
    {
      slots := slots[i := slots[i].(task := None, lease := None, pendingWork := None)];
      RefreshActiveWorkers();
    }

    method Initialize(i: nat, mode: Purpose)
      modifies this
      ensures Current() == InitializeSlot(old(Current()), i, mode)
    {
      if i >= |slots| || !formula {
        DisposeAll(FAILED);
        return;
      }
      slots := slots[i := slots[i].(ready := false, mode := mode, lastMetrics := NO_METRICS)];
    }

    method StartTask(i: nat, work: Work)
      requires i < |slots|
      modifies this
      ensures Current() == RunTask(old(Current()), i, work)
    {
      slots := slots[i := slots[i].(task := Some(work.task), lease := Some(work.lease), runActiveBaseMs := 0.0,
                                    lastActiveMs := 0.0, pendingWork := None)];
      RefreshActiveWorkers();
      snapshot := snapshot.(acceptedTasks := snapshot.acceptedTasks + 1);
      if work.purpose.PROOF_FINISHER? || slots[i].mode != work.purpose || !slots[i].ready {
        slots := slots[i := slots[i].(pendingWork := Some(work))];
        Initialize(i, work.purpose);
      }
    }

    method Send(i: nat, id: Id, lease: Id, action: Action)
      requires i < |slots|
      modifies this`slots, this`outbox, this`sent
      ensures Current() == SendMutation(old(Current()), i, id, lease, action)
      ensures old(RuntimeOk(Current())) && old(slots)[i].lease == Some(lease) && Unsent(old(outbox), id) ==> RuntimeOk(Current())
    {
      ghost var before := Current();
      if RuntimeOk(before) && slots[i].lease == Some(lease) && Unsent(outbox, id) {
        SendMutationOk(before, i, id, lease, action);
      }
      if slots[i].pendingMutation.Some? {
        return;
      }
      slots := slots[i := slots[i].(pendingMutation := Some(id))];
      outbox := outbox + [Entry(id, i, lease, action)];
      if socket {
        sent := sent + [id];
      }
    }

    method FlushOutbox()
      modifies this`sent
      ensures Current() == Flush(old(Current()))
    {
      if socket {
        for k := 0 to |outbox|
          invariant socket && sent == old(sent) + Ids(outbox)[..k]
        {
          sent := sent + [outbox[k].id];
        }
      }
    }

    method Reconcile(i: nat, actives: map<nat, Work>)
      requires i < |slots|
      modifies this
      ensures Current() == WelcomeSlot(old(Current()), i, actives)
    {
      if i !in actives {
        ClearPendingMutation(i);
        ReleaseWork(i);
        return;
      }
      var active := actives[i];
      if slots[i].pendingMutation.Some? {
        var pending := Find(outbox, slots[i].pendingMutation.value);
        if pending.Some? && pending.value.lease != active.lease {
          ClearPendingMutation(i);
        }
      }
      if slots[i].pendingMutation.Some? || (slots[i].lease == Some(active.lease) && slots[i].task == Some(active.task)) {
        return;
      }
      ClearPendingMutation(i);
      StartTask(i, active);
    }

    method OnWelcome(actives: map<nat, Work>)
      modifies this
      ensures Current() == Welcome(old(Current()), actives)
    {
      var i, n := 0, |slots|;
      while i < n && i < |slots|
        invariant 0 <= i <= n && WelcomeFrom(Current(), i, n, actives) == WelcomeFrom(old(Current()), 0, n, actives)
      {
        Reconcile(i, actives);
        i := i + 1;
      }
      FlushOutbox();
    }

    method OnWork(slot: nat, leaseSlot: nat, work: Work)
      modifies this
      ensures Current() == ReceiveWork(old(Current()), slot, leaseSlot, work)
    {
      if slot >= |slots| || leaseSlot != slot {
        DisposeAll(FAILED);
      } else if slots[slot].lease != Some(work.lease) {
        ClearPendingMutation(slot);
        StartTask(slot, work);
      }
    }

    method SettleSlot(i: nat, id: Id)
      requires i < |slots|
      modifies this`slots
      ensures Current() == Settle(old(Current()), i, id)
    {
      if slots[i].pendingMutation == Some(id) {
        slots := slots[i := slots[i].(pendingMutation := None)];
      }
    }

    method AcknowledgeMutation(id: Id, action: Action)
      modifies this
      ensures Current() == Acknowledge(old(Current()), id, action)
    {
      var pending := Find(outbox, id);
      if pending.None? || pending.value.action != action {
        return;
      }
      DeleteEntry(id);
      if pending.value.slot < |slots| {
        SettleSlot(pending.value.slot, id);
        ReleaseWork(pending.value.slot);
        snapshot := Count(snapshot, action);
      }
    }

    method HandleMutationError(id: Option<Id>, code: Code, retryable: bool)
      modifies this
      ensures Current() == MutationError(old(Current()), id, code, retryable)
    {
      var pending := if id.Some? then Find(outbox, id.value) else None;
      if pending.None? {
        if !retryable {
          DisposeAll(FAILED);
        }
        return;
      }
      DeleteEntry(id.value);
      var i := pending.value.slot;
      if i >= |slots| {
        return;
      }
      SettleSlot(i, id.value);
      if pending.value.action.SPLIT? && (code.SPLIT_NOT_NEEDED? || code.TASK_LIMIT?) {
        slots := slots[i := slots[i].(runActiveBaseMs := slots[i].lastActiveMs)];
        return;
      }
      ReleaseWork(i);
      if !retryable && !code.STALE_LEASE? && !code.INVALID_STATE? {
        DisposeAll(FAILED);
      }
    }

    method OnReport(r: Report)
      modifies this`slots, this`snapshot
      ensures Current() == Progress(old(Current()), r)
      ensures snapshot.activeComputeMs >= old(snapshot).activeComputeMs && NoMore(old(snapshot).metrics, snapshot.metrics)
      ensures old(RuntimeOk(Current())) ==> RuntimeOk(Current())
    {
      if RuntimeOk(Current()) {
        ProgressOk(Current(), r);
      }
      if !(r.slot < |slots| && slots[r.slot].task == Some(r.task) && slots[r.slot].lease == Some(r.lease)) {
        return;
      }
      var slot := slots[r.slot];
      var activeMs := slot.runActiveBaseMs + r.activeMs;
      snapshot := snapshot.(activeComputeMs := snapshot.activeComputeMs + MaxReal(0.0, activeMs - slot.lastActiveMs),
                            metrics := Gained(snapshot.metrics, slot.lastMetrics, r.metrics));
      slots := slots[r.slot := slot.(lastActiveMs := MaxReal(slot.lastActiveMs, activeMs), lastMetrics := Later(slot.lastMetrics, r.metrics))];
    }

    method OnMutation(r: Report, action: Action, id: Id)
      modifies this
      ensures Current() == Mutate(old(Current()), r, action, id)
    {
      if r.slot < |slots| && slots[r.slot].task == Some(r.task) && slots[r.slot].lease == Some(r.lease) {
        OnReport(r);
        Send(r.slot, id, r.lease, action);
      }
    }

    method OnResultFinished(u: Unfinished, uploaded: bool, id: Id)
      modifies this
      ensures Current() == FinishResult(old(Current()), u, uploaded, id)
      ensures old(RuntimeOk(Current())) && Unsent(old(outbox), id) ==> RuntimeOk(Current())
    {
      if RuntimeOk(Current()) && Unsent(outbox, id) {
        FinishResultOk(Current(), u, uploaded, id);
      }
      if lifecycle != u.lifecycle || u.slot >= |slots| || slots[u.slot].task != Some(u.task) || slots[u.slot].lease != Some(u.lease) {
        return;
      }
      if !uploaded {
        DisposeAll(FAILED);
        return;
      }
      Send(u.slot, id, u.lease, RESULT);
    }

    /** Nothing begun before a pause can have any effect after it. */
    method PauseContribution()
      modifies this
      ensures Current() == Pause(old(Current()))
      ensures old(RuntimeOk(Current())) ==> RuntimeOk(Current())
      ensures !Inactive(old(snapshot).phase) ==>
        forall u: Unfinished, uploaded, id :: u.lifecycle <= old(lifecycle) ==> FinishResult(Current(), u, uploaded, id) == Current()
    {
      if snapshot.phase.LOADING? || snapshot.phase.CONNECTING? || snapshot.phase.RUNNING? {
        lifecycle := lifecycle + 1;
        slots, outbox, socket := [], [], false;
        snapshot := snapshot.(phase := PAUSED, activeWorkers := 0);
      }
    }
  }
}
