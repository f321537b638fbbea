/**
 What every event does to the browser runtime, slot by slot and entry by entry, in every state in which
 the outbox is consistent, as it is in every run.
 */
module RuntimeEffects {
  import opened Wrappers
  import opened Rows
  import opened CubeRuntime

  // ----- the outbox -----

  ghost predicate Precedes(outbox: seq<Entry>, e: Entry, g: Entry) {
    exists x, y :: 0 <= x < y < |outbox| && outbox[x] == e && outbox[y] == g
  }

  ghost predicate SameOrder(outbox: seq<Entry>, outbox': seq<Entry>) {
    forall a, b :: 0 <= a < b < |outbox'| ==> Precedes(outbox, outbox'[a], outbox'[b])
  }

  /** Exactly these entries stay, in their order. */
  ghost predicate Stay(outbox: seq<Entry>, outbox': seq<Entry>, stay: iset<Entry>) {
    Distinct(outbox') && SameOrder(outbox, outbox') && forall e :: e in outbox' <==> e in outbox && e in stay
  }

  lemma {:induction false} RemoveKeepsOrder(outbox: seq<Entry>, id: Id)
    ensures SameOrder(outbox, Remove(outbox, id))
  {
    if outbox != [] {
      var n := |outbox| - 1;
      var init, rest, outbox' := outbox[..n], Remove(outbox[..n], id), Remove(outbox, id);
      RemoveKeepsOrder(init, id);
      RemoveIs(init, id);
      forall a, b | 0 <= a < b < |outbox'| ensures Precedes(outbox, outbox'[a], outbox'[b]) {
        assert outbox'[a] == rest[a] && rest[a] in rest && rest[a] in init;
        if b < |rest| {
          assert Precedes(init, rest[a], rest[b]);
          var x, y :| 0 <= x < y < n && init[x] == rest[a] && init[y] == rest[b];
          assert outbox[x] == outbox'[a] && outbox[y] == outbox'[b];
        } else {
          var x :| 0 <= x < n && init[x] == rest[a];
          assert outbox[x] == outbox'[a] && outbox[n] == outbox'[b];
        }
      }
    }
  }

  lemma OrderIsTransitive(a: seq<Entry>, b: seq<Entry>, c: seq<Entry>)
    requires SameOrder(a, b) && SameOrder(b, c)
    ensures SameOrder(a, c)
  {
    forall i, j | 0 <= i < j < |c| ensures Precedes(a, c[i], c[j]) {
      assert Precedes(b, c[i], c[j]);
      var x, y :| 0 <= x < y < |b| && b[x] == c[i] && b[y] == c[j];
      assert Precedes(a, b[x], b[y]);
    }
  }

  /** All entries but the one under this identifier. */
  ghost function Others(id: Id): iset<Entry> {
    iset e: Entry | e.id != id
  }

  lemma RemovedStay(outbox: seq<Entry>, id: Id)
    requires Distinct(outbox)
    ensures Stay(outbox, Remove(outbox, id), Others(id))
  {
    RemoveIs(outbox, id);
    RemoveKeepsOrder(outbox, id);
  }

  // ----- slots -----

  function BusySlots(slots: seq<Slot>): set<nat> {
    set i: nat | i < |slots| && slots[i].task.Some?
  }

  lemma {:induction false} ActiveIsBusy(slots: seq<Slot>)
    ensures ActiveCount(slots) == |BusySlots(slots)|
  {
    if slots != [] {
      var n: nat := |slots| - 1;
      var init := slots[..n];
      ActiveIsBusy(init);
      assert BusySlots(slots) == BusySlots(init) + if slots[n].task.Some? then {n} else {};
    } else {
      assert BusySlots(slots) == {};
    }
  }

  predicate IsIdle(slot: Slot, slot': Slot) {
    slot' == slot.(task := None, lease := None, pendingWork := None, pendingMutation := None)
  }

  /** The work is on the slot from zero; it starts at once, or waits for a solver made for it. */
  predicate TakesUp(slot: Slot, slot': Slot, work: Work) {
    var at := slot.(task := Some(work.task), lease := Some(work.lease), pendingMutation := None, runActiveBaseMs := 0.0, lastActiveMs := 0.0);
    slot' ==
    if slot.ready && slot.mode.SEARCH? && work.purpose.SEARCH? then at.(pendingWork := None)
    else at.(pendingWork := Some(work), ready := false, mode := work.purpose, lastMetrics := NO_METRICS)
  }

  /** Slots, outbox, formula and socket are given up, and so is whatever was begun before. */
  predicate Ended(s: State, s': State, phase: Phase) {
    && s'.slots == [] && s'.outbox == [] && !s'.socket && !s'.formula && s'.lifecycle == s.lifecycle + 1 && s'.sent == s.sent
    && s'.snapshot == s.snapshot.(phase := phase, activeWorkers := 0)
  }

  // ----- reports -----

  /** Totals and high-water marks grow by what is new in the report, and nothing else changes. */
  ghost predicate Recorded(s: State, s': State, r: Report) {
    if !Holds(s, r.slot, r.task, r.lease) then s' == s
    else
      && r.slot < |s'.slots|
      && var slot, slot', was, now := s.slots[r.slot], s'.slots[r.slot], s.snapshot, s'.snapshot;
         && s' == s.(slots := s.slots[r.slot := slot'], snapshot := now)
         && slot' == slot.(lastActiveMs := slot'.lastActiveMs, lastMetrics := slot'.lastMetrics)
         && now == was.(activeComputeMs := now.activeComputeMs, metrics := now.metrics)
         && (slot'.lastActiveMs == slot.lastActiveMs || slot'.lastActiveMs == slot.runActiveBaseMs + r.activeMs)
         && slot'.lastActiveMs >= slot.lastActiveMs && slot'.lastActiveMs >= slot.runActiveBaseMs + r.activeMs
         && now.activeComputeMs - was.activeComputeMs == slot'.lastActiveMs - slot.lastActiveMs
         && IsLater(slot.lastMetrics, r.metrics, slot'.lastMetrics) && IsGained(was.metrics, now.metrics, slot.lastMetrics, slot'.lastMetrics)
  }

  predicate IsLater(a: Metrics, b: Metrics, c: Metrics) {
    NoMore(a, c) && NoMore(b, c) && (c.conflicts == a.conflicts || c.conflicts == b.conflicts) &&
    (c.decisions == a.decisions || c.decisions == b.decisions) && (c.propagations == a.propagations || c.propagations == b.propagations)
  }

  predicate IsGained(total: Metrics, total': Metrics, mark: Metrics, mark': Metrics) {
    total'.conflicts - total.conflicts == mark'.conflicts - mark.conflicts && total'.decisions - total.decisions == mark'.decisions - mark.decisions &&
    total'.propagations - total.propagations == mark'.propagations - mark.propagations
  }

  lemma ProgressIsExact(s: State, r: Report)
    ensures Recorded(s, Progress(s, r), r)
  {
  }

  /** The mutation becomes the slot's pending one and the last entry of the outbox, unless the slot waits for another. */
  ghost predicate Enqueued(s: State, s': State, i: nat, id: Id, lease: Id, action: Action)
    requires i < |s.slots|
  {
    if s.slots[i].pendingMutation.Some? then s' == s
    else
      && s' == s.(slots := s'.slots, outbox := s'.outbox, sent := s'.sent)
      && s'.slots == s.slots[i := s.slots[i].(pendingMutation := Some(id))]
      && s'.outbox == s.outbox + [Entry(id, i, lease, action)]
      && s'.sent == if s.socket then s.sent + [id] else s.sent
  }

  /** A mutation counts only for the work its slot still holds; its telemetry counts even if it must wait. */
  ghost predicate MutationTaken(s: State, s': State, r: Report, action: Action, id: Id) {
    if !Holds(s, r.slot, r.task, r.lease) then s' == s
    else exists recorded :: Recorded(s, recorded, r) && r.slot < |recorded.slots| && Enqueued(recorded, s', r.slot, id, r.lease, action)
  }

  lemma MutateIsExact(s: State, r: Report, action: Action, id: Id)
    ensures MutationTaken(s, Mutate(s, r, action, id), r, action, id)
  {
    ProgressIsExact(s, r);
    if Holds(s, r.slot, r.task, r.lease) {
      assert Enqueued(Progress(s, r), Mutate(s, r, action, id), r.slot, id, r.lease, action);
    }
  }

  ghost predicate ResultTaken(s: State, s': State, u: Unfinished, uploaded: bool, id: Id) {
    if s.lifecycle != u.lifecycle || !Holds(s, u.slot, u.task, u.lease) then s' == s
    else if !uploaded then Ended(s, s', FAILED)
    else Enqueued(s, s', u.slot, id, u.lease, RESULT)
  }

  lemma FinishIsExact(s: State, u: Unfinished, uploaded: bool, id: Id)
    ensures ResultTaken(s, FinishResult(s, u, uploaded, id), u, uploaded, id)
  {
  }

  // ----- replies -----

  /** The coordinator's answer takes the entry out of the outbox and frees its slot for another mutation. */
  ghost predicate Answered(s: State, s': State, e: Entry, slot': Slot, snapshot': Snapshot) {
    && e.slot < |s.slots| && Stay(s.outbox, s'.outbox, Others(e.id))
    && s' == s.(slots := s.slots[e.slot := slot'], outbox := s'.outbox, snapshot := snapshot')
  }

  /** One more mutation of its kind was accepted. */
  predicate Counted(was: Snapshot, now: Snapshot, action: Action, active: nat) {
    now == was.(activeWorkers := active, splitTasks := was.splitTasks + (if action.SPLIT? then 1 else 0),
                yieldedTasks := was.yieldedTasks + (if action.YIELD? then 1 else 0),
                completedTasks := was.completedTasks + if action.RESULT? then 1 else 0)
  }

  ghost predicate IsEntry(s: State, e: Entry, id: Id) {
    e in s.outbox && e.id == id
  }

  /** An acknowledged mutation is counted and its slot gives up its work; any other acknowledgement is ignored. */
  ghost predicate AcknowledgementTaken(s: State, s': State, id: Id, action: Action) {
    && ((forall e :: IsEntry(s, e, id) ==> e.action != action) ==> s' == s)
    && forall e :: IsEntry(s, e, id) && e.action == action ==>
      exists slot' :: Answered(s, s', e, slot', s'.snapshot) && IsIdle(s.slots[e.slot], slot') &&
        Counted(s.snapshot, s'.snapshot, action, |BusySlots(s'.slots)|)
  }

  lemma FoundIsEntry(s: State, id: Id)
    requires RuntimeOk(s)
    ensures Find(s.outbox, id).None? <==> forall e :: !IsEntry(s, e, id)
    ensures Find(s.outbox, id).Some? ==> forall e :: IsEntry(s, e, id) <==> e == Find(s.outbox, id).value
  {
    FindIs(s.outbox, id);
    if Find(s.outbox, id).Some? {
      assert IsEntry(s, Find(s.outbox, id).value, id);
      forall e | IsEntry(s, e, id) ensures e == Find(s.outbox, id).value {
        SameEntry(s.outbox, e, Find(s.outbox, id).value);
      }
    }
  }

  lemma AcknowledgeIsExact(s: State, id: Id, action: Action)
    requires RuntimeOk(s)
    ensures AcknowledgementTaken(s, Acknowledge(s, id, action), id, action)
  {
    FoundIsEntry(s, id);
    var s', found := Acknowledge(s, id, action), Find(s.outbox, id);
    if found.Some? && found.value.action == action {
      var e := found.value;
      SettledOk(s, id);
      RemovedStay(s.outbox, id);
      ActiveIsBusy(s'.slots);
      var slot' := s.slots[e.slot].(task := None, lease := None, pendingWork := None, pendingMutation := None);
      assert s'.slots == s.slots[e.slot := slot'];
      assert Answered(s, s', e, slot', s'.snapshot);
    }
  }

  /** A split that is not wanted any more: the slot goes on with its work and counts its time from here. */
  predicate IsResumed(slot: Slot, slot': Slot) {
    slot' == slot.(pendingMutation := None, runActiveBaseMs := slot.lastActiveMs)
  }

  ghost predicate RefusalTaken(s: State, s': State, id: Id, code: Code, retryable: bool) {
    && ((forall e :: !IsEntry(s, e, id)) ==> if retryable then s' == s else Ended(s, s', FAILED))
    && forall e :: IsEntry(s, e, id) ==> EntryRefused(s, s', e, code, retryable)
  }

  /** An unwanted split resumes; any other refusal frees the slot, and is fatal unless retryable or the lease is lost. */
  ghost predicate EntryRefused(s: State, s': State, e: Entry, code: Code, retryable: bool) {
    if e.action.SPLIT? && (code.SPLIT_NOT_NEEDED? || code.TASK_LIMIT?)
    then exists slot' :: Answered(s, s', e, slot', s.snapshot) && IsResumed(s.slots[e.slot], slot')
    else if retryable || code.STALE_LEASE? || code.INVALID_STATE? then
      exists slot' :: Answered(s, s', e, slot', s'.snapshot) && IsIdle(s.slots[e.slot], slot') &&
        s'.snapshot == s.snapshot.(activeWorkers := |BusySlots(s'.slots)|)
    else Ended(s, s', FAILED)
  }

  lemma RefusalIsExact(s: State, id: Id, code: Code, retryable: bool)
    requires RuntimeOk(s)
    ensures RefusalTaken(s, MutationError(s, Some(id), code, retryable), id, code, retryable)
  {
    FoundIsEntry(s, id);
    var s', found := MutationError(s, Some(id), code, retryable), Find(s.outbox, id);
    if found.Some? {
      var e := found.value;
      SettledOk(s, id);
      RemovedStay(s.outbox, id);
      EntryIsRefused(s, e, code, retryable);
    }
  }

  lemma EntryIsRefused(s: State, e: Entry, code: Code, retryable: bool)
    requires e.slot < |s.slots| && s.slots[e.slot].pendingMutation == Some(e.id) && Find(s.outbox, e.id) == Some(e)
    requires Stay(s.outbox, Remove(s.outbox, e.id), Others(e.id))
    ensures EntryRefused(s, MutationError(s, Some(e.id), code, retryable), e, code, retryable)
  {
    var s', slot := MutationError(s, Some(e.id), code, retryable), s.slots[e.slot];
    ActiveIsBusy(s'.slots);
    var idle := slot.(task := None, lease := None, pendingWork := None, pendingMutation := None);
    var resumed := slot.(pendingMutation := None, runActiveBaseMs := slot.lastActiveMs);
    if e.action.SPLIT? && (code.SPLIT_NOT_NEEDED? || code.TASK_LIMIT?) {
      assert s'.slots == s.slots[e.slot := resumed];
      assert Answered(s, s', e, resumed, s.snapshot);
    } else if retryable || code.STALE_LEASE? || code.INVALID_STATE? {
      assert s'.slots == s.slots[e.slot := idle];
      assert Answered(s, s', e, idle, s'.snapshot);
    }
  }

  // ----- new work -----

  /** New work takes the slot; what was pending there is dropped. */
  ghost predicate WorkTaken(s: State, s': State, i: nat, work: Work)
    requires i < |s.slots|
  {
    && i < |s'.slots| && s' == s.(slots := s.slots[i := s'.slots[i]], outbox := s'.outbox, snapshot := s'.snapshot)
    && TakesUp(s.slots[i], s'.slots[i], work)
    && Distinct(s'.outbox) && SameOrder(s.outbox, s'.outbox) && (forall e :: e in s'.outbox <==> e in s.outbox && e.slot != i)
    && s'.snapshot == s.snapshot.(activeWorkers := |BusySlots(s'.slots)|, acceptedTasks := s.snapshot.acceptedTasks + 1)
  }

  lemma ClearingIsExact(s: State, i: nat)
    requires RuntimeOk(s) && i < |s.slots|
    ensures var s' := ClearPending(s, i);
      && s' == s.(slots := s.slots[i := s.slots[i].(pendingMutation := None)], outbox := s'.outbox)
      && Distinct(s'.outbox) && SameOrder(s.outbox, s'.outbox) && (forall e :: e in s'.outbox <==> e in s.outbox && e.slot != i)
  {
    ClearPendingOk(s, i);
    if s.slots[i].pendingMutation.Some? {
      RemovedStay(s.outbox, s.slots[i].pendingMutation.value);
    } else {
      forall a, b | 0 <= a < b < |s.outbox| ensures Precedes(s.outbox, s.outbox[a], s.outbox[b]) {
      }
    }
  }

  lemma ReplaceIsExact(s: State, i: nat, work: Work)
    requires RuntimeOk(s) && i < |s.slots|
    ensures WorkTaken(s, ReplaceWork(s, i, work), i, work)
  {
    var cleared, s' := ClearPending(s, i), ReplaceWork(s, i, work);
    ClearingIsExact(s, i);
    ClearPendingOk(s, i);
    RunTaskOk(cleared, i, work);
    RunIsExact(cleared, i, work);
    ActiveIsBusy(s'.slots);
    assert s'.slots == s.slots[i := s'.slots[i]];
  }

  lemma RunIsExact(s: State, i: nat, work: Work)
    requires i < |s.slots| && s.formula && s.slots[i].pendingMutation.None?
    ensures var s' := RunTask(s, i, work);
      && |s'.slots| == |s.slots| && s' == s.(slots := s.slots[i := s'.slots[i]], snapshot := s'.snapshot) && TakesUp(s.slots[i], s'.slots[i], work)
      && s'.snapshot == s.snapshot.(activeWorkers := s'.snapshot.activeWorkers, acceptedTasks := s.snapshot.acceptedTasks + 1)
  {
  }

  ghost predicate WorkReceived(s: State, s': State, i: nat, leaseSlot: nat, work: Work) {
    if i >= |s.slots| || leaseSlot != i then Ended(s, s', FAILED)
    else if s.slots[i].lease == Some(work.lease) then s' == s
    else WorkTaken(s, s', i, work)
  }

  lemma ReceiveIsExact(s: State, i: nat, leaseSlot: nat, work: Work)
    requires RuntimeOk(s)
    ensures WorkReceived(s, ReceiveWork(s, i, leaseSlot, work), i, leaseSlot, work)
  {
    if i < |s.slots| {
      ReplaceIsExact(s, i, work);
    }
  }

  // ----- reconnection -----

  /** The slot is already where the coordinator wants it: on this lease, and on this task or with a mutation under way. */
  predicate Stays(slot: Slot, work: Work) {
    slot.lease == Some(work.lease) && (slot.pendingMutation.Some? || slot.task == Some(work.task))
  }

  predicate Reconciled(slot: Slot, slot': Slot, actives: map<nat, Work>, i: nat) {
    if i !in actives then IsIdle(slot, slot')
    else if Stays(slot, actives[i]) then slot' == slot
    else TakesUp(slot, slot', actives[i])
  }

  /** A mutation survives exactly if it is for the lease its slot is listed with. */
  predicate Survives(actives: map<nat, Work>, e: Entry) {
    e.slot in actives && actives[e.slot].lease == e.lease
  }

  function Restarted(slots: seq<Slot>, from: nat, actives: map<nat, Work>): set<nat> {
    set i: nat | from <= i < |slots| && i in actives && !Stays(slots[i], actives[i])
  }

  /** One slot is reconciled. */
  ghost predicate SlotReconciled(s: State, s': State, i: nat, actives: map<nat, Work>)
    requires i < |s.slots|
  {
    && i < |s'.slots| && s' == s.(slots := s.slots[i := s'.slots[i]], outbox := s'.outbox, snapshot := s'.snapshot)
    && Reconciled(s.slots[i], s'.slots[i], actives, i)
    && Distinct(s'.outbox) && SameOrder(s.outbox, s'.outbox)
    && (forall e :: e in s'.outbox <==> e in s.outbox && (e.slot != i || Survives(actives, e)))
    && s'.snapshot == s.snapshot.(activeWorkers := ActiveCount(s'.slots),
         acceptedTasks := s.snapshot.acceptedTasks + if i in actives && !Stays(s.slots[i], actives[i]) then 1 else 0)
  }

  lemma OwnEntries(s: State, i: nat)
    requires RuntimeOk(s) && i < |s.slots|
    ensures forall e :: e in s.outbox && e.slot == i ==> s.slots[i].lease == Some(e.lease) && s.slots[i].pendingMutation == Some(e.id)
  {
  }

  lemma IdleIsExact(s: State, i: nat, actives: map<nat, Work>)
    requires RuntimeOk(s) && i < |s.slots| && i !in actives
    ensures SlotReconciled(s, Release(ClearPending(s, i), i), i, actives)
  {
    ClearingIsExact(s, i);
    var s' := Release(ClearPending(s, i), i);
    assert s'.slots == s.slots[i := s'.slots[i]];
  }

  lemma WelcomeSlotIsExact(s: State, i: nat, actives: map<nat, Work>)
    requires RuntimeOk(s) && i < |s.slots|
    ensures SlotReconciled(s, WelcomeSlot(s, i, actives), i, actives)
  {
    OwnEntries(s, i);
    if i !in actives {
      IdleIsExact(s, i, actives);
    } else if Stays(s.slots[i], actives[i]) {
      StaysIsExact(s, i, actives);
    } else {
      RestartIsExact(s, i, actives);
    }
  }

  lemma StaysIsExact(s: State, i: nat, actives: map<nat, Work>)
    requires RuntimeOk(s) && i < |s.slots| && i in actives && Stays(s.slots[i], actives[i])
    ensures SlotReconciled(s, WelcomeSlot(s, i, actives), i, actives)
  {
    OwnEntries(s, i);
    if s.slots[i].pendingMutation.Some? {
      PendingLease(s, i);
    }
    assert WelcomeSlot(s, i, actives) == s;
    forall a, b | 0 <= a < b < |s.outbox| ensures Precedes(s.outbox, s.outbox[a], s.outbox[b]) {
    }
  }

  lemma RestartIsExact(s: State, i: nat, actives: map<nat, Work>)
    requires RuntimeOk(s) && i < |s.slots| && i in actives && !Stays(s.slots[i], actives[i])
    ensures SlotReconciled(s, WelcomeSlot(s, i, actives), i, actives)
  {
    OwnEntries(s, i);
    if s.slots[i].pendingMutation.Some? {
      PendingLease(s, i);
    }
    var cleared := ClearPending(s, i);
    assert cleared.slots[i].pendingMutation.None?;
    assert s.slots[i].pendingMutation.None? ==> cleared == s by {
      assert s.slots[i := s.slots[i]] == s.slots;
    }
    assert ClearPending(cleared, i) == cleared by {
      assert cleared.slots[i := cleared.slots[i]] == cleared.slots;
    }
    assert WelcomeSlot(s, i, actives) == ReplaceWork(s, i, actives[i]);
    ReplaceIsExact(s, i, actives[i]);
    ActiveIsBusy(WelcomeSlot(s, i, actives).slots);
  }

  /** The slots from `from` on are reconciled, and of their mutations exactly those survive that are for listed leases. */
  ghost predicate SlotsReconciled(s: State, s': State, from: nat, actives: map<nat, Work>) {
    && s' == s.(slots := s'.slots, outbox := s'.outbox, snapshot := s'.snapshot) && |s'.slots| == |s.slots|
    && (forall k: nat :: k < |s.slots| ==> if k < from then s'.slots[k] == s.slots[k] else Reconciled(s.slots[k], s'.slots[k], actives, k))
    && Distinct(s'.outbox) && SameOrder(s.outbox, s'.outbox)
    && (forall e :: e in s'.outbox <==> e in s.outbox && (e.slot < from || Survives(actives, e)))
    && s'.snapshot == s.snapshot.(activeWorkers := ActiveCount(s'.slots),
         acceptedTasks := s.snapshot.acceptedTasks + |Restarted(s.slots, from, actives)|)
  }

  lemma RestartedFrom(slots: seq<Slot>, slot: Slot, i: nat, actives: map<nat, Work>)
    requires i < |slots|
    ensures |Restarted(slots, i, actives)| ==
      |Restarted(slots[i := slot], i + 1, actives)| + if i in actives && !Stays(slots[i], actives[i]) then 1 else 0
  {
    var rest := Restarted(slots[i := slot], i + 1, actives);
    assert Restarted(slots, i, actives) == rest + if i in actives && !Stays(slots[i], actives[i]) then {i} else {};
  }

  lemma {:induction false} WelcomeFromIsExact(s: State, i: nat, actives: map<nat, Work>)
    requires RuntimeOk(s) && i <= |s.slots|
    ensures SlotsReconciled(s, WelcomeFrom(s, i, |s.slots|, actives), i, actives)
    decreases |s.slots| - i
  {
    if i < |s.slots| {
      var next := WelcomeSlot(s, i, actives);
      WelcomeSlotOk(s, i, actives);
      WelcomeSlotIsExact(s, i, actives);
      WelcomeFromIsExact(next, i + 1, actives);
      ReconciliationGrows(s, next, WelcomeFrom(s, i, |s.slots|, actives), i, actives);
    } else {
      forall a, b | 0 <= a < b < |s.outbox| ensures Precedes(s.outbox, s.outbox[a], s.outbox[b]) {
      }
      assert Restarted(s.slots, i, actives) == {};
    }
  }

  lemma ReconciliationGrows(s: State, next: State, s': State, i: nat, actives: map<nat, Work>)
    requires RuntimeOk(s) && i < |s.slots| && SlotReconciled(s, next, i, actives) && SlotsReconciled(next, s', i + 1, actives)
    ensures SlotsReconciled(s, s', i, actives)
  {
    OrderIsTransitive(s.outbox, next.outbox, s'.outbox);
    RestartedFrom(s.slots, next.slots[i], i, actives);
  }

  /** Every slot is reconciled; then the surviving mutations are sent again, in their order, if the socket is open. */
  ghost predicate WelcomeTaken(s: State, s': State, actives: map<nat, Work>) {
    && SlotsReconciled(s, s'.(sent := s.sent), 0, actives)
    && |s'.sent| == |s.sent| + (if s.socket then |s'.outbox| else 0) && s'.sent[..|s.sent|] == s.sent
    && (s.socket ==> forall k :: 0 <= k < |s'.outbox| ==> s'.sent[|s.sent| + k] == s'.outbox[k].id)
  }

  lemma WelcomeIsExact(s: State, actives: map<nat, Work>)
    requires RuntimeOk(s)
    ensures WelcomeTaken(s, Welcome(s, actives), actives)
  {
    WelcomeFromIsExact(s, 0, actives);
    var before, s' := WelcomeFrom(s, 0, |s.slots|, actives), Welcome(s, actives);
    assert s'.(sent := s.sent) == before;
  }

  // ----- lifecycle -----

  predicate Running(phase: Phase) {
    phase.LOADING? || phase.CONNECTING? || phase.RUNNING?
  }

  /** The solver of a slot reports ready: waiting work starts, or, when all are ready, the socket is opened. */
  ghost predicate ReadyTaken(s: State, s': State, i: nat) {
    if i >= |s.slots| then s' == s
    else
      && s' == s.(slots := s.slots[i := s.slots[i].(ready := true, pendingWork := None)], socket := s'.socket, snapshot := s'.snapshot)
      && if s.slots[i].pendingWork.None? && !s.socket && Running(s.snapshot.phase) && forall k :: 0 <= k < |s.slots| && k != i ==> s.slots[k].ready
         then s'.socket && s'.snapshot == s.snapshot.(phase := CONNECTING)
         else s'.socket == s.socket && s'.snapshot == s.snapshot
  }

  lemma ReadyIsExact(s: State, i: nat)
    ensures ReadyTaken(s, WorkerReady(s, i), i)
  {
    if i < |s.slots| {
      var ready := SetSlot(s, i, s.slots[i].(ready := true));
      var slot := s.slots[i].(ready := true, pendingWork := None);
      assert SetSlot(ready, i, ready.slots[i].(pendingWork := None)).slots == s.slots[i := slot];
      assert s.slots[i].pendingWork.None? ==> ready.slots == s.slots[i := slot];
      if forall k :: 0 <= k < |ready.slots| ==> ready.slots[k].ready {
        forall k | 0 <= k < |s.slots| && k != i ensures s.slots[k].ready {
          assert ready.slots[k].ready;
        }
      }
    }
  }

  /** As many unused slots as there is capacity. */
  predicate AreFresh(slots: seq<Slot>, capacity: nat) {
    |slots| == capacity && forall k :: 0 <= k < |slots| ==> slots[k] == Slot(false, SEARCH, None, None, None, None, 0.0, 0.0, Metrics(0, 0, 0))
  }

  /** A paused runtime goes on with its formula; any other that does not run begins anew. */
  ghost predicate StartTaken(s: State, s': State, capacity: nat) {
    if Running(s.snapshot.phase) || s.snapshot.phase.FINISHED? then s' == s
    else if s.snapshot.phase.PAUSED? && s.formula then
      && s' == s.(lifecycle := s.lifecycle + 1, snapshot := s.snapshot.(phase := LOADING), slots := s'.slots)
      && AreFresh(s'.slots, capacity)
    else s' == State(s.snapshot.(phase := LOADING), false, [], false, [], s.lifecycle + 1, s.sent)
  }

  /** A formula that arrives in the lifecycle that asked for it gets its slots. */
  ghost predicate LoadTaken(s: State, s': State, lifecycle: nat, capacity: nat) {
    if lifecycle != s.lifecycle || !s.snapshot.phase.LOADING? then s' == s
    else s' == s.(formula := true, slots := s'.slots) && if s.slots == [] then AreFresh(s'.slots, capacity) else s'.slots == s.slots
  }

  lemma StartIsExact(s: State, capacity: nat)
    requires RuntimeOk(s)
    ensures StartTaken(s, StartRuntime(s, capacity), capacity)
  {
    FreshCount(capacity);
  }

  lemma LoadIsExact(s: State, lifecycle: nat, capacity: nat)
    ensures LoadTaken(s, FormulaLoaded(s, lifecycle, capacity), lifecycle, capacity)
  {
    FreshCount(capacity);
  }

  ghost predicate PauseTaken(s: State, s': State) {
    if !Running(s.snapshot.phase) then s' == s
    else s' == State(s.snapshot.(phase := PAUSED, activeWorkers := 0), s.formula, [], false, [], s.lifecycle + 1, s.sent)
  }

  // ----- every step of every run -----

  ghost predicate Effect(s: State, e: Event, s': State) {
    match e
    case Welcomed(actives) => WelcomeTaken(s, s', actives)
    case WorkArrived(slot, leaseSlot, work) => WorkReceived(s, s', slot, leaseSlot, work)
    case Acknowledged(id, action) => AcknowledgementTaken(s, s', id, action)
    case Refused(Some(id), code, retryable) => RefusalTaken(s, s', id, code, retryable)
    case Refused(None, _, retryable) => if retryable then s' == s else Ended(s, s', FAILED)
    case JobEnded => Ended(s, s', FINISHED)
    case SlotReady(i) => ReadyTaken(s, s', i)
    case WorkerFailed => Ended(s, s', FAILED)
    case Progressed(r) => Recorded(s, s', r)
    case Mutated(r, action, id) => MutationTaken(s, s', r, action, id)
    case ResultFinished(u, uploaded, id) => ResultTaken(s, s', u, uploaded, id)
    case Started(capacity) => StartTaken(s, s', capacity)
    case Loaded(lifecycle, capacity) => LoadTaken(s, s', lifecycle, capacity)
    case Paused => PauseTaken(s, s')
    case Stopped => Ended(s, s', IDLE)
    case SocketChanged(connected) => s' == s.(snapshot := s.snapshot.(phase := if connected then RUNNING else CONNECTING))
  }

  lemma StepIsExact(s: State, e: Event)
    requires RuntimeOk(s)
    ensures Effect(s, e, Step(s, e))
  {
    match e {
      case Welcomed(actives) => WelcomeIsExact(s, actives);
      case WorkArrived(slot, leaseSlot, work) => ReceiveIsExact(s, slot, leaseSlot, work);
      case Acknowledged(id, action) => AcknowledgeIsExact(s, id, action);
      case Refused(Some(id), code, retryable) => RefusalIsExact(s, id, code, retryable);
      case SlotReady(i) => ReadyIsExact(s, i);
      case Progressed(r) => ProgressIsExact(s, r);
      case Mutated(r, action, id) => MutateIsExact(s, r, action, id);
      case ResultFinished(u, uploaded, id) => FinishIsExact(s, u, uploaded, id);
      case Started(capacity) => StartIsExact(s, capacity);
      case Loaded(lifecycle, capacity) => LoadIsExact(s, lifecycle, capacity);
      case _ =>
    }
  }

  /** In every run every event changes exactly what is spelled out for it. */
  lemma EventsAreExact(trace: seq<State>, events: seq<Event>, k: nat)
    requires Run(trace, events) && k < |events|
    ensures Effect(trace[k], events[k], trace[k + 1])
  {
    OutboxIsConsistent(trace, events, k);
    assert Follows(trace[k], events[k], trace[k + 1]);
    StepIsExact(trace[k], events[k]);
  }
}
