/**
 What every verdict leaves behind, row by row.  The statements compare the tables before with the
 tables after; they do not name the updates the coordinator performs.
 */
module VerdictEffects {
  import opened Wrappers
  import opened Cnf
  import opened Rows
  import opened CoordinatorTables
  import opened LeaseSafety
  import opened FrontierBudget

  // ----- the deduplication log -----

  /** The record joins the log; beyond 2,048 records the oldest go, and none that goes is newer than one that stays. */
  ghost predicate Noted(log: seq<Processed>, log': seq<Processed>, note: Processed) {
    && |log'| == Min(|log| + 1, PROCESSED_MESSAGE_LIMIT)
    && multiset(log') <= multiset(log + [note])
    && forall dropped, kept :: dropped in multiset(log + [note]) - multiset(log') && kept in log' ==> dropped.at <= kept.at
  }

  lemma RecordIsNoted(log: seq<Processed>, session: Id, message: Id, reply: Reply, at: nat)
    requires Recorded(log, session, message).None?
    ensures Noted(log, Record(log, session, message, reply, at), Processed(session, message, reply, at))
  {
    PruneKeepsNewest(log + [Processed(session, message, reply, at)]);
  }

  ghost predicate IsFirstRecord(log: seq<Processed>, i: nat, session: Id, message: Id) {
    && i < |log| && log[i].session == session && log[i].message == message
    && forall k :: 0 <= k < i ==> log[k].session != session || log[k].message != message
  }

  /** A duplicate is answered with the reply of its first record. */
  lemma {:induction false} RecordedIsExact(log: seq<Processed>, session: Id, message: Id)
    ensures Recorded(log, session, message).None? <==> forall k :: 0 <= k < |log| ==> log[k].session != session || log[k].message != message
    ensures Recorded(log, session, message).Some? ==>
      exists i: nat :: IsFirstRecord(log, i, session, message) && Recorded(log, session, message).value == log[i].reply
  {
    if log != [] && !(log[0].session == session && log[0].message == message) {
      RecordedIsExact(log[1..], session, message);
      if Recorded(log, session, message).Some? {
        var i: nat :| IsFirstRecord(log[1..], i, session, message) && Recorded(log[1..], session, message).value == log[1..][i].reply;
        var j := i + 1;
        assert IsFirstRecord(log, j, session, message);
      } else {
        forall k | 0 <= k < |log| ensures log[k].session != session || log[k].message != message {
          if k > 0 {
            var m := k - 1;
            assert log[k] == log[1..][m];
          }
        }
      }
    } else if log != [] {
      assert IsFirstRecord(log, 0, session, message);
    }
  }

  lemma {:induction false} RecordedLast(log: seq<Processed>, note: Processed)
    requires Recorded(log, note.session, note.message).None?
    ensures Recorded(log + [note], note.session, note.message) == Some(note.reply)
  {
    if log != [] {
      RecordedLast(log[1..], note);
      assert (log + [note])[1..] == log[1..] + [note];
    }
  }

  lemma {:induction false} RecordedElsewhere(log: seq<Processed>, i: nat, session: Id, message: Id)
    requires i < |log| && Recorded(log, session, message).None?
    ensures Recorded(log[..i] + log[i + 1..], session, message).None?
  {
    if i == 0 {
      assert log[..0] + log[0 + 1..] == log[1..];
    } else {
      var j := i - 1;
      RecordedElsewhere(log[1..], j, session, message);
      assert (log[..i] + log[i + 1..])[1..] == log[1..][..j] + log[1..][j + 1..];
    }
  }

  /** A reply is found again unless the log is full of records that are all newer than it. */
  lemma ReplyIsFoundAgain(log: seq<Processed>, session: Id, message: Id, reply: Reply, at: nat)
    requires Recorded(log, session, message).None? && |log| <= PROCESSED_MESSAGE_LIMIT
    ensures var found := Recorded(Record(log, session, message, reply, at), session, message);
      found == if |log| < PROCESSED_MESSAGE_LIMIT || (exists k :: 0 <= k < |log| && log[k].at <= at) then Some(reply) else None
  {
    var note := Processed(session, message, reply, at);
    var grown := log + [note];
    RecordedLast(log, note);
    if |log| == PROCESSED_MESSAGE_LIMIT {
      var i := Oldest(grown);
      var rest := grown[..i] + grown[i + 1..];
      assert Prune(grown) == Prune(rest) == rest;
      if i < |log| {
        assert grown[i].at <= grown[|log|].at;
        assert rest == (log[..i] + log[i + 1..]) + [note];
        RecordedElsewhere(log, i, session, message);
        RecordedLast(log[..i] + log[i + 1..], note);
      } else {
        assert rest == log;
        forall k | 0 <= k < |log| ensures log[k].at > at {
          assert grown[i].at < grown[k].at;
        }
      }
    }
  }

  // ----- rows that close together -----

  ghost predicate AllSuperseded(leases: map<Id, Lease>, leases': map<Id, Lease>) {
    leases'.Keys == leases.Keys &&
    forall l :: l in leases ==>
      leases'[l] == if leases[l].status.ACTIVE? then leases[l].(status := SUPERSEDED) else leases[l]
  }

  /** Nothing is leased, and nobody may split, yield or finish anything under a lease. */
  ghost predicate AtRest(db: Db) {
    && (forall l :: l in db.leases ==> !db.leases[l].status.ACTIVE?)
    && (forall t :: t in db.tasks ==> db.tasks[t].activeLease.None? && !db.tasks[t].state.LEASED?)
  }

  // ----- the end of a SAT check -----

  ghost predicate WonTasks(tasks: map<Id, Task>, tasks': map<Id, Task>, winner: Id) {
    && tasks'.Keys == tasks.Keys
    && forall t :: t in tasks ==>
      if t == winner || t == ROOT then tasks'[t] == tasks[t].(state := TaskState.SAT_VERIFIED, activeLease := None)
      else if tasks[t].state.SAT_VERIFIED? || tasks[t].state.CANCELLED? then tasks'[t] == tasks[t]
      else tasks'[t] == tasks[t].(state := TaskState.CANCELLED, activeLease := None)
  }

  ghost predicate AbandonedTasks(tasks: map<Id, Task>, tasks': map<Id, Task>) {
    && tasks'.Keys == tasks.Keys
    && forall t :: t in tasks ==>
      if tasks[t].state.CANCELLED? then tasks'[t] == tasks[t]
      else tasks'[t] == tasks[t].(state := TaskState.UNKNOWN, activeLease := None)
  }

  /** The task is ready again if it was still being checked; its row is the only one that changes. */
  ghost predicate ReadyAgain(tasks: map<Id, Task>, tasks': map<Id, Task>, t: Id)
    requires t in tasks
  {
    && tasks'.Keys == tasks.Keys && (forall x :: x in tasks && x != t ==> tasks'[x] == tasks[x])
    && tasks'[t] == if tasks[t].state.VERIFYING_SAT? then tasks[t].(state := READY, activeLease := None) else tasks[t]
  }

  /** Session `s` works on nothing any more: its leases and their permits end and what it held is ready. */
  ghost predicate Expelled(db: Db, db': Db, s: Id) {
    && db'.quarantined == db.quarantined + {s}
    && db'.leases.Keys == db.leases.Keys && db'.tasks.Keys == db.tasks.Keys && db'.permits.Keys == db.permits.Keys
    && (forall l :: l in db.leases ==>
          db'.leases[l] == if WorksUnder(db, s, l) then db.leases[l].(status := SUPERSEDED) else db.leases[l])
    && (forall p :: p in db.permits ==>
          db'.permits[p] ==
          if WorksUnder(db, s, db.permits[p].lease) && db.permits[p].status.ACTIVE?
          then db.permits[p].(status := PermitStatus.CANCELLED) else db.permits[p])
    && (forall t :: t in db.tasks ==>
          db'.tasks[t] == if WorksOn(db, s, t) then db.tasks[t].(state := READY, activeLease := None) else db.tasks[t])
  }

  predicate WorksUnder(db: Db, s: Id, l: Id) {
    l in db.leases && db.leases[l].session == s && db.leases[l].status.ACTIVE?
  }

  predicate WorksOn(db: Db, s: Id, t: Id) {
    t in db.tasks && db.tasks[t].state.LEASED? && db.tasks[t].activeLease.Some? &&
    WorksUnder(db, s, db.tasks[t].activeLease.value) && db.leases[db.tasks[t].activeLease.value].task == t
  }

  /** The tables after each verdict of a SAT check, apart from the log. */
  ghost predicate SatOutcome(db: Db, db': Db, t: Id, session: Id, verdict: SatVerdict)
    requires t in db.tasks
  {
    match verdict
    case VALID_SAT =>
      && db' == db.(job := db.job.(state := JobState.SAT_VERIFIED), tasks := db'.tasks, leases := db'.leases)
      && WonTasks(db.tasks, db'.tasks, t) && AllSuperseded(db.leases, db'.leases)
    case INVALID_FORMULA =>
      && db' == db.(job := db.job.(state := JobState.INVALID), tasks := db'.tasks, leases := db'.leases)
      && AbandonedTasks(db.tasks, db'.tasks) && AllSuperseded(db.leases, db'.leases)
    case VERIFICATION_TIMEOUT => db' == db.(tasks := db'.tasks) && ReadyAgain(db.tasks, db'.tasks, t)
    case INVALID_MODEL =>
      && db' == db.(tasks := db'.tasks, leases := db'.leases, permits := db'.permits, quarantined := db'.quarantined)
      && exists ready :: ReadyAgain(db.tasks, ready, t) && Expelled(db.(tasks := ready), db', session)
  }

  /** A recorded message changes nothing; any other has its verdict's outcome and is recorded. */
  ghost predicate SatFinished(db: Db, db': Db, c: Claim, verdict: SatVerdict, at: nat)
    requires c.m.task in db.tasks
  {
    if Recorded(db.processed, c.session, c.m.message).Some? then db' == db
    else exists settled: Db ::
      && SatOutcome(db, settled, c.m.task, c.session, verdict) && db' == settled.(processed := db'.processed)
      && Noted(db.processed, db'.processed, Processed(c.session, c.m.message, AckResult(c.stale), at))
  }

  lemma QuarantineExpels(db: Db, s: Id)
    ensures Expelled(db, Quarantine(db, s), s)
  {
  }

  lemma SettleSatIsExact(db: Db, c: Claim, verdict: SatVerdict)
    requires c.m.task in db.tasks
    ensures SatOutcome(db, SettleSat(db, c, verdict), c.m.task, c.session, verdict)
  {
    var t := c.m.task;
    if verdict.INVALID_MODEL? {
      var reopened := Reopen(db, t);
      QuarantineExpels(reopened, c.session);
      assert ReadyAgain(db.tasks, reopened.tasks, t) && reopened == db.(tasks := reopened.tasks);
    }
  }

  lemma FinishSatIsExact(db: Db, c: Claim, verdict: SatVerdict, at: nat)
    requires c.m.task in db.tasks
    ensures SatFinished(db, FinishSat(db, c, verdict, at), c, verdict, at)
  {
    if Recorded(db.processed, c.session, c.m.message).None? {
      SettleSatIsExact(db, c, verdict);
      RecordIsNoted(db.processed, c.session, c.m.message, AckResult(c.stale), at);
      assert SatOutcome(db, SettleSat(db, c, verdict), c.m.task, c.session, verdict);
    }
  }

  /** What the outcomes mean when cancelled and satisfied tasks have no holder, as in every run. */
  lemma SatOutcomeMeans(db: Db, db': Db, t: Id, session: Id, verdict: SatVerdict)
    requires t in db.tasks && ROOT in db.tasks && ClosedIsFree(db.tasks) && SatOutcome(db, db', t, session, verdict)
    ensures verdict.VALID_SAT? ==>
      && db'.job.state.SAT_VERIFIED? && AtRest(db') && db'.tasks[t].state.SAT_VERIFIED? && db'.tasks[ROOT].state.SAT_VERIFIED?
      && forall x :: x in db'.tasks ==> db'.tasks[x].state.SAT_VERIFIED? || db'.tasks[x].state.CANCELLED?
    ensures verdict.INVALID_FORMULA? ==>
      && db'.job.state.INVALID? && AtRest(db')
      && forall x :: x in db'.tasks ==> db'.tasks[x].state.UNKNOWN? || db'.tasks[x].state.CANCELLED?
    ensures verdict.INVALID_MODEL? ==>
      session in db'.quarantined && forall l :: l in db'.leases ==> !WorksUnder(db', session, l)
    ensures verdict.INVALID_MODEL? || verdict.VERIFICATION_TIMEOUT? ==>
      !db'.tasks[t].state.VERIFYING_SAT? && (db.tasks[t].state.VERIFYING_SAT? ==> db'.tasks[t].state.READY?)
  {
  }

  // ----- certification climbs the tree -----

  /** The task has exactly two children, both refuted, and they split its cube on one literal. */
  ghost predicate BothRefuted(tasks: map<Id, Task>, p: Id) {
    p in tasks && exists a, b :: IsPair(tasks, p, a, b) && tasks[a].Certified() && tasks[b].Certified()
  }

  ghost predicate IsPair(tasks: map<Id, Task>, p: Id, a: Id, b: Id)
    requires p in tasks
  {
    && a in tasks && b in tasks && a != b
    && (forall c :: c in tasks && tasks[c].parent == Some(p) <==> c == a || c == b)
    && |tasks[a].cube| == |tasks[p].cube| + 1
    && tasks[a].cube == tasks[p].cube + [tasks[a].cube[|tasks[p].cube|]]
    && tasks[b].cube == tasks[p].cube + [-tasks[a].cube[|tasks[p].cube|]]
  }

  ghost predicate RestsOnOwner(tasks: map<Id, Task>, p: Id) {
    exists c :: c in tasks && tasks[c].parent == Some(p) && tasks[c].state.UNSAT_OWNER_VERIFIED?
  }

  predicate Waits(task: Task) {
    task.state.READY? || task.state.LEASED?
  }

  /** `path` leads from `t` upwards; every task on it after `t` was split and is refuted by its two children. */
  ghost predicate Climb(db: Db, db': Db, t: Id, path: seq<Id>) {
    && path != [] && path[0] == t
    && forall i: nat, j: nat :: j == i + 1 && j < |path| ==> Climbed(db, db', path[i], path[j])
  }

  /** The task is certified on its children, and rests on the owner's word exactly if one of them does. */
  ghost predicate Climbed(db: Db, db': Db, child: Id, p: Id) {
    && child in db.tasks && db.tasks[child].parent == Some(p)
    && p in db.tasks && db.tasks[p].state.SPLIT? && p in db'.tasks && BothRefuted(db'.tasks, p)
    && db'.tasks[p] == db.tasks[p].(state :=
         if RestsOnOwner(db'.tasks, p) then TaskState.UNSAT_OWNER_VERIFIED else TaskState.UNSAT_CERTIFIED)
  }

  /** A task off the path changes only when the job closes: work nobody needs any more is cancelled. */
  ghost predicate OffPath(tasks: map<Id, Task>, tasks': map<Id, Task>, path: seq<Id>, closes: bool)
    requires path != []
  {
    && tasks'.Keys == tasks.Keys
    && forall x :: x in tasks && x !in path[1..] ==>
      tasks'[x] == if closes && Waits(tasks[x]) then tasks[x].(state := TaskState.CANCELLED, activeLease := None) else tasks[x]
  }

  /** The climb ends at the root, which closes the job with the root's verdict, or below a task its children do not refute. */
  ghost predicate Top(db: Db, db': Db, top: Id, terminal: Option<Terminal>)
    requires top in db.tasks
  {
    match terminal
    case Some(v) =>
      && top == ROOT && ROOT in db'.tasks && db'.tasks[ROOT].state == TaskStateOf(v)
      && db'.job == db.job.(state := JobStateOf(v)) && AllSuperseded(db.leases, db'.leases)
    case None =>
      && db'.job == db.job && db'.leases == db.leases
      && match db.tasks[top].parent
         case None => top in db'.tasks && !db'.tasks[top].Certified()
         case Some(p) => p in db'.tasks && !(db'.tasks[p].state.SPLIT? && BothRefuted(db'.tasks, p))
  }

  ghost predicate Propagated(db: Db, db': Db, t: Id, terminal: Option<Terminal>, path: seq<Id>) {
    && db' == db.(job := db'.job, tasks := db'.tasks, leases := db'.leases)
    && Climb(db, db', t, path) && OffPath(db.tasks, db'.tasks, path, terminal.Some?)
    && path[|path| - 1] in db.tasks && Top(db, db', path[|path| - 1], terminal)
  }

  lemma TwoElements(children: set<Id>) returns (a: Id, b: Id)
    requires |children| == 2
    ensures a != b && children == {a, b}
  {
    a :| a in children;
    assert |children - {a}| == 1;
    b :| b in children - {a};
    assert |children - {a, b}| == 0;
  }

  lemma CoveredHasPair(db: Db, p: Id)
    requires Covered(db, p)
    ensures BothRefuted(db.tasks, p)
  {
    var a, b := TwoElements(Children(db, p));
    assert a in Children(db, p) && b in Children(db, p);
    ComplementaryPair(db.tasks[p].cube, db.tasks[a].cube, db.tasks[b].cube);
    assert forall c :: c in Children(db, p) <==> c == a || c == b;
    assert IsPair(db.tasks, p, a, b);
  }

  lemma PairCovers(db: Db, p: Id)
    requires p in db.tasks && db.tasks[p].state.SPLIT? && BothRefuted(db.tasks, p)
    ensures Covered(db, p)
  {
    var a, b :| IsPair(db.tasks, p, a, b) && db.tasks[a].Certified() && db.tasks[b].Certified();
    assert Children(db, p) == {a, b};
    var cube := db.tasks[p].cube;
    assert Complementary(cube, db.tasks[a].cube, db.tasks[b].cube) && Complementary(cube, db.tasks[b].cube, db.tasks[a].cube);
  }

  lemma CoveredIsExact(db: Db, p: Id)
    requires p in db.tasks
    ensures Covered(db, p) <==> db.tasks[p].state.SPLIT? && BothRefuted(db.tasks, p)
  {
    if Covered(db, p) {
      CoveredHasPair(db, p);
    } else if db.tasks[p].state.SPLIT? && BothRefuted(db.tasks, p) {
      PairCovers(db, p);
    }
  }

  lemma ComplementaryPair(cube: Cube, left: Cube, right: Cube)
    requires Complementary(cube, left, right)
    ensures left == cube + [left[|cube|]] && right == cube + [-left[|cube|]]
  {
  }

  /** Rows that keep the tree, and the verdicts below `p`, keep what `p` rests on. */
  lemma ChildrenDecide(tasks: map<Id, Task>, tasks': map<Id, Task>, p: Id)
    requires p in tasks && BothRefuted(tasks, p) && SameShape(tasks, tasks')
    requires forall c :: c in tasks && tasks[c].parent == Some(p) ==> tasks'[c].state == tasks[c].state
    ensures BothRefuted(tasks', p) && (RestsOnOwner(tasks', p) <==> RestsOnOwner(tasks, p))
  {
    var a, b :| IsPair(tasks, p, a, b) && tasks[a].Certified() && tasks[b].Certified();
    assert IsPair(tasks', p, a, b);
  }

  lemma ClosesAtRoot(db: Db, v: Terminal)
    requires ROOT in db.tasks && db.tasks[ROOT].state == TaskStateOf(v)
    ensures Propagated(db, CloseUnsat(db, v), ROOT, Some(v), [ROOT])
  {
  }

  lemma StopsAt(db: Db, t: Id)
    requires t in db.tasks
    requires match db.tasks[t].parent
      case None => !db.tasks[t].Certified()
      case Some(p) => p in db.tasks && !Covered(db, p)
    ensures Propagated(db, db, t, None, [t])
  {
    if db.tasks[t].parent.Some? {
      CoveredIsExact(db, db.tasks[t].parent.value);
    }
  }

  /** The path on which `Propagate` climbs from `t`. */
  lemma {:induction false} PropagateIsExact(db: Db, t: Id) returns (path: seq<Id>)
    requires TreeShaped(db.tasks) && t in db.tasks && (db.tasks[t].parent.Some? ==> db.tasks[t].parent.value in db.tasks)
    ensures var (db', terminal) := Propagate(db, db.tasks[t].parent);
      Propagated(db, db', t, terminal, path)
    decreases db.tasks[t].depth
  {
    var (db', terminal) := Propagate(db, db.tasks[t].parent);
    path := [t];
    if db.tasks[t].parent.None? {
      if terminal.Some? { ClosesAtRoot(db, terminal.value); } else { StopsAt(db, t); }
    } else if !Covered(db, db.tasks[t].parent.value) {
      StopsAt(db, t);
    } else {
      var p := db.tasks[t].parent.value;
      var certified := SetTask(db, p, db.tasks[p].(state := TaskStateOf(CoverageOf(db, p))));
      assert Below(db.tasks, t);
      StateKeepsTree(db.tasks, p, TaskStateOf(CoverageOf(db, p)));
      CoveredIsExact(db, p);
      var rest := [p];
      if p == ROOT {
        ClosesAtRoot(certified, CoverageOf(db, p));
      } else {
        rest := PropagateIsExact(certified, p);
      }
      ClimbGrows(db, certified, db', t, p, rest, terminal);
      path := [t] + rest;
    }
  }

  /** Whoever is on the path above its start was split. */
  lemma PathWasSplit(db: Db, db': Db, t: Id, path: seq<Id>)
    requires Climb(db, db', t, path)
    ensures forall x :: x in path[1..] ==> x in db.tasks && db.tasks[x].state.SPLIT?
    ensures forall x :: x in path ==> x == t || x in path[1..]
  {
    forall x | x in path[1..] ensures x in db.tasks && db.tasks[x].state.SPLIT? {
      var i: nat :| i < |path[1..]| && path[1..][i] == x;
      var j := i + 1;
      assert Climbed(db, db', path[i], path[j]);
    }
  }

  /** The rest of the climb leaves `p` as it was certified and its children as they were. */
  lemma ClimbLeaves(db: Db, certified: Db, db': Db, p: Id, rest: seq<Id>, closes: bool)
    requires TreeShaped(db.tasks) && p in db.tasks && BothRefuted(db.tasks, p)
    requires certified == SetTask(db, p, db.tasks[p].(state := TaskStateOf(CoverageOf(db, p))))
    requires Climb(certified, db', p, rest) && OffPath(certified.tasks, db'.tasks, rest, closes)
    ensures p in db'.tasks && db'.tasks[p] == certified.tasks[p]
    ensures forall c :: c in db.tasks && db.tasks[c].parent == Some(p) ==> c in db'.tasks && db'.tasks[c] == db.tasks[c]
  {
    PathWasSplit(certified, db', p, rest);
    var a, b :| IsPair(db.tasks, p, a, b) && db.tasks[a].Certified() && db.tasks[b].Certified();
    forall c | c in db.tasks && db.tasks[c].parent == Some(p) ensures c in db'.tasks && db'.tasks[c] == db.tasks[c] {
      assert Below(db.tasks, c) && (c == a || c == b);
      assert certified.tasks[c] == db.tasks[c];
    }
  }

  /** Rows on the climb keep their place in the tree. */
  lemma ClimbShape(db: Db, db': Db, t: Id, path: seq<Id>, closes: bool)
    requires Climb(db, db', t, path) && OffPath(db.tasks, db'.tasks, path, closes)
    ensures SameShape(db.tasks, db'.tasks)
  {
    forall x | x in db.tasks && x in path[1..]
      ensures db'.tasks[x].parent == db.tasks[x].parent && db'.tasks[x].depth == db.tasks[x].depth && db'.tasks[x].cube == db.tasks[x].cube
    {
      var i: nat :| i < |path[1..]| && path[1..][i] == x;
      var j := i + 1;
      assert Climbed(db, db', path[i], path[j]);
    }
  }

  lemma ClimbPrefix(db: Db, certified: Db, db': Db, t: Id, p: Id, rest: seq<Id>)
    requires p in db.tasks && t in db.tasks && Climbed(db, db', t, p)
    requires certified.tasks == db.tasks[p := db.tasks[p].(state := db'.tasks[p].state)] && Climb(certified, db', p, rest)
    ensures Climb(db, db', t, [t] + rest)
  {
    var path := [t] + rest;
    PathWasSplit(certified, db', p, rest);
    forall i: nat, j: nat | j == i + 1 && j < |path| ensures Climbed(db, db', path[i], path[j]) {
      if i > 0 {
        var k := i - 1;
        assert path[i] == rest[k] && path[j] == rest[i];
        assert Climbed(certified, db', rest[k], rest[i]) && rest[i] in rest[1..];
      }
    }
  }

  lemma OffPathGrows(tasks: map<Id, Task>, certified: map<Id, Task>, tasks': map<Id, Task>, t: Id, p: Id, rest: seq<Id>, closes: bool)
    requires p in tasks && p in certified && certified == tasks[p := certified[p]] && rest != [] && rest[0] == p
    requires OffPath(certified, tasks', rest, closes)
    ensures OffPath(tasks, tasks', [t] + rest, closes)
  {
    assert ([t] + rest)[1..] == rest;
    assert forall x :: x in rest && x !in rest[1..] ==> x == p;
  }

  lemma TopStays(db: Db, certified: Db, db': Db, t: Id, p: Id, rest: seq<Id>, terminal: Option<Terminal>)
    requires p in db.tasks && p in certified.tasks && certified == SetTask(db, p, certified.tasks[p])
    requires certified.tasks[p].parent == db.tasks[p].parent && Propagated(certified, db', p, terminal, rest)
    ensures var path := [t] + rest;
      path[|path| - 1] in db.tasks && Top(db, db', path[|path| - 1], terminal)
  {
    var path := [t] + rest;
    assert path[|path| - 1] == rest[|rest| - 1];
  }

  lemma ClimbGrows(db: Db, certified: Db, db': Db, t: Id, p: Id, rest: seq<Id>, terminal: Option<Terminal>)
    requires TreeShaped(db.tasks) && t in db.tasks && db.tasks[t].parent == Some(p) && p in db.tasks
    requires db.tasks[p].state.SPLIT? && BothRefuted(db.tasks, p)
    requires certified == SetTask(db, p, db.tasks[p].(state := TaskStateOf(CoverageOf(db, p))))
    requires Propagated(certified, db', p, terminal, rest)
    ensures Propagated(db, db', t, terminal, [t] + rest)
  {
    FirstIsClimbed(db, certified, db', t, p, rest, terminal);
    ClimbPrefix(db, certified, db', t, p, rest);
    OffPathGrows(db.tasks, certified.tasks, db'.tasks, t, p, rest, terminal.Some?);
    TopStays(db, certified, db', t, p, rest, terminal);
  }

  lemma FirstIsClimbed(db: Db, certified: Db, db': Db, t: Id, p: Id, rest: seq<Id>, terminal: Option<Terminal>)
    requires TreeShaped(db.tasks) && t in db.tasks && db.tasks[t].parent == Some(p) && p in db.tasks
    requires db.tasks[p].state.SPLIT? && BothRefuted(db.tasks, p)
    requires certified == SetTask(db, p, db.tasks[p].(state := TaskStateOf(CoverageOf(db, p))))
    requires Propagated(certified, db', p, terminal, rest)
    ensures Climbed(db, db', t, p) && p in db'.tasks && certified.tasks == db.tasks[p := db.tasks[p].(state := db'.tasks[p].state)]
  {
    ClimbLeaves(db, certified, db', p, rest, terminal.Some?);
    ClimbShape(certified, db', p, rest, terminal.Some?);
    ChildrenDecide(db.tasks, db'.tasks, p);
    CoverageIsOwner(db, p);
  }

  lemma CoverageIsOwner(db: Db, p: Id)
    ensures CoverageOf(db, p) == if RestsOnOwner(db.tasks, p) then OWNER_CHECKED else CERTIFIED
  {
    assert forall c :: c in Children(db, p) <==> c in db.tasks && db.tasks[c].parent == Some(p);
  }

  // ----- the end of a proof check -----

  ghost predicate ProofMarked(proofs: map<Id, Proof>, proofs': map<Id, Proof>, artifact: Id, status: ProofStatus) {
    && proofs'.Keys == proofs.Keys
    && forall a :: a in proofs ==> proofs'[a] == if a == artifact then proofs[a].(status := status) else proofs[a]
  }

  /** The row of one task changes as told; no other row does. */
  ghost predicate TaskBecomes(tasks: map<Id, Task>, tasks': map<Id, Task>, t: Id, task: Task) {
    tasks'.Keys == tasks.Keys && t in tasks && tasks'[t] == task && forall x :: x in tasks && x != t ==> tasks'[x] == tasks[x]
  }

  /** The task is certified under its proof, and certification climbs from there. */
  ghost predicate ProofAccepted(db: Db, db': Db, t: Id, artifact: Id, terminal: Option<Terminal>, certified: Db, path: seq<Id>)
    requires t in db.tasks
  {
    && certified == db.(tasks := certified.tasks, proofs := certified.proofs)
    && ProofMarked(db.proofs, certified.proofs, artifact, SERVER_CERTIFIED)
    && TaskBecomes(db.tasks, certified.tasks, t, db.tasks[t].(state := TaskState.UNSAT_CERTIFIED))
    && Propagated(certified, db', t, terminal, path)
  }

  /** The proof is bad, its task asks for another one, and its session is expelled. */
  ghost predicate ProofRejected(db: Db, db': Db, t: Id, artifact: Id, session: Id, rejected: Db)
    requires t in db.tasks
  {
    && rejected == db.(tasks := rejected.tasks, proofs := rejected.proofs)
    && ProofMarked(db.proofs, rejected.proofs, artifact, ProofStatus.INVALID)
    && TaskBecomes(db.tasks, rejected.tasks, t, db.tasks[t].(state := READY, proofRequired := true, activeLease := None))
    && db' == rejected.(tasks := db'.tasks, leases := db'.leases, permits := db'.permits, quarantined := db'.quarantined)
    && Expelled(rejected, db', session)
  }

  /** The tables after each verdict of a proof check, apart from the log. */
  ghost predicate ProofOutcome(db: Db, db': Db, t: Id, artifact: Id, session: Id, verdict: UnsatVerdict, terminal: Option<Terminal>)
    requires t in db.tasks
  {
    match verdict
    case VALID_UNSAT => exists certified, path :: ProofAccepted(db, db', t, artifact, terminal, certified, path)
    case OWNER_CHECK_REQUIRED =>
      && terminal.None? && db' == db.(proofs := db'.proofs)
      && ProofMarked(db.proofs, db'.proofs, artifact, ProofStatus.OWNER_CHECK_REQUIRED)
    case INVALID_FORMULA =>
      && terminal.None? && db' == db.(job := db.job.(state := JobState.INVALID), tasks := db'.tasks, leases := db'.leases)
      && AbandonedTasks(db.tasks, db'.tasks) && AllSuperseded(db.leases, db'.leases)
    case VERIFICATION_TIMEOUT =>
      && terminal.None? && db' == db.(tasks := db'.tasks)
      && TaskBecomes(db.tasks, db'.tasks, t, db.tasks[t].(state := READY, proofRequired := true))
    case INVALID_PROOF => terminal.None? && exists rejected :: ProofRejected(db, db', t, artifact, session, rejected)
  }

  ghost predicate ProofFinished(db: Db, db': Db, c: Claim, verdict: UnsatVerdict, at: nat, terminal: Option<Terminal>)
    requires c.m.task in db.tasks && c.m.manifest.UnsatProof?
  {
    if Recorded(db.processed, c.session, c.m.message).Some? then db' == db && terminal.None?
    else exists settled: Db ::
      && ProofOutcome(db, settled, c.m.task, c.m.manifest.artifact, c.session, verdict, terminal)
      && db' == settled.(processed := db'.processed)
      && Noted(db.processed, db'.processed, Processed(c.session, c.m.message, AckResult(c.stale), at))
  }

  lemma ProofIsMarked(db: Db, artifact: Id, status: ProofStatus)
    ensures ProofMarked(db.proofs, SetProofStatus(db, artifact, status).proofs, artifact, status)
    ensures SetProofStatus(db, artifact, status) == db.(proofs := SetProofStatus(db, artifact, status).proofs)
  {
  }

  lemma SettleUnsatIsExact(db: Db, c: Claim, verdict: UnsatVerdict)
    requires TreeShaped(db.tasks) && c.m.task in db.tasks && c.m.manifest.UnsatProof?
    ensures var (db', terminal) := SettleUnsat(db, c, verdict);
      ProofOutcome(db, db', c.m.task, c.m.manifest.artifact, c.session, verdict, terminal) && db'.processed == db.processed
  {
    var t, artifact := c.m.task, c.m.manifest.artifact;
    var (db', terminal) := SettleUnsat(db, c, verdict);
    match verdict {
      case VALID_UNSAT =>
        var certified := CertifyTask(db, t, artifact, CERTIFIED, SERVER_CERTIFIED);
        ProofIsMarked(db, artifact, SERVER_CERTIFIED);
        CertifyKeepsTree(db, t, artifact, CERTIFIED, SERVER_CERTIFIED);
        var path := PropagateIsExact(certified, t);
        assert TaskBecomes(db.tasks, certified.tasks, t, db.tasks[t].(state := TaskState.UNSAT_CERTIFIED));
        assert ProofAccepted(db, db', t, artifact, terminal, certified, path);
      case INVALID_PROOF =>
        var rejected := RejectProof(db, t, artifact);
        ProofIsMarked(db, artifact, ProofStatus.INVALID);
        QuarantineExpels(rejected, c.session);
        assert ProofRejected(db, db', t, artifact, c.session, rejected);
      case OWNER_CHECK_REQUIRED => ProofIsMarked(db, artifact, ProofStatus.OWNER_CHECK_REQUIRED);
      case _ =>
    }
  }

  lemma FinishUnsatIsExact(db: Db, c: Claim, verdict: UnsatVerdict, at: nat)
    requires TreeShaped(db.tasks) && c.m.task in db.tasks && c.m.manifest.UnsatProof?
    ensures var (db', terminal) := FinishUnsat(db, c, verdict, at);
      ProofFinished(db, db', c, verdict, at, terminal)
  {
    if Recorded(db.processed, c.session, c.m.message).None? {
      SettleUnsatIsExact(db, c, verdict);
      RecordIsNoted(db.processed, c.session, c.m.message, AckResult(c.stale), at);
    }
  }

  lemma PropagatedMeans(db: Db, db': Db, t: Id, terminal: Option<Terminal>, path: seq<Id>)
    requires t in db.tasks && Propagated(db, db', t, terminal, path)
    ensures db.tasks[t].Certified() ==> t in db'.tasks && db'.tasks[t] == db.tasks[t]
    ensures terminal.Some? ==> db'.job.state == JobStateOf(terminal.value) && forall l :: l in db'.leases ==> !db'.leases[l].status.ACTIVE?
    ensures terminal.None? ==> db'.job == db.job
  {
    PathWasSplit(db, db', t, path);
  }

  /** A valid proof certifies its task, and closes the job exactly when certification reaches the root. */
  lemma ValidUnsatMeans(db: Db, db': Db, t: Id, artifact: Id, session: Id, terminal: Option<Terminal>)
    requires t in db.tasks && ProofOutcome(db, db', t, artifact, session, UnsatVerdict.VALID_UNSAT, terminal)
    ensures t in db'.tasks && db'.tasks[t] == db.tasks[t].(state := TaskState.UNSAT_CERTIFIED)
    ensures artifact in db.proofs ==> artifact in db'.proofs && db'.proofs[artifact].status.SERVER_CERTIFIED?
    ensures terminal.Some? ==> db'.job.state == JobStateOf(terminal.value) && forall l :: l in db'.leases ==> !db'.leases[l].status.ACTIVE?
    ensures terminal.None? ==> db'.job == db.job
  {
    var certified: Db, path :| ProofAccepted(db, db', t, artifact, terminal, certified, path);
    PropagatedMeans(certified, db', t, terminal, path);
  }

  lemma ExpelledMeans(db: Db, db': Db, session: Id)
    requires Expelled(db, db', session)
    ensures session in db'.quarantined && forall l :: l in db'.leases ==> !WorksUnder(db', session, l)
    ensures forall t :: t in db.tasks && db.tasks[t].activeLease.None? ==> t in db'.tasks && db'.tasks[t] == db.tasks[t]
  {
  }

  /** A bad proof sends its task back for another one and its session away. */
  lemma InvalidProofMeans(db: Db, db': Db, t: Id, artifact: Id, session: Id, terminal: Option<Terminal>)
    requires t in db.tasks && ProofOutcome(db, db', t, artifact, session, UnsatVerdict.INVALID_PROOF, terminal)
    ensures t in db'.tasks && db'.tasks[t] == db.tasks[t].(state := READY, proofRequired := true, activeLease := None)
    ensures artifact in db.proofs ==> artifact in db'.proofs && db'.proofs[artifact].status == ProofStatus.INVALID
    ensures session in db'.quarantined && forall l :: l in db'.leases ==> !WorksUnder(db', session, l)
    ensures terminal.None? && db'.job == db.job
  {
    var rejected: Db :| ProofRejected(db, db', t, artifact, session, rejected);
    ExpelledMeans(rejected, db', session);
  }

  // ----- the owner's confirmation -----

  /** Accepted for a proof that waits for it, under its digest; a task still being checked is then refuted on the owner's word. */
  ghost predicate OwnerOutcome(db: Db, db': Db, artifact: Id, sha256: Id, terminal: Option<Terminal>) {
    if artifact !in db.proofs || !db.proofs[artifact].status.OWNER_CHECK_REQUIRED? || db.proofs[artifact].sha256 != sha256
    then db' == db && terminal.None?
    else
      var t := db.proofs[artifact].task;
      t in db.tasks && exists confirmed: Db, path ::
        && confirmed == db.(tasks := confirmed.tasks, proofs := confirmed.proofs)
        && ProofMarked(db.proofs, confirmed.proofs, artifact, OWNER_VERIFIED)
        && TaskBecomes(db.tasks, confirmed.tasks, t,
             if db.tasks[t].state.VERIFYING_UNSAT? then db.tasks[t].(state := TaskState.UNSAT_OWNER_VERIFIED) else db.tasks[t])
        && Propagated(confirmed, db', t, terminal, path)
  }

  lemma ConfirmIsExact(db: Db, artifact: Id, sha256: Id)
    requires TreeShaped(db.tasks) && (artifact in db.proofs ==> db.proofs[artifact].task in db.tasks)
    ensures var (db', terminal) := ConfirmOwner(db, artifact, sha256);
      OwnerOutcome(db, db', artifact, sha256, terminal)
  {
    var (db', terminal) := ConfirmOwner(db, artifact, sha256);
    if artifact in db.proofs && db.proofs[artifact].status.OWNER_CHECK_REQUIRED? && db.proofs[artifact].sha256 == sha256 {
      var t := db.proofs[artifact].task;
      var task := if db.tasks[t].state.VERIFYING_UNSAT? then db.tasks[t].(state := TaskState.UNSAT_OWNER_VERIFIED) else db.tasks[t];
      var confirmed := if db.tasks[t].state.VERIFYING_UNSAT? then CertifyTask(db, t, artifact, OWNER_CHECKED, OWNER_VERIFIED)
                       else SetProofStatus(db, artifact, OWNER_VERIFIED);
      ProofIsMarked(db, artifact, OWNER_VERIFIED);
      CertifyKeepsTree(db, t, artifact, OWNER_CHECKED, OWNER_VERIFIED);
      var path := PropagateIsExact(confirmed, t);
      assert TaskBecomes(db.tasks, confirmed.tasks, t, task);
      assert Propagated(confirmed, db', t, terminal, path);
    }
  }
}
