/**
 Work really can run out in a live job.  A task that was already split is reopened by a late SAT
 claim whose check times out, is leased and split again, and then has four children; when all four
 are certified the coverage check, which wants two, never accepts them.
 */
module StallCounterexample {
  import opened Wrappers
  import opened Cnf
  import opened Rows
  import opened CoordinatorTables
  import opened LeaseSafety
  import opened FrontierBudget
  import opened ProofBudget
  import opened SearchSafety
  import opened SearchSteps
  import opened CoordinatorRuns
  import opened CoordinatorTheorems

  const SESSION := Id(1)
  const SLOT := Id(2)
  const SPARE := Id(3)
  const HASH := Id(4)
  const LIFETIME := 86_400_000

  // ----- runs grow at their end -----

  ghost predicate Occurs(f: Formula, s: System) {
    exists trace, steps :: Run(f, trace, steps) && trace[|steps|] == s
  }

  lemma Extend(f: Formula, s: System, step: Timed) returns (s': System)
    requires Occurs(f, s) && Enabled(f, s, step)
    ensures Runnable(s.db, step.event) && s' == Step(s, step) && Occurs(f, s')
  {
    var trace, steps :| Run(f, trace, steps) && trace[|steps|] == s;
    RunsContinue(f, trace, steps, step);
    s' := Step(s, step);
    assert (trace + [s'])[|steps + [step]|] == s';
  }

  // ----- the scene: the root, some children, nothing else -----

  ghost predicate JobReady(db: Db) {
    Live(db.job) && db.job.formulaHash == HASH && db.job.variableCount == 1 && db.job.expiresAt == LIFETIME &&
    SESSION in db.proofCapable && SESSION !in db.quarantined
  }

  predicate Row(task: Task, state: TaskState, proofRequired: bool, holder: Option<Id>) {
    task.state == state && task.proofRequired == proofRequired && task.activeLease == holder
  }

  predicate RootShape(task: Task) {
    task.parent.None? && task.depth == 0 && task.cube == []
  }

  predicate ChildShape(task: Task) {
    task.parent == Some(ROOT) && task.depth == 1 && |task.cube| == 1
  }

  /** The children are either waiting for work or certified; the root and a child being worked on are left open. */
  ghost predicate Family(tasks: map<Id, Task>, waiting: set<Id>, done: set<Id>, others: set<Id>) {
    && (forall k :: k in tasks <==> k == ROOT || k in waiting || k in done || k in others)
    && (forall k :: k in waiting ==> k != ROOT && k !in done && k !in others && Row(tasks[k], READY, false, None))
    && (forall k :: k in done ==> k != ROOT && k !in others && tasks[k].state.UNSAT_CERTIFIED?)
    && (forall k :: k in others ==> k != ROOT)
    && RootShape(tasks[ROOT])
    && (forall k :: k in tasks && k != ROOT ==> ChildShape(tasks[k]))
  }

  predicate LogBelow(log: seq<Processed>, n: nat) {
    forall i :: 0 <= i < |log| ==> log[i].message.n < n
  }

  /** Identifiers from `n` on are unused. */
  ghost predicate Unused(db: Db, n: nat) {
    && n > 0
    && (forall t :: t in db.tasks ==> t.n < n)
    && (forall l :: l in db.leases ==> l.n < n)
    && (forall p :: p in db.permits ==> p.n < n)
    && (forall a :: a in db.proofs ==> a.n < n)
    && (forall k :: k in db.objects ==> k.n < n)
    && LogBelow(db.processed, n)
  }

  ghost predicate Scene(db: Db, n: nat, size: nat, waiting: set<Id>, done: set<Id>, others: set<Id>) {
    JobReady(db) && Family(db.tasks, waiting, done, others) && Unused(db, n) && TotalBytes(db.proofs) <= n <= 1_000 &&
    |db.tasks| == size &&
    forall p :: p in db.permits ==> !db.permits[p].status.ACTIVE?
  }

  /** A run has come to a scene at time `now`, with no upload under way. */
  ghost predicate Reaches(f: Formula, s: System, now: nat, n: nat, size: nat, waiting: set<Id>, done: set<Id>, others: set<Id>) {
    Occurs(f, s) && s.uploads == {} && s.clock == now <= 10_000 && Scene(s.db, n, size, waiting, done, others)
  }

  ghost predicate Idle(db: Db) {
    forall l :: l in db.leases ==> !db.leases[l].status.ACTIVE?
  }

  /** The session's first slot works on `t` under lease `l`, and nobody else works. */
  ghost predicate Working(db: Db, l: Id, t: Id) {
    && l in db.leases && db.leases[l].status.ACTIVE? && db.leases[l].task == t
    && db.leases[l].session == SESSION && db.leases[l].slot == SLOT && db.leases[l].expiresAt > 20_000
    && t in db.tasks && db.tasks[t].state.LEASED? && db.tasks[t].activeLease == Some(l)
    && forall k :: k in db.leases && k != l ==> !db.leases[k].status.ACTIVE?
  }

  lemma {:induction false} UnusedMessage(log: seq<Processed>, n: nat)
    requires LogBelow(log, n)
    ensures Recorded(log, SESSION, Id(n)).None?
  {
    if log != [] {
      assert log[0].message.n < n;
      assert LogBelow(log[1..], n) by {
        forall i | 0 <= i < |log[1..]| ensures log[1..][i].message.n < n {
          assert log[1..][i] == log[i + 1];
        }
      }
      UnusedMessage(log[1..], n);
    }
  }

  lemma {:induction false} PruneBelow(log: seq<Processed>, n: nat)
    requires LogBelow(log, n)
    ensures LogBelow(Prune(log), n)
    decreases |log|
  {
    if |log| > PROCESSED_MESSAGE_LIMIT {
      var i := Oldest(log);
      PruneBelow(log[..i] + log[i + 1..], n);
    }
  }

  lemma RecordBelow(log: seq<Processed>, n: nat, reply: Reply, now: nat)
    requires LogBelow(log, n)
    ensures LogBelow(Record(log, SESSION, Id(n), reply, now), n + 1)
  {
    UnusedMessage(log, n);
    PruneBelow(log + [Processed(SESSION, Id(n), reply, now)], n + 1);
  }

  // ----- dispatch -----

  /** One row of a task outside `waiting` and `done` is rewritten. */
  lemma FamilyKeeps(tasks: map<Id, Task>, waiting: set<Id>, done: set<Id>, others: set<Id>, t: Id, task: Task)
    requires Family(tasks, waiting, done, others) && (t in others || t == ROOT)
    requires task.parent == tasks[t].parent && task.depth == tasks[t].depth && task.cube == tasks[t].cube
    ensures Family(tasks[t := task], waiting, done, others)
  {
  }

  lemma GrantScene(db: Db, n: nat, size: nat, waiting: set<Id>, done: set<Id>, others: set<Id>, t: Id, now: nat)
    requires Scene(db, n, size, waiting, done, others) && Idle(db) && n < 1_000 && now <= 10_000
    requires t in others || t == ROOT
    ensures var db' := Grant(db, SESSION, SLOT, now, Id(n), t);
      Scene(db', n + 1, size, waiting, done, others) && Working(db', Id(n), t)
  {
    var db' := Grant(db, SESSION, SLOT, now, Id(n), t);
    FamilyKeeps(db.tasks, waiting, done, others, t, db'.tasks[t]);
  }

  lemma Dispatched(f: Formula, s: System, now: nat, n: nat,
                   size: nat, waiting: set<Id>, done: set<Id>, others: set<Id>, t: Id)
    returns (s': System)
    requires Reaches(f, s, now, n, size, waiting, done, others) && Idle(s.db) && n < 1_000
    requires t in others || t == ROOT
    requires IsEarliest(Leasable(s.db, true), DispatchOrder(s.db), t)
    ensures Reaches(f, s', now, n + 1, size, waiting, done, others)
    ensures Working(s'.db, Id(n), t) && s'.db.leases[Id(n)].issuedAt == now && s'.db.proofs == s.db.proofs && s'.db.processed == s.db.processed
    ensures t in s.db.tasks && s'.db.tasks[t].proofRequired == s.db.tasks[t].proofRequired
    ensures t != ROOT ==> s'.db.tasks[ROOT] == s.db.tasks[ROOT]
  {
    var db := s.db;
    var work := Leasable(db, true);
    EarliestIsUnique(work, DispatchOrder(db), t, Earliest(work, DispatchOrder(db)));
    s' := Extend(f, s, Timed(Dispatch(SESSION, SLOT, Id(n)), now));
    assert s'.db == LeaseWork(db, SESSION, SLOT, now, Id(n)) == Grant(db, SESSION, SLOT, now, Id(n), t);
    GrantScene(db, n, size, waiting, done, others, t, now);
  }

  // ----- results -----

  function Message(n: nat, lease: Id, db: Db, t: Id, manifest: Manifest): ResultMessage
    requires t in db.tasks
  {
    ResultMessage(Id(n), SLOT, t, lease, HASH, db.tasks[t].cube, true, manifest)
  }

  function ClaimOf(n: nat, lease: Id, db: Db, t: Id, manifest: Manifest, now: nat): Claim
    requires t in db.tasks && lease in db.leases
  {
    var row, task := db.leases[lease], db.tasks[t];
    Claim(SESSION, Message(n, lease, db, t, manifest), row, task,
          !row.status.ACTIVE? || row.expiresAt <= now || task.activeLease != Some(lease), now)
  }

  /** The session reports on a lease of its own, old or new, and the claim is entered at once. */
  lemma Reported(f: Formula, s: System, now: nat, n: nat, size: nat, waiting: set<Id>, done: set<Id>, others: set<Id>,
                 l: Id, t: Id, manifest: Manifest)
    returns (s': System)
    requires Reaches(f, s, now, n, size, waiting, done, others)
    requires l in s.db.leases && s.db.leases[l].task == t
    requires s.db.leases[l].session == SESSION && s.db.leases[l].slot == SLOT
    requires t in s.db.tasks && !s.db.tasks[t].state.CANCELLED?
    ensures Occurs(f, s')
    ensures s' == EnterClaim(s.(received := s'.received),
                                       ClaimOf(n, l, s.db, t, manifest, now)).(clock := now)
  {
    var db, c := s.db, ClaimOf(n, l, s.db, t, manifest, now);
    UnusedMessage(db.processed, n);
    assert ReceiveResult(db, SESSION, c.m, now) == Ok(c);
    s' := Extend(f, s, Timed(Report(SESSION, c.m), now));
    s' := Extend(f, s', Timed(Enter(c), now));
  }

  lemma CandidateScene(db: Db, n: nat, size: nat, waiting: set<Id>, done: set<Id>, others: set<Id>, l: Id, t: Id, now: nat)
    requires Scene(db, n, size, waiting, done, others) && Working(db, l, t) && n < 1_000 && now <= 10_000
    requires t in others && !db.tasks[t].proofRequired
    ensures var db' := EnterCandidate(db, ClaimOf(n, l, db, t, UnsatCandidate, now)).0;
      Scene(db', n + 1, size, waiting, done, others) && Idle(db') && Row(db'.tasks[t], READY, true, None) &&
      db'.tasks == db.tasks[t := db'.tasks[t]]
  {
    var c := ClaimOf(n, l, db, t, UnsatCandidate, now);
    var requested := RequestProof(db, c);
    UnusedMessage(db.processed, n);
    RecordBelow(db.processed, n, AckResult(c.stale), now);
    FamilyKeeps(db.tasks, waiting, done, others, t, requested.tasks[t]);
  }

  // ----- the proof -----

  function Evidence(l: Id): Manifest {
    UnsatProof(l, HASH, 1, 1)
  }

  lemma UploadScene(db: Db, n: nat, size: nat, waiting: set<Id>, done: set<Id>, others: set<Id>, l: Id, t: Id, now: nat)
    requires Scene(db, n, size, waiting, done, others) && Working(db, l, t) && n < 1_000 && now <= 10_000
    requires t in others && db.tasks[t].proofRequired && l !in db.proofs
    ensures var put := PutProof(db, l, 1, 1, Id(n), now);
      var kept := CommitProof(put.0, l, HASH, 1, 1, Id(n), now);
      put.1 && put.0.objects == db.objects + {Id(n)} && kept.1 && kept.0 == db.(objects := put.0.objects, proofs := kept.0.proofs) &&
      Scene(kept.0, n + 1, size, waiting, done, others) && Working(kept.0, l, t) &&
      l in kept.0.proofs && kept.0.proofs[l] == Proof(t, HASH, 1, 1, Some(Id(n)), UPLOADED)
  {
    var put := PutProof(db, l, 1, 1, Id(n), now);
    assert put.0 == db.(objects := db.objects + {Id(n)});
    var kept := CommitProof(put.0, l, HASH, 1, 1, Id(n), now).0;
    assert kept.proofs.Keys - {l} == db.proofs.Keys;
    SumRemove(kept.proofs, kept.proofs.Keys, l);
    SumUnaffected(db.proofs, kept.proofs, db.proofs.Keys);
  }

  lemma Uploaded(f: Formula, s: System, now: nat, n: nat, size: nat, waiting: set<Id>, done: set<Id>, others: set<Id>,
                 l: Id, t: Id)
    returns (s': System)
    requires Reaches(f, s, now, n, size, waiting, done, others) && Working(s.db, l, t) && n < 1_000
    requires t in others && s.db.tasks[t].proofRequired && l !in s.db.proofs
    ensures Reaches(f, s', now, n + 1, size, waiting, done, others) && Working(s'.db, l, t)
    ensures s'.db.tasks == s.db.tasks
    ensures l in s'.db.proofs && s'.db.proofs[l] == Proof(t, HASH, 1, 1, Some(Id(n)), UPLOADED)
  {
    var db, u := s.db, Upload(l, HASH, 1, 1, Id(n));
    UploadScene(db, n, size, waiting, done, others, l, t, now);
    var arrived := Extend(f, s, Timed(ProofArrives(u), now));
    assert arrived == s.(db := db.(objects := db.objects + {Id(n)}), uploads := {u});
    s' := Stored(f, arrived, u, now);
  }

  lemma Stored(f: Formula, s: System, u: Upload, now: nat) returns (s': System)
    requires Occurs(f, s) && s.uploads == {u} && s.clock == now
    ensures Occurs(f, s') && s'.uploads == {} && s'.clock == now
    ensures s'.db == CommitProof(s.db, u.lease, u.sha256, u.bytes, u.decompressedBytes, u.key, now).0
  {
    s' := Extend(f, s, Timed(ProofStored(u), now));
  }

  lemma ProofScene(db: Db, n: nat, size: nat, waiting: set<Id>, done: set<Id>, others: set<Id>, l: Id, t: Id, now: nat)
    requires Scene(db, n, size, waiting, done, others) && Working(db, l, t) && n < 1_000 && now <= 10_000
    requires t in others && db.tasks[t].proofRequired
    requires l in db.proofs && db.proofs[l] == Proof(t, HASH, 1, 1, db.proofs[l].objectKey, UPLOADED)
    ensures var c := ClaimOf(n, l, db, t, Evidence(l), now);
      ProofClaimBound(db, c) &&
      var db' := EnterProof(db, c);
      Scene(db', n, size, waiting, done, others) && Idle(db') && db'.tasks == db.tasks[t := db'.tasks[t]] && db'.proofs == db.proofs
  {
    var c := ClaimOf(n, l, db, t, Evidence(l), now);
    FamilyKeeps(db.tasks, waiting, done, others, t, EnterProof(db, c).tasks[t]);
  }

  lemma FamilyTree(tasks: map<Id, Task>, waiting: set<Id>, done: set<Id>, others: set<Id>)
    requires Family(tasks, waiting, done, others)
    ensures TreeShaped(tasks)
  {
    assert forall k :: k in tasks && tasks[k].parent.Some? ==> Below(tasks, k);
  }

  /** With more than two children the coverage check fails for good. */
  lemma NeverCovers(db: Db, waiting: set<Id>, done: set<Id>, others: set<Id>)
    requires Family(db.tasks, waiting, done, others) && |db.tasks| > 3
    ensures TreeShaped(db.tasks) && |Children(db, ROOT)| > 2
    ensures Propagate(db, Some(ROOT)) == (db, None)
  {
    FamilyTree(db.tasks, waiting, done, others);
    assert Children(db, ROOT) == db.tasks.Keys - {ROOT};
    assert |db.tasks| == |db.tasks.Keys|;
  }

  lemma CertifiedScene(db: Db, n: nat, size: nat, waiting: set<Id>, done: set<Id>, l: Id, t: Id)
    requires Scene(db, n, size, waiting, done, {t})
    ensures var certified := CertifyTask(db, t, l, CERTIFIED, SERVER_CERTIFIED);
      Scene(certified, n, size, waiting, done + {t}, {}) && certified.tasks == db.tasks[t := certified.tasks[t]]
  {
    var certified := CertifyTask(db, t, l, CERTIFIED, SERVER_CERTIFIED);
    CertifiedFamily(db.tasks, waiting, done, t, certified.tasks[t]);
    StatusKeepsBytes(db, l, SERVER_CERTIFIED);
  }

  lemma CertifiedFamily(tasks: map<Id, Task>, waiting: set<Id>, done: set<Id>, t: Id, task: Task)
    requires Family(tasks, waiting, done, {t}) && task == tasks[t].(state := TaskState.UNSAT_CERTIFIED)
    ensures Family(tasks[t := task], waiting, done + {t}, {}) && |tasks[t := task]| == |tasks|
  {
  }

  lemma StatusKeepsBytes(db: Db, l: Id, status: ProofStatus)
    ensures var db' := SetProofStatus(db, l, status); db'.proofs.Keys == db.proofs.Keys && TotalBytes(db'.proofs) == TotalBytes(db.proofs)
  {
    SumUnaffected(db.proofs, SetProofStatus(db, l, status).proofs, db.proofs.Keys);
  }

  lemma LoggedScene(db: Db, n: nat, size: nat, waiting: set<Id>, done: set<Id>, others: set<Id>, c: Claim, now: nat)
    requires Scene(db, n, size, waiting, done, others) && n < 1_000 && c.session == SESSION && c.m.message == Id(n)
    ensures Scene(Logged(db, c, now), n + 1, size, waiting, done, others)
  {
    RecordBelow(db.processed, n, AckResult(c.stale), now);
  }

  lemma FinishScene(db: Db, n: nat, size: nat, waiting: set<Id>, done: set<Id>, l: Id, t: Id, c: Claim, now: nat)
    requires Scene(db, n, size, waiting, done, {t}) && n < 1_000 && size > 3
    requires c.session == SESSION && c.m.message == Id(n) && c.m.task == t && c.m.manifest == Evidence(l)
    ensures TreeShaped(db.tasks)
    ensures var db' := FinishUnsat(db, c, VALID_UNSAT, now).0;
      Scene(db', n + 1, size, waiting, done + {t}, {}) && db'.leases == db.leases && db'.tasks == db.tasks[t := db'.tasks[t]]
  {
    var certified := CertifyTask(db, t, l, CERTIFIED, SERVER_CERTIFIED);
    CertifiedScene(db, n, size, waiting, done, l, t);
    LoggedScene(certified, n, size, waiting, done + {t}, {}, c, now);
    FinishIsLogged(db, n, waiting, done, l, t, c, now);
  }

  lemma FinishIsLogged(db: Db, n: nat, waiting: set<Id>, done: set<Id>, l: Id, t: Id, c: Claim, now: nat)
    requires Family(db.tasks, waiting, done, {t}) && LogBelow(db.processed, n) && |db.tasks| > 3
    requires c.session == SESSION && c.m.message == Id(n) && c.m.task == t && c.m.manifest == Evidence(l)
    ensures TreeShaped(db.tasks)
    ensures FinishUnsat(db, c, VALID_UNSAT, now).0 == Logged(CertifyTask(db, t, l, CERTIFIED, SERVER_CERTIFIED), c, now)
  {
    var certified := CertifyTask(db, t, l, CERTIFIED, SERVER_CERTIFIED);
    FamilyTree(db.tasks, waiting, done, {t});
    UnusedMessage(db.processed, n);
    FamilyKeeps(db.tasks, waiting, done, {t}, t, certified.tasks[t]);
    NeverCovers(certified, waiting, done, {t});
  }

  // ----- one child is certified -----

  lemma PickChild(db: Db, n: nat, size: nat, waiting: set<Id>, done: set<Id>) returns (t: Id)
    requires Scene(db, n, size, waiting, done, {}) && db.tasks[ROOT].state.SPLIT? && waiting != {}
    ensures t in waiting && Scene(db, n, size, waiting - {t}, done, {t}) && !db.tasks[t].proofRequired
    ensures IsEarliest(Leasable(db, true), DispatchOrder(db), t)
  {
    assert Leasable(db, true) == waiting;
    t := Earliest(waiting, DispatchOrder(db));
  }

  lemma ProofFirst(db: Db, n: nat, size: nat, waiting: set<Id>, done: set<Id>, t: Id)
    requires Scene(db, n, size, waiting, done, {t}) && db.tasks[ROOT].state.SPLIT? && Row(db.tasks[t], READY, true, None)
    ensures IsEarliest(Leasable(db, true), DispatchOrder(db), t)
  {
    assert forall k :: k in Leasable(db, true) ==> k in waiting || k == t;
  }

  ghost predicate Stalling(f: Formula, s: System, now: nat, n: nat, size: nat, waiting: set<Id>, done: set<Id>) {
    Reaches(f, s, now, n, size, waiting, done, {}) && Idle(s.db) && s.db.tasks[ROOT].state.SPLIT? &&
    size > 3
  }

  lemma CandidateReported(f: Formula, s: System, now: nat, n: nat, size: nat, waiting: set<Id>, done: set<Id>, l: Id, t: Id) returns (s': System)
    requires Reaches(f, s, now, n, size, waiting, done, {t}) && Working(s.db, l, t) && !s.db.tasks[t].proofRequired && n < 1_000
    ensures Reaches(f, s', now, n + 1, size, waiting, done, {t}) && Idle(s'.db)
    ensures s'.db.tasks[ROOT] == s.db.tasks[ROOT] && Row(s'.db.tasks[t], READY, true, None)
  {
    CandidateScene(s.db, n, size, waiting, done, {t}, l, t, now);
    s' := Reported(f, s, now, n, size, waiting, done, {t}, l, t, UnsatCandidate);
  }

  lemma ProofReported(f: Formula, s: System, now: nat, n: nat, size: nat, waiting: set<Id>, done: set<Id>, l: Id, t: Id)
    returns (s': System, c: Claim)
    requires Reaches(f, s, now, n, size, waiting, done, {t}) && Working(s.db, l, t) && s.db.tasks[t].proofRequired && n < 1_000
    requires l in s.db.proofs && s.db.proofs[l] == Proof(t, HASH, 1, 1, s.db.proofs[l].objectKey, UPLOADED)
    ensures Reaches(f, s', now, n, size, waiting, done, {t}) && Idle(s'.db) && s'.db.tasks[ROOT] == s.db.tasks[ROOT]
    ensures c in s'.checkingProof && c.session == SESSION && c.m.message == Id(n) && c.m.task == t && c.m.manifest == Evidence(l)
  {
    ProofScene(s.db, n, size, waiting, done, {t}, l, t, now);
    c := ClaimOf(n, l, s.db, t, Evidence(l), now);
    s' := Reported(f, s, now, n, size, waiting, done, {t}, l, t, Evidence(l));
  }

  lemma ProofAccepted(f: Formula, s: System, now: nat, n: nat, size: nat, waiting: set<Id>, done: set<Id>, l: Id, t: Id, c: Claim)
    returns (s': System)
    requires Reaches(f, s, now, n, size, waiting, done, {t}) && Idle(s.db) && s.db.tasks[ROOT].state.SPLIT? && n < 1_000
    requires c in s.checkingProof && c.session == SESSION && c.m.message == Id(n) && c.m.task == t && c.m.manifest == Evidence(l)
    requires size > 3 && !Satisfiable(f)
    ensures Reaches(f, s', now, n + 1, size, waiting, done + {t}, {}) && Idle(s'.db) && s'.db.tasks[ROOT].state.SPLIT?
  {
    FinishScene(s.db, n, size, waiting, done, l, t, c, now);
    CubeModelIsModel(f, c.m.cube);
    s' := Extend(f, s, Timed(ProofChecked(c, VALID_UNSAT), now));
  }

  /** A child is leased, and its report asks for a proof. */
  lemma Searched(f: Formula, s: System, now: nat, n: nat, size: nat, waiting: set<Id>, done: set<Id>) returns (s': System, t: Id)
    requires Stalling(f, s, now, n, size, waiting, done) && waiting != {} && n < 900
    ensures t in waiting && Reaches(f, s', now, n + 2, size, waiting - {t}, done, {t})
    ensures Idle(s'.db) && s'.db.tasks[ROOT].state.SPLIT? && Row(s'.db.tasks[t], READY, true, None)
  {
    t := PickChild(s.db, n, size, waiting, done);
    s' := Dispatched(f, s, now, n, size, waiting - {t}, done, {t}, t);
    s' := CandidateReported(f, s', now, n + 1, size, waiting - {t}, done, Id(n), t);
  }

  /** The child is leased again for its proof, the proof is uploaded, reported and accepted. */
  lemma Proved(f: Formula, s: System, now: nat, n: nat, size: nat, waiting: set<Id>, done: set<Id>, t: Id) returns (s': System)
    requires Reaches(f, s, now, n, size, waiting, done, {t}) && n < 950 && size > 3 && !Satisfiable(f)
    requires Idle(s.db) && s.db.tasks[ROOT].state.SPLIT? && Row(s.db.tasks[t], READY, true, None)
    ensures Reaches(f, s', now, n + 3, size, waiting, done + {t}, {}) && Idle(s'.db) && s'.db.tasks[ROOT].state.SPLIT?
  {
    ProofFirst(s.db, n, size, waiting, done, t);
    var leased := Dispatched(f, s, now, n, size, waiting, done, {t}, t);
    var uploaded := Uploaded(f, leased, now, n + 1, size, waiting, done, {t}, Id(n), t);
    var reported, c := ProofReported(f, uploaded, now, n + 2, size, waiting, done, Id(n), t);
    s' := ProofAccepted(f, reported, now, n + 2, size, waiting, done, Id(n), t, c);
  }

  lemma ChildCertified(f: Formula, s: System, now: nat, n: nat, size: nat, waiting: set<Id>, done: set<Id>) returns (s': System, t: Id)
    requires Stalling(f, s, now, n, size, waiting, done) && waiting != {} && n < 900 && !Satisfiable(f)
    ensures t in waiting && Stalling(f, s', now, n + 5, size, waiting - {t}, done + {t})
  {
    s', t := Searched(f, s, now, n, size, waiting, done);
    s' := Proved(f, s', now, n + 2, size, waiting - {t}, done, t);
  }

  /** One after the other, all waiting children are certified. */
  lemma {:induction false} AllCertified(f: Formula, s: System, now: nat, n: nat, size: nat, waiting: set<Id>, done: set<Id>)
    returns (s': System, m: nat, certified: set<Id>)
    requires Stalling(f, s, now, n, size, waiting, done) && n + 5 * |waiting| < 900 && !Satisfiable(f)
    ensures Stalling(f, s', now, m, size, {}, certified)
    decreases |waiting|
  {
    if waiting == {} {
      return s, n, done;
    }
    var t: Id;
    s', t := ChildCertified(f, s, now, n, size, waiting, done);
    s', m, certified := AllCertified(f, s', now, n + 5, size, waiting - {t}, done + {t});
  }

  // ----- the root is split, reopened, and split again -----

  lemma SortedOne(l: Id, key: map<Id, Key>)
    requires l in key
    ensures Sorted({l}, key) == [l]
  {
    assert Earliest({l}, key) == l;
    assert {l} - {l} == {};
  }

  function Sockets(): seq<Connection> {
    [Connection(SESSION, [SLOT, SPARE])]
  }

  function PermitIds(db: Db, n: nat): map<Id, Id> {
    map l | l in db.leases :: Id(n + l.n)
  }

  lemma RootFirst(db: Db, n: nat, size: nat, waiting: set<Id>)
    requires Scene(db, n, size, waiting, {}, {}) && Row(db.tasks[ROOT], READY, false, None)
    ensures IsEarliest(Leasable(db, true), DispatchOrder(db), ROOT)
  {
  }

  lemma CountsOnOffer(db: Db, n: nat, size: nat, waiting: set<Id>, l: Id, now: nat)
    requires Scene(db, n, size, waiting, {}, {}) && Working(db, l, ROOT) && !db.tasks[ROOT].proofRequired && now <= 10_000 && size <= 3
    ensures Busy(db, now) == {l} && Outstanding(db.permits, now) == {} && |Busy(db, now)| == 1
    ensures |Frontier(db.tasks)| <= 3
    ensures PermitAllowance(db, 2, now) == 1
  {
    assert Busy(db, now) == {l};
    assert Outstanding(db.permits, now) == {};
    SubsetSize(Frontier(db.tasks), db.tasks.Keys);
    assert |db.tasks| == |db.tasks.Keys|;
  }

  lemma OneCandidate(db: Db, n: nat, size: nat, waiting: set<Id>, l: Id, now: nat)
    requires Scene(db, n, size, waiting, {}, {}) && Working(db, l, ROOT) && !db.tasks[ROOT].proofRequired
    requires db.leases[l].issuedAt + SPLIT_SEED_MS == now <= 10_000
    ensures CancelExpiredPermits(db, now) == db && SplitCandidates(db, now) == {l}
  {
    assert CancelExpiredPermits(db, now).permits == db.permits;
  }

  lemma SocketFacts(quarantined: set<Id>)
    requires SESSION !in quarantined
    ensures Connected(Sockets(), quarantined) == Sockets() && SlotCount(Sockets()) == 2 && SESSION in Reachable(Sockets())
  {
    assert Connected(Sockets()[1..], quarantined) == [];
    assert SlotCount(Sockets()[1..]) == 0;
    assert Sockets()[0] in Sockets();
  }

  lemma OfferOne(db: Db, l: Id, reachable: set<Id>, ids: map<Id, Id>, now: nat)
    requires l in db.leases && l in ids && db.leases[l].session in reachable
    ensures OfferPermits(db, [l], reachable, ids, {}, now, 1) == GrantPermit(db, l, ids[l], true, now)
  {
    assert [l][1..] == [];
  }

  function Permitted(db: Db, n: nat, l: Id, now: nat): Db
    requires l in db.leases
  {
    GrantPermit(db, l, Id(n + l.n), true, now)
  }

  lemma IssueOne(db: Db, l: Id, ids: map<Id, Id>, now: nat)
    requires l in db.leases && db.leases[l].session == SESSION && SESSION !in db.quarantined && db.leases.Keys <= ids.Keys
    requires CancelExpiredPermits(db, now) == db && SplitCandidates(db, now) == {l} && PermitAllowance(db, 2, now) == 1
    ensures IssuePermits(db, Sockets(), ids, {}, now) == GrantPermit(db, l, ids[l], true, now)
  {
    var candidates := SplitCandidates(db, now);
    SortedIsOrdered(candidates, IssueOrder(db));
    SortedOne(l, IssueOrder(db));
    SocketFacts(db.quarantined);
    OfferOne(db, l, Reachable(Sockets()), ids, now);
    assert Sorted(candidates, IssueOrder(db)) == [l];
  }

  function Split(n: nat, l: Id): SplitMessage {
    SplitMessage(Id(n), SLOT, ROOT, l, Id(n + l.n), 1)
  }

  lemma SplitIsNeeded(db: Db, n: nat, size: nat, waiting: set<Id>, l: Id, now: nat)
    requires Scene(db, n, size, waiting, {}, {}) && Working(db, l, ROOT) && !db.tasks[ROOT].proofRequired && size <= 3
    requires now <= 10_000
    ensures SplitNeeded(Permitted(db, n, l, now), 2, now)
  {
    CountsOnOffer(db, n, size, waiting, l, now);
    assert Busy(Permitted(db, n, l, now), now) == Busy(db, now);
  }

  lemma PermitIsValid(db: Db, n: nat, l: Id, now: nat)
    requires Working(db, l, ROOT) && now <= 10_000
    ensures PermitValid(Permitted(db, n, l, now), SESSION, Split(n, l), now)
    ensures HoldsTask(Permitted(db, n, l, now), SESSION, ROOT, l, now)
  {
  }

  lemma SplitIsAccepted(db: Db, n: nat, size: nat, waiting: set<Id>, l: Id, now: nat)
    requires Scene(db, n, size, waiting, {}, {}) && Working(db, l, ROOT) && !db.tasks[ROOT].proofRequired && size <= 3
    requires now <= 10_000
    ensures SplitAccepted(Permitted(db, n, l, now), SESSION, Split(n, l), now, 2)
  {
    SplitIsNeeded(db, n, size, waiting, l, now);
    PermitIsValid(db, n, l, now);
    UnusedMessage(db.processed, n);
    RootIsSplittable(db);
  }

  lemma RootIsSplittable(db: Db)
    requires ROOT in db.tasks && RootShape(db.tasks[ROOT]) && db.job.variableCount == 1
    ensures Splittable(db, ROOT, 1)
  {
  }

  function Divided(db: Db, n: nat, l: Id, now: nat): Db
    requires ROOT in db.tasks && l in db.leases
  {
    Divide(Permitted(db, n, l, now), SESSION, Split(n, l), now, Id(2 * n), Id(2 * n + 1))
  }

  lemma DividedFamily(db: Db, n: nat, waiting: set<Id>, l: Id, now: nat)
    requires Family(db.tasks, waiting, {}, {}) && l in db.leases && Id(2 * n) !in db.tasks && Id(2 * n + 1) !in db.tasks && n > 0
    ensures Family(Divided(db, n, l, now).tasks, waiting + {Id(2 * n), Id(2 * n + 1)}, {}, {})
  {
    var db' := Divided(db, n, l, now);
    assert db'.tasks.Keys == db.tasks.Keys + {Id(2 * n), Id(2 * n + 1)};
  }

  lemma SplitScene(db: Db, n: nat, size: nat, waiting: set<Id>, l: Id, now: nat)
    requires Scene(db, n, size, waiting, {}, {}) && Working(db, l, ROOT) && !db.tasks[ROOT].proofRequired && n < 400
    ensures Id(2 * n) !in db.tasks && Id(2 * n + 1) !in db.tasks
    ensures var db' := Divided(db, n, l, now);
      Scene(db', 2 * n + 2, size + 2, waiting + {Id(2 * n), Id(2 * n + 1)}, {}, {}) && Idle(db') && db'.tasks[ROOT].state.SPLIT? &&
      !db'.tasks[ROOT].proofRequired && db'.leases == db.leases[l := db.leases[l].(status := LeaseStatus.SPLIT)]
  {
    DividedFamily(db, n, waiting, l, now);
    RecordBelow(db.processed, n, Ack, now);
  }

  ghost predicate RootReady(f: Formula, s: System, now: nat, n: nat, size: nat) {
    exists waiting :: RootReadyWith(f, s, now, n, size, waiting)
  }

  ghost predicate RootReadyWith(f: Formula, s: System, now: nat, n: nat, size: nat, waiting: set<Id>) {
    Reaches(f, s, now, n, size, waiting, {}, {}) && Idle(s.db) && Row(s.db.tasks[ROOT], READY, false, None)
  }

  /** The root has been split; the lease that did it is the session's own. */
  ghost predicate SplitBy(db: Db, n: nat, size: nat, waiting: set<Id>, l: Id) {
    && Scene(db, n, size, waiting, {}, {}) && Idle(db) && db.tasks[ROOT].state.SPLIT? && !db.tasks[ROOT].proofRequired
    && l in db.leases && db.leases[l].task == ROOT && db.leases[l].session == SESSION && db.leases[l].slot == SLOT
  }

  ghost predicate RootSplit(f: Formula, s: System, now: nat, n: nat, size: nat, l: Id) {
    exists waiting :: RootSplitInto(f, s, now, n, size, waiting, l)
  }

  ghost predicate RootSplitInto(f: Formula, s: System, now: nat, n: nat, size: nat, waiting: set<Id>, l: Id) {
    Occurs(f, s) && s.uploads == {} && s.clock == now <= 10_000 && SplitBy(s.db, n, size, waiting, l)
  }

  lemma PermitIdsAreFresh(db: Db, n: nat)
    requires Unused(db, n)
    ensures FreshPermits(db, PermitIds(db, n))
  {
  }

  lemma OfferMade(f: Formula, s: System, n: nat, l: Id, now: nat) returns (s': System)
    requires Occurs(f, s) && s.clock <= now && SESSION !in s.db.quarantined && Offerable(s.db, n, l, now)
    requires l in s.db.leases && s.db.leases[l].session == SESSION
    ensures Occurs(f, s') && s' == s.(db := Permitted(s.db, n, l, now), clock := now)
  {
    var ids := PermitIds(s.db, n);
    IssueOne(s.db, l, ids, now);
    assert ids[l] == Id(n + l.n);
    s' := Extend(f, s, Timed(OfferSplits(Sockets(), ids, {}), now));
  }

  ghost predicate Offerable(db: Db, n: nat, l: Id, now: nat) {
    FreshPermits(db, PermitIds(db, n)) && CancelExpiredPermits(db, now) == db && SplitCandidates(db, now) == {l} &&
    PermitAllowance(db, 2, now) == 1
  }

  lemma WorkerIsOfferable(db: Db, n: nat, size: nat, waiting: set<Id>, l: Id, now: nat)
    requires Scene(db, n, size, waiting, {}, {}) && Working(db, l, ROOT) && !db.tasks[ROOT].proofRequired && size <= 3
    requires db.leases[l].issuedAt + SPLIT_SEED_MS == now <= 10_000
    ensures Offerable(db, n, l, now)
  {
    OneCandidate(db, n, size, waiting, l, now);
    CountsOnOffer(db, n, size, waiting, l, now);
    PermitIdsAreFresh(db, n);
  }

  /** A permit offered now would let the split through. */
  ghost predicate Splitting(db: Db, n: nat, l: Id, now: nat, size: nat) {
    exists waiting :: SplitWith(db, n, l, now, size, waiting)
  }

  ghost predicate SplitWith(db: Db, n: nat, l: Id, now: nat, size: nat, waiting: set<Id>) {
    && ROOT in db.tasks && l in db.leases && db.leases[l].session == SESSION && SESSION !in db.quarantined
    && Offerable(db, n, l, now) && Id(2 * n) !in db.tasks && Id(2 * n + 1) !in db.tasks
    && SplitAccepted(Permitted(db, n, l, now), SESSION, Split(n, l), now, 2)
    && SplitBy(Divided(db, n, l, now), 2 * n + 2, size, waiting, l)
  }

  lemma WorkerSplits(db: Db, n: nat, size: nat, waiting: set<Id>, l: Id, now: nat)
    requires Scene(db, n, size, waiting, {}, {}) && Working(db, l, ROOT) && !db.tasks[ROOT].proofRequired && size <= 3
    requires db.leases[l].issuedAt + SPLIT_SEED_MS == now <= 10_000 && n < 400
    ensures Splitting(db, n, l, now, size + 2)
  {
    WorkerIsOfferable(db, n, size, waiting, l, now);
    SplitIsAccepted(db, n, size, waiting, l, now);
    var waiting' := DividedIsSplit(db, n, size, waiting, l, now);
    assert SplitWith(db, n, l, now, size + 2, waiting');
  }

  lemma DividedIsSplit(db: Db, n: nat, size: nat, waiting: set<Id>, l: Id, now: nat) returns (waiting': set<Id>)
    requires Scene(db, n, size, waiting, {}, {}) && Working(db, l, ROOT) && !db.tasks[ROOT].proofRequired && n < 400
    ensures Id(2 * n) !in db.tasks && Id(2 * n + 1) !in db.tasks
    ensures SplitBy(Divided(db, n, l, now), 2 * n + 2, size + 2, waiting', l)
  {
    SplitScene(db, n, size, waiting, l, now);
    waiting' := waiting + {Id(2 * n), Id(2 * n + 1)};
  }

  lemma SplitMade(f: Formula, s: System, n: nat, l: Id, now: nat, size: nat) returns (s': System, n': nat)
    requires Occurs(f, s) && Splitting(s.db, n, l, now, size) && s.uploads == {} && s.clock <= now <= 10_000
    ensures RootSplit(f, s', now, n', size, l) && n' == 2 * n + 2
  {
    n' := 2 * n + 2;
    var waiting :| SplitWith(s.db, n, l, now, size, waiting);
    var offered := OfferMade(f, s, n, l, now);
    s' := Extend(f, offered, Timed(RequestSplit(SESSION, Split(n, l), 2, Id(2 * n), Id(2 * n + 1)), now));
    assert s'.db == Divided(s.db, n, l, now);
    assert RootSplitInto(f, s', now, n', size, waiting, l);
  }

  /** The session takes the root, waits a second, is offered a permit and splits. */
  lemma SplitRound(f: Formula, s: System, n: nat, size: nat, later: nat) returns (s': System, n': nat)
    requires RootReady(f, s, s.clock, n, size) && size <= 3 && later == s.clock + SPLIT_SEED_MS <= 6_000 && n < 300
    ensures RootSplit(f, s', later, n', size + 2, Id(n)) && n' == 2 * n + 4
  {
    var waiting :| RootReadyWith(f, s, s.clock, n, size, waiting);
    RootFirst(s.db, n, size, waiting);
    var leased := Dispatched(f, s, s.clock, n, size, waiting, {}, {}, ROOT);
    WorkerSplits(leased.db, n + 1, size, waiting, Id(n), later);
    s', n' := SplitMade(f, leased, n + 1, Id(n), later, size + 2);
  }

  // ----- the late claim -----

  lemma ReopenScene(db: Db, n: nat, size: nat, waiting: set<Id>, c: Claim, now: nat)
    requires Scene(db, n, size, waiting, {}, {}) && n < 1_000 && db.tasks[ROOT].state.VERIFYING_SAT? && !db.tasks[ROOT].proofRequired
    requires c.session == SESSION && c.m.message == Id(n) && c.m.task == ROOT
    ensures var db' := FinishSat(db, c, SatVerdict.VERIFICATION_TIMEOUT, now);
      Scene(db', n + 1, size, waiting, {}, {}) && db'.leases == db.leases && Row(db'.tasks[ROOT], READY, false, None)
  {
    var reopened := Reopen(db, ROOT);
    UnusedMessage(db.processed, n);
    FamilyKeeps(db.tasks, waiting, {}, {}, ROOT, reopened.tasks[ROOT]);
    LoggedScene(reopened, n, size, waiting, {}, {}, c, now);
  }

  function LateModel(l: Id): Manifest {
    SatModel(l, 1)
  }

  lemma EnterScene(db: Db, n: nat, size: nat, waiting: set<Id>, l: Id, now: nat)
    requires Scene(db, n, size, waiting, {}, {}) && Idle(db) && l in db.leases && !db.tasks[ROOT].proofRequired
    ensures var c := ClaimOf(n, l, db, ROOT, LateModel(l), now);
      SatClaimBound(db, c) && Scene(EnterSat(db, c), n, size, waiting, {}, {}) && EnterSat(db, c).leases == db.leases &&
      Row(EnterSat(db, c).tasks[ROOT], VERIFYING_SAT, false, None)
  {
    var c := ClaimOf(n, l, db, ROOT, LateModel(l), now);
    assert EndTaskLeases(db.leases, ROOT, l) == db.leases;
    FamilyKeeps(db.tasks, waiting, {}, {}, ROOT, EnterSat(db, c).tasks[ROOT]);
  }

  /** A model is claimed on the lease that split the root; the check times out and the root is queued again. */
  lemma Reopened(f: Formula, s: System, now: nat, n: nat, size: nat, l: Id) returns (s': System)
    requires RootSplit(f, s, now, n, size, l) && n < 1_000
    ensures RootReady(f, s', now, n + 1, size) && s'.clock == now
  {
    var waiting :| RootSplitInto(f, s, now, n, size, waiting, l);
    var c := ClaimOf(n, l, s.db, ROOT, LateModel(l), now);
    EnterScene(s.db, n, size, waiting, l, now);
    var claimed := Reported(f, s, now, n, size, waiting, {}, {}, l, ROOT, LateModel(l));
    assert claimed.db == EnterSat(s.db, c) && c in claimed.checkingSat;
    ReopenScene(claimed.db, n, size, waiting, c, now);
    s' := Extend(f, claimed, Timed(SatChecked(c, SatVerdict.VERIFICATION_TIMEOUT), now));
    assert RootReadyWith(f, s', now, n + 1, size, waiting);
  }

  // ----- the whole run -----

  lemma Greeted(f: Formula) returns (s: System)
    ensures Occurs(f, s) && Greeting(SESSION, [SLOT, SPARE], true) in s.greeted && s.uploads == {} && s.clock == 0
    ensures s.db == Initial(HASH, 1, 0, LIFETIME).(job := Job(QUEUED, HASH, 1, LIFETIME))
  {
    var start := Start(HASH, 1, 0, LIFETIME);
    assert Occurs(f, start) by {
      assert Run(f, [start], []) && [start][0] == start;
    }
    var stored := Extend(f, start, Timed(FormulaStored, 0));
    s := Extend(f, stored, Timed(HelloArrives(SESSION, [SLOT, SPARE], true), 0));
  }

  lemma FirstScene(db: Db)
    requires db == Initial(HASH, 1, 0, LIFETIME).(job := Job(QUEUED, HASH, 1, LIFETIME), proofCapable := {SESSION})
    ensures Scene(db, 1, 1, {}, {}, {}) && Idle(db) && Row(db.tasks[ROOT], READY, false, None)
  {
  }

  lemma Opened(f: Formula) returns (s: System)
    ensures RootReady(f, s, 0, 1, 1) && s.clock == 0 && s.db.processed == []
  {
    var greeted := Greeted(f);
    assert LeasesBy(greeted.db, SESSION) * Busy(greeted.db, 0) == {};
    assert Sorted({}, IssueOrder(greeted.db)) == [];
    s := Extend(f, greeted, Timed(Connect(SESSION, [SLOT, SPARE], true), 0));
    FirstScene(s.db);
    assert RootReadyWith(f, s, 0, 1, 1, {});
  }

  lemma NothingOpen(db: Db, done: set<Id>)
    requires Family(db.tasks, {}, done, {}) && db.tasks[ROOT].state.SPLIT? && |db.tasks| > 3
    ensures Overfull(db, ROOT) && forall t :: t in db.tasks ==> !db.tasks[t].Open()
  {
    NeverCovers(db, {}, done, {});
  }

  lemma SplitTwice(f: Formula) returns (s: System)
    ensures RootSplit(f, s, 2_000, 18, 5, Id(7))
  {
    var n: nat;
    s := Opened(f);
    s, n := SplitRound(f, s, 1, 1, 1_000);
    s := Reopened(f, s, 1_000, 6, 3, Id(1));
    s, n := SplitRound(f, s, 7, 3, 2_000);
  }

  /** For every unsatisfiable formula some run ends in a live job with no task left to lease, finish or check. */
  lemma WorkCanRunOut(f: Formula) returns (trace: seq<System>, steps: seq<Timed>)
    requires !Satisfiable(f)
    ensures Run(f, trace, steps)
    ensures var db := trace[|steps|].db;
      Live(db.job) && Overfull(db, ROOT) && forall t :: t in db.tasks ==> !db.tasks[t].Open()
  {
    var s := SplitTwice(f);
    var waiting :| RootSplitInto(f, s, 2_000, 18, 5, waiting, Id(7));
    SubsetSize(waiting, s.db.tasks.Keys);
    assert |s.db.tasks| == |s.db.tasks.Keys|;
    var last, m, done := AllCertified(f, s, 2_000, 18, 5, waiting, {});
    NothingOpen(last.db, done);
    trace, steps :| Run(f, trace, steps) && trace[|steps|] == last;
  }
}
