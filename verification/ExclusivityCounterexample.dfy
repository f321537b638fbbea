/**
 Exclusivity really can be lost: two proof messages for one lease are both being checked, the
 first check times out and reopens the task, another lease takes it, and the second check then
 rewrites the row although the task is leased.
 */
module ExclusivityCounterexample {
  import opened Wrappers
  import opened Cnf
  import opened Rows
  import opened CoordinatorTables
  import opened Exclusivity
  import opened CoordinatorRuns
  import opened CoordinatorTheorems

  const SESSION := Id(1)
  const SLOT := Id(2)
  const HASH := Id(3)
  const KEY := Id(4)
  const LIFETIME := 86_400_000

  function Message(n: nat, lease: Id, manifest: Manifest): ResultMessage {
    ResultMessage(Id(n), SLOT, ROOT, lease, HASH, [], true, manifest)
  }

  function ProofManifest(lease: Id): Manifest {
    UnsatProof(lease, Id(5), 10, 20)
  }

  function LeaseAt(n: nat, status: LeaseStatus): Lease {
    Lease(ROOT, SESSION, SLOT, n, 0, LEASE_DURATION_MS, MAX_LEASE_TENURE_MS, 0, status)
  }

  function RootTask(state: TaskState, leaseCount: nat, active: Option<Id>, proofRequired: bool): Task {
    Task(None, 0, [], state, 0, leaseCount, active, proofRequired)
  }

  /** The tables in which only the root exists and one session is connected. */
  function Single(jobState: JobState, root: Task, leases: map<Id, Lease>, proofs: map<Id, Proof>, objects: set<Id>,
                  processed: seq<Processed>): Db {
    Db(Job(jobState, HASH, 1, LIFETIME), map[ROOT := root], leases, map[], proofs, objects, processed, {}, {SESSION})
  }

  lemma DispatchRoot(db: Db, n: nat, root: Task, leases: map<Id, Lease>, proofs: map<Id, Proof>, objects: set<Id>,
                     processed: seq<Processed>)
    requires db == Single(if n == 1 then QUEUED else RUNNING, root, leases, proofs, objects, processed)
    requires root.state.READY? && root.leaseCount == n - 1 && n > 0 && root == RootTask(READY, n - 1, None, root.proofRequired)
    requires forall l :: l in leases ==> !leases[l].status.ACTIVE?
    ensures LeaseWork(db, SESSION, SLOT, 0, Id(10 + n))
         == Single(RUNNING, RootTask(LEASED, n, Some(Id(10 + n)), root.proofRequired),
                   leases[Id(10 + n) := LeaseAt(n, LeaseStatus.ACTIVE)], proofs, objects, processed)
  {
    assert ROOT in Leasable(db, true);
    var work := Leasable(db, true);
    assert Earliest(work, DispatchOrder(db)) in db.tasks;
  }

  lemma ConnectFirst(db: Db)
    requires db.leases == map[] && db.quarantined == {}
    ensures Hello(db, SESSION, [SLOT], true, 0) == db.(proofCapable := db.proofCapable + {SESSION})
  {
    var existing := LeasesBy(db, SESSION) * Busy(db, 0);
    assert existing == {};
    assert Sorted(existing, IssueOrder(db)) == [];
  }

  function Candidate(): ResultMessage { Message(20, Id(11), UnsatCandidate) }
  function First(): ResultMessage { Message(21, Id(12), ProofManifest(Id(12))) }
  function Second(): ResultMessage { Message(22, Id(12), ProofManifest(Id(12))) }
  function ProofRow(): Proof { Proof(ROOT, Id(5), 10, 20, Some(KEY), UPLOADED) }
  function ProofUpload(): Upload { Upload(Id(12), Id(5), 10, 20, KEY) }

  function LeasesUntil(n: nat, last: LeaseStatus): map<Id, Lease> {
    if n == 1 then map[Id(11) := LeaseAt(1, last)]
    else if n == 2 then map[Id(11) := LeaseAt(1, RESULT), Id(12) := LeaseAt(2, last)]
    else map[Id(11) := LeaseAt(1, RESULT), Id(12) := LeaseAt(2, RESULT), Id(13) := LeaseAt(3, last)]
  }

  function ClaimFor(m: ResultMessage, lease: Lease, task: Task): Claim {
    Claim(SESSION, m, lease, task, false, 0)
  }

  function CandidateClaim(): Claim {
    ClaimFor(Candidate(), LeaseAt(1, LeaseStatus.ACTIVE), RootTask(LEASED, 1, Some(Id(11)), false))
  }

  function ProofClaim(m: ResultMessage): Claim {
    ClaimFor(m, LeaseAt(2, LeaseStatus.ACTIVE), RootTask(LEASED, 2, Some(Id(12)), true))
  }

  function Events(): seq<Event> {
    [FormulaStored,
     HelloArrives(SESSION, [SLOT], true),
     Connect(SESSION, [SLOT], true),
     Dispatch(SESSION, SLOT, Id(11)),
     Report(SESSION, Candidate()),
     Enter(CandidateClaim()),
     Dispatch(SESSION, SLOT, Id(12)),
     ProofArrives(ProofUpload()),
     ProofStored(ProofUpload()),
     Report(SESSION, First()),
     Report(SESSION, Second()),
     Enter(ProofClaim(First())),
     Enter(ProofClaim(Second())),
     ProofChecked(ProofClaim(First()), UnsatVerdict.VERIFICATION_TIMEOUT),
     Dispatch(SESSION, SLOT, Id(13)),
     ProofChecked(ProofClaim(Second()), UnsatVerdict.VERIFICATION_TIMEOUT)]
  }

  function Log(n: nat): seq<Processed> {
    var candidate := Processed(SESSION, Id(20), AckResult(false), 0);
    var first := Processed(SESSION, Id(21), AckResult(false), 0);
    var second := Processed(SESSION, Id(22), AckResult(false), 0);
    if n == 0 then [] else if n == 1 then [candidate] else if n == 2 then [candidate, first] else [candidate, first, second]
  }

  function ProofRows(n: nat): map<Id, Proof> {
    if n == 0 then map[] else map[Id(12) := ProofRow()]
  }

  /** The tables before each event. */
  function TablesAt(i: nat): Db {
    if i == 0 then Initial(HASH, 1, 0, LIFETIME)
    else if i <= 2 then Initial(HASH, 1, 0, LIFETIME).(job := Job(QUEUED, HASH, 1, LIFETIME))
    else if i == 3 then Single(QUEUED, RootTask(READY, 0, None, false), map[], map[], {}, [])
    else if i <= 5 then Single(RUNNING, RootTask(LEASED, 1, Some(Id(11)), false), LeasesUntil(1, LeaseStatus.ACTIVE), map[], {}, [])
    else if i == 6 then Single(RUNNING, RootTask(READY, 1, None, true), LeasesUntil(1, RESULT), map[], {}, Log(1))
    else if i == 7 then Single(RUNNING, RootTask(LEASED, 2, Some(Id(12)), true), LeasesUntil(2, LeaseStatus.ACTIVE), map[], {}, Log(1))
    else if i == 8 then Single(RUNNING, RootTask(LEASED, 2, Some(Id(12)), true), LeasesUntil(2, LeaseStatus.ACTIVE), map[], {KEY}, Log(1))
    else if i <= 11 then Single(RUNNING, RootTask(LEASED, 2, Some(Id(12)), true), LeasesUntil(2, LeaseStatus.ACTIVE), ProofRows(1), {KEY}, Log(1))
    else if i <= 13 then Single(RUNNING, RootTask(VERIFYING_UNSAT, 2, None, true), LeasesUntil(2, RESULT), ProofRows(1), {KEY}, Log(1))
    else if i == 14 then Single(RUNNING, RootTask(READY, 2, None, true), LeasesUntil(2, RESULT), ProofRows(1), {KEY}, Log(2))
    else if i == 15 then Single(RUNNING, RootTask(LEASED, 3, Some(Id(13)), true), LeasesUntil(3, LeaseStatus.ACTIVE), ProofRows(1), {KEY}, Log(2))
    else Single(RUNNING, RootTask(READY, 3, Some(Id(13)), true), LeasesUntil(3, LeaseStatus.ACTIVE), ProofRows(1), {KEY}, Log(3))
  }

  function ReceivedAt(i: nat): set<Claim> {
    (if i > 4 then {CandidateClaim()} else {}) + (if i > 9 then {ProofClaim(First())} else {}) +
    (if i > 10 then {ProofClaim(Second())} else {})
  }

  function GreetedAt(i: nat): set<Greeting> {
    if i > 1 then {Greeting(SESSION, [SLOT], true)} else {}
  }

  function CheckingAt(i: nat): set<Claim> {
    (if i > 11 then {ProofClaim(First())} else {}) + (if i > 12 then {ProofClaim(Second())} else {})
  }

  function StateAt(i: nat): System {
    System(TablesAt(i), GreetedAt(i), ReceivedAt(i), {}, CheckingAt(i), if i == 8 then {ProofUpload()} else {}, {}, 0, 0)
  }

  lemma FollowsFirstDispatch(f: Formula)
    ensures Follows(f, StateAt(3), Timed(Events()[3], 0), StateAt(4))
  {
    DispatchRoot(TablesAt(3), 1, RootTask(READY, 0, None, false), map[], map[], {}, []);
  }

  lemma FollowsSecondDispatch(f: Formula)
    ensures Follows(f, StateAt(6), Timed(Events()[6], 0), StateAt(7))
  {
    DispatchRoot(TablesAt(6), 2, RootTask(READY, 1, None, true), LeasesUntil(1, RESULT), map[], {}, Log(1));
  }

  lemma CandidateTables()
    ensures EnterCandidate(TablesAt(5), CandidateClaim()).0 == TablesAt(6)
  {
    assert EndTaskLeases(LeasesUntil(1, LeaseStatus.ACTIVE), ROOT, Id(11)) == LeasesUntil(1, RESULT);
  }

  lemma FollowsFirstReport(f: Formula)
    ensures Follows(f, StateAt(4), Timed(Events()[4], 0), StateAt(5))
  {
    assert ReceiveResult(TablesAt(4), SESSION, Candidate(), 0) == Ok(CandidateClaim());
  }

  lemma FollowsConnect(f: Formula)
    ensures Follows(f, StateAt(2), Timed(Events()[2], 0), StateAt(3))
  {
    ConnectFirst(TablesAt(2));
  }

  lemma FollowsEarly(f: Formula, i: nat)
    requires i <= 1 || i == 5
    ensures Follows(f, StateAt(i), Timed(Events()[i], 0), StateAt(i + 1))
  {
    if i == 5 {
      CandidateTables();
    }
  }

  lemma UploadFits(i: nat)
    requires i == 7 || i == 8
    ensures MayUploadProof(TablesAt(i), Id(12), 20, 0) && WithinBudget(TablesAt(i), 10)
  {
    assert TablesAt(i).proofs == map[];
  }

  lemma FollowsArrival(f: Formula)
    ensures Follows(f, StateAt(7), Timed(Events()[7], 0), StateAt(8))
  {
    UploadFits(7);
  }

  lemma FollowsCommit(f: Formula)
    ensures Follows(f, StateAt(8), Timed(Events()[8], 0), StateAt(9))
  {
    UploadFits(8);
  }

  lemma FollowsReport(f: Formula, i: nat)
    requires i == 9 || i == 10
    ensures Follows(f, StateAt(i), Timed(Events()[i], 0), StateAt(i + 1))
  {
    ReportIsReceived(i, if i == 9 then First() else Second());
  }

  lemma ReportIsReceived(i: nat, m: ResultMessage)
    requires (i == 9 && m == First()) || (i == 10 && m == Second())
    ensures ReceiveResult(TablesAt(i), SESSION, m, 0) == Ok(ProofClaim(m))
  {
  }

  lemma EnterTables(i: nat, m: ResultMessage)
    requires (i == 11 && m == First()) || (i == 12 && m == Second())
    ensures ProofClaimBound(TablesAt(i), ProofClaim(m)) && EnterProof(TablesAt(i), ProofClaim(m)) == TablesAt(i + 1)
  {
    assert EndTaskLeases(TablesAt(i).leases, ROOT, Id(12)) == LeasesUntil(2, RESULT);
  }

  lemma FollowsEnter(f: Formula, i: nat)
    requires i == 11 || i == 12
    ensures Follows(f, StateAt(i), Timed(Events()[i], 0), StateAt(i + 1))
  {
    var m := if i == 11 then First() else Second();
    EnterTables(i, m);
    assert Events()[i] == Enter(ProofClaim(m)) && ProofClaim(m) in ReceivedAt(i);
    assert EnterClaim(StateAt(i), ProofClaim(m)) == StateAt(i + 1);
  }

  lemma TimeoutLog(i: nat, m: ResultMessage)
    requires (i == 13 && m == First()) || (i == 15 && m == Second())
    ensures Recorded(TablesAt(i).processed, SESSION, m.message).None?
    ensures Record(TablesAt(i).processed, SESSION, m.message, AckResult(false), 0) == TablesAt(i + 1).processed
  {
    var log := TablesAt(i).processed;
    assert i == 15 ==> log[1..] == [log[1]];
  }

  lemma TimeoutTables(i: nat, m: ResultMessage)
    requires (i == 13 && m == First()) || (i == 15 && m == Second())
    ensures TreeShaped(TablesAt(i).tasks) && ProofClaim(m).m.task in TablesAt(i).tasks
    ensures FinishUnsat(TablesAt(i), ProofClaim(m), UnsatVerdict.VERIFICATION_TIMEOUT, 0) == (TablesAt(i + 1), None)
  {
    TimeoutLog(i, m);
    assert RetryProof(TablesAt(i), ROOT).tasks == TablesAt(i + 1).tasks;
  }

  lemma FollowsTimeout(f: Formula, i: nat)
    requires i == 13 || i == 15
    ensures Follows(f, StateAt(i), Timed(Events()[i], 0), StateAt(i + 1))
  {
    var m := if i == 13 then First() else Second();
    TimeoutTables(i, m);
    assert Runnable(TablesAt(i), Events()[i]);
    assert Events()[i] == ProofChecked(ProofClaim(m), UnsatVerdict.VERIFICATION_TIMEOUT) && ProofClaim(m) in CheckingAt(i);
  }

  lemma FollowsRelease(f: Formula)
    ensures Follows(f, StateAt(14), Timed(Events()[14], 0), StateAt(15))
  {
    ReleaseTables();
  }

  lemma ReleaseTables()
    ensures LeaseWork(TablesAt(14), SESSION, SLOT, 0, Id(13)) == TablesAt(15)
  {
    DispatchRoot(TablesAt(14), 3, RootTask(READY, 2, None, true), LeasesUntil(2, RESULT), ProofRows(1), {KEY}, Log(2));
  }

  lemma FollowsAll(f: Formula, i: nat)
    requires i < 16
    ensures Follows(f, StateAt(i), Timed(Events()[i], 0), StateAt(i + 1))
  {
    if i == 4 {
      FollowsFirstReport(f);
    } else if i == 2 {
      FollowsConnect(f);
    } else if i == 3 {
      FollowsFirstDispatch(f);
    } else if i == 6 {
      FollowsSecondDispatch(f);
    } else if i < 7 {
      FollowsEarly(f, i);
    } else if i == 7 {
      FollowsArrival(f);
    } else if i == 8 {
      FollowsCommit(f);
    } else if i < 11 {
      FollowsReport(f, i);
    } else if i < 13 {
      FollowsEnter(f, i);
    } else if i == 14 {
      FollowsRelease(f);
    } else {
      FollowsTimeout(f, i);
    }
  }

  lemma LastTwoStates()
    ensures ExclusiveDb(TablesAt(15)) && !ExclusiveDb(TablesAt(16))
  {
    var db := TablesAt(16);
    assert !TaskBacked(db.leases, ROOT, db.tasks[ROOT]);
  }

  /** A run of sixteen ordinary events, with one honest browser session, ends with a held but unleased task. */
  lemma ExclusivityCanFail(f: Formula) returns (trace: seq<System>, steps: seq<Timed>)
    ensures Run(f, trace, steps) && |steps| == 16 && ExclusiveDb(trace[15].db) && !ExclusiveDb(trace[16].db)
  {
    trace := seq(17, i requires 0 <= i < 17 => StateAt(i));
    steps := seq(16, i requires 0 <= i < 16 => Timed(Events()[i], 0));
    assert Starts(trace[0]) by {
      assert trace[0] == Start(HASH, 1, 0, LIFETIME);
    }
    forall i | 0 <= i < |steps| ensures Follows(f, trace[i], steps[i], trace[i + 1]) {
      FollowsAll(f, i);
    }
    LastTwoStates();
    assert trace[15].db == TablesAt(15) && trace[16].db == TablesAt(16);
  }
}
