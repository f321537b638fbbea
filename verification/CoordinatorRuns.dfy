/**
 Whole runs of a coordinator: any interleaving of the atomic blocks, with any messages from
 any browsers, and every asynchronous handler cut at its awaits.
 */
module CoordinatorRuns {
  import opened Wrappers
  import opened Cnf
  import opened Rows
  import opened CoordinatorTables
  import opened SearchSafety
  import opened SearchSteps
  import opened LeaseSafety
  import opened LeaseSteps
  import opened Exclusivity
  import opened FrontierBudget
  import opened ProofBudget

  /** A HELLO that passed the quarantine test and awaits its assignment. */
  datatype Greeting = Greeting(session: Id, slots: seq<Id>, proofGeneration: bool)

  datatype Upload = Upload(lease: Id, sha256: Id, bytes: nat, decompressedBytes: nat, key: Id)

  datatype Verdict = SAT | UNSAT(terminal: Terminal)

  /**
   The tables and the handlers suspended at an await.  A suspended claim stays available after
   it has resumed, so the model also allows a handler to resume more often than it does.
   */
  datatype System = System(
    db: Db,
    greeted: set<Greeting>,
    received: set<Claim>,
    checkingSat: set<Claim>,
    checkingProof: set<Claim>,
    uploads: set<Upload>,
    published: set<Verdict>,
    clock: nat,
    inconclusive: nat)

  datatype Event =
    | FormulaStored
    | HelloArrives(session: Id, slots: seq<Id>, proofGeneration: bool)
    | Connect(session: Id, slots: seq<Id>, proofGeneration: bool)
    | Dispatch(session: Id, slot: Id, lease: Id)
    | Undelivered(lease: Id)
    | OfferSplits(sockets: seq<Connection>, ids: map<Id, Id>, undelivered: set<Id>)
    | Beat(session: Id, progress: seq<Progress>)
    | RequestSplit(session: Id, split: SplitMessage, connectedSlots: nat, positive: Id, negative: Id)
    | RequestYield(session: Id, handback: YieldMessage)
    | Report(session: Id, result: ResultMessage)
    | Enter(claim: Claim)
    | SatChecked(claim: Claim, satVerdict: SatVerdict)
    | ProofChecked(claim: Claim, unsatVerdict: UnsatVerdict)
    | OwnerConfirmed(artifact: Id, sha256: Id)
    | OwnerCancelled
    | AlarmFired
    | ClientStopped(session: Id)
    | ProofArrives(upload: Upload)
    | ProofStored(upload: Upload)

  datatype Timed = Timed(event: Event, now: nat)

  function UploadKeys(uploads: set<Upload>): set<Id> {
    set u | u in uploads :: u.key
  }

  /** What the platform guarantees of an event: fresh names, a forward clock, and only suspended handlers resume. */
  ghost predicate Admissible(s: System, step: Timed) {
    && step.now >= s.clock
    && match step.event
       case Connect(session, slots, proofGeneration) => Greeting(session, slots, proofGeneration) in s.greeted
       case Dispatch(_, _, lease) => lease !in s.db.leases
       case OfferSplits(_, ids, _) => FreshPermits(s.db, ids)
       case RequestSplit(_, split, _, positive, negative) =>
         split.literal != 0 && positive !in s.db.tasks && negative !in s.db.tasks && positive != negative
       case Enter(c) => c in s.received
       case SatChecked(c, _) => c in s.checkingSat
       case ProofChecked(c, _) => c in s.checkingProof
       case ProofArrives(u) => u.key !in s.db.objects && u.key !in UploadKeys(s.uploads)
       case ProofStored(u) => u in s.uploads
       case _ => true
  }

  /** Verifier verdicts are true of the claimed cube. */
  ghost predicate ChecksTrue(f: Formula, event: Event) {
    match event
    case SatChecked(c, v) => SatVerdictTrue(f, c.m.cube, v)
    case ProofChecked(c, v) => UnsatVerdictTrue(f, c.m.cube, v)
    case _ => true
  }

  ghost predicate Enabled(f: Formula, s: System, step: Timed) {
    Admissible(s, step) && ChecksTrue(f, step.event)
  }

  /** The owner confirms only proofs whose task really is refuted. */
  ghost predicate HonestOwner(f: Formula, s: System, event: Event) {
    event.OwnerConfirmed? && event.artifact in s.db.proofs && s.db.proofs[event.artifact].task in s.db.tasks ==>
      !SatisfiableIn(f, s.db.tasks[s.db.proofs[event.artifact].task].cube)
  }

  function EnterClaim(s: System, c: Claim): System
    requires c.m.task in s.db.tasks
  {
    match c.m.manifest
    case UnsatCandidate => s.(db := EnterCandidate(s.db, c).0)
    case SatModel(_, _) =>
      if SatClaimBound(s.db, c) then s.(db := EnterSat(s.db, c), checkingSat := s.checkingSat + {c}) else s
    case UnsatProof(_, _, _, _) =>
      if ProofClaimBound(s.db, c) then s.(db := EnterProof(s.db, c), checkingProof := s.checkingProof + {c}) else s
  }

  /** The blocks whose rows must exist; true of every enabled event of a run. */
  ghost predicate Runnable(db: Db, e: Event) {
    match e
    case OfferSplits(_, ids, _) => db.leases.Keys <= ids.Keys
    case Enter(c) => c.m.task in db.tasks
    case SatChecked(c, _) => c.m.task in db.tasks
    case ProofChecked(c, _) => TreeShaped(db.tasks) && c.m.task in db.tasks && c.m.manifest.UnsatProof?
    case OwnerConfirmed(a, _) => TreeShaped(db.tasks) && (a in db.proofs ==> db.proofs[a].task in db.tasks)
    case _ => true
  }

  ghost function Act(s: System, e: Event, now: nat): System
    requires Runnable(s.db, e)
  {
    match e
    case FormulaStored => s.(db := CompleteUpload(s.db))
    case HelloArrives(session, slots, proofGeneration) =>
      if session in s.db.quarantined then s else s.(greeted := s.greeted + {Greeting(session, slots, proofGeneration)})
    case Connect(session, slots, proofGeneration) => s.(db := Hello(s.db, session, slots, proofGeneration, now))
    case Dispatch(session, slot, lease) => s.(db := LeaseWork(s.db, session, slot, now, lease))
    case Undelivered(lease) => s.(db := RollbackUndelivered(s.db, lease))
    case OfferSplits(sockets, ids, undelivered) => s.(db := IssuePermits(s.db, sockets, ids, undelivered, now))
    case Beat(session, slots) => s.(db := Heartbeat(s.db, session, slots, now))
    case RequestSplit(session, split, connectedSlots, positive, negative) =>
      s.(db := SplitTask(s.db, session, split, now, connectedSlots, positive, negative).0)
    case RequestYield(session, m) => s.(db := YieldTask(s.db, session, m, now).0)
    case Report(session, m) =>
      (match ReceiveResult(s.db, session, m, now)
       case Ok(c) => s.(received := s.received + {c})
       case Err(_) => s)
    case Enter(c) => EnterClaim(s, c)
    case SatChecked(c, v) =>
      s.(db := FinishSat(s.db, c, v, now),
         published := if v.VALID_SAT? then s.published + {SAT} else s.published,
         inconclusive := if v.INVALID_MODEL? || v.VERIFICATION_TIMEOUT? then s.inconclusive + 1 else s.inconclusive)
    case ProofChecked(c, v) =>
      var (db', terminal) := FinishUnsat(s.db, c, v, now);
      s.(db := db', published := if terminal.Some? then s.published + {UNSAT(terminal.value)} else s.published)
    case OwnerConfirmed(artifact, sha256) =>
      var (db', terminal) := ConfirmOwner(s.db, artifact, sha256);
      s.(db := db', published := if terminal.Some? then s.published + {UNSAT(terminal.value)} else s.published)
    case OwnerCancelled => s.(db := Cancel(s.db))
    case AlarmFired => s.(db := Alarm(s.db, now))
    case ClientStopped(session) => s.(db := Disconnect(s.db, session))
    case ProofArrives(u) =>
      var (db', stored) := PutProof(s.db, u.lease, u.bytes, u.decompressedBytes, u.key, now);
      s.(db := db', uploads := if stored then s.uploads + {u} else s.uploads)
    case ProofStored(u) =>
      s.(db := CommitProof(s.db, u.lease, u.sha256, u.bytes, u.decompressedBytes, u.key, now).0, uploads := s.uploads - {u})
  }

  ghost function Step(s: System, step: Timed): System
    requires Runnable(s.db, step.event)
  {
    Act(s, step.event, step.now).(clock := step.now)
  }

  // ----- the run invariant -----

  ghost predicate ClaimsOk(s: System) {
    && (forall c :: c in s.received + s.checkingSat + s.checkingProof ==> ClaimOk(s.db, c))
    && (forall c :: c in s.checkingProof ==> c.m.manifest.UnsatProof? && c.task.proofRequired)
    && (forall a :: a in s.db.proofs ==> ProofRowOk(s.db.tasks, s.db.proofs[a]))
  }

  ghost predicate SystemOk(s: System) {
    RecordsOk(s.db) && ClaimsOk(s)
  }

  ghost predicate VerdictTrue(f: Formula, trustOwner: bool, v: Verdict) {
    match v
    case SAT => Satisfiable(f)
    case UNSAT(t) => t.CERTIFIED? || trustOwner ==> !Satisfiable(f)
  }

  ghost predicate Invariant(f: Formula, trustOwner: bool, s: System) {
    && SystemOk(s)
    && SearchInv(f, trustOwner, s.db)
    && (forall v :: v in s.published ==> VerdictTrue(f, trustOwner, v))
    && HeldIsLeased(s.db.tasks) && Demand(s.db, s.clock) <= MAX_FRONTIER + s.inconclusive
    && BudgetOk(s.db) && ObjectsOwned(s.db, UploadKeys(s.uploads))
  }

  function Start(formulaHash: Id, variableCount: nat, createdAt: nat, expiresAt: nat): System {
    System(Initial(formulaHash, variableCount, createdAt, expiresAt), {}, {}, {}, {}, {}, {}, createdAt, 0)
  }

  /** A verdict is about the cube the claim names, and that is still the cube of its task. */
  ghost predicate ClaimCurrent(db: Db, e: Event) {
    e.SatChecked? || e.ProofChecked? ==> e.claim.m.task in db.tasks && e.claim.m.cube == db.tasks[e.claim.m.task].cube
  }

  lemma EnabledRunnable(f: Formula, s: System, step: Timed)
    requires SystemOk(s) && Enabled(f, s, step)
    ensures Runnable(s.db, step.event) && ClaimCurrent(s.db, step.event)
  {
    var e := step.event;
    assert e.SatChecked? || e.ProofChecked? || e.Enter? ==> ClaimOk(s.db, e.claim);
  }

  // ----- every step keeps the records -----

  lemma EnterClaimOrderly(s: System, c: Claim)
    requires LinksOk(s.db) && c.m.task in s.db.tasks
    ensures Orderly(s.db, EnterClaim(s, c).db)
  {
    match c.m.manifest
    case UnsatCandidate => EnterCandidateOrderly(s.db, c);
    case SatModel(_, _) => EnterSatOrderly(s.db, c);
    case UnsatProof(_, _, _, _) => EnterProofOrderly(s.db, c);
  }

  lemma ActOrderly(f: Formula, s: System, step: Timed)
    requires LinksOk(s.db) && Runnable(s.db, step.event) && Enabled(f, s, step) && !step.event.RequestSplit?
    ensures Orderly(s.db, Act(s, step.event, step.now).db)
  {
    var db, now := s.db, step.now;
    match step.event {
      case FormulaStored =>
      case HelloArrives(_, _, _) =>
      case Connect(session, slots, proofGeneration) => HelloOrderly(db, session, slots, proofGeneration, now);
      case Dispatch(session, slot, lease) => LeaseWorkOrderly(db, session, slot, now, lease);
      case Undelivered(lease) => EndLeasesOrderly(db, {lease}, EXPIRED, false, KEEP_PERMITS);
      case OfferSplits(sockets, ids, undelivered) => IssuePermitsOrderly(db, sockets, ids, undelivered, now);
      case Beat(session, progress) => HeartbeatOrderly(db, session, progress, now);
      case RequestYield(session, m) => YieldOrderly(db, session, m, now);
      case Report(session, m) =>
      case Enter(c) => EnterClaimOrderly(s, c);
      case SatChecked(c, v) => FinishSatOrderly(db, c, v, now);
      case ProofChecked(c, v) => FinishUnsatOrderly(db, c, v, now);
      case OwnerConfirmed(artifact, sha256) => ConfirmOrderly(db, artifact, sha256);
      case OwnerCancelled => CancelOrderly(db);
      case AlarmFired => AlarmOrderly(db, now);
      case ClientStopped(session) => EndLeasesOrderly(db, LeasesBy(db, session), YIELDED, false, CANCEL_PERMITS);
      case ProofArrives(u) =>
      case ProofStored(u) => CommitProofOrderly(db, u.lease, u.sha256, u.bytes, u.decompressedBytes, u.key, now);
    }
  }

  lemma ActRecords(f: Formula, s: System, step: Timed)
    requires SystemOk(s) && Runnable(s.db, step.event) && Enabled(f, s, step)
    ensures RecordsOk(Act(s, step.event, step.now).db)
    ensures Evolves(s.db, Act(s, step.event, step.now).db)
  {
    var e, db' := step.event, Act(s, step.event, step.now).db;
    if e.RequestSplit? {
      SplitRecords(s.db, e.session, e.split, step.now, e.connectedSlots, e.positive, e.negative);
    } else {
      ActOrderly(f, s, step);
      OrderlyKeepsRecords(s.db, db');
      OrderlyEvolves(s.db, db');
    }
  }

  /** A claim names this job's formula and the cube its task still has. */
  ghost predicate ClaimOk(db: Db, c: Claim) {
    && c.m.formulaHash == db.job.formulaHash
    && c.m.task in db.tasks && c.m.cube == db.tasks[c.m.task].cube
    && (c.task.proofRequired ==> db.tasks[c.m.task].proofRequired)
  }

  ghost predicate ProofRowOk(tasks: map<Id, Task>, proof: Proof) {
    proof.task in tasks && tasks[proof.task].proofRequired
  }

  /** New claims and new proof rows are sound when they appear. */
  lemma ActAdds(s: System, step: Timed)
    requires Runnable(s.db, step.event)
    ensures var s' := Act(s, step.event, step.now);
      && (forall c :: c in s'.received ==> c in s.received || ClaimOk(s.db, c))
      && (forall c :: c in s'.checkingSat ==> c in s.checkingSat || step.event == Enter(c))
      && (forall c :: c in s'.checkingProof ==>
            c in s.checkingProof || (step.event == Enter(c) && c.m.manifest.UnsatProof? && c.task.proofRequired))
  {
  }

  lemma ActProofRows(s: System, step: Timed)
    requires Runnable(s.db, step.event)
    requires forall a :: a in s.db.proofs ==> ProofRowOk(s.db.tasks, s.db.proofs[a])
    ensures var db' := Act(s, step.event, step.now).db;
      forall a :: a in db'.proofs ==> ProofRowOk(s.db.tasks, db'.proofs[a])
  {
    if !step.event.ProofStored? && !step.event.ProofArrives? {
      ActUploads(s, step);
    }
  }

  lemma ClaimsSurvive(s: System, s': System)
    requires ClaimsOk(s) && Evolves(s.db, s'.db)
    ensures forall c :: c in s.received + s.checkingSat + s.checkingProof ==> ClaimOk(s'.db, c)
    ensures forall c :: ClaimOk(s.db, c) ==> ClaimOk(s'.db, c)
    ensures forall proof :: ProofRowOk(s.db.tasks, proof) ==> ProofRowOk(s'.db.tasks, proof)
  {
  }

  lemma ActClaims(f: Formula, s: System, step: Timed)
    requires SystemOk(s) && Runnable(s.db, step.event) && Enabled(f, s, step)
    ensures SystemOk(Act(s, step.event, step.now))
  {
    var s' := Act(s, step.event, step.now);
    ActRecords(f, s, step);
    ActAdds(s, step);
    ActProofRows(s, step);
    ClaimsFollow(s, s', step.event);
  }

  lemma ClaimsFollow(s: System, s': System, e: Event)
    requires ClaimsOk(s) && Evolves(s.db, s'.db) && (e.Enter? ==> e.claim in s.received)
    requires forall c :: c in s'.received ==> c in s.received || ClaimOk(s.db, c)
    requires forall c :: c in s'.checkingSat ==> c in s.checkingSat || e == Enter(c)
    requires forall c :: c in s'.checkingProof ==>
      c in s.checkingProof || (e == Enter(c) && c.m.manifest.UnsatProof? && c.task.proofRequired)
    requires forall a :: a in s'.db.proofs ==> ProofRowOk(s.db.tasks, s'.db.proofs[a])
    ensures ClaimsOk(s')
  {
    ClaimsSurvive(s, s');
  }

  lemma ActUploads(s: System, step: Timed)
    requires Runnable(s.db, step.event) && !step.event.ProofStored? && !step.event.ProofArrives?
    ensures SameUploads(s.db, Act(s, step.event, step.now).db)
  {
    var db, now := s.db, step.now;
    match step.event {
      case Connect(session, slots, proofGeneration) => HelloUploads(db, session, slots, proofGeneration, now);
      case OfferSplits(sockets, ids, undelivered) => IssuePermitsUploads(db, sockets, ids, undelivered, now);
      case Beat(session, progress) => HeartbeatUploads(db, session, progress, now);
      case ProofChecked(c, v) => FinishUnsatUploads(db, c, v, now);
      case OwnerConfirmed(artifact, sha256) => ConfirmUploads(db, artifact, sha256);
      case Enter(c) => EnterUploads(s, c);
      case SatChecked(c, v) => FinishSatUploads(db, c, v, now);
      case _ =>
    }
  }

  lemma EnterUploads(s: System, c: Claim)
    requires c.m.task in s.db.tasks
    ensures SameUploads(s.db, EnterClaim(s, c).db)
  {
  }

  lemma ActBudget(f: Formula, s: System, step: Timed)
    requires Runnable(s.db, step.event) && Enabled(f, s, step)
    requires BudgetOk(s.db) && ObjectsOwned(s.db, UploadKeys(s.uploads))
    ensures var s' := Act(s, step.event, step.now); BudgetOk(s'.db) && ObjectsOwned(s'.db, UploadKeys(s'.uploads))
  {
    var s' := Act(s, step.event, step.now);
    match step.event {
      case ProofStored(u) =>
        CommitKeepsBudget(s.db, u.lease, u.sha256, u.bytes, u.decompressedBytes, u.key, step.now, UploadKeys(s.uploads));
        assert UploadKeys(s.uploads) - {u.key} <= UploadKeys(s'.uploads);
      case ProofArrives(u) =>
        assert UploadKeys(s.uploads) <= UploadKeys(s'.uploads);
        assert u in s'.uploads ==> u.key in UploadKeys(s'.uploads);
      case _ =>
        ActUploads(s, step);
        SameUploadsKeeps(s.db, s'.db, UploadKeys(s.uploads));
    }
  }

  // ----- every step keeps the meaning of the search -----

  lemma ActSearch(f: Formula, trustOwner: bool, s: System, step: Timed)
    requires Runnable(s.db, step.event) && Enabled(f, s, step) && ClaimCurrent(s.db, step.event) && SearchInv(f, trustOwner, s.db)
    requires trustOwner ==> HonestOwner(f, s, step.event)
    ensures SearchInv(f, trustOwner, Act(s, step.event, step.now).db)
  {
    var db, now := s.db, step.now;
    var db' := Act(s, step.event, step.now).db;
    match step.event {
      case RequestSplit(session, split, connectedSlots, positive, negative) =>
        SplitKeeps(f, trustOwner, db, session, split, now, connectedSlots, positive, negative);
      case SatChecked(c, v) => FinishSatKeeps(f, trustOwner, db, c, v, now);
      case ProofChecked(c, v) => FinishUnsatKeeps(f, trustOwner, db, c, v, now);
      case OwnerConfirmed(artifact, sha256) => ConfirmKeeps(f, trustOwner, db, artifact, sha256);
      case OwnerCancelled => CancelKeeps(f, trustOwner, db);
      case _ =>
        ActReopens(s, step);
        ReopensKeeps(f, trustOwner, db, db');
    }
  }

  lemma EnterClaimReopens(s: System, c: Claim)
    requires c.m.task in s.db.tasks
    ensures Reopens(s.db, EnterClaim(s, c).db)
  {
    EnterReopens(s.db, c);
    CandidateReopens(s.db, c);
  }

  /** All remaining blocks leave the tree alone or reopen work. */
  lemma ActReopens(s: System, step: Timed)
    requires Runnable(s.db, step.event)
    requires !step.event.RequestSplit? && !step.event.SatChecked? && !step.event.ProofChecked?
    requires !step.event.OwnerConfirmed? && !step.event.OwnerCancelled?
    ensures Reopens(s.db, Act(s, step.event, step.now).db)
  {
    var db, now := s.db, step.now;
    match step.event {
      case Connect(session, slots, proofGeneration) => HelloReopens(db, session, slots, proofGeneration, now);
      case Dispatch(session, slot, lease) => LeaseWorkReopens(db, session, slot, now, lease);
      case Undelivered(lease) => EndLeasesReopens(db, {lease}, EXPIRED, false, KEEP_PERMITS);
      case OfferSplits(sockets, ids, undelivered) => IssuePermitsLeavesSearch(db, sockets, ids, undelivered, now);
      case Beat(session, progress) => HeartbeatLeavesSearch(db, session, progress, now);
      case RequestYield(session, m) => YieldReopens(db, session, m, now);
      case Enter(c) => EnterClaimReopens(s, c);
      case AlarmFired => AlarmReopens(db, now);
      case ClientStopped(session) => EndLeasesReopens(db, LeasesBy(db, session), YIELDED, false, CANCEL_PERMITS);
      case _ =>
    }
  }

  lemma ActPublishes(f: Formula, trustOwner: bool, s: System, step: Timed)
    requires Runnable(s.db, step.event) && Enabled(f, s, step) && ClaimCurrent(s.db, step.event) && SearchInv(f, trustOwner, s.db)
    requires trustOwner ==> HonestOwner(f, s, step.event)
    requires forall v :: v in s.published ==> VerdictTrue(f, trustOwner, v)
    ensures forall v :: v in Act(s, step.event, step.now).published ==> VerdictTrue(f, trustOwner, v)
  {
    match step.event {
      case SatChecked(c, v) => CubeModelIsModel(f, s.db.tasks[c.m.task].cube);
      case ProofChecked(c, v) => FinishUnsatKeeps(f, trustOwner, s.db, c, v, step.now);
      case OwnerConfirmed(artifact, sha256) => ConfirmKeeps(f, trustOwner, s.db, artifact, sha256);
      case _ =>
    }
  }

  // ----- every step keeps the frontier budget -----

  ghost predicate ConcernsProofs(db: Db, e: Event) {
    && (e.ProofChecked? ==> e.claim.m.task in db.tasks && db.tasks[e.claim.m.task].proofRequired)
    && (e.OwnerConfirmed? && e.artifact in db.proofs ==> ProofRowOk(db.tasks, db.proofs[e.artifact]))
  }

  lemma ActDemand(f: Formula, s: System, step: Timed)
    requires Runnable(s.db, step.event) && Enabled(f, s, step) && ConcernsProofs(s.db, step.event)
    requires HeldIsLeased(s.db.tasks) && Demand(s.db, s.clock) <= MAX_FRONTIER + s.inconclusive
    ensures var s' := Act(s, step.event, step.now);
      HeldIsLeased(s'.db.tasks) && Demand(s'.db, step.now) <= MAX_FRONTIER + s'.inconclusive
  {
    var db, now := s.db, step.now;
    var db' := Act(s, step.event, step.now).db;
    assert Shrinks(db, db);
    ShrinksLowers(db, db, s.clock, now);
    match step.event {
      case RequestSplit(session, split, connectedSlots, positive, negative) =>
        SplitDemand(db, session, split, now, connectedSlots, positive, negative);
      case OfferSplits(sockets, ids, undelivered) => IssuePermitsCapped(db, sockets, ids, undelivered, now);
      case SatChecked(c, v) => FinishSatAddsOne(db, c, v, now);
      case _ =>
        ActShrinks(s, step);
        ShrinksLowers(db, db', now, now);
    }
  }

  lemma SplitDemand(db: Db, session: Id, m: SplitMessage, now: nat, connectedSlots: nat, positive: Id, negative: Id)
    requires HeldIsLeased(db.tasks) && positive !in db.tasks && negative !in db.tasks && positive != negative
    ensures var db' := SplitTask(db, session, m, now, connectedSlots, positive, negative).0;
      HeldIsLeased(db'.tasks) && Demand(db', now) <= Demand(db, now)
  {
    if SplitAccepted(db, session, m, now, connectedSlots) {
      DivideTrades(db, session, m, now, connectedSlots, positive, negative);
    } else {
      var db' := SplitTask(db, session, m, now, connectedSlots, positive, negative).0;
      assert Shrinks(db, db');
      ShrinksLowers(db, db', now, now);
    }
  }

  lemma EnterClaimShrinks(s: System, c: Claim)
    requires HeldIsLeased(s.db.tasks) && c.m.task in s.db.tasks
    ensures Shrinks(s.db, EnterClaim(s, c).db)
  {
    EnterShrinks(s.db, c);
  }

  lemma YieldShrinks(db: Db, session: Id, m: YieldMessage, now: nat)
    requires HeldIsLeased(db.tasks)
    ensures Shrinks(db, YieldTask(db, session, m, now).0)
  {
    EndLeasesShrinks(db, {m.lease}, YIELDED, false, CANCEL_PERMITS);
  }

  lemma AlarmShrinks(db: Db, now: nat)
    requires HeldIsLeased(db.tasks)
    ensures Shrinks(db, Alarm(db, now))
  {
    EndLeasesShrinks(db, (set l | l in AlarmBatch(db, now)), EXPIRED, false, CANCEL_IF_HELD);
  }

  lemma ActShrinks(s: System, step: Timed)
    requires Runnable(s.db, step.event) && HeldIsLeased(s.db.tasks) && ConcernsProofs(s.db, step.event)
    requires !step.event.RequestSplit? && !step.event.OfferSplits? && !step.event.SatChecked?
    ensures Shrinks(s.db, Act(s, step.event, step.now).db)
  {
    var db, now := s.db, step.now;
    match step.event {
      case Connect(session, slots, proofGeneration) => HelloShrinks(db, session, slots, proofGeneration, now);
      case Dispatch(session, slot, lease) => LeaseWorkShrinks(db, session, slot, now, lease);
      case Undelivered(lease) => EndLeasesShrinks(db, {lease}, EXPIRED, false, KEEP_PERMITS);
      case Beat(session, progress) => HeartbeatShrinks(db, session, progress, now);
      case RequestYield(session, m) => YieldShrinks(db, session, m, now);
      case Enter(c) => EnterClaimShrinks(s, c);
      case ProofChecked(c, v) => FinishUnsatShrinks(db, c, v, now);
      case OwnerConfirmed(artifact, sha256) => ConfirmShrinks(db, artifact, sha256);
      case OwnerCancelled => CloseShrinks(db, ROOT);
      case AlarmFired => AlarmShrinks(db, now);
      case ClientStopped(session) => EndLeasesShrinks(db, LeasesBy(db, session), YIELDED, false, CANCEL_PERMITS);
      case _ =>
    }
  }

  lemma ProofsConcerned(s: System, step: Timed)
    requires ClaimsOk(s) && Admissible(s, step)
    ensures ConcernsProofs(s.db, step.event)
  {
    var e := step.event;
    if e.ProofChecked? {
      assert e.claim in s.checkingProof && ClaimOk(s.db, e.claim);
    }
  }

  lemma StepKeeps(f: Formula, trustOwner: bool, s: System, step: Timed)
    requires Invariant(f, trustOwner, s) && Enabled(f, s, step) && Runnable(s.db, step.event)
    requires trustOwner ==> HonestOwner(f, s, step.event)
    ensures Invariant(f, trustOwner, Step(s, step))
  {
    EnabledRunnable(f, s, step);
    ProofsConcerned(s, step);
    ActClaims(f, s, step);
    ActBudget(f, s, step);
    ActSearch(f, trustOwner, s, step);
    ActPublishes(f, trustOwner, s, step);
    ActDemand(f, s, step);
  }
}
