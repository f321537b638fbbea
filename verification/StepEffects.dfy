/** Every step of every run changes exactly the rows spelled out for its event. */
module StepEffects {
  import opened Wrappers
  import opened Cnf
  import opened Rows
  import opened CoordinatorTables
  import opened LeaseSafety
  import opened SearchSafety
  import opened CoordinatorRuns
  import opened CoordinatorTheorems
  import opened VerdictEffects
  import opened LeaseEffects
  import opened MessageEffects

  ghost predicate Stored(db: Db, db': Db) {
    db' == db.(job := db'.job) && db'.job == db.job.(state := if db.job.state.UPLOADING? then QUEUED else db.job.state)
  }

  ghost predicate ClaimEntered(db: Db, db': Db, c: Claim)
    requires c.m.task in db.tasks
  {
    match c.m.manifest
    case UnsatCandidate => exists reply :: CandidateAnswered(db, db', reply, c)
    case SatModel(_, _) => if ModelIsBound(db, c) then SatCheckBegun(db, db', c) else db' == db
    case UnsatProof(_, _, _, _) => if ProofIsBound(db, c) then ProofCheckBegun(db, db', c) else db' == db
  }

  ghost predicate LeaseEffect(db: Db, e: Event, now: nat, db': Db) {
    match e
    case HelloArrives(_, _, _) => db' == db
    case Connect(session, slots, proofGeneration) => Resumed(db, db', session, slots, proofGeneration, now)
    case Dispatch(session, slot, lease) => Dispatched(db, db', session, slot, now, lease)
    case Undelivered(lease) => RolledBack(db, db', lease)
    case OfferSplits(sockets, ids, undelivered) => PermitsOffered(db, db', sockets, ids, undelivered, now)
    case Beat(session, slots) => Beaten(db, db', session, slots, now)
    case AlarmFired => AlarmTaken(db, db', now)
    case ClientStopped(session) => Disconnected(db, db', session)
    case _ => true
  }

  ghost predicate MessageEffect(db: Db, e: Event, now: nat, db': Db)
    requires e.Enter? ==> e.claim.m.task in db.tasks
  {
    match e
    case RequestSplit(session, split, connectedSlots, positive, negative) =>
      exists reply :: SplitAnswered(db, db', reply, session, split, now, connectedSlots, positive, negative)
    case RequestYield(session, m) => exists reply :: YieldAnswered(db, db', reply, session, m, now)
    case Report(_, _) => db' == db
    case Enter(c) => ClaimEntered(db, db', c)
    case ProofArrives(u) => exists stored :: UploadBegun(db, db', stored, u.lease, u.bytes, u.decompressedBytes, u.key, now)
    case ProofStored(u) => exists kept :: UploadEnded(db, db', kept, u.lease, u.sha256, u.bytes, u.decompressedBytes, u.key, now)
    case _ => true
  }

  ghost predicate ProofEnded(db: Db, db': Db, c: Claim, v: UnsatVerdict, now: nat)
    requires c.m.task in db.tasks && c.m.manifest.UnsatProof?
  {
    exists terminal :: ProofFinished(db, db', c, v, now, terminal)
  }

  ghost predicate OwnerAnswered(db: Db, db': Db, artifact: Id, sha256: Id) {
    exists terminal :: OwnerOutcome(db, db', artifact, sha256, terminal)
  }

  ghost predicate VerdictEffect(db: Db, e: Event, now: nat, db': Db)
    requires Runnable(db, e)
  {
    match e
    case FormulaStored => Stored(db, db')
    case SatChecked(c, v) => SatFinished(db, db', c, v, now)
    case ProofChecked(c, v) => ProofEnded(db, db', c, v, now)
    case OwnerConfirmed(artifact, sha256) => OwnerAnswered(db, db', artifact, sha256)
    case OwnerCancelled => JobCancelled(db, db')
    case _ => true
  }

  /** Each event is of exactly one of the three kinds. */
  ghost predicate Effect(db: Db, e: Event, now: nat, db': Db)
    requires Runnable(db, e)
  {
    LeaseEffect(db, e, now, db') && MessageEffect(db, e, now, db') && VerdictEffect(db, e, now, db')
  }

  lemma ClaimEntersExactly(s: System, c: Claim)
    requires c.m.task in s.db.tasks
    ensures ClaimEntered(s.db, EnterClaim(s, c).db, c)
  {
    CandidateIsExact(s.db, c);
    EnterSatIsExact(s.db, c);
    EnterProofIsExact(s.db, c);
    var reply := EnterCandidate(s.db, c).1;
  }

  lemma LeasesExact(s: System, step: Timed)
    requires Runnable(s.db, step.event) && Admissible(s, step)
    ensures LeaseEffect(s.db, step.event, step.now, Act(s, step.event, step.now).db)
  {
    var db, now := s.db, step.now;
    match step.event {
      case Connect(session, slots, proofGeneration) => HelloIsExact(db, session, slots, proofGeneration, now);
      case Dispatch(session, slot, lease) => LeaseWorkIsExact(db, session, slot, now, lease);
      case Undelivered(lease) => RollbackIsExact(db, lease);
      case OfferSplits(sockets, ids, undelivered) => IssuePermitsIsExact(db, sockets, ids, undelivered, now);
      case Beat(session, slots) => HeartbeatIsExact(db, session, slots, now);
      case AlarmFired => AlarmIsExact(db, now);
      case ClientStopped(session) => DisconnectIsExact(db, session);
      case _ =>
    }
  }

  lemma MessagesExact(s: System, step: Timed)
    requires Runnable(s.db, step.event) && Admissible(s, step)
    ensures MessageEffect(s.db, step.event, step.now, Act(s, step.event, step.now).db)
  {
    var db, now := s.db, step.now;
    match step.event {
      case RequestSplit(session, split, connectedSlots, positive, negative) =>
        SplitIsExact(db, session, split, now, connectedSlots, positive, negative);
      case RequestYield(session, m) => YieldIsExact(db, session, m, now);
      case Enter(c) => ClaimEntersExactly(s, c);
      case ProofArrives(u) => UploadIsExact(db, u.lease, u.sha256, u.bytes, u.decompressedBytes, u.key, now);
      case ProofStored(u) => UploadIsExact(db, u.lease, u.sha256, u.bytes, u.decompressedBytes, u.key, now);
      case _ =>
    }
  }

  lemma ProofEndsExactly(db: Db, c: Claim, v: UnsatVerdict, now: nat)
    requires TreeShaped(db.tasks) && c.m.task in db.tasks && c.m.manifest.UnsatProof?
    ensures ProofEnded(db, FinishUnsat(db, c, v, now).0, c, v, now)
  {
    FinishUnsatIsExact(db, c, v, now);
    var (db', terminal) := FinishUnsat(db, c, v, now);
    assert ProofFinished(db, db', c, v, now, terminal);
  }

  lemma OwnerAnsweredExactly(db: Db, artifact: Id, sha256: Id)
    requires TreeShaped(db.tasks) && (artifact in db.proofs ==> db.proofs[artifact].task in db.tasks)
    ensures OwnerAnswered(db, ConfirmOwner(db, artifact, sha256).0, artifact, sha256)
  {
    ConfirmIsExact(db, artifact, sha256);
    var (db', terminal) := ConfirmOwner(db, artifact, sha256);
    assert OwnerOutcome(db, db', artifact, sha256, terminal);
  }

  lemma VerdictsExact(s: System, step: Timed)
    requires Runnable(s.db, step.event) && Admissible(s, step)
    ensures VerdictEffect(s.db, step.event, step.now, Act(s, step.event, step.now).db)
  {
    var db, now := s.db, step.now;
    match step.event {
      case SatChecked(c, v) => FinishSatIsExact(db, c, v, now);
      case ProofChecked(c, v) => ProofEndsExactly(db, c, v, now);
      case OwnerConfirmed(artifact, sha256) => OwnerAnsweredExactly(db, artifact, sha256);
      case OwnerCancelled => CancelIsExact(db);
      case _ =>
    }
  }

  lemma StepsAreExact(f: Formula, trace: seq<System>, steps: seq<Timed>, k: nat)
    requires Run(f, trace, steps) && k < |steps|
    ensures Runnable(trace[k].db, steps[k].event)
    ensures Effect(trace[k].db, steps[k].event, steps[k].now, trace[k + 1].db)
    ensures trace[k + 1].clock == steps[k].now
  {
    assert Follows(f, trace[k], steps[k], trace[k + 1]);
    LeasesExact(trace[k], steps[k]);
    MessagesExact(trace[k], steps[k]);
    VerdictsExact(trace[k], steps[k]);
  }

  // ----- what is published, and which handlers are suspended -----

  function Closing(terminal: Option<Terminal>): set<Verdict> {
    if terminal.Some? then {UNSAT(terminal.value)} else {}
  }

  ghost predicate ProofAnnounced(s: System, s': System, c: Claim, v: UnsatVerdict, now: nat, terminal: Option<Terminal>)
    requires c.m.task in s.db.tasks && c.m.manifest.UnsatProof?
  {
    ProofFinished(s.db, s'.db, c, v, now, terminal) && s'.published == s.published + Closing(terminal)
  }

  ghost predicate OwnerAnnounced(s: System, s': System, artifact: Id, sha256: Id, terminal: Option<Terminal>) {
    OwnerOutcome(s.db, s'.db, artifact, sha256, terminal) && s'.published == s.published + Closing(terminal)
  }

  /** SAT is published for every valid model, UNSAT with the verdict with which certification closed the job. */
  ghost predicate Announced(s: System, e: Event, now: nat, s': System)
    requires Runnable(s.db, e)
  {
    match e
    case SatChecked(_, v) => s'.published == s.published + if v.VALID_SAT? then {SAT} else {}
    case ProofChecked(c, v) => exists terminal :: ProofAnnounced(s, s', c, v, now, terminal)
    case OwnerConfirmed(artifact, sha256) => exists terminal :: OwnerAnnounced(s, s', artifact, sha256, terminal)
    case _ => s'.published == s.published
  }

  ghost predicate Received(s: System, s': System, session: Id, m: ResultMessage, now: nat) {
    exists r :: ResultReceived(s.db, r, session, m, now) && s'.received == s.received + if r.Ok? then {r.value} else {}
  }

  /** A handler is suspended at an await exactly if its tests passed. */
  ghost predicate Suspends(s: System, e: Event, now: nat, s': System)
    requires Runnable(s.db, e)
  {
    && s'.greeted == s.greeted + (if e.HelloArrives? && e.session !in s.db.quarantined
                                  then {Greeting(e.session, e.slots, e.proofGeneration)} else {})
    && (if e.Report? then Received(s, s', e.session, e.result, now) else s'.received == s.received)
    && s'.checkingSat == s.checkingSat + (if e.Enter? && ModelIsBound(s.db, e.claim) then {e.claim} else {})
    && s'.checkingProof == s.checkingProof + (if e.Enter? && ProofIsBound(s.db, e.claim) then {e.claim} else {})
    && s'.uploads == (if e.ProofArrives? && UploadAllowed(s.db, e.upload.lease, e.upload.bytes, e.upload.decompressedBytes, now)
                      then s.uploads + {e.upload} else if e.ProofStored? then s.uploads - {e.upload} else s.uploads)
  }

  lemma AnnouncesExactly(s: System, step: Timed)
    requires Runnable(s.db, step.event) && Admissible(s, step)
    ensures Announced(s, step.event, step.now, Act(s, step.event, step.now))
  {
    var db, now, s' := s.db, step.now, Act(s, step.event, step.now);
    match step.event {
      case ProofChecked(c, v) =>
        FinishUnsatIsExact(db, c, v, now);
        var terminal := FinishUnsat(db, c, v, now).1;
        assert s'.published == s.published + Closing(terminal);
        assert ProofAnnounced(s, s', c, v, now, terminal);
      case OwnerConfirmed(artifact, sha256) =>
        ConfirmIsExact(db, artifact, sha256);
        var terminal := ConfirmOwner(db, artifact, sha256).1;
        assert s'.published == s.published + Closing(terminal);
        assert OwnerAnnounced(s, s', artifact, sha256, terminal);
      case _ =>
    }
  }

  lemma SuspendsExactly(s: System, step: Timed)
    requires Runnable(s.db, step.event) && Admissible(s, step)
    ensures Suspends(s, step.event, step.now, Act(s, step.event, step.now))
  {
    var db, now, e, s' := s.db, step.now, step.event, Act(s, step.event, step.now);
    match e {
      case Report(session, m) =>
        ReceiveIsExact(db, session, m, now);
        var r := ReceiveResult(db, session, m, now);
        assert s'.received == s.received + if r.Ok? then {r.value} else {};
      case Enter(c) =>
        EnterSatIsExact(db, c);
        EnterProofIsExact(db, c);
      case ProofArrives(u) => UploadIsExact(db, u.lease, u.sha256, u.bytes, u.decompressedBytes, u.key, now);
      case _ =>
    }
  }

  /** The clock is no part of either. */
  lemma ClockChangesNothing(s: System, e: Event, now: nat, s': System, time: nat)
    requires Runnable(s.db, e) && Announced(s, e, now, s') && Suspends(s, e, now, s')
    ensures Announced(s, e, now, s'.(clock := time)) && Suspends(s, e, now, s'.(clock := time))
  {
    var s2 := s'.(clock := time);
    match e {
      case ProofChecked(c, v) =>
        var terminal :| ProofAnnounced(s, s', c, v, now, terminal);
        assert ProofAnnounced(s, s2, c, v, now, terminal);
      case OwnerConfirmed(artifact, sha256) =>
        var terminal :| OwnerAnnounced(s, s', artifact, sha256, terminal);
        assert OwnerAnnounced(s, s2, artifact, sha256, terminal);
      case _ =>
    }
  }

  /** In every run each step publishes and suspends exactly what is spelled out for its event. */
  lemma HandlersAreExact(f: Formula, trace: seq<System>, steps: seq<Timed>, k: nat)
    requires Run(f, trace, steps) && k < |steps|
    ensures Runnable(trace[k].db, steps[k].event)
    ensures Announced(trace[k], steps[k].event, steps[k].now, trace[k + 1])
    ensures Suspends(trace[k], steps[k].event, steps[k].now, trace[k + 1])
  {
    assert Follows(f, trace[k], steps[k], trace[k + 1]);
    AnnouncesExactly(trace[k], steps[k]);
    SuspendsExactly(trace[k], steps[k]);
    ClockChangesNothing(trace[k], steps[k].event, steps[k].now, Act(trace[k], steps[k].event, steps[k].now), steps[k].now);
  }
}
