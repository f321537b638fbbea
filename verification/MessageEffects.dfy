/**
 What SPLIT, YIELD and RESULT messages, proof uploads and the owner's cancellation are answered and what
 they change: when each is accepted, with which error it is refused, and every row it touches.
 */
module MessageEffects {
  import opened Wrappers
  import opened Cnf
  import opened Rows
  import opened CoordinatorTables
  import opened ProofBudget
  import opened VerdictEffects
  import opened LeaseEffects

  // ----- SPLIT -----

  /** The session works on the task under this lease right now. */
  predicate WorksNow(db: Db, session: Id, task: Id, lease: Id, now: nat) {
    && lease in db.leases && task in db.tasks
    && (var row := db.leases[lease]; row.task == task && row.session == session && row.status.ACTIVE? && now < row.expiresAt)
    && db.tasks[task].state.LEASED? && db.tasks[task].activeLease == Some(lease)
  }

  /** The lease works in the slot named and on a search task that is not too deep. */
  predicate MayDivide(db: Db, m: SplitMessage)
    requires m.lease in db.leases && m.task in db.tasks
  {
    db.leases[m.lease].slot == m.slot && db.tasks[m.task].depth < 64 && !db.tasks[m.task].proofRequired
  }

  /** The permit is open and was given for exactly this. */
  predicate Permits(db: Db, session: Id, m: SplitMessage, now: nat) {
    m.permit in db.permits &&
    var p := db.permits[m.permit];
    p == Permit(m.task, m.lease, session, m.slot, p.expiresAt, PermitStatus.ACTIVE) && now < p.expiresAt
  }

  /** Some slot is idle and there is too little search work for all slots. */
  ghost predicate WorkIsShort(db: Db, connectedSlots: nat, now: nat) {
    |Busy(db, now)| < connectedSlots && |Frontier(db.tasks)| < 2 * connectedSlots && |Frontier(db.tasks)| < 16
  }

  /** A variable of the formula that the cube does not decide yet. */
  predicate IsUndecided(db: Db, task: Id, literal: Literal)
    requires task in db.tasks
  {
    Abs(literal) <= db.job.variableCount && forall l :: l in db.tasks[task].cube ==> l != literal && l != -literal
  }

  ghost predicate MaySplitNow(db: Db, session: Id, m: SplitMessage, now: nat, connectedSlots: nat) {
    && WorksNow(db, session, m.task, m.lease, now) && MayDivide(db, m) && Permits(db, session, m, now)
    && WorkIsShort(db, connectedSlots, now) && |db.tasks| <= 9_998 && IsUndecided(db, m.task, m.literal)
  }

  /** The literal and its negation extend the cube of one new task each; the task, its lease and the permit are used up. */
  ghost predicate SplitDone(db: Db, db': Db, session: Id, m: SplitMessage, now: nat, positive: Id, negative: Id) {
    && m.task in db.tasks && m.lease in db.leases && m.permit in db.permits
    && db' == db.(tasks := db'.tasks, leases := db'.leases, permits := db'.permits, processed := db'.processed)
    && Noted(db.processed, db'.processed, Processed(session, m.message, Ack, now))
    && db'.leases == db.leases[m.lease := db.leases[m.lease].(status := LeaseStatus.SPLIT)]
    && db'.permits == db.permits[m.permit := db.permits[m.permit].(status := CONSUMED)]
    && db'.tasks.Keys == db.tasks.Keys + {positive, negative}
    && (forall t :: t in db.tasks && t != m.task ==> db'.tasks[t] == db.tasks[t])
    && var task := db.tasks[m.task];
       && db'.tasks[m.task] == task.(state := TaskState.SPLIT, activeLease := None)
       && db'.tasks[positive] == Task(Some(m.task), task.depth + 1, task.cube + [m.literal], READY, now, 0, None, false)
       && db'.tasks[negative] == Task(Some(m.task), task.depth + 1, task.cube + [-m.literal], READY, now, 0, None, false)
  }

  /** The first of the tests that fails decides the error; a permit that can no longer be used is taken back. */
  ghost predicate SplitRefused(db: Db, db': Db, reply: Reply, session: Id, m: SplitMessage, now: nat, connectedSlots: nat) {
    if !WorksNow(db, session, m.task, m.lease, now) then reply == Error(STALE_LEASE) && db' == db
    else if !MayDivide(db, m) then reply == Error(INVALID_STATE) && db' == db
    else if !Permits(db, session, m, now) then reply == Error(SPLIT_NOT_NEEDED) && db' == db
    else if WorkIsShort(db, connectedSlots, now) && |db.tasks| <= 9_998 then reply == Error(INVALID_STATE) && db' == db
    else
      && reply == Error(if WorkIsShort(db, connectedSlots, now) then TASK_LIMIT else SPLIT_NOT_NEEDED)
      && db' == db.(permits := db.permits[m.permit := db.permits[m.permit].(status := PermitStatus.CANCELLED)])
  }

  ghost predicate SplitAnswered(db: Db, db': Db, reply: Reply, session: Id, m: SplitMessage, now: nat, connectedSlots: nat,
                                positive: Id, negative: Id) {
    if Recorded(db.processed, session, m.message).Some? then
      reply == Recorded(db.processed, session, m.message).value && db' == db
    else if MaySplitNow(db, session, m, now, connectedSlots) then reply == Ack && SplitDone(db, db', session, m, now, positive, negative)
    else SplitRefused(db, db', reply, session, m, now, connectedSlots)
  }

  lemma DivideIsExact(db: Db, session: Id, m: SplitMessage, now: nat, positive: Id, negative: Id)
    requires m.task in db.tasks && m.lease in db.leases && m.permit in db.permits
    requires positive !in db.tasks && negative !in db.tasks && positive != negative && Recorded(db.processed, session, m.message).None?
    ensures SplitDone(db, Divide(db, session, m, now, positive, negative), session, m, now, positive, negative)
  {
    var db' := Divide(db, session, m, now, positive, negative);
    RecordIsNoted(db.processed, session, m.message, Ack, now);
    assert db'.tasks.Keys == db.tasks.Keys + {positive, negative};
  }

  lemma TestsAreSame(db: Db, session: Id, m: SplitMessage, now: nat, connectedSlots: nat)
    ensures HoldsTask(db, session, m.task, m.lease, now) <==> WorksNow(db, session, m.task, m.lease, now)
    ensures PermitValid(db, session, m, now) <==> Permits(db, session, m, now)
    ensures SplitNeeded(db, connectedSlots, now) <==> WorkIsShort(db, connectedSlots, now)
    ensures m.task in db.tasks ==> (Splittable(db, m.task, m.literal) <==> IsUndecided(db, m.task, m.literal))
  {
  }

  lemma SplitIsExact(db: Db, session: Id, m: SplitMessage, now: nat, connectedSlots: nat, positive: Id, negative: Id)
    requires positive !in db.tasks && negative !in db.tasks && positive != negative
    ensures var (db', reply) := SplitTask(db, session, m, now, connectedSlots, positive, negative);
      SplitAnswered(db, db', reply, session, m, now, connectedSlots, positive, negative)
  {
    TestsAreSame(db, session, m, now, connectedSlots);
    if SplitAccepted(db, session, m, now, connectedSlots) {
      DivideIsExact(db, session, m, now, positive, negative);
    }
  }

  // ----- YIELD -----

  ghost predicate YieldDone(db: Db, db': Db, session: Id, m: YieldMessage, now: nat) {
    && db' == db.(leases := db'.leases, tasks := db'.tasks, permits := db'.permits, proofCapable := db'.proofCapable, processed := db'.processed)
    && LeasesEnd(db, db', {m.lease}, YIELDED) && PermitsEnd(db.permits, db'.permits, {m.lease})
    && (forall s :: s in db'.proofCapable <==> s in db.proofCapable && !(m.unsupported && s == session))
    && Noted(db.processed, db'.processed, Processed(session, m.message, Ack, now))
  }

  ghost predicate YieldAnswered(db: Db, db': Db, reply: Reply, session: Id, m: YieldMessage, now: nat) {
    if Recorded(db.processed, session, m.message).Some? then
      reply == Recorded(db.processed, session, m.message).value && db' == db
    else if WorksNow(db, session, m.task, m.lease, now) && db.leases[m.lease].slot == m.slot then
      reply == Ack && YieldDone(db, db', session, m, now)
    else reply == Error(STALE_LEASE) && db' == db
  }

  lemma ReturnIsExact(db: Db, lease: Id)
    ensures var db' := EndLeases(db, {lease}, YIELDED, false, CANCEL_PERMITS);
      LeasesEnd(db, db', {lease}, YIELDED) && PermitsEnd(db.permits, db'.permits, {lease})
  {
  }

  lemma YieldIsDone(db: Db, db': Db, session: Id, m: YieldMessage, now: nat)
    requires Recorded(db.processed, session, m.message).None?
    requires db' == EndLeases(db, {m.lease}, YIELDED, false, CANCEL_PERMITS).(
      proofCapable := if m.unsupported then db.proofCapable - {session} else db.proofCapable,
      processed := Record(db.processed, session, m.message, Ack, now))
    ensures YieldDone(db, db', session, m, now)
  {
    ReturnIsExact(db, m.lease);
    RecordIsNoted(db.processed, session, m.message, Ack, now);
  }

  lemma YieldIsExact(db: Db, session: Id, m: YieldMessage, now: nat)
    ensures var (db', reply) := YieldTask(db, session, m, now);
      YieldAnswered(db, db', reply, session, m, now)
  {
    var db' := YieldTask(db, session, m, now).0;
    assert HoldsTask(db, session, m.task, m.lease, now) <==> WorksNow(db, session, m.task, m.lease, now);
    if Recorded(db.processed, session, m.message).None? && WorksNow(db, session, m.task, m.lease, now) && db.leases[m.lease].slot == m.slot {
      YieldIsDone(db, db', session, m, now);
    }
  }

  // ----- RESULT -----

  /** The lease was issued to this session for this task and slot; it may have ended since. */
  predicate IsLessee(db: Db, session: Id, m: ResultMessage) {
    m.lease in db.leases && var row := db.leases[m.lease]; row.task == m.task && row.session == session && row.slot == m.slot
  }

  /** The job still takes results, and the report is about its formula and the cube of a task not cancelled. */
  predicate IsAnswerable(db: Db, m: ResultMessage, now: nat) {
    && (db.job.state.UPLOADING? || db.job.state.QUEUED? || db.job.state.RUNNING?) && now < db.job.expiresAt
    && m.task in db.tasks && !db.tasks[m.task].state.CANCELLED?
    && m.formulaHash == db.job.formulaHash && m.pathMatches && m.cube == db.tasks[m.task].cube
  }

  /** A report is taken up with the rows as they are, and is stale unless its lease still holds the task in time. */
  predicate ClaimTaken(db: Db, r: Result<Claim, Reply>, session: Id, m: ResultMessage, now: nat)
    requires m.lease in db.leases && m.task in db.tasks
  {
    var row, task := db.leases[m.lease], db.tasks[m.task];
    r == Ok(Claim(session, m, row, task, !(row.status.ACTIVE? && now < row.expiresAt && task.activeLease == Some(m.lease)), now))
  }

  ghost predicate ResultReceived(db: Db, r: Result<Claim, Reply>, session: Id, m: ResultMessage, now: nat) {
    if Recorded(db.processed, session, m.message).Some? then r == Err(Recorded(db.processed, session, m.message).value)
    else if !IsLessee(db, session, m) then r == Err(Error(STALE_LEASE))
    else if !IsAnswerable(db, m, now) then r == Err(Error(INVALID_STATE))
    else ClaimTaken(db, r, session, m, now)
  }

  lemma ReceiveIsExact(db: Db, session: Id, m: ResultMessage, now: nat)
    ensures ResultReceived(db, ReceiveResult(db, session, m, now), session, m, now)
  {
  }

  /** All active leases on the task end; the reporting one is marked as the one with the result. */
  ghost predicate TaskLeasesEnd(leases: map<Id, Lease>, leases': map<Id, Lease>, t: Id, reporting: Id) {
    && leases'.Keys == leases.Keys
    && forall l :: l in leases ==>
      leases'[l] == if leases[l].task == t && leases[l].status.ACTIVE?
                    then leases[l].(status := if l == reporting then RESULT else SUPERSEDED) else leases[l]
  }

  /** The cube is queued again for a proof if the report came from its holder and no model of it is being checked. */
  predicate AsksForProof(c: Claim) {
    c.lease.status.ACTIVE? && c.task.activeLease == Some(c.m.lease) && !c.task.state.VERIFYING_SAT?
  }

  ghost predicate CandidateTaken(db: Db, db': Db, c: Claim)
    requires c.m.task in db.tasks
  {
    && Noted(db.processed, db'.processed, Processed(c.session, c.m.message, AckResult(c.stale), c.receivedAt))
    && if AsksForProof(c) then
         && db' == db.(tasks := db'.tasks, leases := db'.leases, permits := db'.permits, processed := db'.processed)
         && TaskBecomes(db.tasks, db'.tasks, c.m.task, db.tasks[c.m.task].(state := READY, proofRequired := true, activeLease := None))
         && TaskLeasesEnd(db.leases, db'.leases, c.m.task, c.m.lease) && PermitsEnd(db.permits, db'.permits, {c.m.lease})
       else db' == db.(processed := db'.processed)
  }

  ghost predicate CandidateAnswered(db: Db, db': Db, reply: Reply, c: Claim)
    requires c.m.task in db.tasks
  {
    if c.task.proofRequired then reply == Error(INVALID_STATE) && db' == db
    else if Recorded(db.processed, c.session, c.m.message).Some? then
      reply == Recorded(db.processed, c.session, c.m.message).value && db' == db
    else reply == AckResult(c.stale) && CandidateTaken(db, db', c)
  }

  lemma RequestIsExact(db: Db, c: Claim)
    requires c.m.task in db.tasks
    ensures var db' := RequestProof(db, c);
      && db' == db.(tasks := db'.tasks, leases := db'.leases, permits := db'.permits)
      && TaskBecomes(db.tasks, db'.tasks, c.m.task, db.tasks[c.m.task].(state := READY, proofRequired := true, activeLease := None))
      && TaskLeasesEnd(db.leases, db'.leases, c.m.task, c.m.lease) && PermitsEnd(db.permits, db'.permits, {c.m.lease})
  {
  }

  lemma CandidateIsTaken(db: Db, c: Claim, taken: Db)
    requires c.m.task in db.tasks && Recorded(db.processed, c.session, c.m.message).None?
    requires taken == if AsksForProof(c) then RequestProof(db, c) else db
    ensures CandidateTaken(db, Logged(taken, c, c.receivedAt), c)
  {
    RecordIsNoted(db.processed, c.session, c.m.message, AckResult(c.stale), c.receivedAt);
    RequestIsExact(db, c);
  }

  lemma CandidateIsExact(db: Db, c: Claim)
    requires c.m.task in db.tasks
    ensures var (db', reply) := EnterCandidate(db, c);
      CandidateAnswered(db, db', reply, c)
  {
    if Recorded(db.processed, c.session, c.m.message).None? {
      CandidateIsTaken(db, c, if AsksForProof(c) then RequestProof(db, c) else db);
    }
  }

  /** The model is the upload of the reporting lease and has a value for every variable. */
  predicate ModelIsBound(db: Db, c: Claim) {
    c.m.manifest == SatModel(c.m.lease, db.job.variableCount)
  }

  ghost predicate SatCheckBegun(db: Db, db': Db, c: Claim)
    requires c.m.task in db.tasks
  {
    && db' == db.(tasks := db'.tasks, leases := db'.leases) && TaskLeasesEnd(db.leases, db'.leases, c.m.task, c.m.lease)
    && TaskBecomes(db.tasks, db'.tasks, c.m.task, db.tasks[c.m.task].(state := VERIFYING_SAT, activeLease := None))
  }

  /** A proof was asked for, and the manifest is that of the proof stored under the reporting lease for this task. */
  predicate ProofIsBound(db: Db, c: Claim) {
    c.task.proofRequired && c.m.lease in db.proofs && db.proofs[c.m.lease].task == c.m.task &&
    var row := db.proofs[c.m.lease];
    c.m.manifest == UnsatProof(c.m.lease, row.sha256, row.compressedBytes, row.decompressedBytes)
  }

  ghost predicate ProofCheckBegun(db: Db, db': Db, c: Claim)
    requires c.m.task in db.tasks
  {
    && db' == db.(tasks := db'.tasks, leases := db'.leases, permits := db'.permits)
    && TaskLeasesEnd(db.leases, db'.leases, c.m.task, c.m.lease)
    && TaskBecomes(db.tasks, db'.tasks, c.m.task, db.tasks[c.m.task].(state := VERIFYING_UNSAT, activeLease := None))
    && db'.permits.Keys == db.permits.Keys
    && forall p :: p in db.permits ==>
      db'.permits[p] == if db.permits[p].task == c.m.task && db.permits[p].status.ACTIVE?
                        then db.permits[p].(status := PermitStatus.CANCELLED) else db.permits[p]
  }

  lemma EnterSatIsExact(db: Db, c: Claim)
    requires c.m.task in db.tasks
    ensures (SatClaimBound(db, c) <==> ModelIsBound(db, c)) && SatCheckBegun(db, EnterSat(db, c), c)
  {
  }

  lemma EnterProofIsExact(db: Db, c: Claim)
    requires c.m.task in db.tasks
    ensures (ProofClaimBound(db, c) <==> ProofIsBound(db, c)) && ProofCheckBegun(db, EnterProof(db, c), c)
  {
  }

  // ----- proof uploads -----

  /** The lease holds a task that waits for a proof, before the job's expiry, and the upload fits its limits. */
  ghost predicate UploadAllowed(db: Db, lease: Id, bytes: nat, decompressedBytes: nat, now: nat) {
    && lease in db.leases && db.leases[lease].status.ACTIVE? && now < db.job.expiresAt
    && (var t := db.leases[lease].task;
        t in db.tasks && db.tasks[t].state.LEASED? && db.tasks[t].activeLease == Some(lease) && db.tasks[t].proofRequired)
    && 1 <= decompressedBytes <= 128 * 1024 * 1024 && 1 <= bytes && bytes + TotalBytes(db.proofs) <= 25 * 1024 * 1024
  }

  ghost predicate UploadBegun(db: Db, db': Db, stored: bool, lease: Id, bytes: nat, decompressedBytes: nat, key: Id, now: nat) {
    && (stored <==> UploadAllowed(db, lease, bytes, decompressedBytes, now))
    && db' == db.(objects := if stored then db.objects + {key} else db.objects)
  }

  /** The row is new if the upload is still allowed and the lease has no proof yet; else the object goes again. */
  ghost predicate UploadEnded(db: Db, db': Db, kept: bool, lease: Id, sha256: Id, bytes: nat, decompressedBytes: nat, key: Id, now: nat) {
    && (kept <==> UploadAllowed(db, lease, bytes, decompressedBytes, now) && lease !in db.proofs)
    && if kept then
         lease in db.leases &&
         db' == db.(proofs := db.proofs[lease := Proof(db.leases[lease].task, sha256, bytes, decompressedBytes, Some(key), UPLOADED)])
       else db' == db.(objects := db.objects - {key})
  }

  lemma UploadIsExact(db: Db, lease: Id, sha256: Id, bytes: nat, decompressedBytes: nat, key: Id, now: nat)
    ensures var (db', stored) := PutProof(db, lease, bytes, decompressedBytes, key, now);
      UploadBegun(db, db', stored, lease, bytes, decompressedBytes, key, now)
    ensures var (db', kept) := CommitProof(db, lease, sha256, bytes, decompressedBytes, key, now);
      UploadEnded(db, db', kept, lease, sha256, bytes, decompressedBytes, key, now)
  {
  }

  // ----- cancellation -----

  /** The first cancellation ends every lease and every task; a later one changes nothing. */
  ghost predicate JobCancelled(db: Db, db': Db) {
    if db.job.state.CANCELLED? then db' == db
    else
      && db' == db.(job := db.job.(state := JobState.CANCELLED), tasks := db'.tasks, leases := db'.leases)
      && db'.tasks.Keys == db.tasks.Keys && db'.leases.Keys == db.leases.Keys
      && (forall t :: t in db.tasks ==> db'.tasks[t] == db.tasks[t].(state := TaskState.CANCELLED, activeLease := None))
      && (forall l :: l in db.leases ==>
            db'.leases[l] == if db.leases[l].status.ACTIVE? then db.leases[l].(status := LeaseStatus.CANCELLED) else db.leases[l])
  }

  lemma CancelIsExact(db: Db)
    ensures JobCancelled(db, Cancel(db))
  {
  }
}
