/**
 A published model need not be stored.  A browser repeats its report while the first copy is being checked;
 the first check ends without an answer and records the message; the second finds the model valid, publishes
 SAT and stores nothing, because the message is recorded already.
 */
module UnstoredModel {
  import opened Wrappers
  import opened Cnf
  import opened Rows
  import opened CoordinatorTables
  import opened LeaseSafety
  import opened SearchSafety
  import opened SearchSteps
  import opened CoordinatorRuns
  import opened CoordinatorTheorems
  import opened StallCounterexample

  /** The root is leased to the session, and nothing else has happened. */
  ghost predicate RootLeased(f: Formula, s: System) {
    && Occurs(f, s) && s.clock == 0 && ROOT in s.db.tasks && s.db.tasks[ROOT].cube == [] && !s.db.tasks[ROOT].proofRequired
    && Live(s.db.job) && s.db.job.formulaHash == HASH && s.db.job.variableCount == 1 && s.db.job.expiresAt == LIFETIME
    && Working(s.db, Id(1), ROOT) && s.db.processed == []
  }

  lemma RootIsLeased(f: Formula) returns (s: System)
    ensures RootLeased(f, s)
  {
    var start := Opened(f);
    var waiting :| RootReadyWith(f, start, 0, 1, 1, waiting);
    s := RootGranted(f, start, waiting);
  }

  lemma RootGranted(f: Formula, start: System, waiting: set<Id>) returns (s: System)
    requires RootReadyWith(f, start, 0, 1, 1, waiting) && start.db.processed == []
    ensures RootLeased(f, s)
  {
    RootFirst(start.db, 1, 1, waiting);
    s := Dispatched(f, start, 0, 1, 1, waiting, {}, {}, ROOT);
  }

  function Copy(db: Db, now: nat): Claim
    requires ROOT in db.tasks && Id(1) in db.leases
  {
    ClaimOf(2, Id(1), db, ROOT, SatModel(Id(1), 1), now)
  }

  /** Both copies of the report are being checked. */
  ghost predicate BothChecked(f: Formula, s: System, first: Claim, second: Claim) {
    && Occurs(f, s) && s.clock == 1 && first in s.checkingSat && second in s.checkingSat && Live(s.db.job)
    && ROOT in s.db.tasks && s.db.tasks[ROOT].state.VERIFYING_SAT?
    && first.m == second.m && first.session == second.session && first.m.task == ROOT && first.m.cube == []
    && s.db.processed == []
  }

  lemma BothReported(f: Formula, s: System) returns (s': System, first: Claim, second: Claim)
    requires RootLeased(f, s)
    ensures BothChecked(f, s', first, second)
  {
    first, second := Copy(s.db, 0), Copy(s.db, 1);
    assert ReceiveResult(s.db, SESSION, first.m, 0) == Ok(first);
    assert ReceiveResult(s.db, SESSION, second.m, 1) == Ok(second);
    s' := Extend(f, s, Timed(Report(SESSION, first.m), 0));
    s' := Extend(f, s', Timed(Report(SESSION, second.m), 1));
    s' := Entered(f, s', first);
    s' := Entered(f, s', second);
  }

  lemma Entered(f: Formula, s: System, c: Claim) returns (s': System)
    requires Occurs(f, s) && s.clock == 1 && c in s.received && c.m.task in s.db.tasks && SatClaimBound(s.db, c)
    ensures Occurs(f, s') && s' == s.(db := EnterSat(s.db, c), checkingSat := s.checkingSat + {c})
  {
    s' := Extend(f, s, Timed(Enter(c), 1));
  }

  /** For every satisfiable formula some run publishes SAT while its job goes on, with the root queued as before. */
  lemma ModelIsNotStored(f: Formula) returns (trace: seq<System>, steps: seq<Timed>)
    requires Satisfiable(f)
    ensures Run(f, trace, steps)
    ensures var s := trace[|steps|];
      && SAT in s.published && Live(s.db.job)
      && ROOT in s.db.tasks && s.db.tasks[ROOT].state.READY?
  {
    var s := RootIsLeased(f);
    var first, second;
    s, first, second := BothReported(f, s);
    var late := FinishSat(s.db, first, SatVerdict.VERIFICATION_TIMEOUT, 1);
    assert late.processed == [Processed(first.session, first.m.message, AckResult(first.stale), 1)];
    s := Extend(f, s, Timed(SatChecked(first, SatVerdict.VERIFICATION_TIMEOUT), 1));
    assert FinishSat(s.db, second, VALID_SAT, 1) == s.db;
    s := Extend(f, s, Timed(SatChecked(second, VALID_SAT), 1));
    trace, steps :| Run(f, trace, steps) && trace[|steps|] == s;
  }
}
