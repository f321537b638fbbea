# HiveSAT verification

HiveSAT splits one SAT search into a tree of cubes, leases the cubes to untrusted browsers, and
publishes a verdict only from evidence it has checked. This project models the parts that make
that trustworthy and proves, in Dafny, that they work together. `dafny verify dfyconfig.toml`
checks everything.

## What is proved

**Whatever the browsers do, the published verdict is true and no part of the search is lost.**
`EndToEnd.dfy` joins the two halves of that argument. The coordinator half runs over every
interleaving of the coordinator's atomic blocks, with each asynchronous handler cut at its awaits
and resumable in any order; the evidence half covers the server's LRAT and model checks over
arbitrary uploaded bytes. What is assumed is that the hash of the published formula has no second
preimage, that generated identifiers are fresh, and that the clock never goes back.

| part | files |
|---|---|
| meaning of formulas and cubes | `Cnf` |
| coordinator: tables and atomic blocks, the imperative object, runs | `Rows`, `CoordinatorTables`, `JobCoordinator`, `CoordinatorRuns` |
| coordinator: invariants | `SearchSafety`, `SearchSteps`, `LeaseSafety`, `LeaseSteps`, `Exclusivity`, `FrontierBudget`, `ProofBudget` |
| coordinator: what each block changes, row by row | `VerdictEffects`, `LeaseEffects`, `MessageEffects`, `StepEffects` |
| coordinator: theorems about runs | `CoordinatorTheorems`, `Publications`, `Renewal`, `Backlog`, `SecondSplits`, `LostWork`, `EndToEnd` |
| coordinator: runs that show what the code does not keep | `ExclusivityCounterexample`, `StallCounterexample`, `UnstoredModel` |
| evidence | `LratCheck`, `LratAcceptance`, `SatModel`, `SatArtifact`, `ResultVerifier`, `VerifierAcceptance` |
| formula pipeline | `HiveCnf`, `HiveCnfLayout`, `Chunks`, `Dimacs`, `DimacsMeaning`, `DimacsFaults`, `DimacsPrint` |
| swarm directory | `FairScheduler`, `SwarmDirectory`, `SwarmEffects`, `Newcomers` |
| browser runtime | `CubeRuntime`, `RuntimeEffects` |
| helpers | `Wrappers`, `Seqs`, `Runs` |

Objects that the source updates in place are classes (`JobCoordinator`, `ResultVerifierObject`,
`SwarmDirectory`, `DistributedCubeRuntime`). Each method is proved to take the fields from one
state to the next exactly as a transition function says; the theorems are about those functions.
What the functions themselves mean is proved a second time without them: the `Effects` modules give
every event's new rows field by field, and `LratAcceptance`, `DimacsMeaning`, `DimacsFaults`,
`HiveCnfLayout` and `VerifierAcceptance` say which inputs are accepted, as what, and for which fault
any other is refused.

## How the model relates to the source

- Rows of SQL tables are entries of maps; `ORDER BY` queries are sorted enumerations of a map's keys.
- Identifiers are opaque and fresh when generated. Hashes are identifiers in the tables; in the
  verifier SHA-256 is a parameter with no second preimage for the published formula. The awaited
  path hash of a result is the flag `pathMatches` beside an exact comparison of cubes.
- The clock never goes back. Records of the deduplication log carry the time their handler read, which
  may be before an await; they are pruned by it, ties in the order of insertion.
- A session whose HELLO passed the quarantine test stays welcome until its assignment is activated; the
  model also lets it be activated at once, as when the HELLO names no assignment.
- Open sockets are part of each event. A session's work messages are separate dispatch and
  delivery-failure events, so every order of deliveries is covered.
- A suspended handler stays available after it has resumed, so the model allows more repetitions
  than the code does.
- Solver answers are arbitrary. An owner confirmation is an unchecked claim; only
  `UNSAT_OWNER_VERIFIED` depends on it.
- JSON and UTF-8 conversion, gunzip and the reading of LRAT numerals are parameters.
- Slot identity in the browser runtime is position plus lifecycle number: slots are created only
  when there are none and after the lifecycle number has grown.

Findings, where the code does not do what one would expect:

- Lease exclusivity can break when two proof claims of one lease are checked at once and the second
  check times out after the task was leased again. `FinishUnsatExclusive` gives the exact condition,
  `ExclusivityCanFail` a run of sixteen events.
- A live job can run out of work. A SAT claim on the lease that split a task reopens that task: the
  update at `worker/job-coordinator.ts:1421-1425` does not test whether the task has children. If the
  check times out, the task is leased and split a second time and has four children, and the coverage
  check, which wants two, never accepts them. `WorkCanRunOut` gives the run for every unsatisfiable
  formula. The condition is `ReopensSplit`, which can be read off the rows before the step: a claim bound
  to its lease is entered for an unproved task that has children. `StepSplitsOnce` and `SplitsStayOnce`
  show that second splits are possible exactly after such a step, `WorkRemainsUnlessReopened` that work
  remains in every run without one, and `StepLosesWork` characterizes the step that loses the last work.
- SAT can be published without being stored. The last transaction of a SAT check
  (`worker/job-coordinator.ts:1455-1456`) returns early when its message is recorded, but the broadcast
  and the closing of the job in the directory (`:1538-1547`) follow in any case. If a browser repeats a
  report while its first copy is checked, and that check ends without an answer, the second check can
  publish a model while the job keeps running. `ModelIsNotStored` gives the run for every satisfiable
  formula, `ValidModelCloses` and `FirstSatIsRecorded` the exact condition.
- The fairness bound can fail for a job that begins to compete. Its runtime is fixed when it is admitted,
  at zero if every eligible job has all eight workers then, and is not raised when it becomes eligible
  later, so it can be any number of turns behind. `NewcomerCanStartFarBehind` and
  `NewcomerCanFallBehindWaiting` give the runs, `NewcomerIsFair` the exact condition at the instant of
  admission and `EligibleJobCompetes` and `NewcomerCompetes` the one at the step that makes it eligible,
  which is what the bound afterwards depends on.
- `docs/coordinator-protocol.md:84` says a search lease must have recorded a second of active
  computation before it may split; the code (`worker/job-coordinator.ts:2131`) also accepts a lease
  issued a second ago. The model follows the code.
- The checks for a too large artifact (`shared/result-manifest.ts:177`) and for a too long encoded
  formula (`src/lib/formula/dimacs.ts:218` and `:272`) can never fire: `EncodeSatModelArtifact` lists the
  faults that occur, `LengthChecksNeverFire` excludes the other two.
- The browser accepts any total model but uploads only one that lists its literals in variable order.

## Model

| member | source | states |
|---|---|---|
| `EndToEnd.PublishedVerdictsAreTrue` | worker/job-coordinator.ts:1455-1530 | whatever bytes browsers upload and whatever messages they send, in any interleaving, a SAT verdict means the published bytes decode to a satisfiable formula and a certified UNSAT verdict means they decode to an unsatisfiable one; nothing is assumed of verifier answers except that the verifier gave them |
| `EndToEnd.ServedRunIsRun` | worker/job-coordinator.ts:1661-1677 | verdicts that come from the verifier object, fresh or stored, for the claim's hash and cube are true ones, so every run theorem below applies to them |
| `CoordinatorTheorems.VerdictsAreTrue` | worker/job-coordinator.ts:1787-1838 | in every run `SAT_VERIFIED` and `UNSAT_CERTIFIED`, published or stored, are true with no trust in anyone; `UNSAT_OWNER_VERIFIED` is true when every owner confirmation is honest |
| `CoordinatorTheorems.VerdictsNeverConflict` | worker/job-coordinator.ts:1478-1487 | no run, and no two runs on one formula, publish both SAT and certified UNSAT, late and repeated finish steps included |
| `CoordinatorTheorems.NoAssignmentIsLost` | worker/job-coordinator.ts:1257-1290 | while the job is queued or running every total assignment lies in the cube of some unsplit task that is open or certified |
| `CoordinatorTheorems.NoModelIsLost` | worker/job-coordinator.ts:992-997 | while the job is queued or running every satisfying assignment lies in the cube of a task that is still open, or of one closed on a dishonest owner's word only |
| `CoordinatorTheorems.PropagationIsEager` | worker/job-coordinator.ts:1787-1828 | between any two steps of a live job every task that was split once has an uncertified child, and the root is uncertified |
| `CoordinatorTheorems.WorkRemains` | worker/job-coordinator.ts:1787-1828 | while the job is queued or running the root is uncertified, and either some task is still to be leased, finished or checked or some split task has more than two children, all of them certified |
| `SecondSplits.WorkRemainsUnlessReopened` | worker/job-coordinator.ts:1383-1430 | in every run in which no SAT claim is entered for an unproved task that has children, a live job has a task to be leased, finished or checked |
| `SecondSplits.StepSplitsOnce` | worker/job-coordinator.ts:1421-1425 | while no task has been or can be split twice, a step keeps it so if and only if it does not enter a SAT claim for an unproved task that has children, the test that the update of the task row lacks |
| `SecondSplits.SplitsStayOnce` | worker/job-coordinator.ts:1200-1303 | up to any state of a run no task has been or can be split twice if and only if no step until then entered such a claim |
| `LostWork.StepLosesWork` | worker/job-coordinator.ts:1787-1828 | a step takes the last work from a job and leaves the job live if and only if it certifies the only open task while some other task with more than two children, not below that task, has only uncertified tasks above it |
| `StallCounterexample.WorkCanRunOut` | worker/job-coordinator.ts:1421-1425 | for every unsatisfiable formula a run of ordinary events, with a SAT claim on the lease that split the root, ends in a live job with no open task, its root having four certified children |
| `CoordinatorTheorems.SplitsAreOnce` | worker/job-coordinator.ts:1200-1303 | each lease and each permit is used by at most one accepted split in a whole run, however often messages are repeated and the log pruned |
| `CoordinatorTheorems.RecordsArePermanent` | worker/job-coordinator.ts:1840-1875 | an ended lease never changes status again, deadlines and active time never go back, cubes and parents never change |
| `StepEffects.StepsAreExact` | worker/job-coordinator.ts:845-925 | every step of every run changes exactly the rows spelled out for its event, in statements that name no update of the coordinator |
| `StepEffects.HandlersAreExact` | worker/job-coordinator.ts:1127-1152 | every step publishes exactly what its event proves and suspends a handler exactly if its tests passed |
| `Publications.ValidModelCloses` | worker/job-coordinator.ts:1455-1543 | a valid model is published in any case; it closes the job, all tasks and all leases if and only if its message was not recorded before or the job was already closed by a model |
| `Publications.FirstSatIsRecorded` | worker/job-coordinator.ts:1455-1543 | the first time SAT is published the job row says so if and only if the message was not recorded before |
| `UnstoredModel.ModelIsNotStored` | worker/job-coordinator.ts:1455-1456 | for every satisfiable formula a run of ordinary events, with one report sent twice, publishes SAT and leaves the job running with its root queued |
| `Publications.UnsatIsRecorded` | worker/job-coordinator.ts:1787-1838 | UNSAT is first published by exactly the step that records it in the job row, and no lease is active after it |
| `Publications.OwnersWordIsNeeded` | worker/job-coordinator.ts:1810-1822 | in a run without owner confirmations no task, job or publication rests on the owner's word |
| `VerdictEffects.SatOutcomeMeans` | worker/job-coordinator.ts:1478-1520 | with a valid model nobody holds a task, no lease is active and every task is satisfied or cancelled; an invalid formula leaves every task unknown or cancelled; after an invalid model its session works on nothing |
| `VerdictEffects.ValidUnsatMeans` | worker/job-coordinator.ts:1696-1731 | a valid proof certifies its own task and closes the job exactly when certification reaches the root |
| `VerdictEffects.PropagateIsExact` | worker/job-coordinator.ts:1787-1828 | the upward walk gives a path of split tasks, each refuted by its two complementary children and resting on the owner's word exactly if one of them does; it ends at the root, which closes the job, or below a task that its children do not refute; nothing else changes but waiting work of a closed job |
| `Renewal.ReportKeepsLeaseInTime` | worker/job-coordinator.ts:1160-1185 | for three minutes after a lease was issued, or reported with growing active time, it is not past its deadline until its tenure or the job is over, whatever else happens in the run |
| `Renewal.ReportsKeepLease` | worker/job-coordinator.ts:976-1009 | over any stretch with reports at gaps of at most three minutes, within the tenure, no alarm ends the lease: it is active at the end unless some other step ended it |
| `CoordinatorTheorems.RecordsAreConserved` | worker/job-coordinator.ts:1250-1290 | tasks number one plus twice the split leases, and one plus twice the consumed permits, at most 9,999; cubes are as long as the task is deep, at most 64 distinct variables in range; every lease keeps its deadline bounds |
| `CoordinatorTheorems.FrontierIsBounded` | worker/job-coordinator.ts:2093-2176 | unproved queued or leased tasks plus unexpired permits never exceed 16 plus the number of SAT checks that ended without a verdict |
| `CoordinatorTheorems.ProofsAreBudgeted` | worker/job-coordinator.ts:583-674 | recorded proof bytes never exceed 25 MiB over any interleaving of uploads, and every stored proof object belongs to a row or to an upload in progress |
| `CoordinatorTheorems.LeasesAreExclusive` | worker/job-coordinator.ts:1982-2067 | leased tasks and active leases are in bijection through `active_lease_id` in every run whose proof checks finish on a task that nobody holds |
| `CoordinatorTheorems.StepExclusive` | worker/job-coordinator.ts:888-925 | every single step but an unsafe proof finish keeps that bijection |
| `Exclusivity.FinishUnsatExclusive` | worker/job-coordinator.ts:1687-1731 | a finishing proof check keeps the bijection if and only if `SafeToFinish`, a condition on the row before the step |
| `Exclusivity.HoldersAreUnique` | worker/job-coordinator.ts:2033-2040 | two active leases never hold the same task |
| `ExclusivityCounterexample.ExclusivityCanFail` | worker/job-coordinator.ts:1706-1710 | a run of sixteen ordinary events after which a queued task still names an active lease |
| `Backlog.BacklogDrains` | worker/job-coordinator.ts:976-1016 | over any stretch of a run, after `k` alarms of a live job at most `n - 64 k` of the `n` leases that had missed a deadline are left, with dispatch, heartbeats, splits and a moving clock in between |
| `Backlog.AlarmDrains` | worker/job-coordinator.ts:976-1009 | one alarm ends exactly `min(64, n)` of the `n` leases that missed any deadline up to now, however many missed later ones |
| `Backlog.BatchIsEarliest` | worker/job-coordinator.ts:976-982 | the leases an alarm ends are 64 or all, and none that it leaves expired has an earlier deadline |
| `Backlog.StepAddsNoExpired` | worker/job-coordinator.ts:2008-2032 | once the clock has passed a deadline no event adds to the leases that missed it |
| `CoordinatorTheorems.RunInvariant` | worker/job-coordinator.ts:936-1017 | the full invariant of all tables and suspended handlers holds in every reachable state |
| `CoordinatorTheorems.RunsContinue` | worker/job-coordinator.ts:845-925 | no admissible event is ever shut out: every run can be continued by it |
| `CoordinatorRuns.StepKeeps` | worker/job-coordinator.ts:1127-1152 | every atomic block, with every asynchronous handler cut at its awaits, keeps the invariant |
| `Cnf.SplitRefutes` | worker/job-coordinator.ts:1262-1279 | a cube is satisfiable exactly when one of its two halves is |
| `SearchSafety.PropagateKeeps` | worker/job-coordinator.ts:1787-1828 | the upward walk keeps verdicts true, closes every covered ancestor and reports a true terminal verdict |
| `SearchSafety.CoverageIsTrue` | worker/job-coordinator.ts:1796-1809 | two certified complementary children refute their parent; an owner-checked child taints the result |
| `SearchSafety.GenuinePairCovers` | worker/job-coordinator.ts:1798-1806 | the defensive comparison of cubes never rejects a genuine pair of children |
| `SearchSteps.SplitKeeps` | worker/job-coordinator.ts:1200-1303 | a split, accepted or refused, keeps verdict truth, the child pairs and eagerness |
| `SearchSteps.FinishSatKeeps` | worker/job-coordinator.ts:1455-1520 | so does the end of a SAT check, for every verdict the verifier can give |
| `SearchSteps.FinishUnsatKeeps` | worker/job-coordinator.ts:1680-1759 | so does the end of a proof check, late or repeated ones included |
| `SearchSteps.ConfirmKeeps` | worker/job-coordinator.ts:736-773 | so does an owner confirmation; a false one can only yield the owner-verified states |
| `SearchSteps.CancelKeeps` | worker/job-coordinator.ts:775-800 | so does a cancellation, even of a finished job |
| `LeaseSteps.SplitRecords` | worker/job-coordinator.ts:1262-1290 | a split keeps the links, cubes and counts of all records |
| `LeaseSafety.LeaseWorkOrderly` | worker/job-coordinator.ts:1982-2050 | dispatch creates a lease inside its tenure and the job's lifetime and disturbs no other record |
| `LeaseSafety.HeartbeatOrderly` | worker/job-coordinator.ts:1154-1190 | renewal never moves a deadline earlier and never past the maximum |
| `FrontierBudget.DivideTrades` | worker/job-coordinator.ts:1280-1290 | an accepted split trades one permit for one more task |
| `FrontierBudget.IssuePermitsCapped` | worker/job-coordinator.ts:2121-2175 | permits are offered only up to the frontier cap |
| `FrontierBudget.FinishSatAddsOne` | worker/job-coordinator.ts:1496-1520 | a SAT check without a verdict adds at most one task to the frontier |
| `ProofBudget.CommitKeepsBudget` | worker/job-coordinator.ts:644-673 | a commit keeps the byte budget, writes at most one row for each lease and deletes its own object when it loses |
| `JobCoordinatorObject.JobCoordinator.constructor` | worker/job-coordinator.ts:356-395 | a new job has one queued root task with the empty cube |
| `JobCoordinatorObject.JobCoordinator.ProcessedResponse` | worker/job-coordinator.ts:1853-1859 | finds the recorded reply of a message |
| `JobCoordinatorObject.JobCoordinator.RecordProcessed` | worker/job-coordinator.ts:1861-1875 | records a reply once, under the time its handler read, and prunes by that time |
| `VerdictEffects.ReplyIsFoundAgain` | worker/job-coordinator.ts:1853-1875 | a recorded reply is found again unless the log is full of records that are all newer than it |
| `CoordinatorTables.PruneKeepsNewest` | worker/job-coordinator.ts:1869-1874 | pruning keeps the newest 2,048 records by timestamp, whatever order they were written in |
| `JobCoordinatorObject.JobCoordinator.ResumeHello` | worker/job-coordinator.ts:1044-1085 | after the await of the assignment each unexpired lease of the session, in issue order, keeps its slot if it is still offered, else takes the first offered slot that is free, else is yielded with its task; quarantine is not tested again |
| `JobCoordinatorObject.JobCoordinator.LeaseWorkForSlot` | worker/job-coordinator.ts:1982-2050 | a live job grants an idle slot a task exactly if the session may take one: proof work first, then the shallower cube, the older row, the identifier; the new lease row, the task row and the job row are given field by field |
| `JobCoordinatorObject.JobCoordinator.RollbackUndeliveredLease` | worker/job-coordinator.ts:2052-2067 | an undelivered active lease expires and the task it holds is ready again; no other row and no permit changes |
| `JobCoordinatorObject.JobCoordinator.IssueSplitPermits` | worker/job-coordinator.ts:2093-2176 | late permits are cancelled; then the leases that may split are asked in issue order, if reachable, until as many permits were delivered as idle slots and frontier room allow; each new row is given field by field |
| `JobCoordinatorObject.JobCoordinator.HandleSessionHeartbeat` | worker/job-coordinator.ts:1154-1198 | the deadline of a lease moves if and only if its own session and slot report more active time than recorded with at most three minutes left; it is then the least of now plus five minutes, the tenure and the job's expiry, and a lease reported once records the reported time, or one second when only that mark is crossed; nothing else changes |
| `JobCoordinatorObject.JobCoordinator.HandleSplit` | worker/job-coordinator.ts:1200-1303 | a split is accepted if and only if the holder asks with an open permit while work is short, on an undecided variable; it leaves two children with complementary cubes and uses up task, lease and permit; otherwise the first failing test gives the error, and a useless permit is taken back |
| `JobCoordinatorObject.JobCoordinator.HandleYield` | worker/job-coordinator.ts:1305-1345 | accepted if and only if the session holds the task in this slot: the lease ends, its task is ready, its permits are cancelled, an unsupported proof is noted |
| `JobCoordinatorObject.JobCoordinator.HandleResult` | worker/job-coordinator.ts:1347-1382 | a report is taken up if and only if its lease was issued to the session for this task and slot and the job still takes it, with the rows as they are; it is stale unless that lease still holds the task in time; otherwise the first failing test gives the reply |
| `JobCoordinatorObject.JobCoordinator.HandleUnsatCandidate` | worker/job-coordinator.ts:1571-1616 | an unproved report by the holder requeues the cube for a proof and ends its leases; one by anyone else is only recorded, and one on a task that waits for a proof is refused |
| `JobCoordinatorObject.JobCoordinator.BeginSatVerification` | worker/job-coordinator.ts:1383-1430 | starts if and only if the model is the upload of the reporting lease with a value for every variable; the task is then being verified, names no holder, and its active leases have ended |
| `JobCoordinatorObject.JobCoordinator.BeginProofVerification` | worker/job-coordinator.ts:1628-1658 | starts if and only if a proof was asked for and the manifest is that of the row stored under the reporting lease; the task is then being verified, names no holder, and has no active lease or permit |
| `JobCoordinatorObject.JobCoordinator.FinishSatVerification` | worker/job-coordinator.ts:1455-1530 | what each verdict leaves of every row when the message was not recorded: a valid model closes job, task, root, all other tasks and all leases; an invalid formula closes the job; an invalid model or a timeout makes only a task still being checked ready, and an invalid model expels its session; a recorded message changes nothing |
| `JobCoordinatorObject.JobCoordinator.FinishProofVerification` | worker/job-coordinator.ts:1680-1759 | what each verdict leaves of every row: a valid proof is marked and certifies its task, and certification climbs exactly as far as split tasks have two complementary refuted children, closing the job at the root; a bad proof requeues its task and expels its session; the other verdicts change what they name and nothing else |
| `JobCoordinatorObject.JobCoordinator.PropagateUnsatCoverage` | worker/job-coordinator.ts:1787-1828 | the loop up the parent chain computes the coverage walk and terminates |
| `JobCoordinatorObject.JobCoordinator.CloseUnsatJob` | worker/job-coordinator.ts:1830-1838 | closing cancels open tasks and supersedes active leases |
| `JobCoordinatorObject.JobCoordinator.ConfirmOwnerProof` | worker/job-coordinator.ts:736-765 | accepted if and only if the proof under this digest waits for its owner; a task still being checked is then refuted on the owner's word, and that climbs like a certificate |
| `JobCoordinatorObject.JobCoordinator.CancelJob` | worker/job-coordinator.ts:775-792 | the first cancellation ends every active lease and every task; later ones change nothing |
| `JobCoordinatorObject.JobCoordinator.AlarmHandler` | worker/job-coordinator.ts:976-1009 | until the job ends the 64 earliest missed deadlines, or all, expire with what they hold, and the permits of those that still hold it; the newest 2,048 records stay |
| `JobCoordinatorObject.JobCoordinator.WebSocketClose` | worker/job-coordinator.ts:900-922 | an explicit stop yields exactly the active leases of the session, with their tasks and permits |
| `JobCoordinatorObject.JobCoordinator.ReleaseQuarantinedSessionLeases` | worker/job-coordinator.ts:1958-1980 | quarantine supersedes all leases of the session |
| `JobCoordinatorObject.JobCoordinator.UsedProofBytes` | worker/job-coordinator.ts:598-600 | the loop sums the recorded proof bytes |
| `JobCoordinatorObject.JobCoordinator.BeginStoreProof` | worker/job-coordinator.ts:622-642 | an upload starts if and only if its lease holds a task that waits for a proof, in time, and it fits both size limits and the remaining budget |
| `JobCoordinatorObject.JobCoordinator.CommitStoreProof` | worker/job-coordinator.ts:644-673 | the row is written if and only if the upload is still allowed and the lease has no proof yet; otherwise only its object goes |
| `LratCheck.CheckRupChain` | shared/lrat-check.ts:38-55 | the hint loop decides whether the chain propagates to a conflict |
| `LratCheck.PropagatesExactly` | shared/lrat-check.ts:43-54 | the chain is accepted if and only if its hints form a unit-propagation certificate, defined without reference to the loop |
| `LratCheck.ChainIsSound` | shared/lrat-check.ts:38-55 | an accepted chain proves that its clause follows from the live clauses |
| `LratCheck.VerifyTextLrat` | shared/lrat-check.ts:62-131 | the line loop computes the outcome of the whole proof text, errors, line numbers and counters included; the two rows below say what that outcome is |
| `LratAcceptance.ProofsAreAcceptedExactly` | shared/lrat-check.ts:62-131 | a proof is accepted if and only if size and counts are within the limits, every line is blank, a comment, a deletion, or an addition without RAT hints that is a tautology or has a propagation certificate over the clauses live before it, and some line adds the empty clause; a clause is live under the last earlier line that adds or deletes its number, or else as an input clause; the counts reported are those of the lines |
| `LratAcceptance.ProofsAreRefusedExactly` | shared/lrat-check.ts:62-131 | a proof is refused for a reason, line number included, if and only if it is too long, or that is what is wrong with its first line that does not pass, or all lines pass and none adds the empty clause |
| `LratAcceptance.WordsAreExact` | shared/lrat-check.ts:71-78 | the words of a line are its maximal runs without whitespace |
| `LratCheck.AcceptedProofRefutes` | shared/lrat-check.ts:71-130 | an accepted proof means the input clauses are unsatisfiable, for any mix of additions, deletions and overwritten numbers |
| `LratCheck.AcceptedProofRefutesCube` | worker/result-verifier.ts:329-342 | an accepted proof of the unit-extended clauses refutes the formula inside the cube |
| `HiveCnf.EncodeHiveCnfV1` | src/lib/formula/hiveCnf.ts:26-70 | the writer with its moving offset produces the specified bytes or the specified error |
| `HiveCnf.DecodeHiveCnfV1` | src/lib/formula/hiveCnf.ts:72-124 | the reader accepts exactly the specified bytes and reports the first fault |
| `HiveCnf.DecodeOfEncode` | src/lib/formula/hiveCnf.ts:26-124 | decoding an encoded formula gives it back |
| `HiveCnf.EncodeOfDecode` | worker/result-verifier.ts:96-132 | encoding a decoded formula gives the accepted bytes back: the format is canonical, in the browser's and the server's decoder alike |
| `HiveCnf.DecodeIsInjective` | src/lib/formula/hiveCnf.ts:72-124 | two accepted byte strings with the same formula are equal |
| `HiveCnfLayout.EncodingIsExact` | src/lib/formula/hiveCnf.ts:26-70 | the writer succeeds if and only if the declared counts are true and within the limits and every literal exists, and then every byte is where the layout puts it: magic, three little-endian counts, the literals of each clause in two's complement and a zero word |
| `HiveCnfLayout.DecodingIsExact` | src/lib/formula/hiveCnf.ts:72-124 | the reader gives a formula if and only if the formula is encodable and these are its bytes |
| `HiveCnfLayout.RefusalIsExact` | src/lib/formula/hiveCnf.ts:72-113 | a refused byte string is refused with the first test it fails, and an out-of-range literal with its byte offset |
| `HiveCnf.CreateClauseBatches` | src/lib/formula/hiveCnf.ts:126-149 | batches concatenate to the zero-terminated stream, keep clauses whole, exceed the target only with a single clause, and none had room for the clause after it |
| `Dimacs.TokenizeLine` | src/lib/formula/dimacs.ts:62-102 | the two nested scans find the words of a line with their positions, or the first byte that is not ASCII |
| `Dimacs.ReadLine` | src/lib/formula/dimacs.ts:169-282 | processes one line token by token; what that means is said by the rows of `DimacsMeaning` and `DimacsFaults` |
| `Dimacs.ConsumeChunk` | src/lib/formula/dimacs.ts:296-323 | line assembly over pending parts reads a chunk as if its bytes had come one by one |
| `Dimacs.ParseDimacs` | src/lib/formula/dimacs.ts:152-386 | within 32 MiB the result, error position included, equals the specification on the concatenated bytes, wherever chunks are cut; a larger input is refused for a fault in the chunks before the one that is too much, or because of it, at the open line |
| `DimacsMeaning.InputsAreReadExactly` | src/lib/formula/dimacs.ts:62-282 | an input is read as a formula if and only if all its bytes are ASCII and, leaving out blank lines and comments, the first line is the header with its counts and the words of all later lines, joined whatever the line breaks, are the numerals of its clauses, each ended by 0, within the limits |
| `DimacsMeaning.CommentsMakeNoDifference` | src/lib/formula/dimacs.ts:169-174 | a comment or blank line can be put in or taken out anywhere |
| `DimacsMeaning.LayoutMakesNoDifference` | src/lib/formula/dimacs.ts:226-282 | how the words after the header are broken into lines makes no difference: a clause may span lines and a line clauses |
| `DimacsMeaning.NumeralsAreExact` | src/lib/formula/dimacs.ts:104-146 | a word stands for a number if and only if it is that number's decimal numeral, in 31 bits |
| `DimacsMeaning.TokensArePlaced` | src/lib/formula/dimacs.ts:62-102 | the tokens of a line are its maximal runs without whitespace, each with its column and byte offset |
| `DimacsFaults.InputsAreRefusedExactly` | src/lib/formula/dimacs.ts:62-386 | an input that is not read is refused for its first faulty line, with the position of the byte or word that is wrong and the reason, or for what is missing at its end |
| `Dimacs.ParsedFormulaEncodes` | src/lib/formula/dimacs.ts:206-224 | every parsed formula encodes without error and decodes to itself |
| `Dimacs.LengthChecksNeverFire` | src/lib/formula/dimacs.ts:218-272 | no input is refused for its encoded length: the limits on clauses and literals already keep every formula below 32 MiB |
| `DimacsPrint.PrintThenParse` | src/workers/lrat-check.worker.ts:14-22 | parsing the text given to the owner's checker yields exactly the clauses the server checks, then one unit clause for each cube literal; it fails if and only if the cube pushes the formula past the clause or literal limit |
| `DimacsPrint.NumeralRoundTrip` | src/lib/formula/dimacs.ts:126-146 | printed literals parse to themselves |
| `DimacsPrint.SplitOfJoin` | src/workers/lrat-check.worker.ts:17-21 | lines joined by newlines split back into the same lines |
| `SatModel.VerifySatModel` | src/lib/formula/modelVerifier.ts:12-81 | accepts exactly the total, consistent, in-range models that satisfy every clause and returns their values; otherwise names the first fault of limits, literals, variables and clauses, in this order |
| `SatModel.GoodModelSatisfies` | src/lib/formula/modelVerifier.ts:41-75 | an accepted model containing the cube satisfies the formula inside it |
| `SatArtifact.EncodeSatModelArtifact` | shared/result-manifest.ts:155-183 | succeeds if and only if metadata, header size and literal order allow, never on total size; sets exactly the bits of positive literals |
| `SatArtifact.DecodeSatModelArtifact` | shared/result-manifest.ts:185-229 | accepts exactly the specified layout and reports the first fault |
| `VerifierAcceptance.ArtifactsAreReadExactly` | shared/result-manifest.ts:185-229 | an artifact is read as a model if and only if it is laid out as magic, header length, header and bits, within the limits, and the header's text has valid metadata with that many variables |
| `SatArtifact.BitsAreDigits` | shared/result-manifest.ts:231-237 | the bits of a byte are its binary digits, the lowest first |
| `SatArtifact.DecodeOfEncoded` | shared/result-manifest.ts:155-237 | a written artifact reads back as the same metadata with the model's value for each variable |
| `SatArtifact.BitsetIsUnique` | shared/result-manifest.ts:168-175 | a model has exactly one bitset, padding included |
| `ResultVerifier.CollectBounded` | worker/result-verifier.ts:59-85 | bounded reading returns the concatenation, or fails on excess or a broken stream |
| `ResultVerifier.CheckModelBits` | worker/result-verifier.ts:220-244 | the metered loops over cube and clauses compute the specified answer |
| `ResultVerifier.CheckModelIs` | worker/result-verifier.ts:220-244 | for every budget an accepted model is true and every literal was counted once; within the budget the answer is exact |
| `ResultVerifier.VerifySatOnce` | worker/result-verifier.ts:162-245 | all checks in their order, with the answer for each failure |
| `ResultVerifier.ValidSatIsTrue` | worker/result-verifier.ts:176-244 | VALID_SAT is true of the published formula and the expected cube whatever was streamed and whatever the budget |
| `ResultVerifier.SatCheckIsExact` | worker/result-verifier.ts:220-244 | once the bindings hold, the default budget of 2,000,064 never runs out for a cube of at most 64 literals: the answer is VALID_SAT if and only if the bitset satisfies cube and clauses |
| `ResultVerifier.GoodModelIsAccepted` | worker/result-verifier.ts:162-245 | a model the browser accepts, ordered and inside the cube, survives encoding, chunked upload and decoding and is accepted, with exact counts |
| `ResultVerifier.VerifyUnsatOnce` | worker/result-verifier.ts:273-343 | all proof checks in their order, with the answer for each failure |
| `ResultVerifier.ValidUnsatIsTrue` | worker/result-verifier.ts:311-342 | VALID_UNSAT means the published formula is unsatisfiable inside the expected cube |
| `VerifierAcceptance.ProofsAreAnsweredExactly` | worker/result-verifier.ts:273-343 | every answer to a proof, in terms of the declared sizes, the delivered and unpacked bytes, the layout of the formula, the cube's clause numbers and the lines of the proof: VALID_UNSAT exactly for a proof that holds line by line |
| `VerifierAcceptance.ModelsAreAcceptedExactly` | worker/result-verifier.ts:162-245 | VALID_SAT is answered if and only if the declared model and formula arrived, agree with manifest, lease and job, and the model satisfies cube and clauses within the budget |
| `VerifierAcceptance.ModelsAreRefusedExactly` | worker/result-verifier.ts:162-245 | INVALID_FORMULA exactly if the declared model arrived and no formula of its size; INVALID_MODEL only without the declared model or for one that is wrong; a timeout only beyond the budget |
| `ResultVerifier.ResultVerifierObject.Sat` | worker/result-verifier.ts:138-160 | the answer in flight, else the stored one, else a new one, which is stored unless the check threw; nothing else changes |
| `ResultVerifier.ResultVerifierObject.Unsat` | worker/result-verifier.ts:247-271 | the same for proofs, whose checks never throw |
| `ResultVerifier.ResultVerifierObject.Evict` | worker/result-verifier.ts:135-136 | a restart of the object keeps only its storage |
| `ResultVerifier.AnswersAreTrue` | worker/result-verifier.ts:148-159 | a positive answer repeated from storage is still true, although the streams are not part of its key |
| `FairScheduler.SelectFairJob` | worker/fair-scheduler.ts:22-45 | filters, sorts and takes the head; the row below says what that choice is |
| `FairScheduler.SelectionIsFair` | worker/fair-scheduler.ts:13-45 | there is a choice if and only if some job has room; the chosen job comes before every other with room, by lead less waiting credit, then longest unserved, then identifier, so it is at most one quantum ahead of any; its share is at least one worker, at most what was asked for, and all of that or all the room there is |
| `FairScheduler.LeastVirtualRuntime` | worker/fair-scheduler.ts:47-50 | a new job starts at the least runtime of the jobs given, at zero if there are none |
| `SwarmDirectory.LedgerIsConserved` | worker/swarm-directory.ts:304-391 | in every reachable directory each job was admitted by some step and its counters are the sums over its live assignments, at most 8 workers; its runtime is the one it had right after that step plus actual, expired and reserved time; and the job covers the refund of each live assignment, so no clamp bites |
| `SwarmEffects.StepsAreExact` | worker/swarm-directory.ts:189-391 | in every run each step has exactly the effect spelled out for it, row by row and counter by counter, without clamps, loops or folds |
| `SwarmEffects.ExpiryIsExact` | worker/swarm-directory.ts:566-600 | exactly the late live rows end; each job loses what they held and gets back what was never activated |
| `SwarmEffects.ReconcileIsExact` | worker/swarm-directory.ts:523-564 | a report is accepted if and only if the row it names covers it, and takes effect once: unused time is refunded, the reservation and workers are freed |
| `SwarmEffects.ActivationIsExact` | worker/swarm-directory.ts:367-391 | succeeds if and only if the named row is live, not late and for this job; a pending row becomes active for one quantum, an active one keeps its deadline |
| `SwarmDirectory.FairnessBound` | worker/swarm-directory.ts:304-365 | over any stretch of a run, if `i` has room whenever the scheduler chooses, `virtual_j <= (virtual_i - reserved_i) + 16` quanta is kept by every operation |
| `SwarmDirectory.StepWithin` | worker/swarm-directory.ts:523-600 | each assignment, activation, refund and expiry keeps that bound |
| `Newcomers.EligibleJobCompetes` | worker/swarm-directory.ts:229-249 | at the step that makes a job eligible, for the first time or again, it is within the bound of another job if and only if what that job entered with and was charged is at most sixteen quanta above what it has settled itself, and then stays within it while it has room at each choice |
| `Newcomers.NewcomerCompetes` | worker/swarm-directory.ts:229-249 | a new job starts to compete within the bound if and only if the other job's entry runtime and charges are at most sixteen quanta above the least runtime at the admission; the bound the other way round is never lost by waiting |
| `Newcomers.WaitingJobIsUntouched` | worker/swarm-directory.ts:197-205 | from its admission until it is first made eligible a job keeps the least runtime it was given and has no assignment, whatever happens to the others |
| `Newcomers.WaitingNeverGetsAhead` | worker/swarm-directory.ts:229-249 | over any stretch in which a job is not eligible its runtime does not grow and no other job's settled runtime shrinks |
| `Newcomers.NewcomerCanFallBehindWaiting` | worker/swarm-directory.ts:229-237 | for any number of turns from three, a run in which a job is admitted within the bound both ways of an idle job with room, is made eligible after that job's turns, and starts to compete out of bounds |
| `Newcomers.NewcomerIsFair` | worker/swarm-directory.ts:189-216 | at the instant of its admission a job is within the bound both ways if some eligible job has room; otherwise it stands at zero and is within the bound of exactly the jobs with at most sixteen quanta |
| `Newcomers.NewcomerCanStartFarBehind` | worker/swarm-directory.ts:189-190 | runs in which a newcomer is any number of full turns behind at the instant of its admission |
| `SwarmDirectory.SwarmDirectory.Expire` | worker/swarm-directory.ts:566-600 | the loop over expired assignments refunds pending ones and charges active ones |
| `SwarmDirectory.SwarmDirectory.ReconcilePrevious` | worker/swarm-directory.ts:523-564 | refunds the unused time of a finished assignment, once |
| `SwarmDirectory.SwarmDirectory.AssignSession` | worker/swarm-directory.ts:304-365 | from the settled tables: INVALID_ASSIGNMENT exactly if the refund was refused, NO_WORK exactly if no eligible job has room, else the first such job gets at least one worker, at most what was asked for, and one new row and its counters grow by exactly that |
| `SwarmDirectory.SwarmDirectory.ActivateSession` | worker/swarm-directory.ts:367-391 | activates a pending assignment before its deadline |
| `SwarmDirectory.SwarmDirectory.AdmitNew` | worker/swarm-directory.ts:189-205 | a new job enters at the least runtime in service |
| `SwarmDirectory.SwarmDirectory.CloseFinished` | worker/swarm-directory.ts:218-227 | cancels live assignments and removes the job |
| `SwarmDirectory.SwarmDirectory.MakeEligible` | worker/swarm-directory.ts:229-249 | changes eligibility once, says whether it changed, and leaves every pair of jobs within or out of the bound as it was |
| `SwarmDirectory.SwarmDirectory.AlarmHandler` | worker/swarm-directory.ts:485-488 | expires assignments and removes expired jobs |
| `CubeRuntime.OutboxIsConsistent` | src/lib/distributed/cubeRuntime.ts:674-741 | in every reachable state the outbox holds exactly the slots' pending mutations, one for each slot, each for the lease its slot still holds |
| `RuntimeEffects.EventsAreExact` | src/lib/distributed/cubeRuntime.ts:218-845 | in every run every event changes exactly what is spelled out for it, slot by slot and entry by entry: counts, released and resumed slots, new work, survivors of the outbox in their order, and what is sent |
| `RuntimeEffects.WelcomeIsExact` | src/lib/distributed/cubeRuntime.ts:303-322 | after a reconnection a slot stays if it is on its listed lease and task or has a mutation for that lease under way, else takes the listed work up anew or is idle; exactly the mutations for listed leases survive and are sent again |
| `RuntimeEffects.AcknowledgeIsExact` | src/lib/distributed/cubeRuntime.ts:698-712 | an acknowledgement of the pending kind removes its entry, idles its slot and counts once; any other is ignored |
| `RuntimeEffects.RefusalIsExact` | src/lib/distributed/cubeRuntime.ts:714-741 | an unwanted split resumes its work with its time counted from here; any other refusal frees the slot and is fatal unless retryable or the lease is lost |
| `CubeRuntime.WelcomeReconciles` | src/lib/distributed/cubeRuntime.ts:303-322 | after a reconnection each slot holds exactly the listed lease or none, remaining mutations are for listed leases, and each is sent again once in order |
| `CubeRuntime.LateResultsAreDropped` | src/lib/distributed/cubeRuntime.ts:492-612 | in every run, a result begun in one state and enqueued by a later step means the slots were never given up in between and its slot still has the same task and lease with nothing pending |
| `CubeRuntime.StoppedResultsStayDropped` | src/lib/distributed/cubeRuntime.ts:801-804 | a result begun before the slots were given up never has an effect again |
| `CubeRuntime.TelemetryCountsOnce` | src/lib/distributed/cubeRuntime.ts:814-845 | a report adds to the time, conflict, decision and propagation totals exactly what it adds to its slot's high-water marks; repeated, late or smaller reports add nothing |
| `CubeRuntime.StepKeeps` | src/lib/distributed/cubeRuntime.ts:303-398 | every coordinator message, worker message and lifecycle change keeps the runtime invariant |
| `CubeRuntime.DistributedCubeRuntime.OnWelcome` | src/lib/distributed/cubeRuntime.ts:303-322 | the loop over slots, then the outbox flush |
| `CubeRuntime.DistributedCubeRuntime.OnWork` | src/lib/distributed/cubeRuntime.ts:324-333 | new work replaces old work and drops its pending mutation |
| `CubeRuntime.DistributedCubeRuntime.AcknowledgeMutation` | src/lib/distributed/cubeRuntime.ts:698-712 | performs the transition characterized by `AcknowledgeIsExact` |
| `CubeRuntime.DistributedCubeRuntime.HandleMutationError` | src/lib/distributed/cubeRuntime.ts:714-741 | performs the transition characterized by `RefusalIsExact` |
| `CubeRuntime.DistributedCubeRuntime.Send` | src/lib/distributed/cubeRuntime.ts:674-692 | one unacknowledged mutation for each slot; a fresh mutation for the lease a slot holds keeps the runtime invariant |
| `CubeRuntime.DistributedCubeRuntime.FlushOutbox` | src/lib/distributed/cubeRuntime.ts:694-696 | sends every entry in insertion order |
| `CubeRuntime.DistributedCubeRuntime.OnReport` | src/lib/distributed/cubeRuntime.ts:814-845 | never lowers a total and keeps the runtime invariant |
| `CubeRuntime.DistributedCubeRuntime.OnMutation` | src/lib/distributed/cubeRuntime.ts:463-490 | a split or yield report records its telemetry and enqueues a mutation, only for the work its slot holds |
| `CubeRuntime.DistributedCubeRuntime.PauseContribution` | src/lib/distributed/cubeRuntime.ts:218-238 | gives up slots, outbox and socket; no result begun before the pause can have an effect after it, and the runtime invariant is kept |
| `CubeRuntime.DistributedCubeRuntime.OnResultFinished` | src/lib/distributed/cubeRuntime.ts:604-612 | the last resumption of a result handler keeps the runtime invariant, with any outcome and any remembered work |
| `CubeRuntime.DistributedCubeRuntime.StartTask` | src/lib/distributed/cubeRuntime.ts:413-432 | starts or queues work on a slot, reinitializing the solver where needed |

## Left out

- CoordinatorTheorems.LeasesAreExclusive: holds for runs without unsafe proof finishes, because the code does not keep the bijection otherwise.
- CoordinatorTheorems.FrontierIsBounded: counts inconclusive SAT checks, because each may put a closed task back into the queue.
- ResultVerifier.GoodModelIsAccepted: assumes the metadata text survives JSON and UTF-8, which only lone surrogates in the solver version prevent.
- CubeRuntime.WelcomeReconciles: takes the listed leases as a map from slot to work; if the coordinator lists a slot twice, the source keeps the later entry.
- CubeRuntime.StartOk, CubeRuntime.LoadedOk, CubeRuntime.WorkerReadyOk: starting, loading and solver readiness are transition functions without a method of the class; they are in every run all the same.
- At most one live lease for each session and slot: the code does not keep it, as HELLO can move a lease onto a claimed slot.
- Terminal job states as absorbing: the code does not keep them, as cancellation and late finish steps overwrite them.
- Owner tokens, the `results`, `result_verifications` and reliability counter rows, and the `model_artifacts` table: no verdict depends on them; of reliability only the quarantine flag is kept.
- Blanking a rejected proof's object key, artifact cleanup and the deletion of expired or cancelled jobs.
- Messages to browsers, other than which reply a request gets.
- The creation window, device and network limits, and the one-time tokens of the directory.
- Cancellation and progress callbacks of the DIMACS parser.
- The server's own copy of the formula decoder differs from the browser's only in error texts; one member models both.
- The solver loop `src/lib/distributed/cubeSearchLoop.ts`: it drives a solver whose answers are arbitrary here.
- Memory telemetry, the current task shown to the user and split-permit forwarding in the browser runtime.
- RAT steps: the checker refers them to the owner's full checker, which is not part of this model.
- HTTP, sockets, gzip, storage and routing.
