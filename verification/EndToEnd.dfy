/**
 The coordinator and the result verifier together: browsers choose every byte they upload and every
 message they send, and still only true verdicts about the published formula come out.
 */
module EndToEnd {
  import opened Wrappers
  import opened Cnf
  import opened Rows
  import opened CoordinatorTables
  import opened SearchSteps
  import opened LeaseSafety
  import opened LeaseSteps
  import opened CoordinatorRuns
  import opened CoordinatorTheorems
  import HiveCnf
  import V = ResultVerifier

  /** The platform, the bytes of the published formula, and the hashes the rows' names stand for. */
  datatype World = World(platform: V.Platform, published: HiveCnf.Bytes, hashOf: Id -> string)

  /** An exception is treated as a verifier that could not be reached. */
  function SatVerdictOf(answer: V.SatStatus): SatVerdict {
    match answer
    case ValidSat(_, _) => VALID_SAT
    case InvalidFormula => SatVerdict.INVALID_FORMULA
    case InvalidModel => INVALID_MODEL
    case VerificationTimeout => SatVerdict.VERIFICATION_TIMEOUT
    case Threw => SatVerdict.VERIFICATION_TIMEOUT
  }

  function UnsatVerdictOf(answer: V.UnsatStatus): UnsatVerdict {
    match answer
    case ValidUnsat(_, _) => VALID_UNSAT
    case OwnerCheckRequired => UnsatVerdict.OWNER_CHECK_REQUIRED
    case BadFormula => UnsatVerdict.INVALID_FORMULA
    case InvalidProof => INVALID_PROOF
    case ProofTimeout => UnsatVerdict.VERIFICATION_TIMEOUT
  }

  ghost predicate SatServed(w: World, c: Claim, v: SatVerdict) {
    v.VERIFICATION_TIMEOUT? || exists key: V.SatKey, answer: V.SatStatus ::
      V.SatAnswered(w.platform, key, answer) && key.formulaHash == w.hashOf(c.m.formulaHash) && key.expectedCube == c.m.cube &&
      v == SatVerdictOf(answer)
  }

  ghost predicate UnsatServed(w: World, c: Claim, v: UnsatVerdict) {
    v.VERIFICATION_TIMEOUT? || exists key: V.UnsatKey, answer: V.UnsatStatus ::
      V.UnsatAnswered(w.platform, key, answer) && key.formulaHash == w.hashOf(c.m.formulaHash) && key.expectedCube == c.m.cube &&
      v == UnsatVerdictOf(answer)
  }

  /** A verdict is what the verifier object answers, fresh or stored, for the claim's manifest and cube. */
  ghost predicate Served(w: World, e: Event) {
    match e
    case SatChecked(c, v) => SatServed(w, c, v)
    case ProofChecked(c, v) => UnsatServed(w, c, v)
    case _ => true
  }

  ghost predicate ServedStep(w: World, s: System, step: Timed, s': System) {
    Admissible(s, step) && Runnable(s.db, step.event) && Served(w, step.event) && s' == Step(s, step)
  }

  /** A run in which nothing is assumed of verdicts except where they come from. */
  ghost predicate ServedRun(w: World, trace: seq<System>, steps: seq<Timed>) {
    && |trace| == |steps| + 1 && Starts(trace[0]) && w.hashOf(trace[0].db.job.formulaHash) == w.platform.sha256(w.published)
    && forall i {:trigger ServedStep(w, trace[i], steps[i], trace[i + 1])} :: 0 <= i < |steps| ==> ServedStep(w, trace[i], steps[i], trace[i + 1])
  }

  /** The formula the published bytes decode to, or any formula at all when they do not decode. */
  ghost predicate Stands(w: World, f: Formula) {
    HiveCnf.Decode(w.published).Ok? ==> f == HiveCnf.Decode(w.published).value.clauses
  }

  lemma ServedIsTrue(w: World, f: Formula, hash: Id, e: Event)
    requires V.NoCollision(w.platform, w.published) && Stands(w, f) && Served(w, e)
    requires w.hashOf(hash) == w.platform.sha256(w.published)
    requires e.SatChecked? || e.ProofChecked? ==> e.claim.m.formulaHash == hash
    ensures ChecksTrue(f, e)
  {
    match e {
      case SatChecked(c, v) =>
        if v.VALID_SAT? {
          var key: V.SatKey, answer: V.SatStatus :| V.SatAnswered(w.platform, key, answer) &&
            key.formulaHash == w.hashOf(c.m.formulaHash) && key.expectedCube == c.m.cube && v == SatVerdictOf(answer);
          var input: V.SatInput :| V.KeyOfSat(input) == key && V.VerifySat(w.platform, input) == answer;
          V.ValidSatIsTrue(w.platform, input, w.published);
        }
      case ProofChecked(c, v) =>
        if v.VALID_UNSAT? {
          var key: V.UnsatKey, answer: V.UnsatStatus :| V.UnsatAnswered(w.platform, key, answer) &&
            key.formulaHash == w.hashOf(c.m.formulaHash) && key.expectedCube == c.m.cube && v == UnsatVerdictOf(answer);
          var input: V.UnsatInput :| V.KeyOfUnsat(input) == key && V.VerifyUnsat(w.platform, input) == answer;
          V.ValidUnsatIsTrue(w.platform, input, w.published);
        }
      case _ =>
    }
  }

  lemma RunKeepsFormula(f: Formula, trace: seq<System>, steps: seq<Timed>, i: nat)
    requires Run(f, trace, steps) && i < |trace|
    ensures trace[i].db.job.formulaHash == trace[0].db.job.formulaHash
  {
    RunEvolves(f, trace, steps, 0, i);
  }

  lemma RunningClaims(f: Formula, trace: seq<System>, steps: seq<Timed>, e: Event)
    requires Run(f, trace, steps)
    requires e.SatChecked? ==> e.claim in trace[|steps|].checkingSat
    requires e.ProofChecked? ==> e.claim in trace[|steps|].checkingProof
    ensures e.SatChecked? || e.ProofChecked? ==> e.claim.m.formulaHash == trace[0].db.job.formulaHash
  {
    RunKeepsFormula(f, trace, steps, |steps|);
    RunInvariant(f, false, trace, steps, |steps|);
    assert e.SatChecked? || e.ProofChecked? ==> ClaimOk(trace[|steps|].db, e.claim);
  }

  /** Runs served by the verifier are runs with true verdicts, so every theorem about runs holds of them. */
  lemma {:induction false} ServedRunIsRun(w: World, f: Formula, trace: seq<System>, steps: seq<Timed>, n: nat)
    requires V.NoCollision(w.platform, w.published) && Stands(w, f) && ServedRun(w, trace, steps) && n <= |steps|
    ensures Run(f, trace[..n + 1], steps[..n])
  {
    if n > 0 {
      var before, ran := trace[..n], steps[..n - 1];
      ServedRunIsRun(w, f, trace, steps, n - 1);
      var s, step := trace[n - 1], steps[n - 1];
      assert ServedStep(w, s, step, trace[n]) && before[n - 1] == s;
      RunningClaims(f, before, ran, step.event);
      ServedIsTrue(w, f, trace[0].db.job.formulaHash, step.event);
      RunsContinue(f, before, ran, step);
      assert trace[..n + 1] == before + [Step(s, step)] && steps[..n] == ran + [step];
    }
  }

  lemma VerdictsAreTrueOf(w: World, f: Formula, trace: seq<System>, steps: seq<Timed>, i: nat)
    requires V.NoCollision(w.platform, w.published) && ServedRun(w, trace, steps) && i < |trace| && Stands(w, f)
    ensures SAT in trace[i].published || trace[i].db.job.state.SAT_VERIFIED? ==> Satisfiable(f)
    ensures UNSAT(CERTIFIED) in trace[i].published || trace[i].db.job.state.UNSAT_CERTIFIED? ==> !Satisfiable(f)
  {
    var prefix, ran := trace[..i + 1], steps[..i];
    ServedRunIsRun(w, f, trace, steps, i);
    VerdictsAreTrue(f, prefix, ran, i);
  }

  /**
   Whatever the browsers upload and send, and in whatever order handlers interleave: a SAT verdict
   means the published bytes encode a satisfiable formula, and a certified UNSAT verdict an unsatisfiable one.
   */
  lemma PublishedVerdictsAreTrue(w: World, trace: seq<System>, steps: seq<Timed>, i: nat)
    requires V.NoCollision(w.platform, w.published) && ServedRun(w, trace, steps) && i < |trace|
    ensures var decoded := HiveCnf.Decode(w.published);
      && (SAT in trace[i].published || trace[i].db.job.state.SAT_VERIFIED? ==> decoded.Ok? && Satisfiable(decoded.value.clauses))
      && (UNSAT(CERTIFIED) in trace[i].published || trace[i].db.job.state.UNSAT_CERTIFIED? ==>
            decoded.Ok? && !Satisfiable(decoded.value.clauses))
  {
    var decoded := HiveCnf.Decode(w.published);
    if decoded.Ok? {
      VerdictsAreTrueOf(w, decoded.value.clauses, trace, steps, i);
    } else {
      VerdictsAreTrueOf(w, [], trace, steps, i);
      VerdictsAreTrueOf(w, [[]], trace, steps, i);
      TrivialFormulas();
    }
  }

  lemma TrivialFormulas()
    ensures Satisfiable([]) && !Satisfiable([[]])
  {
    var nothing: Assignment := iset{};
    assert Model(nothing, [], []);
    var empty: Formula := [[]];
    forall a: Assignment ensures !Model(a, empty, []) {
      assert [] in empty && !ClauseHolds(a, []);
    }
  }
}
