/**
 Exactly which uploads the server answers with which status, in terms of the delivered bytes, the layout
 of the formula, the bits of the model and the lines of the proof.
 */
module VerifierAcceptance {
  import opened Wrappers
  import opened Chunks
  import opened Cnf
  import opened HiveCnf
  import opened HiveCnfLayout
  import opened LratCheck
  import opened LratAcceptance
  import opened SatArtifact
  import opened ResultVerifier

  // ----- what arrives -----

  /** The stream ends in order, and its chunks make up no more than so many bytes. */
  predicate Arrives(s: Incoming, maximumBytes: int) {
    !s.broken && |Joined(s.chunks)| <= maximumBytes
  }

  /** The bytes delivered have the declared hash and are those of the formula. */
  ghost predicate FormulaArrives(platform: Platform, s: Incoming, hash: string, f: Cnf1) {
    && Arrives(s, 32 * 1024 * 1024) && platform.sha256(Joined(s.chunks)) == hash
    && Encodable(f) && Layout(f, Joined(s.chunks))
  }

  /** A whole number of bytes, and no more than the variables need. */
  predicate HoldsBits(bits: Bytes, variableCount: int) {
    8 * |bits| - 8 < variableCount <= 8 * |bits|
  }

  /** Eight bytes of magic, the header's length, a header of at least two bytes and at most 8 KiB, and the bits. */
  ghost predicate ArtifactHolds(json: Json, b: Bytes, model: DecodedModel) {
    exists header :: ArtifactHas(json, b, model, header)
  }

  ghost predicate ArtifactHas(json: Json, b: Bytes, model: DecodedModel, header: Bytes) {
    && Laid(b, header, model.assignment) && 2 <= |header| <= 8 * 1024 && |b| <= 512 * 1024
    && json.parse(header) == Fields(model.metadata) && ValidMetadata(model.metadata)
    && HoldsBits(model.assignment, model.metadata.variableCount)
  }

  /** The artifact is the declared one, and its header agrees with the manifest, the lease and the job. */
  ghost predicate ModelArrives(platform: Platform, input: SatInput, model: DecodedModel) {
    var b, m, manifest := Joined(input.model.chunks), model.metadata, input.manifest;
    && Arrives(input.model, 512 * 1024) && |b| == manifest.artifactBytes && platform.sha256(b) == manifest.artifactSha256
    && ArtifactHolds(platform.json, b, model)
    && m == Metadata(m.version, manifest.formulaHash, manifest.taskId, manifest.cube, manifest.pathHash, manifest.solverVersion, manifest.variableCount)
    && m.cube == input.expectedCube && m.variableCount == input.expectedVariableCount
  }

  lemma FormulaIsLoaded(platform: Platform, s: Incoming, hash: string, f: Cnf1)
    ensures LoadFormula(platform, s, hash) == Some(f) <==> FormulaArrives(platform, s, hash, f)
  {
    DecodingIsExact(Joined(s.chunks), f);
  }

  /** The bytes between the parts are those parts. */
  lemma SlicesAreLaid(b: Bytes, n: nat)
    requires |b| >= FIXED_HEADER_BYTES && b[..8] == MODEL_MAGIC && n == ReadWord(b, 8) && FIXED_HEADER_BYTES + n <= |b|
    ensures Laid(b, b[FIXED_HEADER_BYTES..FIXED_HEADER_BYTES + n], b[FIXED_HEADER_BYTES + n..])
  {
    ReadWordRoundTrip(b[8..12]);
    assert b == b[..8] + b[8..12] + b[12..12 + n] + b[12 + n..];
  }

  lemma HeaderIsRead(json: Json, b: Bytes, model: DecodedModel)
    requires DecodeArtifact(json, b) == Ok(model)
    ensures ArtifactHolds(json, b, model)
  {
    var n := ReadWord(b, 8);
    var header := b[FIXED_HEADER_BYTES..FIXED_HEADER_BYTES + n];
    SlicesAreLaid(b, n);
    assert ReadHeader(json, header, b[FIXED_HEADER_BYTES + n..]) == Ok(model);
    assert ArtifactHas(json, b, model, header);
  }

  lemma LaidIsRead(json: Json, b: Bytes, model: DecodedModel, header: Bytes)
    requires ArtifactHas(json, b, model, header)
    ensures DecodeArtifact(json, b) == Ok(model)
  {
    LaidSlices(b, header, model.assignment);
  }

  /** The artifact reader accepts exactly the artifacts laid out for the model. */
  lemma ArtifactsAreReadExactly(json: Json, b: Bytes, model: DecodedModel)
    ensures DecodeArtifact(json, b) == Ok(model) <==> ArtifactHolds(json, b, model)
  {
    if DecodeArtifact(json, b) == Ok(model) {
      HeaderIsRead(json, b, model);
    } else if ArtifactHolds(json, b, model) {
      var header :| ArtifactHas(json, b, model, header);
      LaidIsRead(json, b, model, header);
    }
  }

  lemma ModelIsLoaded(platform: Platform, input: SatInput, model: DecodedModel)
    ensures LoadModel(platform, input) == Some(model) <==> ModelArrives(platform, input, model)
  {
    var b := Joined(input.model.chunks);
    ArtifactsAreReadExactly(platform.json, b, model);
    if LoadModel(platform, input) == Some(model) {
      assert DecodeArtifact(platform.json, b) == Ok(model);
    }
  }

  // ----- SAT -----

  function SatBudget(input: SatInput): int {
    if input.maxLiteralChecks.Some? then input.maxLiteralChecks.value else 2_000_064
  }

  /** The model agrees with the cube and satisfies every clause, and looking at all literals is within the budget. */
  ghost predicate SatAcceptable(platform: Platform, input: SatInput, model: DecodedModel, f: Cnf1) {
    && ModelArrives(platform, input, model) && FormulaArrives(platform, input.formula, input.manifest.formulaHash, f)
    && f.variableCount == input.expectedVariableCount && ResultVerifier.Agrees(model.assignment, input.expectedCube, f.clauses)
    && Affordable(0, |input.expectedCube| + LiteralTotal(f.clauses), SatBudget(input))
  }

  lemma LoadedLiterals(f: Cnf1, bits: Bytes)
    requires Encodable(f) && HoldsBits(bits, f.variableCount)
    ensures forall c :: c in f.clauses ==> Readable(bits, c)
  {
  }

  lemma BoundlessScan(bits: Bytes, cube: Cube, clauses: Formula, budget: int)
    requires ResultVerifier.Agrees(bits, cube, clauses) && (forall c :: c in clauses ==> Readable(bits, c))
    requires Affordable(0, |cube| + LiteralTotal(clauses), budget)
    ensures CheckModel(bits, cube, clauses, budget).ValidSat?
  {
    CheckModelIs(bits, cube, clauses, budget);
    OtherAnswersMean(bits, cube, clauses, budget);
    assert Readable(bits, cube);
    if |cube| + LiteralTotal(clauses) == 0 {
      assert WithUnits([], cube) == [];
      if clauses != [] {
        EmptyClausesFail(bits, clauses);
      }
    }
  }

  /** A formula of empty clauses is not satisfied. */
  lemma EmptyClausesFail(bits: Bytes, clauses: Formula)
    requires LiteralTotal(clauses) == 0 && clauses != []
    ensures !BitsModel(bits, clauses)
  {
    var last := clauses[|clauses| - 1];
    assert last in clauses && !BitsSatisfy(bits, last);
  }

  /** VALID_SAT is answered exactly if the declared model and formula arrived and the model is one, within the budget. */
  lemma ModelsAreAcceptedExactly(platform: Platform, input: SatInput)
    ensures VerifySat(platform, input).ValidSat? <==> exists model, f :: SatAcceptable(platform, input, model, f)
  {
    if VerifySat(platform, input).ValidSat? {
      var model := LoadModel(platform, input).value;
      var f := LoadFormula(platform, input.formula, input.manifest.formulaHash).value;
      ModelIsLoaded(platform, input, model);
      FormulaIsLoaded(platform, input.formula, input.manifest.formulaHash, f);
      CheckModelIs(model.assignment, input.expectedCube, f.clauses, SatBudget(input));
      assert SatAcceptable(platform, input, model, f);
    }
    if model, f :| SatAcceptable(platform, input, model, f) {
      ModelIsLoaded(platform, input, model);
      FormulaIsLoaded(platform, input.formula, input.manifest.formulaHash, f);
      LoadedLiterals(f, model.assignment);
      BoundlessScan(model.assignment, input.expectedCube, f.clauses, SatBudget(input));
    }
  }

  /** What every other answer says of the upload. */
  lemma ModelsAreRefusedExactly(platform: Platform, input: SatInput)
    ensures (forall model :: !ModelArrives(platform, input, model)) ==> VerifySat(platform, input).InvalidModel?
    ensures VerifySat(platform, input).InvalidFormula? <==>
      && (exists model :: ModelArrives(platform, input, model))
      && forall f :: FormulaArrives(platform, input.formula, input.manifest.formulaHash, f) ==> f.variableCount != input.expectedVariableCount
    ensures forall model, f ::
      ModelArrives(platform, input, model) && FormulaArrives(platform, input.formula, input.manifest.formulaHash, f) ==>
        var r := VerifySat(platform, input);
        && (r.InvalidModel? ==> !ResultVerifier.Agrees(model.assignment, input.expectedCube, f.clauses))
        && (r.VerificationTimeout? ==> |input.expectedCube| + LiteralTotal(f.clauses) > SatBudget(input))
        && (r.Threw? ==> !Readable(model.assignment, input.expectedCube))
  {
    var loaded, formula := LoadModel(platform, input), LoadFormula(platform, input.formula, input.manifest.formulaHash);
    forall model ensures loaded == Some(model) <==> ModelArrives(platform, input, model) {
      ModelIsLoaded(platform, input, model);
    }
    forall f ensures formula == Some(f) <==> FormulaArrives(platform, input.formula, input.manifest.formulaHash, f) {
      FormulaIsLoaded(platform, input.formula, input.manifest.formulaHash, f);
    }
    if loaded.Some? {
      assert ModelArrives(platform, input, loaded.value);
    }
    if loaded.Some? && formula.Some? && formula.value.variableCount == loaded.value.metadata.variableCount {
      LoadedLiterals(formula.value, loaded.value.assignment);
      OtherAnswersMean(loaded.value.assignment, input.expectedCube, formula.value.clauses, SatBudget(input));
    }
  }

  // ----- UNSAT -----

  ghost predicate ProofHolds(f: Formula, text: string, limits: Limits, num: Numerals) {
    var lines := Lines(text, 0, 0);
    && Utf8Bytes(text) <= limits.maxProofBytes && WithinLimits(lines, limits, num)
    && AllAcceptable(f, lines, num) && DerivesEmpty(lines, num)
  }

  /** The proof is too long, or this is what is wrong with its first line that does not pass, or nothing refutes the formula. */
  ghost predicate ProofFails(f: Formula, text: string, limits: Limits, num: Numerals, r: Reason) {
    var lines := Lines(text, 0, 0);
    if Utf8Bytes(text) > limits.maxProofBytes then r == ProofTooLong
    else (exists k :: FirstFault(f, lines, limits, num, k, r)) ||
         (r == NoEmptyClause && AllAcceptable(f, lines, num) && WithinLimits(lines, limits, num) && !DerivesEmpty(lines, num))
  }

  /** Limits and RAT steps are no one's fault; everything else is the session's. */
  function StatusOf(r: Reason): UnsatStatus {
    match r
    case ProofTooLong => ProofTimeout
    case OperationLimit => ProofTimeout
    case RatHints => OwnerCheckRequired
    case _ => InvalidProof
  }

  ghost predicate ProofJudged(f: Formula, text: string, limits: Limits, num: Numerals, r: UnsatStatus) {
    || (ProofHolds(f, text, limits, num) && r == ValidUnsat(Additions(Lines(text, 0, 0), num), HintTotal(Lines(text, 0, 0), num)))
    || exists reason :: ProofFails(f, text, limits, num, reason) && r == StatusOf(reason)
  }

  lemma ProofIsJudged(f: Formula, text: string, limits: Limits, num: Numerals)
    ensures ProofJudged(f, text, limits, num, Assess(CheckProof(f, text, limits, num)))
  {
    var outcome := CheckProof(f, text, limits, num);
    ProofsAreAcceptedExactly(f, text, limits, num);
    if outcome.Rejected? {
      ProofsAreRefusedExactly(f, text, limits, num, outcome.reason);
      assert ProofFails(f, text, limits, num, outcome.reason);
    }
  }

  /** The cube's literals are numbered as the clauses that follow the formula's own. */
  predicate CubeIsNumbered(manifest: UnsatManifest, clauses: nat) {
    && manifest.originalClauseCount == clauses
    && forall i :: 0 <= i < |manifest.cubeClauseIds| ==> manifest.cubeClauseIds[i] == clauses + 1 + i
  }

  /** The proof bytes are there: what happens to them now depends on the formula and the proof's lines. */
  ghost predicate ProofAnswered(platform: Platform, input: UnsatInput, proof: Bytes, maxDecompressed: nat, r: UnsatStatus) {
    if forall f :: !FormulaArrives(platform, input.formula, input.manifest.formulaHash, f) then r == BadFormula
    else exists f ::
      && FormulaArrives(platform, input.formula, input.manifest.formulaHash, f)
      && if !CubeIsNumbered(input.manifest, |f.clauses|) then r == InvalidProof
         else ProofJudged(WithUnits(f.clauses, input.expectedCube), platform.decodeText(proof),
                          Limits(maxDecompressed, Default(input.maxDerivedClauses, 100_000), Default(input.maxHints, 1_000_000)),
                          platform.numerals, r)
  }

  /** The declared sizes, the delivered bytes and the unpacked proof are tested in this order. */
  ghost predicate UnsatAnswer(platform: Platform, input: UnsatInput, r: UnsatStatus) {
    var compressed, unpacked := Joined(input.proof.chunks), platform.gunzip(Joined(input.proof.chunks));
    var maxCompressed, maxDecompressed := Default(input.maxCompressedBytes, 2 * 1024 * 1024), Default(input.maxDecompressedBytes, 8 * 1024 * 1024);
    if input.manifest.cube != input.expectedCube then r == InvalidProof
    else if input.manifest.compressedBytes > maxCompressed || input.manifest.decompressedBytes > maxDecompressed then r == OwnerCheckRequired
    else if !Arrives(input.proof, maxCompressed) then r == ProofTimeout
    else if |compressed| != input.manifest.compressedBytes || platform.sha256(compressed) != input.manifest.artifactSha256 then r == InvalidProof
    else if !Arrives(unpacked, maxDecompressed) || |Joined(unpacked.chunks)| != input.manifest.decompressedBytes then r == InvalidProof
    else exists proof :: proof == Joined(unpacked.chunks) && ProofAnswered(platform, input, proof, maxDecompressed, r)
  }

  lemma JudgementIsExact(platform: Platform, input: UnsatInput, proof: Bytes)
    ensures ProofAnswered(platform, input, proof, Default(input.maxDecompressedBytes, 8 * 1024 * 1024), JudgeProof(platform, input, proof))
  {
    var formula := LoadFormula(platform, input.formula, input.manifest.formulaHash);
    forall f ensures formula == Some(f) <==> FormulaArrives(platform, input.formula, input.manifest.formulaHash, f) {
      FormulaIsLoaded(platform, input.formula, input.manifest.formulaHash, f);
    }
    if formula.Some? {
      assert FormulaArrives(platform, input.formula, input.manifest.formulaHash, formula.value);
      ProofIsJudged(WithUnits(formula.value.clauses, input.expectedCube), platform.decodeText(proof), ProofLimits(input), platform.numerals);
    }
  }

  /** Every answer to a proof, in terms of what was declared and what was delivered. */
  lemma ProofsAreAnsweredExactly(platform: Platform, input: UnsatInput)
    ensures UnsatAnswer(platform, input, VerifyUnsat(platform, input))
  {
    JudgementIsExact(platform, input, Joined(platform.gunzip(Joined(input.proof.chunks)).chunks));
  }
}
