/**
 The server's checks of SAT models and UNSAT proofs.  Streams carry whatever a browser uploaded;
 hashing, decompression, JSON and text decoding are the platform's.
 */
module ResultVerifier {
  import opened Wrappers
  import opened Chunks
  import opened Cnf
  import opened HiveCnf
  import opened LratCheck
  import opened SatArtifact
  import opened SatModel

  const MAX_LITERAL_CHECKS := 2_000_064
  const MAX_SERVER_PROOF_COMPRESSED_BYTES := 2 * 1024 * 1024
  const MAX_SERVER_PROOF_DECOMPRESSED_BYTES := 8 * 1024 * 1024

  /** The chunks a stream delivers, and whether it ends in a read error. */
  datatype Incoming = Incoming(chunks: seq<Bytes>, broken: bool)

  datatype Platform = Platform(
    sha256: Bytes -> string, json: Json, gunzip: Bytes -> Incoming, decodeText: Bytes -> string, numerals: Numerals)

  datatype SatManifest = SatManifest(
    formulaHash: string, taskId: string, cube: Cube, pathHash: string, solverVersion: string, variableCount: int,
    artifactSha256: string, artifactBytes: int)

  datatype SatInput = SatInput(
    formula: Incoming, model: Incoming, manifest: SatManifest, expectedCube: Cube, expectedVariableCount: int,
    maxLiteralChecks: Option<int>)

  datatype SatStatus =
    | ValidSat(checkedClauses: nat, checkedLiterals: nat) | InvalidFormula | InvalidModel | VerificationTimeout | Threw

  datatype UnsatManifest = UnsatManifest(
    formulaHash: string, taskId: string, cube: Cube, pathHash: string, solverVersion: string, artifactSha256: string,
    compressedBytes: int, decompressedBytes: int, originalClauseCount: int, cubeClauseIds: seq<int>)

  datatype UnsatInput = UnsatInput(
    formula: Incoming, proof: Incoming, manifest: UnsatManifest, expectedCube: Cube, maxCompressedBytes: Option<nat>,
    maxDecompressedBytes: Option<nat>, maxDerivedClauses: Option<nat>, maxHints: Option<nat>)

  datatype UnsatStatus =
    | ValidUnsat(derivedClauses: nat, checkedHints: nat) | OwnerCheckRequired | BadFormula | InvalidProof | ProofTimeout

  function Default<T>(given: Option<T>, otherwise: T): T {
    if given.Some? then given.value else otherwise
  }

  // ----- bounded reading -----

  function Collect(s: Incoming, maximumBytes: nat): Option<Bytes> {
    if s.broken || |Joined(s.chunks)| > maximumBytes then None else Some(Joined(s.chunks))
  }

  /** Counts while reading, then copies every chunk to its place. */
  method CollectBounded(s: Incoming, maximumBytes: nat) returns (r: Option<Bytes>)
    ensures r == Collect(s, maximumBytes)
  {
    var length := 0;
    for i := 0 to |s.chunks|
      invariant length == |Joined(s.chunks[..i])| && length <= maximumBytes
    {
      JoinedGrows(s.chunks, i);
      length := length + |s.chunks[i]|;
      if length > maximumBytes {
        return None;
      }
    }
    assert s.chunks[..|s.chunks|] == s.chunks;
    if s.broken {
      return None;
    }
    var output := Assemble(s.chunks, length);
    return Some(output);
  }

  /** The formula of a stream, if its bytes have the declared hash. */
  function LoadFormula(platform: Platform, formula: Incoming, formulaHash: string): Option<Cnf1> {
    match Collect(formula, MAX_ENCODED_FORMULA_BYTES)
    case None => None
    case Some(encoded) =>
      if platform.sha256(encoded) != formulaHash || Decode(encoded).Err? then None else Some(Decode(encoded).value)
  }

  method ReadFormula(platform: Platform, formula: Incoming, formulaHash: string) returns (r: Option<Cnf1>)
    ensures r == LoadFormula(platform, formula, formulaHash)
  {
    var encoded := CollectBounded(formula, MAX_ENCODED_FORMULA_BYTES);
    if encoded.None? || platform.sha256(encoded.value) != formulaHash {
      return None;
    }
    var decoded := DecodeHiveCnfV1(encoded.value);
    return if decoded.Err? then None else Some(decoded.value);
  }

  // ----- the metered model check -----

  datatype Fault = Exhausted | Unsatisfied | OutOfRange

  /** Looks at every literal of a clause, each within the budget; gives the literals checked so far and the clause's truth. */
  function ScanClause(bits: Bytes, clause: Clause, checked: nat, satisfied: bool, budget: int): Result<(nat, bool), Fault>
    decreases |clause|
  {
    if clause == [] then Ok((checked, satisfied))
    else if checked + 1 > budget then Err(Exhausted)
    else
      match BitsetValue(bits, Abs(clause[0]))
      case None => Err(OutOfRange)
      case Some(value) => ScanClause(bits, clause[1..], checked + 1, satisfied || value == (clause[0] > 0), budget)
  }

  function ScanFormula(bits: Bytes, clauses: Formula, checked: nat, budget: int): Result<nat, Fault>
    decreases |clauses|
  {
    if clauses == [] then Ok(checked) else
      match ScanClause(bits, clauses[0], checked, false, budget)
      case Err(fault) => Err(fault)
      case Ok((n, satisfied)) => if satisfied then ScanFormula(bits, clauses[1..], n, budget) else Err(Fault.Unsatisfied)
  }

  function Status(fault: Fault): SatStatus {
    match fault
    case Exhausted => VerificationTimeout
    case Unsatisfied => InvalidModel
    case OutOfRange => Threw
  }

  /** The cube literals are checked like unit clauses, then the clauses. */
  function CheckModel(bits: Bytes, cube: Cube, clauses: Formula, budget: int): SatStatus {
    match ScanFormula(bits, WithUnits([], cube), 0, budget)
    case Err(fault) => Status(fault)
    case Ok(n) =>
      match ScanFormula(bits, clauses, n, budget)
      case Err(fault) => Status(fault)
      case Ok(checked) => ValidSat(|clauses|, checked)
  }

  method CheckClauseBits(bits: Bytes, clause: Clause, checked: nat, budget: int) returns (r: Result<(nat, bool), Fault>)
    ensures r == ScanClause(bits, clause, checked, false, budget)
  {
    var checkedLiterals, satisfied := checked, false;
    for j := 0 to |clause|
      invariant checkedLiterals >= 0
      invariant ScanClause(bits, clause, checked, false, budget) == ScanClause(bits, clause[j..], checkedLiterals, satisfied, budget)
    {
      if checkedLiterals + 1 > budget {
        return Err(Exhausted);
      }
      var value := BitsetValue(bits, Abs(clause[j]));
      if value.None? {
        return Err(OutOfRange);
      }
      checkedLiterals := checkedLiterals + 1;
      if value.value == (clause[j] > 0) {
        satisfied := true;
      }
    }
    return Ok((checkedLiterals, satisfied));
  }

  method CheckModelBits(bits: Bytes, cube: Cube, clauses: Formula, budget: int) returns (r: SatStatus)
    ensures r == CheckModel(bits, cube, clauses, budget)
  {
    ghost var units := WithUnits([], cube);
    var checkedLiterals := 0;
    for i := 0 to |cube|
      invariant ScanFormula(bits, units, 0, budget) == ScanFormula(bits, units[i..], checkedLiterals, budget)
    {
      assert units[i] == [cube[i]] && units[i..][1..] == units[i + 1..];
      var unit := CheckClauseBits(bits, [cube[i]], checkedLiterals, budget);
      if unit.Err? {
        return Status(unit.error);
      }
      if !unit.value.1 {
        return InvalidModel;
      }
      checkedLiterals := unit.value.0;
    }
    ghost var start := checkedLiterals;
    for i := 0 to |clauses|
      invariant ScanFormula(bits, clauses, start, budget) == ScanFormula(bits, clauses[i..], checkedLiterals, budget)
    {
      var clause := CheckClauseBits(bits, clauses[i], checkedLiterals, budget);
      if clause.Err? {
        return Status(clause.error);
      }
      if !clause.value.1 {
        return InvalidModel;
      }
      checkedLiterals := clause.value.0;
    }
    return ValidSat(|clauses|, checkedLiterals);
  }

  // ----- SAT verification -----

  predicate Bound(m: Metadata, manifest: SatManifest, expectedCube: Cube, expectedVariableCount: int) {
    && m.formulaHash == manifest.formulaHash && m.taskId == manifest.taskId && m.pathHash == manifest.pathHash
    && m.solverVersion == manifest.solverVersion && m.variableCount == manifest.variableCount
    && m.cube == manifest.cube && m.cube == expectedCube && m.variableCount == expectedVariableCount
  }

  /** The model of the uploaded artifact, if it is the one the manifest declares, for the leased cube. */
  function LoadModel(platform: Platform, input: SatInput): Option<DecodedModel> {
    match Collect(input.model, MAX_SAT_MODEL_ARTIFACT_BYTES)
    case None => None
    case Some(artifact) =>
      if |artifact| != input.manifest.artifactBytes || platform.sha256(artifact) != input.manifest.artifactSha256 then None
      else
        match DecodeArtifact(platform.json, artifact)
        case Err(_) => None
        case Ok(model) =>
          if Bound(model.metadata, input.manifest, input.expectedCube, input.expectedVariableCount) then Some(model) else None
  }

  function VerifySat(platform: Platform, input: SatInput): SatStatus {
    match LoadModel(platform, input)
    case None => InvalidModel
    case Some(model) =>
      match LoadFormula(platform, input.formula, input.manifest.formulaHash)
      case None => InvalidFormula
      case Some(formula) =>
        if formula.variableCount != model.metadata.variableCount then InvalidFormula
        else CheckModel(model.assignment, input.expectedCube, formula.clauses, Default(input.maxLiteralChecks, MAX_LITERAL_CHECKS))
  }

  method VerifySatOnce(platform: Platform, input: SatInput) returns (r: SatStatus)
    ensures r == VerifySat(platform, input)
  {
    var artifact := CollectBounded(input.model, MAX_SAT_MODEL_ARTIFACT_BYTES);
    if artifact.None? {
      return InvalidModel;
    }
    if |artifact.value| != input.manifest.artifactBytes || platform.sha256(artifact.value) != input.manifest.artifactSha256 {
      return InvalidModel;
    }
    var model := DecodeSatModelArtifact(platform.json, artifact.value);
    if model.Err? || !Bound(model.value.metadata, input.manifest, input.expectedCube, input.expectedVariableCount) {
      return InvalidModel;
    }
    var formula := ReadFormula(platform, input.formula, input.manifest.formulaHash);
    if formula.None? || formula.value.variableCount != model.value.metadata.variableCount {
      return InvalidFormula;
    }
    r := CheckModelBits(model.value.assignment, input.expectedCube, formula.value.clauses,
                        Default(input.maxLiteralChecks, MAX_LITERAL_CHECKS));
  }

  // ----- the model check is an exact decision -----

  predicate BitsSatisfy(bits: Bytes, clause: Clause) {
    exists l :: l in clause && BitsetValue(bits, Abs(l)) == Some(l > 0)
  }

  predicate BitsModel(bits: Bytes, clauses: Formula) {
    forall c :: c in clauses ==> BitsSatisfy(bits, c)
  }

  predicate Readable(bits: Bytes, clause: Clause) {
    forall l :: l in clause ==> 1 <= Abs(l) <= 8 * |bits|
  }

  lemma {:induction false} LiteralTotalFront(clauses: Formula)
    requires clauses != []
    ensures LiteralTotal(clauses) == |clauses[0]| + LiteralTotal(clauses[1..])
  {
    if |clauses| > 1 {
      var init := clauses[..|clauses| - 1];
      LiteralTotalFront(init);
      assert clauses[1..][..|clauses| - 2] == init[1..];
    }
  }

  /** A clause whose scan completes was read literal by literal. */
  lemma {:induction false} ScanClauseIs(bits: Bytes, clause: Clause, checked: nat, satisfied: bool, budget: int)
    ensures var r := ScanClause(bits, clause, checked, satisfied, budget);
      && (r.Ok? ==> r.value == (checked + |clause|, satisfied || BitsSatisfy(bits, clause)) && Readable(bits, clause))
      && (r.Ok? ==> clause == [] || checked + |clause| <= budget)
      && (checked + |clause| <= budget && Readable(bits, clause) ==> r.Ok?)
      && (r == Err(Exhausted) ==> checked + |clause| > budget) && r != Err(Fault.Unsatisfied)
      && (r == Err(OutOfRange) ==> !Readable(bits, clause))
    decreases |clause|
  {
    if clause != [] && checked + 1 <= budget && BitsetValue(bits, Abs(clause[0])).Some? {
      var satisfied' := satisfied || BitsetValue(bits, Abs(clause[0])).value == (clause[0] > 0);
      ScanClauseIs(bits, clause[1..], checked + 1, satisfied', budget);
      assert forall l :: l in clause <==> l == clause[0] || l in clause[1..];
    }
  }

  /** So many more literals may be looked at. */
  predicate Affordable(checked: int, more: int, budget: int) {
    more == 0 || checked + more <= budget
  }

  lemma {:induction false} ScanFormulaIs(bits: Bytes, clauses: Formula, checked: nat, budget: int)
    ensures var r := ScanFormula(bits, clauses, checked, budget);
      && (r.Ok? ==> BitsModel(bits, clauses) && r.value == checked + LiteralTotal(clauses) && Affordable(checked, LiteralTotal(clauses), budget))
      && (r == Err(Exhausted) ==> checked + LiteralTotal(clauses) > budget)
      && (r == Err(Fault.Unsatisfied) ==> !BitsModel(bits, clauses))
      && (r == Err(OutOfRange) ==> exists c :: c in clauses && !Readable(bits, c))
      && (checked + LiteralTotal(clauses) <= budget && (forall c :: c in clauses ==> Readable(bits, c)) ==>
            if BitsModel(bits, clauses) then r.Ok? else r == Err(Fault.Unsatisfied))
    decreases |clauses|
  {
    if clauses != [] {
      var c := clauses[0];
      LiteralTotalFront(clauses);
      ScanClauseIs(bits, c, checked, false, budget);
      var r := ScanClause(bits, c, checked, false, budget);
      if r.Ok? && r.value.1 {
        ScanFormulaIs(bits, clauses[1..], r.value.0, budget);
      }
      assert forall d :: d in clauses <==> d == c || d in clauses[1..];
      assert c in clauses;
    }
  }

  lemma UnitsAgree(bits: Bytes, cube: Cube)
    ensures BitsModel(bits, WithUnits([], cube)) <==> forall l :: l in cube ==> BitsetValue(bits, Abs(l)) == Some(l > 0)
  {
    var units := WithUnits([], cube);
    forall l | l in cube ensures [l] in units {
      var i :| 0 <= i < |cube| && cube[i] == l;
      assert units[i] == [l];
    }
    forall c | c in units ensures exists l :: l in cube && c == [l] {
      var i :| 0 <= i < |units| && units[i] == c;
      var l := cube[i];
      assert l in cube && c == [l];
    }
    forall l | l in cube ensures BitsSatisfy(bits, [l]) <==> BitsetValue(bits, Abs(l)) == Some(l > 0) {
      assert l in [l];
    }
  }

  ghost predicate Agrees(bits: Bytes, cube: Cube, clauses: Formula) {
    (forall l :: l in cube ==> BitsetValue(bits, Abs(l)) == Some(l > 0)) && BitsModel(bits, clauses)
  }

  /** An accepted model is true, whatever the budget; within it the answer is exact and counts every literal once. */
  lemma CheckModelIs(bits: Bytes, cube: Cube, clauses: Formula, budget: int)
    ensures var r := CheckModel(bits, cube, clauses, budget);
      && (r.ValidSat? ==> Agrees(bits, cube, clauses) && r == ValidSat(|clauses|, |cube| + LiteralTotal(clauses)))
      && (r.ValidSat? ==> Affordable(0, |cube| + LiteralTotal(clauses), budget))
      && (|cube| + LiteralTotal(clauses) <= budget && Readable(bits, cube) && (forall c :: c in clauses ==> Readable(bits, c)) ==>
            if Agrees(bits, cube, clauses) then r.ValidSat? else r == InvalidModel)
  {
    var units := WithUnits([], cube);
    UnitsTotal([], cube);
    UnitsAgree(bits, cube);
    ScanFormulaIs(bits, units, 0, budget);
    var first := ScanFormula(bits, units, 0, budget);
    if first.Ok? {
      ScanFormulaIs(bits, clauses, first.value, budget);
    }
    if Readable(bits, cube) {
      forall c | c in units ensures Readable(bits, c) {
        var i :| 0 <= i < |units| && units[i] == c;
        assert cube[i] in cube;
      }
    }
  }

  /** Each of the other answers has its reason. */
  lemma OtherAnswersMean(bits: Bytes, cube: Cube, clauses: Formula, budget: int)
    ensures var r := CheckModel(bits, cube, clauses, budget);
      && (r.InvalidModel? ==> !Agrees(bits, cube, clauses)) && !r.InvalidFormula?
      && (r.VerificationTimeout? ==> |cube| + LiteralTotal(clauses) > budget)
      && (r.Threw? ==> !Readable(bits, cube) || exists c :: c in clauses && !Readable(bits, c))
  {
    var units := WithUnits([], cube);
    UnitsTotal([], cube);
    UnitsAgree(bits, cube);
    ScanFormulaIs(bits, units, 0, budget);
    var first := ScanFormula(bits, units, 0, budget);
    if first.Ok? {
      ScanFormulaIs(bits, clauses, first.value, budget);
    } else if first == Err(OutOfRange) {
      var c :| c in units && !Readable(bits, c);
      var i :| 0 <= i < |units| && units[i] == c;
      assert c == [cube[i]] && cube[i] in cube;
    }
  }

  lemma AgreementIsSatisfaction(bits: Bytes, cube: Cube, clauses: Formula)
    requires Agrees(bits, cube, clauses)
    ensures SatisfiableIn(clauses, cube)
  {
    var a: Assignment := iset v | BitsetValue(bits, v) == Some(true);
    assert forall l :: BitsetValue(bits, Abs(l)) == Some(l > 0) ==> LiteralHolds(a, l);
    forall c | c in clauses ensures ClauseHolds(a, c) {
      assert BitsSatisfy(bits, c);
    }
    assert Model(a, clauses, cube);
  }

  /** No other input has the hash of these bytes. */
  ghost predicate NoCollision(platform: Platform, published: Bytes) {
    forall other: Bytes :: platform.sha256(other) == platform.sha256(published) ==> other == published
  }

  lemma LoadedIsPublished(platform: Platform, formula: Incoming, published: Bytes)
    requires NoCollision(platform, published) && LoadFormula(platform, formula, platform.sha256(published)).Some?
    ensures Decode(published) == Ok(LoadFormula(platform, formula, platform.sha256(published)).value)
  {
  }

  /** VALID_SAT is true of the published formula and the expected cube, whatever was streamed and whatever the budget. */
  lemma ValidSatIsTrue(platform: Platform, input: SatInput, published: Bytes)
    requires NoCollision(platform, published) && input.manifest.formulaHash == platform.sha256(published)
    requires VerifySat(platform, input).ValidSat?
    ensures Decode(published).Ok? && SatisfiableIn(Decode(published).value.clauses, input.expectedCube)
  {
    var formula := LoadFormula(platform, input.formula, input.manifest.formulaHash).value;
    var bits := LoadModel(platform, input).value.assignment;
    LoadedIsPublished(platform, input.formula, published);
    CheckModelIs(bits, input.expectedCube, formula.clauses, Default(input.maxLiteralChecks, MAX_LITERAL_CHECKS));
    AgreementIsSatisfaction(bits, input.expectedCube, formula.clauses);
  }

  /**
   Once the bindings hold, the default budget decides exactly: it neither runs out nor throws for a
   cube of at most 64 literals inside the formula's variables.
   */
  lemma SatCheckIsExact(platform: Platform, input: SatInput)
    requires LoadModel(platform, input).Some? && LoadFormula(platform, input.formula, input.manifest.formulaHash).Some?
    requires LoadFormula(platform, input.formula, input.manifest.formulaHash).value.variableCount == input.expectedVariableCount
    requires input.maxLiteralChecks.None? && |input.expectedCube| <= 64 && ClauseInRange(input.expectedCube, input.expectedVariableCount)
    ensures var formula := LoadFormula(platform, input.formula, input.manifest.formulaHash).value;
      VerifySat(platform, input) ==
        if Agrees(LoadModel(platform, input).value.assignment, input.expectedCube, formula.clauses)
        then ValidSat(|formula.clauses|, |input.expectedCube| + LiteralTotal(formula.clauses))
        else InvalidModel
  {
    var formula := LoadFormula(platform, input.formula, input.manifest.formulaHash).value;
    var bits := LoadModel(platform, input).value.assignment;
    var encoded := Collect(input.formula, MAX_ENCODED_FORMULA_BYTES).value;
    DecodedWithinLimits(encoded);
    forall c | c in formula.clauses ensures Readable(bits, c) {
      var k :| 0 <= k < |formula.clauses| && formula.clauses[k] == c;
      assert ClauseInRange(formula.clauses[k], formula.variableCount);
    }
    CheckModelIs(bits, input.expectedCube, formula.clauses, MAX_LITERAL_CHECKS);
  }

  /**
   A model the browser accepts, ordered by variable and inside the cube, survives the bitset artifact
   and is accepted by the server, however the artifact and the formula are cut into chunks.
   */
  lemma GoodModelIsAccepted(platform: Platform, input: SatInput, f: Cnf1, model: seq<int>, metadata: Metadata, bitset: Bytes)
    requires GoodModel(f.variableCount, f.clauses, model) && |model| == f.variableCount && OneLiteralPerVariable(model)
    requires ValidMetadata(metadata) && platform.json.Faithful(metadata) && |platform.json.text(metadata)| <= MAX_METADATA_BYTES
    requires Bound(metadata, input.manifest, input.expectedCube, f.variableCount) && input.expectedVariableCount == f.variableCount
    requires forall l :: l in input.expectedCube ==> l in model
    requires !input.model.broken && IsBitsetOf(bitset, model)
    requires Laid(Joined(input.model.chunks), platform.json.text(metadata), bitset)
    requires input.manifest.artifactBytes == |Joined(input.model.chunks)|
    requires input.manifest.artifactSha256 == platform.sha256(Joined(input.model.chunks))
    requires !input.formula.broken && Encode(f) == Ok(Joined(input.formula.chunks))
    requires metadata.formulaHash == platform.sha256(Joined(input.formula.chunks))
    requires input.maxLiteralChecks.None?
    ensures VerifySat(platform, input) == ValidSat(|f.clauses|, |input.expectedCube| + LiteralTotal(f.clauses))
  {
    var artifact, encoded := Joined(input.model.chunks), Joined(input.formula.chunks);
    DecodeOfEncoded(platform.json, metadata, model, artifact, bitset);
    LaidSlices(artifact, platform.json.text(metadata), bitset);
    assert LoadModel(platform, input) == Some(DecodedModel(metadata, bitset));
    DecodeOfEncode(f);
    assert LoadFormula(platform, input.formula, input.manifest.formulaHash) == Some(f);
    ModelBits(bitset, f.variableCount, f.clauses, model, input.expectedCube);
    SatCheckIsExact(platform, input);
  }

  lemma ModelBits(bitset: Bytes, variableCount: int, clauses: Formula, model: seq<int>, cube: Cube)
    requires GoodModel(variableCount, clauses, model) && IsBitsetOf(bitset, model) && |model| == variableCount
    requires OneLiteralPerVariable(model) && forall l :: l in cube ==> l in model
    ensures Agrees(bitset, cube, clauses) && ClauseInRange(cube, variableCount)
  {
    forall l | l in model ensures BitsetValue(bitset, Abs(l)) == Some(l > 0) && InRange(l, variableCount) {
      var i :| 0 <= i < |model| && model[i] == l;
      assert Abs(l) == i + 1;
      assert Abs(l) in model <==> l > 0;
    }
    forall c | c in clauses ensures BitsSatisfy(bitset, c) {
      var k :| 0 <= k < |clauses| && clauses[k] == c;
      assert SatisfiedBy(clauses[k], model);
    }
    assert forall i :: 0 <= i < |cube| ==> cube[i] in cube;
  }

  // ----- UNSAT verification -----

  function ProofLimits(input: UnsatInput): Limits {
    Limits(Default(input.maxDecompressedBytes, MAX_SERVER_PROOF_DECOMPRESSED_BYTES), Default(input.maxDerivedClauses, 100_000),
           Default(input.maxHints, 1_000_000))
  }

  /** The number of cube clause `i` is the one the extended clause list gives it. */
  predicate ClauseIdsBound(ids: seq<int>, originalClauses: nat) {
    forall i :: 0 <= i < |ids| ==> ids[i] == originalClauses + i + 1
  }

  function Assess(outcome: Outcome): UnsatStatus {
    if outcome.LimitExceeded() then ProofTimeout
    else if outcome.RequiresFullChecker() then OwnerCheckRequired
    else if outcome.Rejected? then InvalidProof
    else ValidUnsat(outcome.derivedClauses, outcome.checkedHints)
  }

  function JudgeProof(platform: Platform, input: UnsatInput, proof: Bytes): UnsatStatus {
    match LoadFormula(platform, input.formula, input.manifest.formulaHash)
    case None => BadFormula
    case Some(formula) =>
      if input.manifest.originalClauseCount != |formula.clauses| || !ClauseIdsBound(input.manifest.cubeClauseIds, |formula.clauses|)
      then InvalidProof
      else Assess(CheckProof(WithUnits(formula.clauses, input.expectedCube), platform.decodeText(proof), ProofLimits(input), platform.numerals))
  }

  function VerifyUnsat(platform: Platform, input: UnsatInput): UnsatStatus {
    var maxCompressed := Default(input.maxCompressedBytes, MAX_SERVER_PROOF_COMPRESSED_BYTES);
    var maxDecompressed := Default(input.maxDecompressedBytes, MAX_SERVER_PROOF_DECOMPRESSED_BYTES);
    if input.manifest.cube != input.expectedCube then InvalidProof
    else if input.manifest.compressedBytes > maxCompressed || input.manifest.decompressedBytes > maxDecompressed then OwnerCheckRequired
    else
      match Collect(input.proof, maxCompressed)
      case None => ProofTimeout
      case Some(compressed) =>
        if |compressed| != input.manifest.compressedBytes || platform.sha256(compressed) != input.manifest.artifactSha256 then InvalidProof
        else
          match Collect(platform.gunzip(compressed), maxDecompressed)
          case None => InvalidProof
          case Some(proof) =>
            if |proof| != input.manifest.decompressedBytes then InvalidProof else JudgeProof(platform, input, proof)
  }

  method VerifyUnsatOnce(platform: Platform, input: UnsatInput) returns (r: UnsatStatus)
    ensures r == VerifyUnsat(platform, input)
  {
    var maxCompressed := Default(input.maxCompressedBytes, MAX_SERVER_PROOF_COMPRESSED_BYTES);
    var maxDecompressed := Default(input.maxDecompressedBytes, MAX_SERVER_PROOF_DECOMPRESSED_BYTES);
    if input.manifest.cube != input.expectedCube {
      return InvalidProof;
    }
    if input.manifest.compressedBytes > maxCompressed || input.manifest.decompressedBytes > maxDecompressed {
      return OwnerCheckRequired;
    }
    var compressed := CollectBounded(input.proof, maxCompressed);
    if compressed.None? {
      return ProofTimeout;
    }
    if |compressed.value| != input.manifest.compressedBytes || platform.sha256(compressed.value) != input.manifest.artifactSha256 {
      return InvalidProof;
    }
    var proof := CollectBounded(platform.gunzip(compressed.value), maxDecompressed);
    if proof.None? || |proof.value| != input.manifest.decompressedBytes {
      return InvalidProof;
    }
    var formula := ReadFormula(platform, input.formula, input.manifest.formulaHash);
    if formula.None? {
      return BadFormula;
    }
    if input.manifest.originalClauseCount != |formula.value.clauses| ||
       !ClauseIdsBound(input.manifest.cubeClauseIds, |formula.value.clauses|) {
      return InvalidProof;
    }
    var outcome := VerifyTextLrat(WithUnits(formula.value.clauses, input.expectedCube), platform.decodeText(proof.value),
                                  ProofLimits(input), platform.numerals);
    return Assess(outcome);
  }

  /** VALID_UNSAT is true of the published formula and the expected cube, whatever was streamed. */
  lemma ValidUnsatIsTrue(platform: Platform, input: UnsatInput, published: Bytes)
    requires NoCollision(platform, published) && input.manifest.formulaHash == platform.sha256(published)
    requires VerifyUnsat(platform, input).ValidUnsat?
    ensures Decode(published).Ok? && !SatisfiableIn(Decode(published).value.clauses, input.expectedCube)
  {
    var maxCompressed := Default(input.maxCompressedBytes, MAX_SERVER_PROOF_COMPRESSED_BYTES);
    var maxDecompressed := Default(input.maxDecompressedBytes, MAX_SERVER_PROOF_DECOMPRESSED_BYTES);
    var proof := Collect(platform.gunzip(Collect(input.proof, maxCompressed).value), maxDecompressed).value;
    var formula := LoadFormula(platform, input.formula, input.manifest.formulaHash).value;
    LoadedIsPublished(platform, input.formula, published);
    AcceptedProofRefutesCube(formula.clauses, input.expectedCube, platform.decodeText(proof), ProofLimits(input), platform.numerals);
  }

  // ----- the verifier object and its stored answers -----

  /** The fields a stored answer is filed under; the streams are not among them. */
  datatype SatKey = SatKey(
    artifactSha256: string, formulaHash: string, taskId: string, pathHash: string, expectedCube: Cube,
    expectedVariableCount: int, maxLiteralChecks: Option<int>)

  datatype UnsatKey = UnsatKey(
    artifactSha256: string, formulaHash: string, taskId: string, pathHash: string, expectedCube: Cube,
    maxCompressedBytes: Option<nat>, maxDecompressedBytes: Option<nat>, maxDerivedClauses: Option<nat>, maxHints: Option<nat>)

  function KeyOfSat(input: SatInput): SatKey {
    SatKey(input.manifest.artifactSha256, input.manifest.formulaHash, input.manifest.taskId, input.manifest.pathHash,
           input.expectedCube, input.expectedVariableCount, input.maxLiteralChecks)
  }

  function KeyOfUnsat(input: UnsatInput): UnsatKey {
    UnsatKey(input.manifest.artifactSha256, input.manifest.formulaHash, input.manifest.taskId, input.manifest.pathHash,
             input.expectedCube, input.maxCompressedBytes, input.maxDecompressedBytes, input.maxDerivedClauses, input.maxHints)
  }

  /** Some streams under this key really were given this answer. */
  ghost predicate SatAnswered(platform: Platform, key: SatKey, answer: SatStatus) {
    exists input: SatInput :: KeyOfSat(input) == key && VerifySat(platform, input) == answer
  }

  ghost predicate UnsatAnswered(platform: Platform, key: UnsatKey, answer: UnsatStatus) {
    exists input: UnsatInput :: KeyOfUnsat(input) == key && VerifyUnsat(platform, input) == answer
  }

  class ResultVerifierObject {
    const platform: Platform
    var satInFlight: map<SatKey, SatStatus>
    var unsatInFlight: map<UnsatKey, UnsatStatus>
    var satStored: map<SatKey, SatStatus>
    var unsatStored: map<UnsatKey, UnsatStatus>

    /** Every answer held was once computed under its key. */
    ghost predicate Valid()
      reads this
    {
      && (forall k :: k in satInFlight ==> SatAnswered(platform, k, satInFlight[k]))
      && (forall k :: k in satStored ==> SatAnswered(platform, k, satStored[k]))
      && (forall k :: k in unsatInFlight ==> UnsatAnswered(platform, k, unsatInFlight[k]))
      && (forall k :: k in unsatStored ==> UnsatAnswered(platform, k, unsatStored[k]))
    }

    constructor (platform: Platform)
      ensures Valid() && this.platform == platform
    {
      this.platform := platform;
      satInFlight, unsatInFlight, satStored, unsatStored := map[], map[], map[], map[];
    }

    /** The first answer under a key is final: it is computed once and repeated for other streams. */
    method Sat(input: SatInput) returns (answer: SatStatus)
      requires Valid()
      modifies this
      ensures Valid() && SatAnswered(platform, KeyOfSat(input), answer)
      ensures answer ==
        if KeyOfSat(input) in old(satInFlight) then old(satInFlight)[KeyOfSat(input)]
        else if KeyOfSat(input) in old(satStored) then old(satStored)[KeyOfSat(input)]
        else VerifySat(platform, input)
      ensures satStored ==
        if KeyOfSat(input) in old(satInFlight) || KeyOfSat(input) in old(satStored) || answer == Threw then old(satStored)
        else old(satStored)[KeyOfSat(input) := answer]
      ensures unsatInFlight == old(unsatInFlight) && unsatStored == old(unsatStored)
      ensures satInFlight == old(satInFlight)[KeyOfSat(input) := answer]
    {
      var key := KeyOfSat(input);
      if key in satInFlight {
        return satInFlight[key];
      }
      if key in satStored {
        answer := satStored[key];
      } else {
        answer := VerifySatOnce(platform, input);
        if answer != Threw {
          satStored := satStored[key := answer];
        }
      }
      assert SatAnswered(platform, key, answer);
      satInFlight := satInFlight[key := answer];
    }

    method Unsat(input: UnsatInput) returns (answer: UnsatStatus)
      requires Valid()
      modifies this
      ensures Valid() && UnsatAnswered(platform, KeyOfUnsat(input), answer)
      ensures answer ==
        if KeyOfUnsat(input) in old(unsatInFlight) then old(unsatInFlight)[KeyOfUnsat(input)]
        else if KeyOfUnsat(input) in old(unsatStored) then old(unsatStored)[KeyOfUnsat(input)]
        else VerifyUnsat(platform, input)
      ensures unsatStored ==
        if KeyOfUnsat(input) in old(unsatInFlight) || KeyOfUnsat(input) in old(unsatStored) then old(unsatStored)
        else old(unsatStored)[KeyOfUnsat(input) := answer]
      ensures satInFlight == old(satInFlight) && satStored == old(satStored)
      ensures unsatInFlight == old(unsatInFlight)[KeyOfUnsat(input) := answer]
    {
      var key := KeyOfUnsat(input);
      if key in unsatInFlight {
        return unsatInFlight[key];
      }
      if key in unsatStored {
        answer := unsatStored[key];
      } else {
        answer := VerifyUnsatOnce(platform, input);
        unsatStored := unsatStored[key := answer];
      }
      assert UnsatAnswered(platform, key, answer);
      unsatInFlight := unsatInFlight[key := answer];
    }

    /** The platform may restart the object; only storage survives. */
    method Evict()
      requires Valid()
      modifies this
      ensures Valid() && satInFlight == map[] && unsatInFlight == map[]
      ensures satStored == old(satStored) && unsatStored == old(unsatStored)
    {
      satInFlight, unsatInFlight := map[], map[];
    }
  }

  /** A positive answer given under a key is true, even when it was computed for other streams. */
  lemma AnswersAreTrue(platform: Platform, published: Bytes, satKey: SatKey, sat: SatStatus, unsatKey: UnsatKey, unsat: UnsatStatus)
    requires NoCollision(platform, published)
    ensures SatAnswered(platform, satKey, sat) && sat.ValidSat? && satKey.formulaHash == platform.sha256(published) ==>
      Decode(published).Ok? && SatisfiableIn(Decode(published).value.clauses, satKey.expectedCube)
    ensures UnsatAnswered(platform, unsatKey, unsat) && unsat.ValidUnsat? && unsatKey.formulaHash == platform.sha256(published) ==>
      Decode(published).Ok? && !SatisfiableIn(Decode(published).value.clauses, unsatKey.expectedCube)
  {
    if SatAnswered(platform, satKey, sat) && sat.ValidSat? && satKey.formulaHash == platform.sha256(published) {
      var input: SatInput :| KeyOfSat(input) == satKey && VerifySat(platform, input) == sat;
      ValidSatIsTrue(platform, input, published);
    }
    if UnsatAnswered(platform, unsatKey, unsat) && unsat.ValidUnsat? && unsatKey.formulaHash == platform.sha256(published) {
      var input: UnsatInput :| KeyOfUnsat(input) == unsatKey && VerifyUnsat(platform, input) == unsat;
      ValidUnsatIsTrue(platform, input, published);
    }
  }
}
