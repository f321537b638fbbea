/**
 The browser's own check of a model reported by the solver.
 */
module SatModel {
  import opened Wrappers
  import opened Cnf
  import opened HiveCnf
  import opened Seqs

  // ----- checking a solver model -----

  datatype ModelReason =
    | TooManyVariables | TooManyClausesInFormula | InvalidModelLiteral | Conflicting(variable: int) | Unassigned(variable: int)
    | TooManyOccurrences | InvalidFormulaLiteral | Unsatisfied(clauseIndex: nat)

  datatype ModelVerification = Accepted(assignment: seq<bool>) | Refused(reason: ModelReason)

  predicate ModelLiteralsValid(model: seq<int>, variableCount: int) {
    forall i :: 0 <= i < |model| ==> InRange(model[i], variableCount)
  }

  predicate Consistent(model: seq<int>) {
    forall i, j :: 0 <= i < |model| && 0 <= j < |model| ==> model[i] != -model[j]
  }

  predicate Total(model: seq<int>, variableCount: int) {
    forall v :: 1 <= v <= variableCount ==> v in model || -v in model
  }

  predicate SatisfiedBy(c: Clause, model: seq<int>) {
    exists l :: l in c && l in model
  }

  /** The models worth uploading, with no reference to how they are checked. */
  predicate GoodModel(variableCount: int, clauses: Formula, model: seq<int>) {
    && 0 <= variableCount <= MAX_VARIABLES && |clauses| <= MAX_CLAUSES && LiteralTotal(clauses) <= MAX_LITERAL_OCCURRENCES
    && ModelLiteralsValid(model, variableCount) && Consistent(model) && Total(model, variableCount)
    && ClausesInRange(clauses, variableCount)
    && (forall k :: 0 <= k < |clauses| ==> SatisfiedBy(clauses[k], model))
  }

  /** Slot `v` of the table is the polarity the model gives variable `v`, 0 if none. */
  ghost predicate Tabulates(table: seq<int>, model: seq<int>, variableCount: int) {
    |table| == variableCount + 1 &&
    forall v :: 1 <= v <= variableCount ==>
      (table[v] == 1 <==> v in model) && (table[v] == -1 <==> -v in model) && -1 <= table[v] <= 1
  }

  lemma TabulatesOneMore(table: seq<int>, model: seq<int>, literal: int, variableCount: int)
    requires Tabulates(table, model, variableCount) && InRange(literal, variableCount) && -literal !in model
    ensures Tabulates(table[Abs(literal) := if literal > 0 then 1 else -1], model + [literal], variableCount)
  {
  }

  /** The first literal is not one, or its variable is assigned both ways. */
  ghost predicate LiteralFault(model: seq<int>, variableCount: int, reason: ModelReason) {
    exists i: nat :: i < |model| && ModelLiteralsValid(model[..i], variableCount) && Consistent(model[..i]) &&
      if !InRange(model[i], variableCount) then reason == InvalidModelLiteral
      else reason == Conflicting(Abs(model[i])) && -model[i] in model[..i]
  }

  lemma ConflictIsFault(table: seq<int>, model: seq<int>, i: nat, variableCount: int)
    requires i < |model| && ModelLiteralsValid(model[..i], variableCount) && Consistent(model[..i])
    requires Tabulates(table, model[..i], variableCount) && InRange(model[i], variableCount)
    requires table[Abs(model[i])] == if model[i] > 0 then -1 else 1
    ensures !Consistent(model) && LiteralFault(model, variableCount, Conflicting(Abs(model[i])))
  {
    assert -model[i] in model[..i];
    var k :| 0 <= k < i && model[..i][k] == -model[i];
    assert model[i] == -model[k];
  }

  method FillAssignments(table: array<int>, model: seq<int>, variableCount: int) returns (error: Option<ModelReason>)
    requires variableCount >= 0 && table.Length == variableCount + 1
    requires forall v :: 0 <= v <= variableCount ==> table[v] == 0
    modifies table
    ensures error.None? <==> ModelLiteralsValid(model, variableCount) && Consistent(model)
    ensures error.None? ==> Tabulates(table[..], model, variableCount)
    ensures error.Some? ==> LiteralFault(model, variableCount, error.value)
  {
    for i := 0 to |model|
      invariant ModelLiteralsValid(model[..i], variableCount) && Consistent(model[..i])
      invariant Tabulates(table[..], model[..i], variableCount)
    {
      var literal := model[i];
      assert model[..i + 1] == model[..i] + [literal];
      if !InRange(literal, variableCount) {
        return Some(InvalidModelLiteral);
      }
      var variable, value := Abs(literal), if literal > 0 then 1 else -1;
      if table[variable] != 0 && table[variable] != value {
        ConflictIsFault(table[..], model, i, variableCount);
        return Some(Conflicting(variable));
      }
      assert -literal !in model[..i];
      TabulatesOneMore(table[..], model[..i], literal, variableCount);
      assert table[..][variable := value] == table[..variable] + [value] + table[variable + 1..];
      table[variable] := value;
      assert table[..] == table[..variable] + [value] + table[variable + 1..];
    }
    Whole(model);
    return None;
  }

  /** What is wrong with the first clause that does not pass. */
  ghost predicate ClauseFault(clauses: Formula, model: seq<int>, variableCount: int, reason: ModelReason) {
    exists k: nat :: k < |clauses| && ClausesInRange(clauses[..k], variableCount) && LiteralTotal(clauses[..k]) <= MAX_LITERAL_OCCURRENCES &&
      (forall j :: 0 <= j < k ==> SatisfiedBy(clauses[j], model)) &&
      match reason
      case Unsatisfied(n) => n == k && !SatisfiedBy(clauses[k], model)
      case InvalidFormulaLiteral => !ClauseInRange(clauses[k], variableCount)
      case TooManyOccurrences => LiteralTotal(clauses[..k + 1]) > MAX_LITERAL_OCCURRENCES
      case _ => false
  }

  /** The clause loop; it stops at the first fault. */
  method CheckClauses(table: array<int>, clauses: Formula, model: seq<int>, variableCount: int) returns (error: Option<ModelReason>)
    requires variableCount >= 0 && Tabulates(table[..], model, variableCount)
    ensures error.None? <==>
      && LiteralTotal(clauses) <= MAX_LITERAL_OCCURRENCES && ClausesInRange(clauses, variableCount)
      && (forall k :: 0 <= k < |clauses| ==> SatisfiedBy(clauses[k], model))
    ensures error.Some? ==> ClauseFault(clauses, model, variableCount, error.value)
  {
    var literalCount := 0;
    for k := 0 to |clauses|
      invariant literalCount == LiteralTotal(clauses[..k]) && literalCount <= MAX_LITERAL_OCCURRENCES
      invariant ClausesInRange(clauses[..k], variableCount)
      invariant forall j :: 0 <= j < k ==> SatisfiedBy(clauses[j], model)
    {
      var clause, satisfied := clauses[k], false;
      TakeTake(clauses, k);
      LiteralTotalMonotone(clauses, k + 1);
      for j := 0 to |clause|
        invariant literalCount == LiteralTotal(clauses[..k]) + j && literalCount <= MAX_LITERAL_OCCURRENCES
        invariant ClauseInRange(clause[..j], variableCount)
        invariant satisfied <==> SatisfiedBy(clause[..j], model)
      {
        var literal := clause[j];
        assert clause[..j + 1] == clause[..j] + [literal];
        literalCount := literalCount + 1;
        if literalCount > MAX_LITERAL_OCCURRENCES {
          return Some(TooManyOccurrences);
        }
        if !InRange(literal, variableCount) {
          assert !ClauseInRange(clause, variableCount);
          return Some(InvalidFormulaLiteral);
        }
        if table[Abs(literal)] == (if literal > 0 then 1 else -1) {
          assert literal in clause[..j + 1] && literal in model;
          satisfied := true;
        }
      }
      Whole(clause);
      if !satisfied {
        return Some(Unsatisfied(k));
      }
    }
    Whole(clauses);
    return None;
  }

  lemma LiteralTotalMonotone(clauses: Formula, k: nat)
    requires k <= |clauses|
    ensures LiteralTotal(clauses[..k]) <= LiteralTotal(clauses)
    decreases |clauses| - k
  {
    if k < |clauses| {
      TakeTake(clauses, k);
      LiteralTotalMonotone(clauses, k + 1);
    } else {
      assert clauses[..k] == clauses;
    }
  }

  /** The limits are tested first, then the literals of the model, its variables, and the clauses. */
  ghost predicate RefusedFor(variableCount: int, clauses: Formula, model: seq<int>, reason: ModelReason) {
    if !(0 <= variableCount <= MAX_VARIABLES) then reason == TooManyVariables
    else if |clauses| > MAX_CLAUSES then reason == TooManyClausesInFormula
    else if !(ModelLiteralsValid(model, variableCount) && Consistent(model)) then LiteralFault(model, variableCount, reason)
    else if !Total(model, variableCount) then
      reason.Unassigned? && 1 <= reason.variable <= variableCount && reason.variable !in model && -reason.variable !in model &&
      Total(model, reason.variable - 1)
    else ClauseFault(clauses, model, variableCount, reason)
  }

  method VerifySatModel(variableCount: int, clauses: Formula, model: seq<int>) returns (r: ModelVerification)
    ensures r.Accepted? <==> GoodModel(variableCount, clauses, model)
    ensures r.Accepted? ==> |r.assignment| == variableCount && forall v :: 1 <= v <= variableCount ==> (r.assignment[v - 1] <==> v in model)
    ensures r.Refused? ==> RefusedFor(variableCount, clauses, model, r.reason)
  {
    if !(0 <= variableCount <= MAX_VARIABLES) {
      return Refused(TooManyVariables);
    }
    if |clauses| > MAX_CLAUSES {
      return Refused(TooManyClausesInFormula);
    }
    var table := new int[variableCount + 1](_ => 0);
    var error := FillAssignments(table, model, variableCount);
    if error.Some? {
      return Refused(error.value);
    }
    for v := 1 to variableCount + 1
      invariant forall w :: 1 <= w < v ==> w in model || -w in model
    {
      if table[v] == 0 {
        assert table[..][v] == 0;
        assert v !in model && -v !in model;
        return Refused(ModelReason.Unassigned(v));
      }
      assert table[..][v] == table[v];
    }
    error := CheckClauses(table, clauses, model, variableCount);
    if error.Some? {
      return Refused(error.value);
    }
    var assignment := seq(variableCount, i requires 0 <= i < variableCount reads table => table[i + 1] == 1);
    assert forall v :: 1 <= v <= variableCount ==> table[..][v] == table[v];
    return Accepted(assignment);
  }

  /** An accepted model is a satisfying assignment of the formula. */
  lemma GoodModelSatisfies(variableCount: int, clauses: Formula, model: seq<int>, cube: Cube)
    requires GoodModel(variableCount, clauses, model) && (forall l :: l in cube ==> l in model)
    ensures SatisfiableIn(clauses, cube)
  {
    var a: Assignment := iset v | v in model && v > 0;
    forall l | l in model ensures LiteralHolds(a, l) {
      assert InRange(l, variableCount) && -l !in model;
    }
    forall c | c in clauses ensures ClauseHolds(a, c) {
      var k :| 0 <= k < |clauses| && clauses[k] == c;
      assert SatisfiedBy(clauses[k], model);
    }
    assert Model(a, clauses, cube);
  }
}
