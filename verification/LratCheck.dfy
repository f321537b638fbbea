/** Text-LRAT checking: reverse unit propagation over numbered clauses, read line by line. */
module LratCheck {
  import opened Wrappers
  import opened Cnf
  import opened Seqs

  type PartialAssignment = map<int, bool>
  type LiveClauses = map<int, Clause>

  /**
   The value of a numeral when it is a safe integer.  The reading of numerals is the platform's;
   every result here holds for any reading.
   */
  type Numerals = string -> Option<int>

  datatype Limits = Limits(maxProofBytes: nat, maxDerivedClauses: nat, maxHints: nat)

  datatype Reason =
    | ProofTooLong | InvalidId(line: nat) | InvalidDeletion(line: nat) | MalformedAddition(line: nat)
    | InvalidInteger(line: nat) | RatHints | OperationLimit | InvalidChain(line: nat) | NoEmptyClause

  datatype Outcome =
    | Valid(derivedClauses: nat, checkedHints: nat)
    | Rejected(reason: Reason, derivedClauses: nat, checkedHints: nat)
  {
    predicate LimitExceeded() {
      Rejected? && (reason.ProofTooLong? || reason.OperationLimit?)
    }

    predicate RequiresFullChecker() {
      Rejected? && reason.RatHints?
    }
  }

  // ----- unit propagation -----

  function LiteralValue(l: Literal, m: PartialAssignment): Option<bool> {
    if Abs(l) in m then Some((l > 0) == m[Abs(l)]) else None
  }

  function Assign(l: Literal, m: PartialAssignment): Option<PartialAssignment> {
    if Abs(l) in m && m[Abs(l)] != (l > 0) then None else Some(m[Abs(l) := l > 0])
  }

  /** The assignment that falsifies a clause, or `None` when the clause contains complements. */
  function Falsify(clause: Clause, m: PartialAssignment): Option<PartialAssignment>
    decreases |clause|
  {
    if clause == [] then Some(m) else
      match Assign(-clause[0], m)
      case None => None
      case Some(m') => Falsify(clause[1..], m')
  }

  function Unassigned(clause: Clause, m: PartialAssignment): Clause
    decreases |clause|
  {
    if clause == [] then [] else
      var rest := Unassigned(clause[1..], m);
      if LiteralValue(clause[0], m).None? then [clause[0]] + rest else rest
  }

  predicate SomeTrue(clause: Clause, m: PartialAssignment) {
    exists l :: l in clause && LiteralValue(l, m) == Some(true)
  }

  /** Each hint is unit and extends the assignment; the last one is falsified. */
  predicate Propagates(hints: seq<int>, clauses: LiveClauses, m: PartialAssignment)
    decreases |hints|
  {
    hints != [] && hints[0] > 0 && hints[0] in clauses && !SomeTrue(clauses[hints[0]], m) &&
    var unassigned := Unassigned(clauses[hints[0]], m);
    unassigned == [] ||
    (|unassigned| == 1 && Assign(unassigned[0], m).Some? &&
     Propagates(hints[1..], clauses, Assign(unassigned[0], m).value))
  }

  predicate RupChain(clause: Clause, hints: seq<int>, clauses: LiveClauses) {
    match Falsify(clause, map[])
    case None => true
    case Some(m) => Propagates(hints, clauses, m)
  }

  method CheckRupChain(clause: Clause, hints: seq<int>, clauses: LiveClauses) returns (ok: bool)
    ensures ok == RupChain(clause, hints, clauses)
  {
    var assignment: PartialAssignment := map[];
    for i := 0 to |clause|
      invariant Falsify(clause, map[]) == Falsify(clause[i..], assignment)
    {
      var next := Assign(-clause[i], assignment);
      if next.None? {
        return true;
      }
      assignment := next.value;
    }
    assert clause[|clause|..] == [];
    ghost var falsified := assignment;
    for i := 0 to |hints|
      invariant Propagates(hints, clauses, falsified) == Propagates(hints[i..], clauses, assignment)
    {
      if hints[i] <= 0 || hints[i] !in clauses {
        return false;
      }
      var antecedent := clauses[hints[i]];
      var unassigned := Unassigned(antecedent, assignment);
      if exists l :: l in antecedent && LiteralValue(l, assignment) == Some(true) {
        return false;
      }
      if |unassigned| == 0 {
        return true;
      }
      if |unassigned| != 1 {
        return false;
      }
      var next := Assign(unassigned[0], assignment);
      if next.None? {
        return false;
      }
      assignment := next.value;
    }
    return false;
  }

  // ----- soundness of one chain -----

  ghost predicate Agrees(a: Assignment, m: PartialAssignment) {
    forall v :: v in m ==> (v in a <==> m[v])
  }

  ghost predicate LiveHolds(a: Assignment, clauses: LiveClauses) {
    forall id :: id in clauses ==> ClauseHolds(a, clauses[id])
  }

  lemma ValueIsTruth(a: Assignment, m: PartialAssignment, l: Literal)
    requires Agrees(a, m) && LiteralValue(l, m).Some?
    ensures LiteralValue(l, m).value == LiteralHolds(a, l)
  {
  }

  lemma AssignAgrees(a: Assignment, m: PartialAssignment, l: Literal)
    requires Agrees(a, m) && LiteralHolds(a, l)
    ensures Assign(l, m).Some? && Agrees(a, Assign(l, m).value)
  {
  }

  lemma {:induction false} FalsifyAgrees(a: Assignment, clause: Clause, m: PartialAssignment)
    requires Agrees(a, m) && (forall l :: l in clause ==> l != 0 && !LiteralHolds(a, l))
    ensures Falsify(clause, m).Some? && Agrees(a, Falsify(clause, m).value)
    decreases |clause|
  {
    if clause != [] {
      assert clause[0] in clause && forall l :: l in clause[1..] ==> l in clause;
      ComplementsPartition(a, clause[0]);
      AssignAgrees(a, m, -clause[0]);
      FalsifyAgrees(a, clause[1..], Assign(-clause[0], m).value);
    }
  }

  lemma {:induction false} UnassignedMembers(clause: Clause, m: PartialAssignment, l: Literal)
    requires l in clause
    ensures LiteralValue(l, m).Some? || l in Unassigned(clause, m)
    decreases |clause|
  {
    if l != clause[0] {
      UnassignedMembers(clause[1..], m, l);
    }
  }

  /** No assignment satisfies the live clauses and extends the assignment a chain starts from. */
  lemma {:induction false} PropagationRefutes(a: Assignment, hints: seq<int>, clauses: LiveClauses, m: PartialAssignment)
    requires LiveHolds(a, clauses) && Propagates(hints, clauses, m)
    ensures !Agrees(a, m)
    decreases |hints|
  {
    if Agrees(a, m) {
      var antecedent := clauses[hints[0]];
      assert ClauseHolds(a, antecedent);
      var l :| l in antecedent && LiteralHolds(a, l);
      if LiteralValue(l, m).Some? {
        ValueIsTruth(a, m, l);
        assert SomeTrue(antecedent, m);
      } else {
        UnassignedMembers(antecedent, m, l);
        AssignAgrees(a, m, l);
        PropagationRefutes(a, hints[1..], clauses, Assign(l, m).value);
      }
    }
  }

  /** A successful chain implies its clause. */
  lemma ChainIsSound(a: Assignment, clause: Clause, hints: seq<int>, clauses: LiveClauses)
    requires LiveHolds(a, clauses) && RupChain(clause, hints, clauses) && 0 !in clause
    ensures ClauseHolds(a, clause)
  {
    if !ClauseHolds(a, clause) {
      FalsifyAgrees(a, clause, map[]);
      PropagationRefutes(a, hints, clauses, Falsify(clause, map[]).value);
    }
  }

  // ----- what a chain accepts, said without following it -----

  function Extend(m: PartialAssignment, units: seq<Literal>): PartialAssignment
    decreases |units|
  {
    if units == [] then m else Extend(m[Abs(units[0]) := units[0] > 0], units[1..])
  }

  /** Exactly one literal occurrence is open, and all others are false. */
  ghost predicate UnitUnder(clause: Clause, m: PartialAssignment, l: Literal) {
    exists i :: 0 <= i < |clause| && clause[i] == l && LiteralValue(l, m).None? &&
      forall j :: 0 <= j < |clause| && j != i ==> LiteralValue(clause[j], m) == Some(false)
  }

  ghost predicate FalseUnder(clause: Clause, m: PartialAssignment) {
    forall j :: 0 <= j < |clause| ==> LiteralValue(clause[j], m) == Some(false)
  }

  /** Forced literals, one per hint, that end in a falsified clause. */
  ghost predicate Certificate(hints: seq<int>, clauses: LiveClauses, m: PartialAssignment, units: seq<Literal>) {
    && |units| < |hints|
    && (forall i :: 0 <= i <= |units| ==> hints[i] > 0 && hints[i] in clauses)
    && (forall i :: 0 <= i < |units| ==> UnitUnder(clauses[hints[i]], Extend(m, units[..i]), units[i]))
    && FalseUnder(clauses[hints[|units|]], Extend(m, units))
  }

  lemma {:induction false} UnassignedExactly(clause: Clause, m: PartialAssignment)
    ensures !SomeTrue(clause, m) && Unassigned(clause, m) == [] <==> FalseUnder(clause, m)
    ensures forall l :: !SomeTrue(clause, m) && Unassigned(clause, m) == [l] <==> UnitUnder(clause, m, l)
    decreases |clause|
  {
    if clause != [] {
      var rest := clause[1..];
      UnassignedExactly(rest, m);
      assert SomeTrue(clause, m) <==> LiteralValue(clause[0], m) == Some(true) || SomeTrue(rest, m) by {
        assert forall l :: l in clause <==> l == clause[0] || l in rest;
      }
      assert FalseUnder(clause, m) <==> LiteralValue(clause[0], m) == Some(false) && FalseUnder(rest, m) by {
        assert forall j :: 0 <= j < |rest| ==> clause[j + 1] == rest[j];
      }
      forall l ensures !SomeTrue(clause, m) && Unassigned(clause, m) == [l] <==> UnitUnder(clause, m, l) {
        UnitUnderCons(clause, m, l);
        var tail := Unassigned(rest, m);
        assert [clause[0]] + tail == [l] <==> clause[0] == l && tail == [] by {
          if [clause[0]] + tail == [l] {
            assert ([clause[0]] + tail)[0] == l && |tail| == 0;
          }
        }
      }
    }
  }

  lemma UnitUnderCons(clause: Clause, m: PartialAssignment, l: Literal)
    requires clause != []
    ensures UnitUnder(clause, m, l) <==>
      (clause[0] == l && LiteralValue(l, m).None? && FalseUnder(clause[1..], m)) ||
      (LiteralValue(clause[0], m) == Some(false) && UnitUnder(clause[1..], m, l))
  {
    var rest := clause[1..];
    assert forall j :: 0 <= j < |rest| ==> clause[j + 1] == rest[j];
    if UnitUnder(clause, m, l) {
      var i :| 0 <= i < |clause| && clause[i] == l && LiteralValue(l, m).None? &&
        forall j :: 0 <= j < |clause| && j != i ==> LiteralValue(clause[j], m) == Some(false);
      if i > 0 {
        assert rest[i - 1] == l;
      }
    }
    if LiteralValue(clause[0], m) == Some(false) && UnitUnder(rest, m, l) {
      var i :| 0 <= i < |rest| && rest[i] == l && LiteralValue(l, m).None? &&
        forall j :: 0 <= j < |rest| && j != i ==> LiteralValue(rest[j], m) == Some(false);
      assert clause[i + 1] == l;
      forall j | 0 <= j < |clause| && j != i + 1 ensures LiteralValue(clause[j], m) == Some(false) {
        assert j > 0 ==> clause[j] == rest[j - 1];
      }
    }
  }

  /** A chain propagates exactly when such forced literals exist. */
  lemma PropagatesExactly(hints: seq<int>, clauses: LiveClauses, m: PartialAssignment)
    ensures Propagates(hints, clauses, m) <==> exists units :: Certificate(hints, clauses, m, units)
  {
    if Propagates(hints, clauses, m) {
      PropagationIsCertified(hints, clauses, m);
    }
    forall units | Certificate(hints, clauses, m, units) ensures Propagates(hints, clauses, m) {
      CertificateSuffices(hints, clauses, m, units);
    }
  }

  lemma {:induction false} PropagationIsCertified(hints: seq<int>, clauses: LiveClauses, m: PartialAssignment)
    requires Propagates(hints, clauses, m)
    ensures exists units :: Certificate(hints, clauses, m, units)
    decreases |hints|
  {
    if hints != [] && hints[0] > 0 && hints[0] in clauses {
      var clause := clauses[hints[0]];
      UnassignedExactly(clause, m);
      if FalseUnder(clause, m) {
        assert Certificate(hints, clauses, m, []);
      }
      var open := Unassigned(clause, m);
      if !SomeTrue(clause, m) && |open| == 1 {
        var l := open[0];
        assert open == [l] && UnitUnder(clause, m, l);
        var rest, m' := hints[1..], m[Abs(l) := l > 0];
        if open != [] && !FalseUnder(clause, m) {
          PropagationIsCertified(rest, clauses, m');
          var units :| Certificate(rest, clauses, m', units);
          CertificateCons(hints, clauses, m, l, units);
        }
      }
    }
  }

  lemma {:induction false} CertificateSuffices(hints: seq<int>, clauses: LiveClauses, m: PartialAssignment, units: seq<Literal>)
    requires Certificate(hints, clauses, m, units)
    ensures Propagates(hints, clauses, m)
    decreases |hints|
  {
    UnassignedExactly(clauses[hints[0]], m);
    CertificateHead(hints, clauses, m, units);
    if units != [] {
      var l := units[0];
      assert Certificate(hints[1..], clauses, m[Abs(l) := l > 0], units[1..]);
      CertificateSuffices(hints[1..], clauses, m[Abs(l) := l > 0], units[1..]);
    }
  }

  lemma CertificateCons(hints: seq<int>, clauses: LiveClauses, m: PartialAssignment, l: Literal, units: seq<Literal>)
    requires hints != [] && hints[0] > 0 && hints[0] in clauses && UnitUnder(clauses[hints[0]], m, l)
    requires Certificate(hints[1..], clauses, m[Abs(l) := l > 0], units)
    ensures Certificate(hints, clauses, m, [l] + units)
  {
    var all := [l] + units;
    forall i | 0 <= i < |all| ensures UnitUnder(clauses[hints[i]], Extend(m, all[..i]), all[i]) {
      if i > 0 {
        assert all[..i][1..] == units[..i - 1];
        assert hints[i] == hints[1..][i - 1];
      }
    }
    forall i | 0 <= i <= |all| ensures hints[i] > 0 && hints[i] in clauses {
      assert i > 0 ==> hints[i] == hints[1..][i - 1];
    }
    assert all[1..] == units;
  }

  lemma CertificateHead(hints: seq<int>, clauses: LiveClauses, m: PartialAssignment, units: seq<Literal>)
    requires Certificate(hints, clauses, m, units)
    ensures hints != [] && hints[0] > 0 && hints[0] in clauses
    ensures units == [] ==> !SomeTrue(clauses[hints[0]], m) && Unassigned(clauses[hints[0]], m) == []
    ensures units != [] ==>
      && !SomeTrue(clauses[hints[0]], m) && Unassigned(clauses[hints[0]], m) == [units[0]]
      && Certificate(hints[1..], clauses, m[Abs(units[0]) := units[0] > 0], units[1..])
  {
    UnassignedExactly(clauses[hints[0]], m);
    if units != [] {
      assert units[..0] == [];
      assert UnitUnder(clauses[hints[0]], Extend(m, []), units[0]);
      var m', rest := m[Abs(units[0]) := units[0] > 0], units[1..];
      forall i | 0 <= i < |rest| ensures UnitUnder(clauses[hints[1..][i]], Extend(m', rest[..i]), rest[i]) {
        assert units[..i + 1][1..] == rest[..i];
        assert UnitUnder(clauses[hints[i + 1]], Extend(m, units[..i + 1]), units[i + 1]);
      }
    }
  }

  // ----- lines and tokens -----

  predicate IsSpace(c: char) {
    '\t' <= c <= '\r' || c == ' ' || c == '\U{00a0}' || c == '\U{1680}' || '\U{2000}' <= c <= '\U{200a}' ||
    c == '\U{2028}' || c == '\U{2029}' || c == '\U{202f}' || c == '\U{205f}' || c == '\U{3000}' || c == '\U{feff}'
  }

  function Utf8Bytes(s: string): nat {
    if s == "" then 0 else
      (if s[0] < '\U{80}' then 1 else if s[0] < '\U{800}' then 2 else if s[0] < '\U{10000}' then 3 else 4) + Utf8Bytes(s[1..])
  }

  function DropReturn(s: string): string {
    if s != "" && s[|s| - 1] == '\r' then s[..|s| - 1] else s
  }

  /** The parts of a text between line feeds; a carriage return before a line feed belongs to it. */
  function Lines(s: string, start: nat, i: nat): seq<string>
    requires start <= i <= |s|
    decreases |s| - i
  {
    if i == |s| then [s[start..]]
    else if s[i] == '\n' then [DropReturn(s[start..i])] + Lines(s, i + 1, i + 1)
    else Lines(s, start, i + 1)
  }

  function TrimLeft(s: string): string {
    if s != "" && IsSpace(s[0]) then TrimLeft(s[1..]) else s
  }

  function TrimRight(s: string): string {
    if s != "" && IsSpace(s[|s| - 1]) then TrimRight(s[..|s| - 1]) else s
  }

  function Trim(s: string): string {
    TrimRight(TrimLeft(s))
  }

  /** Maximal runs of non-space characters. */
  function Words(s: string, start: nat, i: nat): seq<string>
    requires start <= i <= |s|
    decreases |s| - i
  {
    var word := if start < i then [s[start..i]] else [];
    if i == |s| then word
    else if IsSpace(s[i]) then word + Words(s, i + 1, i + 1)
    else Words(s, start, i + 1)
  }

  function Find(tokens: seq<string>, t: string): (k: nat)
    ensures k <= |tokens| && (k < |tokens| ==> tokens[k] == t) && t !in tokens[..k]
  {
    if tokens == [] || tokens[0] == t then 0 else 1 + Find(tokens[1..], t)
  }

  function FindLast(tokens: seq<string>, t: string): (k: int)
    ensures -1 <= k < |tokens| && (k >= 0 ==> tokens[k] == t) && t !in tokens[k + 1..]
  {
    if tokens == [] then -1
    else if tokens[|tokens| - 1] == t then |tokens| - 1
    else FindLast(tokens[..|tokens| - 1], t)
  }

  function Numbers(tokens: seq<string>, num: Numerals): Option<seq<int>> {
    if tokens == [] then Some([]) else
      match (num(tokens[0]), Numbers(tokens[1..], num))
      case (Some(n), Some(rest)) => Some([n] + rest)
      case _ => None
  }

  // ----- the checker as a fold over lines -----

  datatype State = State(clauses: LiveClauses, derived: nat, hints: nat, reachedEmpty: bool)

  datatype Command = Skip | Bad(reason: Reason) | Delete(tokens: seq<string>) | Add(id: int, clause: Clause, hints: seq<int>)

  /** What one line asks for. */
  function ReadLine(source: string, line: nat, num: Numerals): Command {
    var text := Trim(source);
    if text == "" || "c " <= text then Skip else
      var all := Words(text, 0, 0);
      if all == [] || num(all[0]).None? || num(all[0]).value <= 0 then Bad(InvalidId(line))
      else if |all| > 1 && all[1] == "d" then Delete(all[2..])
      else
        var tokens := all[1..];
        var firstZero, lastZero := Find(tokens, "0"), FindLast(tokens, "0");
        if firstZero == |tokens| || lastZero <= firstZero then Bad(MalformedAddition(line)) else
          var clause, hints := Numbers(tokens[..firstZero], num), Numbers(tokens[firstZero + 1..lastZero], num);
          if clause.None? || 0 in clause.value || hints.None? then Bad(InvalidInteger(line))
          else if exists h :: h in hints.value && h < 0 then Bad(RatHints)
          else Add(num(all[0]).value, clause.value, hints.value)
  }

  function DeleteClauses(clauses: LiveClauses, tokens: seq<string>, num: Numerals): Option<LiveClauses> {
    if tokens == [] then Some(clauses) else
      match num(tokens[0])
      case None => None
      case Some(id) =>
        if id == 0 then Some(clauses) else if id < 1 then None
        else DeleteClauses(clauses - {id}, tokens[1..], num)
  }

  function Obey(s: State, command: Command, line: nat, limits: Limits, num: Numerals): Result<State, Outcome> {
    match command
    case Skip => Ok(s)
    case Bad(reason) => Err(Rejected(reason, s.derived, s.hints))
    case Delete(tokens) =>
      (match DeleteClauses(s.clauses, tokens, num)
       case None => Err(Rejected(InvalidDeletion(line), s.derived, s.hints))
       case Some(clauses) => Ok(s.(clauses := clauses)))
    case Add(id, clause, hints) =>
      var derived, checked := s.derived + 1, s.hints + |hints|;
      if derived > limits.maxDerivedClauses || checked > limits.maxHints then Err(Rejected(OperationLimit, derived, checked))
      else if !RupChain(clause, hints, s.clauses) then Err(Rejected(InvalidChain(line), derived, checked))
      else Ok(State(s.clauses[id := clause], derived, checked, s.reachedEmpty || clause == []))
  }

  function Fold(s: State, lines: seq<string>, line: nat, limits: Limits, num: Numerals): Outcome
    decreases |lines|
  {
    if lines == [] then
      if s.reachedEmpty then Valid(s.derived, s.hints) else Rejected(NoEmptyClause, s.derived, s.hints)
    else
      match Obey(s, ReadLine(lines[0], line, num), line, limits, num)
      case Err(outcome) => outcome
      case Ok(s') => Fold(s', lines[1..], line + 1, limits, num)
  }

  /** Original clauses carry the numbers 1, 2, and so on. */
  function Numbered(f: Formula): LiveClauses {
    if f == [] then map[] else Numbered(f[..|f| - 1])[|f| := f[|f| - 1]]
  }

  lemma {:induction false} NumberedClauses(f: Formula, id: int)
    ensures id in Numbered(f) <==> 1 <= id <= |f|
    ensures id in Numbered(f) ==> Numbered(f)[id] == f[id - 1]
  {
    if f != [] {
      NumberedClauses(f[..|f| - 1], id);
    }
  }

  function CheckProof(f: Formula, proof: string, limits: Limits, num: Numerals): Outcome {
    if Utf8Bytes(proof) > limits.maxProofBytes then Rejected(ProofTooLong, 0, 0)
    else Fold(State(Numbered(f), 0, 0, false), Lines(proof, 0, 0), 1, limits, num)
  }

  method NumberClauses(f: Formula) returns (clauses: LiveClauses)
    ensures clauses == Numbered(f)
  {
    clauses := map[];
    for i := 0 to |f|
      invariant clauses == Numbered(f[..i])
    {
      TakeTake(f, i);
      clauses := clauses[i + 1 := f[i]];
    }
    Whole(f);
  }

  method DeleteListed(clauses: LiveClauses, tokens: seq<string>, num: Numerals) returns (remaining: Option<LiveClauses>)
    ensures remaining == DeleteClauses(clauses, tokens, num)
  {
    var live := clauses;
    for k := 0 to |tokens|
      invariant DeleteClauses(clauses, tokens, num) == DeleteClauses(live, tokens[k..], num)
    {
      var id := num(tokens[k]);
      if id == Some(0) {
        return Some(live);
      }
      if id.None? || id.value < 1 {
        return None;
      }
      live := live - {id.value};
    }
    return Some(live);
  }

  method ObeyCommand(s: State, command: Command, line: nat, limits: Limits, num: Numerals) returns (r: Result<State, Outcome>)
    ensures r == Obey(s, command, line, limits, num)
  {
    match command {
      case Skip => return Ok(s);
      case Bad(reason) => return Err(Rejected(reason, s.derived, s.hints));
      case Delete(tokens) =>
        var remaining := DeleteListed(s.clauses, tokens, num);
        if remaining.None? {
          return Err(Rejected(InvalidDeletion(line), s.derived, s.hints));
        }
        return Ok(s.(clauses := remaining.value));
      case Add(id, clause, hints) =>
        var checkedHints := s.hints + |hints|;
        var derivedClauses := s.derived + 1;
        if derivedClauses > limits.maxDerivedClauses || checkedHints > limits.maxHints {
          return Err(Rejected(OperationLimit, derivedClauses, checkedHints));
        }
        var ok := CheckRupChain(clause, hints, s.clauses);
        if !ok {
          return Err(Rejected(InvalidChain(line), derivedClauses, checkedHints));
        }
        return Ok(State(s.clauses[id := clause], derivedClauses, checkedHints, s.reachedEmpty || clause == []));
    }
  }

  method VerifyTextLrat(f: Formula, proof: string, limits: Limits, num: Numerals) returns (outcome: Outcome)
    ensures outcome == CheckProof(f, proof, limits, num)
  {
    if Utf8Bytes(proof) > limits.maxProofBytes {
      return Rejected(ProofTooLong, 0, 0);
    }
    var clauses := NumberClauses(f);
    var s := State(clauses, 0, 0, false);
    var lines := Lines(proof, 0, 0);
    for i := 0 to |lines|
      invariant Fold(State(clauses, 0, 0, false), lines, 1, limits, num) == Fold(s, lines[i..], i + 1, limits, num)
    {
      var next := ObeyCommand(s, ReadLine(lines[i], i + 1, num), i + 1, limits, num);
      if next.Err? {
        return next.error;
      }
      s := next.value;
    }
    return if s.reachedEmpty then Valid(s.derived, s.hints) else Rejected(NoEmptyClause, s.derived, s.hints);
  }

  // ----- soundness of a proof -----

  /** Whatever satisfies the originals satisfies every live clause, and nothing does once the empty clause was derived. */
  ghost predicate Implied(f: Formula, s: State) {
    && (forall a: Assignment :: FormulaHolds(a, f) ==> LiveHolds(a, s.clauses))
    && (s.reachedEmpty ==> forall a: Assignment :: !FormulaHolds(a, f))
  }

  lemma {:induction false} DeletionShrinks(clauses: LiveClauses, tokens: seq<string>, num: Numerals)
    requires DeleteClauses(clauses, tokens, num).Some?
    ensures forall id :: id in DeleteClauses(clauses, tokens, num).value ==>
      id in clauses && DeleteClauses(clauses, tokens, num).value[id] == clauses[id]
    decreases |tokens|
  {
    if tokens != [] && num(tokens[0]).value != 0 {
      DeletionShrinks(clauses - {num(tokens[0]).value}, tokens[1..], num);
    }
  }

  lemma AdditionsHaveNoZero(source: string, line: nat, num: Numerals)
    requires ReadLine(source, line, num).Add?
    ensures 0 !in ReadLine(source, line, num).clause
  {
  }

  lemma ObeyKeepsImplied(f: Formula, s: State, source: string, line: nat, limits: Limits, num: Numerals)
    requires Implied(f, s) && Obey(s, ReadLine(source, line, num), line, limits, num).Ok?
    ensures Implied(f, Obey(s, ReadLine(source, line, num), line, limits, num).value)
  {
    var command := ReadLine(source, line, num);
    var s' := Obey(s, command, line, limits, num).value;
    match command
    case Delete(tokens) => DeletionShrinks(s.clauses, tokens, num);
    case Add(id, clause, hints) =>
      AdditionsHaveNoZero(source, line, num);
      forall a: Assignment | FormulaHolds(a, f)
        ensures ClauseHolds(a, clause)
      {
        ChainIsSound(a, clause, hints, s.clauses);
      }
    case _ =>
  }

  lemma {:induction false} FoldIsSound(f: Formula, s: State, lines: seq<string>, line: nat, limits: Limits, num: Numerals)
    requires Implied(f, s) && Fold(s, lines, line, limits, num).Valid?
    ensures forall a: Assignment :: !FormulaHolds(a, f)
    decreases |lines|
  {
    if lines != [] {
      ObeyKeepsImplied(f, s, lines[0], line, limits, num);
      FoldIsSound(f, Obey(s, ReadLine(lines[0], line, num), line, limits, num).value, lines[1..], line + 1, limits, num);
    }
  }

  /** An accepted proof refutes the input clauses, for any mix of additions, deletions and overwritten numbers. */
  lemma AcceptedProofRefutes(f: Formula, proof: string, limits: Limits, num: Numerals)
    requires CheckProof(f, proof, limits, num).Valid?
    ensures !Satisfiable(f)
  {
    var s := State(Numbered(f), 0, 0, false);
    forall a: Assignment | FormulaHolds(a, f)
      ensures LiveHolds(a, s.clauses)
    {
      forall id | id in s.clauses ensures ClauseHolds(a, s.clauses[id]) {
        NumberedClauses(f, id);
        assert f[id - 1] in f;
      }
    }
    FoldIsSound(f, s, Lines(proof, 0, 0), 1, limits, num);
  }

  /** Refuting the unit-extended clauses refutes the formula inside the cube. */
  lemma AcceptedProofRefutesCube(f: Formula, cube: Cube, proof: string, limits: Limits, num: Numerals)
    requires CheckProof(WithUnits(f, cube), proof, limits, num).Valid?
    ensures !SatisfiableIn(f, cube)
  {
    AcceptedProofRefutes(WithUnits(f, cube), proof, limits, num);
    forall a: Assignment ensures !Model(a, f, cube) {
      UnitsMeanCube(a, f, cube);
      assert !Model(a, WithUnits(f, cube), []);
    }
  }
}
