/**
 Which proofs the checker accepts, said without following it: the shape of every line, which clause
 is live under which number at which line, and what each addition must show.
 */
module LratAcceptance {
  import opened Wrappers
  import opened Cnf
  import opened Runs
  import opened LratCheck

  // ----- the text of a line -----

  /** The text without the spaces at its ends. */
  ghost predicate Trimmed(s: string, t: string) {
    exists p, q :: 0 <= p <= q <= |s| && t == s[p..q] && (forall k :: 0 <= k < p || q <= k < |s| ==> IsSpace(s[k])) &&
      (p < q ==> !IsSpace(s[p]) && !IsSpace(s[q - 1]))
  }

  lemma {:induction false} TrimLeftIs(s: string) returns (p: nat)
    ensures p <= |s| && TrimLeft(s) == s[p..] && (forall k :: 0 <= k < p ==> IsSpace(s[k])) && (p < |s| ==> !IsSpace(s[p]))
    decreases |s|
  {
    if s != "" && IsSpace(s[0]) {
      var r := TrimLeftIs(s[1..]);
      p := r + 1;
      assert s[1..][r..] == s[p..];
      assert forall k :: 0 < k < p ==> s[k] == s[1..][k - 1];
      assert p < |s| ==> s[p] == s[1..][r];
    } else {
      p := 0;
    }
  }

  lemma {:induction false} TrimRightIs(s: string) returns (q: nat)
    ensures q <= |s| && TrimRight(s) == s[..q] && (forall k :: q <= k < |s| ==> IsSpace(s[k])) && (q > 0 ==> !IsSpace(s[q - 1]))
    decreases |s|
  {
    q := |s|;
    if s != "" && IsSpace(s[|s| - 1]) {
      q := TrimRightIs(s[..|s| - 1]);
      assert s[..|s| - 1][..q] == s[..q];
    } else {
      assert s[..q] == s;
    }
  }

  lemma TrimIsExact(s: string)
    ensures Trimmed(s, Trim(s))
  {
    var p := TrimLeftIs(s);
    var q := TrimRightIs(s[p..]);
    assert s[p..][..q] == s[p..p + q];
    assert p < |s| ==> s[p] == s[p..][0];
    assert q > 0 ==> s[p + q - 1] == s[p..][q - 1];
    forall k | p + q <= k < |s| ensures IsSpace(s[k]) {
      assert s[k] == s[p..][k - p];
    }
  }

  /** A word in front of the runs that start after the next space. */
  lemma RunInFront(s: string, start: nat, i: nat, rest: seq<Span>) returns (runs: seq<Span>)
    requires start <= i <= |s| && (forall k :: start <= k < i ==> !IsSpace(s[k])) && (start > 0 ==> IsSpace(s[start - 1]))
    requires if i < |s| then IsSpace(s[i]) && AllRuns(IsSpace, s, i + 1, rest) else rest == []
    ensures AllRuns(IsSpace, s, start, runs) && runs == (if start < i then [(start, i)] else []) + rest
  {
    runs := (if start < i then [(start, i)] else []) + rest;
    forall k: nat | start <= k < |s| && !IsSpace(s[k]) ensures InSome(runs, k) {
      if k < i {
        assert runs[0].0 <= k < runs[0].1;
      } else {
        assert InSome(rest, k);
        var j :| 0 <= j < |rest| && rest[j].0 <= k < rest[j].1;
        assert runs[|runs| - |rest| + j] == rest[j];
      }
    }
  }

  lemma {:induction false} WordsFrom(s: string, start: nat, i: nat) returns (runs: seq<Span>)
    requires start <= i <= |s| && (forall k :: start <= k < i ==> !IsSpace(s[k])) && (start > 0 ==> IsSpace(s[start - 1]))
    ensures AllRuns(IsSpace, s, start, runs) && SlicesAt(s, runs, Words(s, start, i))
    decreases |s| - i
  {
    if i < |s| && !IsSpace(s[i]) {
      runs := WordsFrom(s, start, i + 1);
    } else {
      var rest := [];
      if i < |s| {
        rest := WordsFrom(s, i + 1, i + 1);
      }
      runs := RunInFront(s, start, i, rest);
      var word := if start < i then [s[start..i]] else [];
      SlicesInFront(s, if start < i then [(start, i)] else [], word, rest, if i < |s| then Words(s, i + 1, i + 1) else []);
      assert word + [] == word;
    }
  }

  lemma SlicesInFront(s: string, first: seq<Span>, word: seq<string>, rest: seq<Span>, words: seq<string>)
    requires SlicesAt(s, first, word) && SlicesAt(s, rest, words)
    ensures SlicesAt(s, first + rest, word + words)
  {
  }

  /** The words of a text are exactly its maximal runs without spaces. */
  lemma WordsAreExact(s: string, words: seq<string>)
    ensures AreWords(IsSpace, s, words) <==> words == Words(s, 0, 0)
  {
    var runs := WordsFrom(s, 0, 0);
    assert AreWords(IsSpace, s, Words(s, 0, 0));
    if AreWords(IsSpace, s, words) {
      WordsAreUnique(IsSpace, s, words, Words(s, 0, 0));
    }
  }

  // ----- the lines of a text -----

  predicate EndsInReturn(s: string) {
    s != "" && s[|s| - 1] == '\r'
  }

  /** The lines with their ends put back, each a line feed with or without a carriage return. */
  function Rejoin(lines: seq<string>, crs: seq<bool>): string
    requires |lines| == |crs| + 1
  {
    if crs == [] then lines[0]
    else lines[0] + (if crs[0] then "\r\n" else "\n") + Rejoin(lines[1..], crs[1..])
  }

  ghost predicate AreLines(s: string, lines: seq<string>, crs: seq<bool>) {
    && |lines| == |crs| + 1 && s == Rejoin(lines, crs)
    && (forall i :: 0 <= i < |lines| ==> '\n' !in lines[i])
    && (forall i :: 0 <= i < |crs| && !crs[i] ==> !EndsInReturn(lines[i]))
  }

  lemma {:induction false} LinesFrom(s: string, start: nat, i: nat) returns (crs: seq<bool>)
    requires start <= i <= |s| && '\n' !in s[start..i]
    ensures AreLines(s[start..], Lines(s, start, i), crs)
    decreases |s| - i
  {
    if i == |s| {
      crs := [];
      assert s[start..i] == s[start..];
    } else if s[i] == '\n' {
      var rest := LinesFrom(s, i + 1, i + 1);
      var line := s[start..i];
      crs := [EndsInReturn(line)] + rest;
      var lines := [DropReturn(line)] + Lines(s, i + 1, i + 1);
      assert lines[1..] == Lines(s, i + 1, i + 1) && crs[1..] == rest;
      assert s[start..] == line + "\n" + s[i + 1..];
      assert EndsInReturn(line) ==> line == DropReturn(line) + "\r";
      assert Rejoin(lines, crs) == s[start..];
    } else {
      assert s[start..i + 1] == s[start..i] + [s[i]];
      crs := LinesFrom(s, start, i + 1);
    }
  }

  /** The lines are what the text says, without its line feeds and the carriage returns before them. */
  lemma LinesAreExact(s: string)
    ensures exists crs :: AreLines(s, Lines(s, 0, 0), crs)
  {
    var crs := LinesFrom(s, 0, 0);
    assert s[0..] == s;
  }

  /** A text of ASCII characters has one byte for each, any other has more, and none has more than four. */
  lemma {:induction false} Utf8Grows(s: string)
    ensures |s| <= Utf8Bytes(s) <= 4 * |s|
    ensures Utf8Bytes(s) == |s| <==> forall i :: 0 <= i < |s| ==> s[i] < '\U{80}'
  {
    if s != "" {
      var rest := s[1..];
      Utf8Grows(rest);
      assert forall i :: 0 < i < |s| ==> s[i] == rest[i - 1];
      assert forall i :: 0 <= i < |rest| ==> rest[i] == s[i + 1];
    }
  }

  // ----- the shape of a line -----

  function Tokens(source: string): seq<string> {
    Words(Trim(source), 0, 0)
  }

  /** Blank lines and comments. */
  predicate Silent(source: string) {
    Trim(source) == "" || "c " <= Trim(source)
  }

  predicate Reads(words: seq<string>, num: Numerals, values: seq<int>) {
    |values| == |words| && forall i :: 0 <= i < |words| ==> num(words[i]) == Some(values[i])
  }

  predicate Named(ws: seq<string>, num: Numerals, id: int) {
    ws != [] && num(ws[0]) == Some(id) && id > 0
  }

  /** A number, the literals of a clause, a zero, hints, and a last zero; what follows is ignored. */
  predicate AdditionAt(ws: seq<string>, num: Numerals, a: nat, b: nat, id: int, clause: Clause, hints: seq<int>) {
    Named(ws, num, id) &&
    var tokens := ws[1..];
    && a < b < |tokens| && tokens[a] == "0" && tokens[b] == "0" && "0" !in tokens[..a] && "0" !in tokens[b + 1..]
    && tokens[0] != "d"
    && Reads(tokens[..a], num, clause) && 0 !in clause && Reads(tokens[a + 1..b], num, hints)
  }

  ghost predicate Addition(source: string, num: Numerals, id: int, clause: Clause, hints: seq<int>) {
    !Silent(source) && exists a: nat, b: nat :: AdditionAt(Tokens(source), num, a, b, id, clause, hints)
  }

  /** Positive numbers up to a zero or the end of the line. */
  predicate ListEnds(tokens: seq<string>, num: Numerals, e: nat) {
    e <= |tokens| && (e < |tokens| ==> num(tokens[e]) == Some(0)) &&
    forall i :: 0 <= i < e ==> num(tokens[i]).Some? && num(tokens[i]).value >= 1
  }

  function Listed(tokens: seq<string>, num: Numerals, e: nat): set<int>
    requires ListEnds(tokens, num, e)
  {
    set i | 0 <= i < e :: num(tokens[i]).value
  }

  /** A number, the letter `d` and a list of numbers. */
  ghost predicate Deletion(source: string, num: Numerals, ids: set<int>) {
    !Silent(source) &&
    var ws := Tokens(source);
    (exists id :: Named(ws, num, id)) && |ws| > 1 && ws[1] == "d" &&
    exists e :: ListEnds(ws[2..], num, e) && ids == Listed(ws[2..], num, e)
  }

  lemma {:induction false} NumbersAreRead(words: seq<string>, num: Numerals, values: seq<int>)
    ensures Numbers(words, num) == Some(values) <==> Reads(words, num, values)
    decreases |words|
  {
    if words != [] {
      if values == [] {
        assert Numbers(words, num) != Some([]);
      } else {
        NumbersAreRead(words[1..], num, values[1..]);
        assert values == [values[0]] + values[1..];
        if Reads(words, num, values) {
          assert num(words[0]) == Some(values[0]);
          assert Reads(words[1..], num, values[1..]);
        }
        if Numbers(words, num) == Some(values) {
          var rest := Numbers(words[1..], num).value;
          assert ([num(words[0]).value] + rest)[1..] == rest;
          forall i | 0 <= i < |words| ensures num(words[i]) == Some(values[i]) {
            assert i > 0 ==> words[i] == words[1..][i - 1] && values[i] == values[1..][i - 1];
          }
        }
      }
    }
  }

  lemma TextHasWords(source: string)
    requires Trim(source) != ""
    ensures Tokens(source) != []
  {
    var text := Trim(source);
    TrimIsExact(source);
    var runs := WordsFrom(text, 0, 0);
    NoRuns(IsSpace, text, 0, runs);
    assert !IsSpace(text[0]);
  }

  lemma Absent(tokens: seq<string>, t: string, low: nat, high: nat)
    requires low <= high <= |tokens| && t !in tokens[low..high]
    ensures forall k :: low <= k < high ==> tokens[k] != t
  {
    forall k | low <= k < high ensures tokens[k] != t {
      assert tokens[low..high][k - low] == tokens[k];
    }
  }

  lemma ZeroPlaces(tokens: seq<string>, a: nat, b: nat)
    requires a < b < |tokens| && tokens[a] == "0" && tokens[b] == "0" && "0" !in tokens[..a] && "0" !in tokens[b + 1..]
    ensures Find(tokens, "0") == a && FindLast(tokens, "0") == b
  {
    Absent(tokens, "0", 0, a);
    Absent(tokens, "0", b + 1, |tokens|);
    Absent(tokens, "0", 0, Find(tokens, "0"));
    Absent(tokens, "0", FindLast(tokens, "0") + 1, |tokens|);
  }

  lemma ReadIsAddition(source: string, line: nat, num: Numerals, id: int, clause: Clause, hints: seq<int>)
    requires ReadLine(source, line, num) == Add(id, clause, hints)
    ensures Addition(source, num, id, clause, hints) && forall h :: h in hints ==> h >= 0
  {
    var ws := Tokens(source);
    var tokens := ws[1..];
    var first, last := Find(tokens, "0"), FindLast(tokens, "0");
    NumbersAreRead(tokens[..first], num, clause);
    NumbersAreRead(tokens[first + 1..last], num, hints);
    assert Reads(tokens[..first], num, clause) && Reads(tokens[first + 1..last], num, hints);
    assert Named(ws, num, id) && tokens[first] == "0" && tokens[last] == "0";
    assert AdditionAt(ws, num, first, last, id, clause, hints);
  }

  lemma AdditionIsRead(source: string, line: nat, num: Numerals, id: int, clause: Clause, hints: seq<int>)
    requires Addition(source, num, id, clause, hints)
    ensures ReadLine(source, line, num) == if exists h :: h in hints && h < 0 then Bad(RatHints) else Add(id, clause, hints)
  {
    var ws := Tokens(source);
    var tokens := ws[1..];
    var a: nat, b: nat :| AdditionAt(ws, num, a, b, id, clause, hints);
    ZeroPlaces(tokens, a, b);
    NumbersAreRead(tokens[..a], num, clause);
    NumbersAreRead(tokens[a + 1..b], num, hints);
  }

  /** The checker reads an addition exactly where the line has the shape of one, without negative hints. */
  lemma AdditionsAreRead(source: string, line: nat, num: Numerals, id: int, clause: Clause, hints: seq<int>)
    ensures ReadLine(source, line, num) == Add(id, clause, hints) <==>
      Addition(source, num, id, clause, hints) && forall h :: h in hints ==> h >= 0
  {
    if ReadLine(source, line, num) == Add(id, clause, hints) {
      ReadIsAddition(source, line, num, id, clause, hints);
    }
    if Addition(source, num, id, clause, hints) {
      AdditionIsRead(source, line, num, id, clause, hints);
    }
  }

  lemma {:induction false} DeletedAre(clauses: LiveClauses, tokens: seq<string>, num: Numerals, e: nat)
    requires ListEnds(tokens, num, e)
    ensures DeleteClauses(clauses, tokens, num) == Some(clauses - Listed(tokens, num, e))
    decreases |tokens|
  {
    if tokens != [] && e > 0 {
      var rest, id := tokens[1..], num(tokens[0]).value;
      assert forall i :: 0 <= i < e - 1 ==> rest[i] == tokens[i + 1];
      DeletedAre(clauses - {id}, rest, num, e - 1);
      ListedCons(tokens, num, e);
      assert clauses - {id} - Listed(rest, num, e - 1) == clauses - Listed(tokens, num, e);
    } else {
      assert Listed(tokens, num, e) == {};
      assert clauses - {} == clauses;
    }
  }

  lemma ListedCons(tokens: seq<string>, num: Numerals, e: nat)
    requires tokens != [] && e > 0 && ListEnds(tokens, num, e)
    ensures ListEnds(tokens[1..], num, e - 1) && Listed(tokens, num, e) == {num(tokens[0]).value} + Listed(tokens[1..], num, e - 1)
  {
    var rest := tokens[1..];
    assert forall i :: 0 <= i < e - 1 ==> rest[i] == tokens[i + 1];
    assert e < |tokens| ==> rest[e - 1] == tokens[e];
    forall id | id in Listed(tokens, num, e) ensures id in {num(tokens[0]).value} + Listed(rest, num, e - 1) {
      var i :| 0 <= i < e && num(tokens[i]).value == id;
      assert i > 0 ==> num(rest[i - 1]).value == id;
    }
    forall id | id in Listed(rest, num, e - 1) ensures id in Listed(tokens, num, e) {
      var i :| 0 <= i < e - 1 && num(rest[i]).value == id;
      assert num(tokens[i + 1]).value == id;
    }
  }

  lemma {:induction false} ListEndIsFound(clauses: LiveClauses, tokens: seq<string>, num: Numerals) returns (e: nat)
    requires DeleteClauses(clauses, tokens, num).Some?
    ensures ListEnds(tokens, num, e)
    decreases |tokens|
  {
    if tokens == [] || num(tokens[0]) == Some(0) {
      e := 0;
    } else {
      var r := ListEndIsFound(clauses - {num(tokens[0]).value}, tokens[1..], num);
      e := r + 1;
      assert forall i :: 0 < i < e ==> tokens[i] == tokens[1..][i - 1];
      assert e < |tokens| ==> tokens[e] == tokens[1..][r];
    }
  }

  /** A deletion removes the numbers it lists, and a line is a deletion exactly where it has the shape of one. */
  lemma DeletionsAreRead(source: string, line: nat, num: Numerals, clauses: LiveClauses)
    ensures ReadLine(source, line, num).Delete? && DeleteClauses(clauses, ReadLine(source, line, num).tokens, num).Some? <==>
      exists ids :: Deletion(source, num, ids)
    ensures forall ids :: Deletion(source, num, ids) ==>
      ReadLine(source, line, num).Delete? && DeleteClauses(clauses, ReadLine(source, line, num).tokens, num) == Some(clauses - ids)
  {
    var command := ReadLine(source, line, num);
    if command.Delete? && DeleteClauses(clauses, command.tokens, num).Some? {
      var ws := Tokens(source);
      var e := ListEndIsFound(clauses, command.tokens, num);
      assert Named(ws, num, num(ws[0]).value);
      assert Deletion(source, num, Listed(ws[2..], num, e));
    }
    forall ids | Deletion(source, num, ids)
      ensures command.Delete? && DeleteClauses(clauses, command.tokens, num) == Some(clauses - ids)
    {
      var ws := Tokens(source);
      var id :| Named(ws, num, id);
      var e :| ListEnds(ws[2..], num, e) && ids == Listed(ws[2..], num, e);
      DeletedAre(clauses, ws[2..], num, e);
    }
  }

  // ----- what is live where -----

  ghost predicate Touches(source: string, num: Numerals, id: int) {
    (exists clause, hints :: Addition(source, num, id, clause, hints)) || exists ids :: Deletion(source, num, ids) && id in ids
  }

  ghost predicate Untouched(lines: seq<string>, num: Numerals, from: nat, id: int) {
    forall m :: from <= m < |lines| ==> !Touches(lines[m], num, id)
  }

  /** After these lines the clause stands under the number: the last line that touched it added it, or it is original. */
  ghost predicate LiveAs(f: Formula, lines: seq<string>, num: Numerals, id: int, clause: Clause) {
    || (exists j: nat, hints :: j < |lines| && Addition(lines[j], num, id, clause, hints) && Untouched(lines, num, j + 1, id))
    || (1 <= id <= |f| && clause == f[id - 1] && Untouched(lines, num, 0, id))
  }

  ghost predicate AreLive(f: Formula, lines: seq<string>, num: Numerals, live: LiveClauses) {
    forall id, clause :: LiveAs(f, lines, num, id, clause) <==> id in live && live[id] == clause
  }

  predicate Tautology(clause: Clause) {
    exists l :: l in clause && -l in clause
  }

  predicate Negates(m: PartialAssignment, clause: Clause) {
    m.Keys == (set l | l in clause :: Abs(l)) && forall l :: l in clause ==> Abs(l) in m && m[Abs(l)] == (l < 0)
  }

  /** The hints lead from the negated clause, over the clauses live after these lines, to a falsified one. */
  ghost predicate Justified(f: Formula, lines: seq<string>, num: Numerals, clause: Clause, hints: seq<int>) {
    Tautology(clause) ||
    exists live, m, units :: AreLive(f, lines, num, live) && Negates(m, clause) && Certificate(hints, live, m, units)
  }

  lemma {:induction false} FalsifyNegates(clause: Clause, before: Clause, m: PartialAssignment)
    requires 0 !in before + clause && Negates(m, before) && !Tautology(before)
    ensures Falsify(clause, m).None? <==> Tautology(before + clause)
    ensures Falsify(clause, m).Some? ==> Negates(Falsify(clause, m).value, before + clause)
    decreases |clause|
  {
    if clause == [] {
      assert before + clause == before;
    } else {
      var l := clause[0];
      assert before + clause == before + [l] + clause[1..];
      assert l in before + clause;
      if Abs(l) in m && m[Abs(l)] != (-l > 0) {
        var k :| k in before && Abs(k) == Abs(l);
        assert k == -l && k in before + clause;
      } else {
        NegatesOneMore(before, m, l);
        FalsifyNegates(clause[1..], before + [l], m[Abs(l) := -l > 0]);
      }
    }
  }

  lemma NegatesOneMore(before: Clause, m: PartialAssignment, l: Literal)
    requires Negates(m, before) && !Tautology(before) && l != 0 && 0 !in before
    requires Abs(l) in m ==> m[Abs(l)] == (-l > 0)
    ensures Negates(m[Abs(l) := -l > 0], before + [l]) && !Tautology(before + [l])
  {
    var all := before + [l];
    MembersOf(before, l);
    SameVariable(before, m, l);
    assert -l !in before;
    assert (set k | k in all :: Abs(k)) == (set k | k in before :: Abs(k)) + {Abs(l)};
    assert !Tautology(all) by {
      assert forall k :: k in before ==> -k !in before && -k != l;
    }
  }

  lemma MembersOf(before: Clause, l: Literal)
    ensures forall k :: k in before + [l] <==> k in before || k == l
  {
  }

  lemma SameVariable(before: Clause, m: PartialAssignment, l: Literal)
    requires Negates(m, before) && l != 0 && 0 !in before && (Abs(l) in m ==> m[Abs(l)] == (-l > 0))
    ensures forall k :: k in before && Abs(k) == Abs(l) ==> k == l
  {
  }

  lemma NegationIsUnique(m: PartialAssignment, m': PartialAssignment, clause: Clause)
    requires Negates(m, clause) && Negates(m', clause)
    ensures m == m'
  {
    forall v | v in m ensures v in m' && m'[v] == m[v] {
      var l :| l in clause && Abs(l) == v;
    }
  }

  lemma LiveIsUnique(f: Formula, lines: seq<string>, num: Numerals, live: LiveClauses, live': LiveClauses)
    requires AreLive(f, lines, num, live) && AreLive(f, lines, num, live')
    ensures live == live'
  {
    forall id | id in live ensures id in live' && live'[id] == live[id] {
      assert LiveAs(f, lines, num, id, live[id]);
    }
    forall id | id in live' ensures id in live {
      assert LiveAs(f, lines, num, id, live'[id]);
    }
  }

  /** The chain check passes exactly for justified clauses. */
  lemma ChainsAreJustified(f: Formula, lines: seq<string>, num: Numerals, live: LiveClauses, clause: Clause, hints: seq<int>)
    requires AreLive(f, lines, num, live) && 0 !in clause
    ensures RupChain(clause, hints, live) <==> Justified(f, lines, num, clause, hints)
  {
    assert [] + clause == clause;
    FalsifyNegates(clause, [], map[]);
    if !Tautology(clause) {
      var m := Falsify(clause, map[]).value;
      PropagatesExactly(hints, live, m);
      if live', m', units :| AreLive(f, lines, num, live') && Negates(m', clause) && Certificate(hints, live', m', units) {
        LiveIsUnique(f, lines, num, live, live');
        NegationIsUnique(m, m', clause);
      }
    }
  }

  // ----- the fold, line by line -----

  /** The checker's state after some lines, or its answer if it has stopped. */
  function After(f: Formula, lines: seq<string>, limits: Limits, num: Numerals): (r: Result<State, Outcome>)
    ensures r.Err? ==> r.error.Rejected?
  {
    if lines == [] then Ok(State(Numbered(f), 0, 0, false)) else
      match After(f, lines[..|lines| - 1], limits, num)
      case Err(outcome) => Err(outcome)
      case Ok(s) => Obey(s, ReadLine(lines[|lines| - 1], |lines|, num), |lines|, limits, num)
  }

  function Conclude(r: Result<State, Outcome>): Outcome {
    match r
    case Err(outcome) => outcome
    case Ok(s) => if s.reachedEmpty then Valid(s.derived, s.hints) else Rejected(NoEmptyClause, s.derived, s.hints)
  }

  lemma {:induction false} FoldIsAfter(f: Formula, lines: seq<string>, k: nat, limits: Limits, num: Numerals)
    requires k <= |lines|
    ensures match After(f, lines[..k], limits, num)
            case Err(_) => After(f, lines, limits, num) == After(f, lines[..k], limits, num)
            case Ok(s) => Fold(s, lines[k..], k + 1, limits, num) == Conclude(After(f, lines, limits, num))
    decreases |lines| - k
  {
    if k == |lines| {
      assert lines[..k] == lines;
    } else {
      assert lines[..k + 1][..k] == lines[..k] && lines[..k + 1][k] == lines[k];
      assert lines[k..][1..] == lines[k + 1..];
      FoldIsAfter(f, lines, k + 1, limits, num);
    }
  }

  lemma CheckIsAfter(f: Formula, proof: string, limits: Limits, num: Numerals)
    ensures CheckProof(f, proof, limits, num)
         == if Utf8Bytes(proof) > limits.maxProofBytes then Rejected(ProofTooLong, 0, 0)
            else Conclude(After(f, Lines(proof, 0, 0), limits, num))
  {
    var lines := Lines(proof, 0, 0);
    assert lines[..0] == [] && lines[0..] == lines;
    FoldIsAfter(f, lines, 0, limits, num);
    var start := State(Numbered(f), 0, 0, false);
    assert After(f, lines[..0], limits, num) == Ok(start);
    assert Fold(start, lines, 1, limits, num) == Conclude(After(f, lines, limits, num));
  }

  // ----- counting -----

  /** An addition without negative hints. */
  ghost predicate Derives(source: string, num: Numerals, id: int, clause: Clause, hints: seq<int>) {
    Addition(source, num, id, clause, hints) && forall h :: h in hints ==> h >= 0
  }

  ghost predicate DerivesWith(source: string, num: Numerals, n: nat) {
    exists id, clause, hints :: Derives(source, num, id, clause, hints) && |hints| == n
  }

  ghost function HintsOf(source: string, num: Numerals): Option<nat> {
    if n: nat :| DerivesWith(source, num, n) then Some(n) else None
  }

  ghost function Additions(lines: seq<string>, num: Numerals): nat {
    if lines == [] then 0 else
      Additions(lines[..|lines| - 1], num) + if HintsOf(lines[|lines| - 1], num).Some? then 1 else 0
  }

  ghost function HintTotal(lines: seq<string>, num: Numerals): nat {
    if lines == [] then 0 else
      HintTotal(lines[..|lines| - 1], num) +
      match HintsOf(lines[|lines| - 1], num)
      case None => 0
      case Some(n) => n
  }

  lemma HintsAreCounted(source: string, line: nat, num: Numerals)
    ensures HintsOf(source, num)
         == if ReadLine(source, line, num).Add? then Some(|ReadLine(source, line, num).hints|) else None
  {
    var command := ReadLine(source, line, num);
    forall id, clause, hints ensures Derives(source, num, id, clause, hints) <==> command == Add(id, clause, hints) {
      AdditionsAreRead(source, line, num, id, clause, hints);
    }
    if command.Add? {
      assert Derives(source, num, command.id, command.clause, command.hints);
      assert DerivesWith(source, num, |command.hints|);
    }
  }

  // ----- acceptance -----

  ghost predicate DerivesEmpty(lines: seq<string>, num: Numerals) {
    exists k, id, hints :: 0 <= k < |lines| && Derives(lines[k], num, id, [], hints)
  }

  ghost predicate WithinLimits(lines: seq<string>, limits: Limits, num: Numerals) {
    Additions(lines, num) <= limits.maxDerivedClauses && HintTotal(lines, num) <= limits.maxHints
  }

  /** After these lines the next one is blank, a comment, a deletion, or a justified addition. */
  ghost predicate Acceptable(f: Formula, before: seq<string>, source: string, num: Numerals) {
    Silent(source) || (exists ids :: Deletion(source, num, ids)) ||
    exists id, clause, hints :: Derives(source, num, id, clause, hints) && Justified(f, before, num, clause, hints)
  }

  ghost predicate Describes(f: Formula, lines: seq<string>, limits: Limits, num: Numerals, s: State) {
    && AreLive(f, lines, num, s.clauses) && s.derived == Additions(lines, num) && s.hints == HintTotal(lines, num)
    && (s.reachedEmpty <==> DerivesEmpty(lines, num)) && WithinLimits(lines, limits, num)
  }

  /** How one more line changes what is live. */
  lemma LiveGrows(f: Formula, before: seq<string>, source: string, num: Numerals, id: int, clause: Clause)
    ensures LiveAs(f, before + [source], num, id, clause) <==>
      (exists hints :: Addition(source, num, id, clause, hints)) ||
      (LiveAs(f, before, num, id, clause) && !Touches(source, num, id))
  {
    var lines := before + [source];
    if LiveAs(f, lines, num, id, clause) && Touches(source, num, id) {
      assert lines[|before|] == source;
      var j: nat, hints :| j < |lines| && Addition(lines[j], num, id, clause, hints) && Untouched(lines, num, j + 1, id);
    }
    if LiveAs(f, lines, num, id, clause) && !Touches(source, num, id) {
      LiveShrinks(f, before, source, num, id, clause);
    }
    if hints :| Addition(source, num, id, clause, hints) {
      assert Addition(lines[|before|], num, id, clause, hints) && Untouched(lines, num, |before| + 1, id);
    }
    if LiveAs(f, before, num, id, clause) && !Touches(source, num, id) {
      forall from: nat | Untouched(before, num, from, id) ensures Untouched(lines, num, from, id) {
        assert forall m :: from <= m < |before| ==> lines[m] == before[m];
      }
      if j: nat, hints :| j < |before| && Addition(before[j], num, id, clause, hints) && Untouched(before, num, j + 1, id) {
        assert Addition(lines[j], num, id, clause, hints) && Untouched(lines, num, j + 1, id);
      }
    }
  }

  lemma LiveShrinks(f: Formula, before: seq<string>, source: string, num: Numerals, id: int, clause: Clause)
    requires LiveAs(f, before + [source], num, id, clause) && !Touches(source, num, id)
    ensures LiveAs(f, before, num, id, clause)
  {
    var lines := before + [source];
    forall from: nat | Untouched(lines, num, from, id) ensures Untouched(before, num, from, id) {
      assert forall m :: from <= m < |before| ==> lines[m] == before[m];
    }
    if j: nat, hints :| j < |lines| && Addition(lines[j], num, id, clause, hints) && Untouched(lines, num, j + 1, id) {
      assert j < |before| by {
        if j == |before| {
          assert Touches(source, num, id);
        }
      }
      assert Addition(before[j], num, id, clause, hints) && Untouched(before, num, j + 1, id);
    }
  }

  lemma SilentKeepsLive(f: Formula, before: seq<string>, source: string, num: Numerals, live: LiveClauses)
    requires AreLive(f, before, num, live) && (forall id :: !Touches(source, num, id))
    ensures AreLive(f, before + [source], num, live)
  {
    forall id, clause ensures LiveAs(f, before + [source], num, id, clause) <==> id in live && live[id] == clause {
      LiveGrows(f, before, source, num, id, clause);
      assert !Touches(source, num, id);
    }
  }

  lemma DeletionShrinksLive(f: Formula, before: seq<string>, source: string, line: nat, num: Numerals, live: LiveClauses, ids: set<int>)
    requires AreLive(f, before, num, live) && Deletion(source, num, ids)
    ensures AreLive(f, before + [source], num, live - ids)
  {
    forall id, clause ensures LiveAs(f, before + [source], num, id, clause) <==> id in live - ids && live[id] == clause {
      LiveGrows(f, before, source, num, id, clause);
      DeletionTouches(source, line, num, live, ids, id);
    }
  }

  /** A deletion adds nothing, and touches what it lists. */
  lemma DeletionTouches(source: string, line: nat, num: Numerals, live: LiveClauses, ids: set<int>, id: int)
    requires Deletion(source, num, ids)
    ensures forall clause, hints :: !Addition(source, num, id, clause, hints)
    ensures id in live ==> (Touches(source, num, id) <==> id in ids)
  {
    DeletionsAreRead(source, line, num, live);
    forall clause, hints | Addition(source, num, id, clause, hints) ensures false {
      AdditionIsRead(source, line, num, id, clause, hints);
    }
    if id in live && Touches(source, num, id) {
      var others :| Deletion(source, num, others) && id in others;
      assert live - others == live - ids;
      assert id !in live - others;
    }
  }

  lemma AdditionGrowsLive(f: Formula, before: seq<string>, source: string, line: nat, num: Numerals, live: LiveClauses,
                          id: int, clause: Clause, hints: seq<int>)
    requires AreLive(f, before, num, live) && Derives(source, num, id, clause, hints)
    ensures AreLive(f, before + [source], num, live[id := clause])
  {
    forall i, c ensures LiveAs(f, before + [source], num, i, c) <==> i in live[id := clause] && live[id := clause][i] == c {
      LiveGrows(f, before, source, num, i, c);
      AdditionTouches(source, line, num, id, clause, hints, i, c);
    }
  }

  /** An addition adds one clause under one number, and touches no other. */
  lemma AdditionTouches(source: string, line: nat, num: Numerals, id: int, clause: Clause, hints: seq<int>, i: int, c: Clause)
    requires Derives(source, num, id, clause, hints)
    ensures (exists h :: Addition(source, num, i, c, h)) <==> i == id && c == clause
    ensures Touches(source, num, i) <==> i == id
  {
    AdditionsAreRead(source, line, num, id, clause, hints);
    forall i', c', h | Addition(source, num, i', c', h) ensures i' == id && c' == clause {
      AdditionIsRead(source, line, num, i', c', h);
    }
    forall ids | Deletion(source, num, ids) ensures false {
      DeletionsAreRead(source, line, num, map[]);
    }
  }

  lemma DeletionIsNoDerivation(source: string, line: nat, num: Numerals, ids: set<int>)
    requires Deletion(source, num, ids)
    ensures ReadLine(source, line, num).Delete?
  {
    DeletionsAreRead(source, line, num, map[]);
  }

  /** A silent line touches nothing. */
  lemma SilentTouchesNothing(source: string, num: Numerals)
    requires Silent(source)
    ensures forall id :: !Touches(source, num, id)
  {
  }

  lemma EmptyGrows(before: seq<string>, source: string, line: nat, num: Numerals)
    ensures DerivesEmpty(before + [source], num) <==>
      DerivesEmpty(before, num) || (ReadLine(source, line, num).Add? && ReadLine(source, line, num).clause == [])
  {
    var lines, command := before + [source], ReadLine(source, line, num);
    assert lines[|before|] == source;
    forall id, hints ensures Derives(source, num, id, [], hints) <==> command == Add(id, [], hints) {
      AdditionsAreRead(source, line, num, id, [], hints);
    }
    if command.Add? && command.clause == [] {
      assert Derives(lines[|before|], num, command.id, [], command.hints);
    }
    if k: nat, id, hints :| k < |before| && Derives(before[k], num, id, [], hints) {
      assert Derives(lines[k], num, id, [], hints);
    }
    if k: nat, id, hints :| k < |lines| && Derives(lines[k], num, id, [], hints) {
      assert k < |before| ==> Derives(before[k], num, id, [], hints);
    }
  }

  lemma CountsGrow(before: seq<string>, source: string, line: nat, num: Numerals)
    ensures var command := ReadLine(source, line, num);
      && Additions(before + [source], num) == Additions(before, num) + (if command.Add? then 1 else 0)
      && HintTotal(before + [source], num) == HintTotal(before, num) + if command.Add? then |command.hints| else 0
  {
    var lines := before + [source];
    assert lines[..|lines| - 1] == before && lines[|lines| - 1] == source;
    HintsAreCounted(source, line, num);
  }

  /** One line: it passes exactly when it is acceptable and the limits hold, and the state then describes the lines. */
  lemma LinePasses(f: Formula, before: seq<string>, source: string, limits: Limits, num: Numerals, s: State)
    requires Describes(f, before, limits, num, s)
    ensures var line, lines := |before| + 1, before + [source];
      var r := Obey(s, ReadLine(source, line, num), line, limits, num);
      && (r.Ok? <==> Acceptable(f, before, source, num) && WithinLimits(lines, limits, num))
      && (r.Ok? ==> Describes(f, lines, limits, num, r.value))
  {
    var line := |before| + 1;
    var command := ReadLine(source, line, num);
    CountsGrow(before, source, line, num);
    EmptyGrows(before, source, line, num);
    DeletionsAreRead(source, line, num, s.clauses);
    forall id, clause, hints ensures Derives(source, num, id, clause, hints) <==> command == Add(id, clause, hints) {
      AdditionsAreRead(source, line, num, id, clause, hints);
    }
    match command {
      case Skip =>
        SilentTouchesNothing(source, num);
        SilentKeepsLive(f, before, source, num, s.clauses);
      case Bad(_) =>
      case Delete(tokens) =>
        if ids :| Deletion(source, num, ids) {
          DeletionShrinksLive(f, before, source, line, num, s.clauses, ids);
        }
      case Add(id, clause, hints) =>
        ChainsAreJustified(f, before, num, s.clauses, clause, hints);
        AdditionGrowsLive(f, before, source, line, num, s.clauses, id, clause, hints);
    }
  }

  lemma StartDescribes(f: Formula, limits: Limits, num: Numerals)
    ensures Describes(f, [], limits, num, State(Numbered(f), 0, 0, false))
  {
    forall id, clause ensures LiveAs(f, [], num, id, clause) <==> id in Numbered(f) && Numbered(f)[id] == clause {
      NumberedClauses(f, id);
    }
  }

  lemma {:induction false} LimitsShrink(lines: seq<string>, k: nat, limits: Limits, num: Numerals)
    requires k <= |lines| && WithinLimits(lines, limits, num)
    ensures WithinLimits(lines[..k], limits, num)
    decreases |lines|
  {
    if k < |lines| {
      var init := lines[..|lines| - 1];
      assert init[..k] == lines[..k];
      LimitsShrink(init, k, limits, num);
    } else {
      assert lines[..k] == lines;
    }
  }

  ghost predicate AllAcceptable(f: Formula, lines: seq<string>, num: Numerals) {
    forall k :: 0 <= k < |lines| ==> Acceptable(f, lines[..k], lines[k], num)
  }

  lemma {:induction false} LinesPass(f: Formula, lines: seq<string>, limits: Limits, num: Numerals)
    ensures var r := After(f, lines, limits, num);
      && (r.Ok? <==> AllAcceptable(f, lines, num) && WithinLimits(lines, limits, num))
      && (r.Ok? ==> Describes(f, lines, limits, num, r.value))
  {
    if lines == [] {
      StartDescribes(f, limits, num);
    } else {
      var init, last := lines[..|lines| - 1], lines[|lines| - 1];
      LinesPass(f, init, limits, num);
      assert lines == init + [last];
      AcceptableGrows(f, init, last, num);
      if WithinLimits(lines, limits, num) {
        LimitsShrink(lines, |init|, limits, num);
      }
      if After(f, init, limits, num).Ok? {
        LinePasses(f, init, last, limits, num, After(f, init, limits, num).value);
      }
    }
  }

  lemma AcceptableGrows(f: Formula, init: seq<string>, last: string, num: Numerals)
    ensures AllAcceptable(f, init + [last], num) <==> AllAcceptable(f, init, num) && Acceptable(f, init, last, num)
  {
    var lines := init + [last];
    assert lines[..|init|] == init && lines[|init|] == last;
    assert forall k :: 0 <= k < |init| ==> lines[..k] == init[..k] && lines[k] == init[k];
  }

  /**
   A proof is accepted if and only if it keeps the limits, every line of it is blank, a comment, a deletion or an addition
   that is justified by the clauses live before it, and some line adds the empty clause.
   */
  lemma ProofsAreAcceptedExactly(f: Formula, proof: string, limits: Limits, num: Numerals)
    ensures var lines := Lines(proof, 0, 0);
      CheckProof(f, proof, limits, num).Valid? <==>
        && Utf8Bytes(proof) <= limits.maxProofBytes && WithinLimits(lines, limits, num)
        && AllAcceptable(f, lines, num) && DerivesEmpty(lines, num)
    ensures var outcome, lines := CheckProof(f, proof, limits, num), Lines(proof, 0, 0);
      outcome.Valid? ==> outcome == Valid(Additions(lines, num), HintTotal(lines, num))
  {
    var lines := Lines(proof, 0, 0);
    LinesPass(f, lines, limits, num);
    CheckIsAfter(f, proof, limits, num);
  }

  // ----- refusal -----

  /** The line has a number but not the letter `d`. */
  predicate IsAddition(source: string, num: Numerals) {
    !Silent(source) &&
    var ws := Tokens(source);
    ws != [] && num(ws[0]).Some? && num(ws[0]).value > 0 && (|ws| > 1 ==> ws[1] != "d")
  }

  predicate IsDeletion(source: string, num: Numerals) {
    !Silent(source) &&
    var ws := Tokens(source);
    |ws| > 1 && num(ws[0]).Some? && num(ws[0]).value > 0 && ws[1] == "d"
  }

  predicate TwoZeros(tokens: seq<string>) {
    exists a, b :: 0 <= a < b < |tokens| && tokens[a] == "0" && tokens[b] == "0"
  }

  /** What is wrong with the line that follows some acceptable ones. */
  ghost predicate Faulty(f: Formula, before: seq<string>, source: string, limits: Limits, num: Numerals, r: Reason) {
    var line := |before| + 1;
    match r
    case InvalidId(n) => n == line && !Silent(source) && !IsAddition(source, num) && !IsDeletion(source, num)
    case InvalidDeletion(n) => n == line && IsDeletion(source, num) && forall ids :: !Deletion(source, num, ids)
    case MalformedAddition(n) => n == line && IsAddition(source, num) && !TwoZeros(Tokens(source)[1..])
    case InvalidInteger(n) =>
      n == line && IsAddition(source, num) && TwoZeros(Tokens(source)[1..]) &&
      forall id, clause, hints :: !Addition(source, num, id, clause, hints)
    case RatHints => exists id, clause, hints :: Addition(source, num, id, clause, hints) && exists h :: h in hints && h < 0
    case OperationLimit =>
      (exists id, clause, hints :: Derives(source, num, id, clause, hints)) && !WithinLimits(before + [source], limits, num)
    case InvalidChain(n) =>
      n == line && WithinLimits(before + [source], limits, num) &&
      exists id, clause, hints :: Derives(source, num, id, clause, hints) && !Justified(f, before, num, clause, hints)
    case ProofTooLong => false
    case NoEmptyClause => false
  }

  lemma ZerosAreFound(tokens: seq<string>)
    ensures TwoZeros(tokens) <==> Find(tokens, "0") < |tokens| && Find(tokens, "0") < FindLast(tokens, "0")
  {
    Absent(tokens, "0", 0, Find(tokens, "0"));
    Absent(tokens, "0", FindLast(tokens, "0") + 1, |tokens|);
  }

  lemma ShapesAreRead(source: string, line: nat, num: Numerals)
    ensures var command := ReadLine(source, line, num);
      && (command.Skip? <==> Silent(source)) && (command.Delete? <==> IsDeletion(source, num))
      && (command == Bad(InvalidId(line)) <==> !Silent(source) && !IsAddition(source, num) && !IsDeletion(source, num))
  {
    if !Silent(source) {
      TextHasWords(source);
    }
  }

  lemma AdditionShapesAreRead(source: string, line: nat, num: Numerals)
    requires IsAddition(source, num)
    ensures var command := ReadLine(source, line, num);
      && (command == Bad(MalformedAddition(line)) <==> !TwoZeros(Tokens(source)[1..]))
      && (command.Add? || command == Bad(MalformedAddition(line)) || command == Bad(InvalidInteger(line)) || command == Bad(RatHints))
  {
    ZerosAreFound(Tokens(source)[1..]);
  }

  lemma RatHintsAreRead(source: string, line: nat, num: Numerals)
    ensures ReadLine(source, line, num) == Bad(RatHints) <==>
      exists id, clause, hints :: Addition(source, num, id, clause, hints) && exists h :: h in hints && h < 0
    ensures ReadLine(source, line, num) == Bad(InvalidInteger(line)) ==>
      forall id, clause, hints :: !Addition(source, num, id, clause, hints)
  {
    if ReadLine(source, line, num) == Bad(RatHints) {
      var id, clause, hints := RatIsAddition(source, line, num);
    }
    forall id, clause, hints | Addition(source, num, id, clause, hints)
      ensures ReadLine(source, line, num) == if exists h :: h in hints && h < 0 then Bad(RatHints) else Add(id, clause, hints)
    {
      AdditionIsRead(source, line, num, id, clause, hints);
    }
  }

  lemma RatIsAddition(source: string, line: nat, num: Numerals) returns (id: int, clause: Clause, hints: seq<int>)
    requires ReadLine(source, line, num) == Bad(RatHints)
    ensures Addition(source, num, id, clause, hints) && exists h :: h in hints && h < 0
  {
    var ws := Tokens(source);
    var tokens := ws[1..];
    var first, last := Find(tokens, "0"), FindLast(tokens, "0");
    id, clause, hints := num(ws[0]).value, Numbers(tokens[..first], num).value, Numbers(tokens[first + 1..last], num).value;
    NumbersAreRead(tokens[..first], num, clause);
    NumbersAreRead(tokens[first + 1..last], num, hints);
    assert Reads(tokens[..first], num, clause) && Reads(tokens[first + 1..last], num, hints);
    assert Named(ws, num, id) && tokens[first] == "0" && tokens[last] == "0";
    assert AdditionAt(ws, num, first, last, id, clause, hints);
  }

  lemma BadLineIsFaulty(f: Formula, before: seq<string>, source: string, limits: Limits, num: Numerals, r: Reason)
    requires ReadLine(source, |before| + 1, num).Bad?
    ensures Faulty(f, before, source, limits, num, r) <==> r == ReadLine(source, |before| + 1, num).reason
  {
    var line := |before| + 1;
    ShapesAreRead(source, line, num);
    RatHintsAreRead(source, line, num);
    forall id, clause, hints ensures !Derives(source, num, id, clause, hints) {
      AdditionsAreRead(source, line, num, id, clause, hints);
    }
    if IsAddition(source, num) {
      AdditionShapesAreRead(source, line, num);
    }
  }

  lemma DeletionIsFaulty(f: Formula, before: seq<string>, source: string, limits: Limits, num: Numerals, clauses: LiveClauses, r: Reason)
    requires ReadLine(source, |before| + 1, num).Delete?
    ensures Faulty(f, before, source, limits, num, r) <==>
      DeleteClauses(clauses, ReadLine(source, |before| + 1, num).tokens, num).None? && r == InvalidDeletion(|before| + 1)
  {
    var line := |before| + 1;
    ShapesAreRead(source, line, num);
    RatHintsAreRead(source, line, num);
    DeletionsAreRead(source, line, num, clauses);
    forall id, clause, hints ensures !Derives(source, num, id, clause, hints) {
      AdditionsAreRead(source, line, num, id, clause, hints);
    }
  }

  lemma AdditionIsFaulty(f: Formula, before: seq<string>, source: string, limits: Limits, num: Numerals, live: LiveClauses, r: Reason)
    requires ReadLine(source, |before| + 1, num).Add? && AreLive(f, before, num, live)
    ensures var command := ReadLine(source, |before| + 1, num);
      Faulty(f, before, source, limits, num, r) <==>
        if !WithinLimits(before + [source], limits, num) then r == OperationLimit
        else !RupChain(command.clause, command.hints, live) && r == InvalidChain(|before| + 1)
  {
    var line := |before| + 1;
    var command := ReadLine(source, line, num);
    ShapesAreRead(source, line, num);
    RatHintsAreRead(source, line, num);
    AddIsNoFault(source, line, num);
    forall id, clause, hints ensures Derives(source, num, id, clause, hints) <==> command == Add(id, clause, hints) {
      AdditionsAreRead(source, line, num, id, clause, hints);
    }
    ChainsAreJustified(f, before, num, live, command.clause, command.hints);
    assert Derives(source, num, command.id, command.clause, command.hints);
  }

  lemma AddIsNoFault(source: string, line: nat, num: Numerals)
    requires ReadLine(source, line, num).Add?
    ensures IsAddition(source, num) && TwoZeros(Tokens(source)[1..])
    ensures exists id, clause, hints :: Addition(source, num, id, clause, hints)
  {
    var command := ReadLine(source, line, num);
    ShapesAreRead(source, line, num);
    AdditionShapesAreRead(source, line, num);
    ReadIsAddition(source, line, num, command.id, command.clause, command.hints);
  }

  lemma SilentIsNotFaulty(f: Formula, before: seq<string>, source: string, limits: Limits, num: Numerals, r: Reason)
    requires Silent(source)
    ensures !Faulty(f, before, source, limits, num, r)
  {
  }

  /** A line that does not pass is refused for what is wrong with it. */
  lemma LineIsRefused(f: Formula, before: seq<string>, source: string, limits: Limits, num: Numerals, s: State, r: Reason)
    requires Describes(f, before, limits, num, s)
    ensures var answer := Obey(s, ReadLine(source, |before| + 1, num), |before| + 1, limits, num);
      answer.Err? && answer.error.Rejected? && answer.error.reason == r <==> Faulty(f, before, source, limits, num, r)
  {
    var line := |before| + 1;
    match ReadLine(source, line, num) {
      case Skip =>
        ShapesAreRead(source, line, num);
        SilentIsNotFaulty(f, before, source, limits, num, r);
      case Bad(_) => BadLineIsFaulty(f, before, source, limits, num, r);
      case Delete(_) => DeletionIsFaulty(f, before, source, limits, num, s.clauses, r);
      case Add(_, _, _) =>
        CountsGrow(before, source, line, num);
        AdditionIsFaulty(f, before, source, limits, num, s.clauses, r);
    }
  }

  lemma {:induction false} AnswerStays(f: Formula, lines: seq<string>, k: nat, limits: Limits, num: Numerals)
    requires k <= |lines| && After(f, lines[..k], limits, num).Err?
    ensures After(f, lines, limits, num) == After(f, lines[..k], limits, num)
    decreases |lines|
  {
    if k < |lines| {
      var init := lines[..|lines| - 1];
      assert init[..k] == lines[..k];
      AnswerStays(f, init, k, limits, num);
    } else {
      assert lines[..k] == lines;
    }
  }

  /** Line `k` is the first that does not pass, and this is what is wrong with it. */
  ghost predicate FirstFault(f: Formula, lines: seq<string>, limits: Limits, num: Numerals, k: nat, r: Reason) {
    k < |lines| && AllAcceptable(f, lines[..k], num) && WithinLimits(lines[..k], limits, num) &&
    Faulty(f, lines[..k], lines[k], limits, num, r)
  }

  lemma FaultIsReported(f: Formula, lines: seq<string>, limits: Limits, num: Numerals, k: nat, r: Reason)
    requires FirstFault(f, lines, limits, num, k, r)
    ensures After(f, lines, limits, num).Err? && After(f, lines, limits, num).error.reason == r
  {
    var before := lines[..k];
    LinesPass(f, before, limits, num);
    LineIsRefused(f, before, lines[k], limits, num, After(f, before, limits, num).value, r);
    assert lines[..k + 1][..k] == before && lines[..k + 1][k] == lines[k];
    AnswerStays(f, lines, k + 1, limits, num);
  }

  lemma {:induction false} FaultIsFound(f: Formula, lines: seq<string>, limits: Limits, num: Numerals) returns (k: nat)
    requires After(f, lines, limits, num).Err?
    ensures FirstFault(f, lines, limits, num, k, After(f, lines, limits, num).error.reason)
  {
    var init, last := lines[..|lines| - 1], lines[|lines| - 1];
    LinesPass(f, init, limits, num);
    if After(f, init, limits, num).Ok? {
      k := |init|;
      LineIsRefused(f, init, last, limits, num, After(f, init, limits, num).value, After(f, lines, limits, num).error.reason);
    } else {
      k := FaultIsFound(f, init, limits, num);
      assert init[..k] == lines[..k] && init[k] == lines[k];
    }
  }

  /**
   A proof is refused for a reason if and only if it is too long, or that is what is wrong with its first line that does not
   pass, or all lines pass and none adds the empty clause.
   */
  lemma ProofsAreRefusedExactly(f: Formula, proof: string, limits: Limits, num: Numerals, r: Reason)
    ensures var outcome, lines := CheckProof(f, proof, limits, num), Lines(proof, 0, 0);
      outcome.Rejected? && outcome.reason == r <==>
        if Utf8Bytes(proof) > limits.maxProofBytes then r == ProofTooLong
        else (exists k :: FirstFault(f, lines, limits, num, k, r)) ||
             (r == NoEmptyClause && AllAcceptable(f, lines, num) && WithinLimits(lines, limits, num) && !DerivesEmpty(lines, num))
  {
    var lines := Lines(proof, 0, 0);
    LinesPass(f, lines, limits, num);
    CheckIsAfter(f, proof, limits, num);
    if After(f, lines, limits, num).Err? {
      var k := FaultIsFound(f, lines, limits, num);
    }
    if k :| FirstFault(f, lines, limits, num, k, r) {
      FaultIsReported(f, lines, limits, num, k, r);
    }
  }
}
