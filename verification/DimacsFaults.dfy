/**
 Which error an input is refused with, and where: the first line and the first word of it that cannot be
 read, or what is missing at the end.  Nothing here follows the reader.
 */
module DimacsFaults {
  import opened Wrappers
  import opened Cnf
  import opened HiveCnf
  import opened Dimacs
  import opened DimacsPrint
  import opened DimacsMeaning
  import opened Runs
  import opened Seqs

  // ----- one numeral -----

  predicate IsNumeral(word: Bytes, n: int) {
    word == Numeral(n)
  }

  /** Clauses ended and literals given so far. */
  function Ends(zs: seq<int>): nat {
    multiset(zs)[0]
  }

  /** After the numerals `zs` this word cannot be read. */
  ghost predicate NumeralFault(h: Dimacs.Header, zs: seq<int>, word: Bytes, kind: Kind) {
    match kind
    case NotALiteral => forall n :: !IsNumeral(word, n)
    case LiteralTooLarge => exists n :: IsNumeral(word, n) && Abs(n) > 0x7fff_ffff
    case MoreThanDeclared => IsNumeral(word, 0) && Ends(zs) == h.clauseCount
    case UndeclaredVariable => exists n :: IsNumeral(word, n) && h.variableCount < Abs(n) <= 0x7fff_ffff
    case TooManyLiteralOccurrences => exists n :: IsNumeral(word, n) && 1 <= Abs(n) <= h.variableCount && |zs| - Ends(zs) == 2_000_000
    case _ => false
  }

  lemma {:induction false} ScanCounts(zs: seq<int>)
    ensures |ScanWords(zs).clauses| == Ends(zs) && ScanWords(zs).observed == |zs| - Ends(zs)
    ensures ScanWords(zs).open == [] <==> zs == [] || zs[|zs| - 1] == 0
  {
    if zs != [] {
      ScanCounts(zs[..|zs| - 1]);
      assert zs == zs[..|zs| - 1] + [zs[|zs| - 1]];
    }
  }

  lemma LiteralFaults(word: Bytes)
    requires ParseLiteral(word).Err?
    ensures ParseLiteral(word).error.NotALiteral? || ParseLiteral(word).error.LiteralTooLarge?
    ensures ParseLiteral(word).error.NotALiteral? ==> forall n :: !IsNumeral(word, n)
    ensures ParseLiteral(word).error.LiteralTooLarge? ==> exists n :: IsNumeral(word, n) && Abs(n) > 0x7fff_ffff
  {
    forall n | IsNumeral(word, n) ensures Abs(n) > 0x7fff_ffff && ParseLiteral(word).error.LiteralTooLarge? {
      NumeralsAreExact(word, n);
      DecimalRoundTrip(Abs(n));
      assert n < 0 ==> word[1..] == Decimal(-n);
    }
    if ParseLiteral(word).error.LiteralTooLarge? {
      if IsUnsigned(word) {
        DecimalIsExact(word);
        assert IsNumeral(word, Value(word));
      } else {
        DecimalIsExact(word[1..]);
        ValueIsPositive(word[1..]);
        assert word == [MINUS] + word[1..];
        assert IsNumeral(word, 0 - Value(word[1..]) as int);
      }
    }
  }

  lemma TokenFaults(h: Dimacs.Header, zs: seq<int>, token: Token, line: nat)
    requires Fitting(h, zs) && ProcessToken(StateFor(h, zs), h, token, line).Err?
    ensures var e := ProcessToken(StateFor(h, zs), h, token, line).error;
      e == Fault(e.kind, token, line) && NumeralFault(h, zs, token.text, e.kind)
  {
    ScanCounts(zs);
    if ParseLiteral(token.text).Err? {
      LiteralFaults(token.text);
    } else {
      var n := ParseLiteral(token.text).value;
      NumeralsAreExact(token.text, n);
      assert IsNumeral(token.text, n);
    }
  }

  /** Word `w` is the first that cannot be read; the words before it are numerals that fit. */
  ghost predicate FirstBadWord(h: Dimacs.Header, xs: seq<int>, words: seq<Bytes>, w: nat, kind: Kind) {
    w < |words| && exists ys :: words[..w] == Numerals(ys) && Fitting(h, xs + ys) && NumeralFault(h, xs + ys, words[w], kind)
  }

  lemma {:induction false} TokensFault(h: Dimacs.Header, xs: seq<int>, tokens: seq<Token>, line: nat) returns (w: nat)
    requires Fitting(h, xs) && ProcessTokens(StateFor(h, xs), h, tokens, line).Err?
    ensures var e := ProcessTokens(StateFor(h, xs), h, tokens, line).error;
      w < |tokens| && e == Fault(e.kind, tokens[w], line) && FirstBadWord(h, xs, Texts(tokens), w, e.kind)
  {
    var init, last := tokens[..|tokens| - 1], tokens[|tokens| - 1];
    TextsSnoc(tokens);
    if ProcessTokens(StateFor(h, xs), h, init, line).Err? {
      w := TokensFault(h, xs, init, line);
      assert Texts(tokens)[..w] == Texts(init)[..w] && Texts(tokens)[w] == Texts(init)[w];
    } else {
      w := |init|;
      var ys := OnlyNumeralsAreRead(h, xs, init, line);
      TokenFaults(h, xs + ys, last, line);
      assert Texts(tokens)[..w] == Texts(init) && Texts(tokens)[w] == last.text;
    }
  }

  // ----- one line -----

  ghost predicate IsCount(word: Bytes, n: nat) {
    word == Decimal(n) && n <= 0x7fff_ffff
  }

  ghost predicate NotACount(word: Bytes, kind: Kind) {
    (forall n :: !IsCount(word, n)) && (kind == UnsignedTooLarge || (kind == NotUnsigned && forall n: nat :: word != Decimal(n)))
  }

  /** The shape of a first header line is tested first, then its two numbers, then their limits. */
  ghost predicate HeaderFault(words: seq<Bytes>, w: nat, kind: Kind) {
    if |words| != 4 || words[1] != CNF then w == 0 && kind == MalformedHeader
    else if forall n :: !IsCount(words[2], n) then w == 2 && NotACount(words[2], kind)
    else if forall n :: !IsCount(words[3], n) then w == 3 && NotACount(words[3], kind)
    else exists v, c :: IsCount(words[2], v) && IsCount(words[3], c) && OverLimit(v, c, w, kind)
  }

  predicate OverLimit(variables: nat, clauses: nat, w: nat, kind: Kind) {
    if variables > 2_000_000 then w == 2 && kind == TooManyVariables
    else clauses > 1_000_000 && w == 3 && kind == TooManyClausesDeclared
  }

  lemma CountFaults(word: Bytes)
    ensures ParseUnsigned(word).Err? ==> NotACount(word, ParseUnsigned(word).error)
    ensures ParseUnsigned(word).Ok? ==> IsCount(word, ParseUnsigned(word).value)
  {
    forall n: nat | word == Decimal(n) ensures n <= 0x7fff_ffff ==> ParseUnsigned(word).Ok?
      ensures !(ParseUnsigned(word) == Err(NotUnsigned))
    {
      NumeralsAreExact(word, n);
      DecimalRoundTrip(n);
    }
    if ParseUnsigned(word).Ok? {
      NumeralsAreExact(word, ParseUnsigned(word).value);
    }
  }

  lemma HeaderFaults(tokens: seq<Token>, line: nat) returns (w: nat)
    requires tokens != [] && ProcessHeader(NOTHING_READ, tokens, line).Err?
    ensures var e := ProcessHeader(NOTHING_READ, tokens, line).error;
      w < |tokens| && e == Fault(e.kind, tokens[w], line) && HeaderFault(Texts(tokens), w, e.kind)
  {
    var e := ProcessHeader(NOTHING_READ, tokens, line).error;
    var words := Texts(tokens);
    w := 0;
    if |tokens| == 4 && tokens[1].text == CNF {
      var v, c := ParseUnsigned(tokens[2].text), ParseUnsigned(tokens[3].text);
      w := if v.Err? || (c.Ok? && v.value > MAX_VARIABLES) then 2 else 3;
      assert words[1] == tokens[1].text && words[2] == tokens[2].text && words[3] == tokens[3].text;
      assert e == Fault(e.kind, tokens[w], line);
      CountFaults(words[2]);
      CountFaults(words[3]);
      NumbersFault(words, w, e.kind);
    } else {
      assert |tokens| == 4 ==> words[1] == tokens[1].text;
    }
  }

  lemma NumbersFault(words: seq<Bytes>, w: nat, kind: Kind)
    requires |words| == 4 && words[1] == CNF
    requires var v, c := ParseUnsigned(words[2]), ParseUnsigned(words[3]);
      && (v.Err? ==> NotACount(words[2], v.error)) && (v.Ok? ==> IsCount(words[2], v.value))
      && (c.Err? ==> NotACount(words[3], c.error)) && (c.Ok? ==> IsCount(words[3], c.value))
      && if v.Err? then w == 2 && kind == v.error else if c.Err? then w == 3 && kind == c.error else OverLimit(v.value, c.value, w, kind)
    ensures HeaderFault(words, w, kind)
  {
  }

  /** After lines with this content, word `w` is the first of its line that cannot be read. */
  ghost predicate WordFault(content: seq<seq<Bytes>>, words: seq<Bytes>, w: nat, kind: Kind)
    requires words != []
  {
    if words[0] == [LETTER_P] then
      if content == [] then HeaderFault(words, w, kind) else w == 0 && kind == SecondHeader
    else if content == [] then w == 0 && kind == NoHeaderYet
    else exists h, xs :: Headed(content, h, xs) && FirstBadWord(h, xs, words, w, kind)
  }

  lemma WordsFault(content: seq<seq<Bytes>>, before: Parser, tokens: seq<Token>, line: nat) returns (w: nat)
    requires Means(content, before) && tokens != [] && ProcessWords(before, tokens, line).Err?
    ensures var e := ProcessWords(before, tokens, line).error;
      w < |tokens| && e == Fault(e.kind, tokens[w], line) && WordFault(content, Texts(tokens), w, e.kind)
  {
    w := 0;
    assert Texts(tokens)[0] == tokens[0].text;
    if content == [] {
      if tokens[0].text == [LETTER_P] {
        w := HeaderFaults(tokens, line);
      }
    } else {
      var h, xs :| Headed(content, h, xs) && before == StateFor(h, xs);
      if tokens[0].text != [LETTER_P] {
        w := TokensFault(h, xs, tokens, line);
      }
    }
  }

  // ----- the first line that cannot be read -----

  predicate IsFirstStrange(line: Bytes, i: nat) {
    i < |line| && line[i] > 0x7f && forall k :: 0 <= k < i ==> line[k] <= 0x7f
  }

  /** The error names a byte that is not ASCII, or else a word by its first byte. */
  ghost predicate InLine(content: seq<seq<Bytes>>, line: Bytes, start: nat, e: ParseError) {
    if !IsAscii(line) then exists i: nat :: IsFirstStrange(line, i) && e == ParseError(NotAscii, e.line, i + 1, start + i)
    else !Skipped(line) && exists runs: seq<Span>, w: nat ::
      && AllRuns(IsHorizontalWhitespace, line, 0, runs) && w < |runs| && w < |LineWords(line)|
      && e == ParseError(e.kind, e.line, runs[w].0 + 1, start + runs[w].0)
      && WordFault(content, LineWords(line), w, e.kind)
  }

  lemma LineFaults(content: seq<seq<Bytes>>, before: Parser, line: Bytes, start: nat, number: nat)
    requires Means(content, before) && ProcessLine(before, line, start, number).Err?
    ensures var e := ProcessLine(before, line, start, number).error;
      e.line == number && InLine(content, line, start, e)
  {
    var e := ProcessLine(before, line, start, number).error;
    var i := FirstNonAscii(line);
    assert forall k :: 0 <= k < i ==> line[..i][k] == line[k];
    if i < |line| {
      assert IsFirstStrange(line, i) && !IsAscii(line);
    } else {
      assert line[..i] == line;
      if Skipped(line) {
        SkippedMeans(before, line, start, number);
      }
      var tokens := Words(line, start);
      LineWordsAreExact(line, start, []);
      assert tokens[0].text == LineWords(line)[0];
      var w := WordsFault(content, before, tokens, number);
      var runs := TokensArePlaced(line, start);
      assert AllRuns(IsHorizontalWhitespace, line, 0, runs) && w < |runs| && tokens[w].column == runs[w].0 + 1;
    }
  }

  /** Where line `k` begins: behind the earlier lines and their line feeds. */
  function LineStart(lines: seq<Bytes>, k: nat): nat
    requires k <= |lines|
  {
    if k == 0 then 0 else LineStart(lines, k - 1) + |lines[k - 1]| + 1
  }

  lemma {:induction false} LineStartPrefix(lines: seq<Bytes>, more: seq<Bytes>, k: nat)
    requires k <= |lines|
    ensures LineStart(lines + more, k) == LineStart(lines, k)
  {
    if k > 0 {
      LineStartPrefix(lines, more, k - 1);
    }
  }

  ghost predicate Legible(lines: seq<Bytes>) {
    AllAscii(lines) && exists p :: Means(Content(lines), p)
  }

  /** All lines before `k` can be read, and this is what is wrong with line `k`. */
  ghost predicate FirstFaultyLine(lines: seq<Bytes>, k: nat, e: ParseError) {
    k < |lines| && Legible(lines[..k]) && e.line == k + 1 && InLine(Content(lines[..k]), lines[k], LineStart(lines, k), e)
  }

  /** Some line is the first faulty one. */
  ghost predicate SomeLineFaulty(lines: seq<Bytes>, e: ParseError) {
    exists k: nat :: FirstFaultyLine(lines, k, e)
  }

  lemma {:induction false} CursorAfter(lines: seq<Bytes>)
    requires RunLines(lines).Ok?
    ensures RunLines(lines).value.line == |lines| + 1 && RunLines(lines).value.lineOffset == LineStart(lines, |lines|)
    ensures Legible(lines) && Means(Content(lines), RunLines(lines).value.parser)
  {
    LinesMean(lines, RunLines(lines).value.parser);
    if lines != [] {
      var init, last := lines[..|lines| - 1], lines[|lines| - 1];
      CursorAfter(init);
      assert lines == init + [last];
      LineStartPrefix(init, [last], |init|);
    }
  }

  lemma FaultyLonger(init: seq<Bytes>, more: seq<Bytes>, e: ParseError)
    requires SomeLineFaulty(init, e)
    ensures SomeLineFaulty(init + more, e)
  {
    var k: nat :| FirstFaultyLine(init, k, e);
    assert (init + more)[..k] == init[..k];
    LineStartPrefix(init, more, k);
    assert FirstFaultyLine(init + more, k, e);
  }

  lemma LastLineFaulty(init: seq<Bytes>, last: Bytes, e: ParseError)
    requires RunLines(init).Ok?
    requires var s := RunLines(init).value; ProcessLine(s.parser, last, s.lineOffset, s.line) == Err(e)
    ensures SomeLineFaulty(init + [last], e)
  {
    var s, lines, k := RunLines(init).value, init + [last], |init|;
    CursorAfter(init);
    LineFaults(Content(init), s.parser, last, s.lineOffset, s.line);
    assert lines[..k] == init;
    LineStartPrefix(init, [last], k);
    assert FirstFaultyLine(lines, k, e);
  }

  lemma {:induction false} LinesFault(lines: seq<Bytes>, e: ParseError)
    requires RunLines(lines) == Err(e)
    ensures SomeLineFaulty(lines, e)
  {
    var init, last := lines[..|lines| - 1], lines[|lines| - 1];
    assert lines == init + [last];
    if RunLines(init).Err? {
      LinesFault(init, e);
      FaultyLonger(init, [last], e);
    } else {
      LastLineFaulty(init, last, e);
    }
  }

  // ----- the end of the input -----

  /** All lines can be read, but the header is missing, the last clause is not ended, or there are too few clauses. */
  ghost predicate EndFault(lines: seq<Bytes>, total: nat, e: ParseError)
    requires lines != []
  {
    var n := |lines|;
    Legible(lines) &&
    if Content(lines) == [] then e == ParseError(MissingHeader, n, 1, LineStart(lines, n - 1))
    else exists h, xs :: Headed(Content(lines), h, xs) && Incomplete(h, xs, e.kind) && e == ParseError(e.kind, n, |lines[n - 1]| + 1, total)
  }

  predicate Incomplete(h: Dimacs.Header, xs: seq<int>, kind: Kind) {
    if xs != [] && xs[|xs| - 1] != 0 then kind == MissingZero else Ends(xs) < h.clauseCount && kind == CountMismatch
  }

  lemma EndFaults(lines: seq<Bytes>, s: Cursor, p: Parser, total: nat)
    requires lines != [] && Legible(lines) && Means(Content(lines), p) && s.line == |lines| && s.lineOffset == LineStart(lines, |lines| - 1)
    requires Conclude(s, p, |lines[|lines| - 1]|, total).Err?
    ensures EndFault(lines, total, Conclude(s, p, |lines[|lines| - 1]|, total).error)
  {
    if Content(lines) != [] {
      var h, xs :| Headed(Content(lines), h, xs) && p == StateFor(h, xs);
      ScanCounts(xs);
      assert Headed(Content(lines), h, xs) && Incomplete(h, xs, Conclude(s, p, |lines[|lines| - 1]|, total).error.kind);
    }
  }

  /** The first faulty line, or what is missing at the end. */
  ghost predicate Refused(lines: seq<Bytes>, total: nat, e: ParseError)
    requires lines != []
  {
    if Legible(lines) then EndFault(lines, total, e) else SomeLineFaulty(lines, e)
  }

  lemma LastLineFails(init: seq<Bytes>, last: Bytes, total: nat, e: ParseError)
    requires RunLines(init).Ok? && Advance(RunLines(init).value, last) == Err(e)
    ensures Refused(init + [last], total, e)
  {
    TakeBack(init, [last]);
    LastLineFaulty(init, last, e);
    NotLegible(init + [last]);
  }

  lemma EndFails(init: seq<Bytes>, last: Bytes, p: Parser, total: nat)
    requires RunLines(init).Ok?
    requires var s := RunLines(init).value; ProcessLine(s.parser, last, s.lineOffset, s.line) == Ok(p) && Conclude(s, p, |last|, total).Err?
    ensures Refused(init + [last], total, Conclude(RunLines(init).value, p, |last|, total).error)
  {
    var s, lines := RunLines(init).value, init + [last];
    TakeBack(init, [last]);
    CursorAfter(init);
    LineStartPrefix(init, [last], |init|);
    LinesMean(lines, p);
    EndFaults(lines, s, p, total);
  }

  lemma EarlierLineFails(init: seq<Bytes>, last: Bytes, total: nat, e: ParseError)
    requires RunLines(init) == Err(e)
    ensures Refused(init + [last], total, e)
  {
    TakeBack(init, [last]);
    LinesFault(init, e);
    FaultyLonger(init, [last], e);
    NotLegible(init + [last]);
  }

  /** A refused input is refused for its first faulty line, at the word or byte that is wrong, or for what is missing at its end. */
  lemma InputsAreRefusedExactly(bytes: Bytes)
    requires Parse(bytes).Err?
    ensures Refused(Split(bytes), |bytes|, Parse(bytes).error)
  {
    var lines := Split(bytes);
    Whole(lines);
    if RunLines(Finished(lines)).Err? {
      EarlierLineFails(Finished(lines), lines[|lines| - 1], |bytes|, Parse(bytes).error);
    } else {
      EndIsReported(Finished(lines), lines[|lines| - 1], |bytes|, Parse(bytes).error);
    }
  }

  lemma EndIsReported(init: seq<Bytes>, last: Bytes, total: nat, e: ParseError)
    requires RunLines(init).Ok? && Finish(RunLines(init).value, last, total) == Err(e)
    ensures Refused(init + [last], total, e)
  {
    var s := RunLines(init).value;
    NoWordsInNothing(s.parser, s.lineOffset, s.line);
    var r := ProcessLine(s.parser, last, s.lineOffset, s.line);
    if r.Err? {
      LastLineFails(init, last, total, e);
    } else {
      EndFails(init, last, r.value, total);
    }
  }

  lemma NotLegible(lines: seq<Bytes>)
    requires RunLines(lines).Err?
    ensures !Legible(lines)
  {
    forall p ensures !(AllAscii(lines) && Means(Content(lines), p)) {
      LinesMean(lines, p);
    }
  }
}
