/**
 Which inputs the DIMACS reader accepts, and as which formula, said without following it: all bytes
 are ASCII; leaving out blank lines and comments there is one header line, and the words of the lines
 after it, however they are broken into lines, are the literals of the clauses, each clause ended by 0.
 */
module DimacsMeaning {
  import opened Wrappers
  import opened Cnf
  import opened HiveCnf
  import opened Dimacs
  import opened DimacsPrint
  import opened Runs
  import opened Seqs

  // ----- the words of a line -----

  predicate PlacedAt(bytes: Bytes, lineOffset: nat, runs: seq<Span>, tokens: seq<Token>) {
    |tokens| == |runs| && forall i :: 0 <= i < |runs| ==>
      runs[i].0 <= runs[i].1 <= |bytes| &&
      tokens[i] == Token(bytes[runs[i].0..runs[i].1], runs[i].0 + 1, lineOffset + runs[i].0)
  }

  lemma PlacedStill(bytes: Bytes, b: Byte, lineOffset: nat, runs: seq<Span>, tokens: seq<Token>)
    requires PlacedAt(bytes, lineOffset, runs, tokens)
    ensures PlacedAt(bytes + [b], lineOffset, runs, tokens)
  {
    forall i | 0 <= i < |runs| ensures (bytes + [b])[runs[i].0..runs[i].1] == bytes[runs[i].0..runs[i].1] {
    }
  }

  lemma PlacedMore(bytes: Bytes, b: Byte, lineOffset: nat, runs: seq<Span>, tokens: seq<Token>)
    requires PlacedAt(bytes, lineOffset, runs, tokens)
    ensures PlacedAt(bytes + [b], lineOffset, runs + [(|bytes|, |bytes| + 1)], tokens + [Token([b], |bytes| + 1, lineOffset + |bytes|)])
  {
    PlacedStill(bytes, b, lineOffset, runs, tokens);
    assert (bytes + [b])[|bytes|..|bytes| + 1] == [b];
  }

  lemma PlacedLonger(bytes: Bytes, b: Byte, lineOffset: nat, runs: seq<Span>, tokens: seq<Token>)
    requires PlacedAt(bytes, lineOffset, runs, tokens) && runs != [] && runs[|runs| - 1].1 == |bytes|
    ensures var last := |runs| - 1;
      PlacedAt(bytes + [b], lineOffset, runs[..last] + [(runs[last].0, |bytes| + 1)],
               tokens[..last] + [tokens[last].(text := tokens[last].text + [b])])
  {
    PlacedStill(bytes, b, lineOffset, runs, tokens);
    var start := runs[|runs| - 1].0;
    assert (bytes + [b])[start..|bytes| + 1] == bytes[start..|bytes|] + [b];
  }

  /** The tokens of a line are its maximal runs without whitespace, with their columns and offsets. */
  lemma {:induction false} TokensArePlaced(bytes: Bytes, lineOffset: nat) returns (runs: seq<Span>)
    ensures AllRuns(IsHorizontalWhitespace, bytes, 0, runs) && PlacedAt(bytes, lineOffset, runs, Words(bytes, lineOffset))
  {
    if bytes == [] {
      runs := [];
    } else {
      var before, b := bytes[..|bytes| - 1], bytes[|bytes| - 1];
      var init := TokensArePlaced(before, lineOffset);
      runs := AnotherByte(before, b, lineOffset, init, Words(before, lineOffset));
      Whole(bytes);
    }
  }

  lemma AnotherByte(before: Bytes, b: Byte, lineOffset: nat, init: seq<Span>, tokens: seq<Token>) returns (runs: seq<Span>)
    requires AllRuns(IsHorizontalWhitespace, before, 0, init) && PlacedAt(before, lineOffset, init, tokens)
    ensures AllRuns(IsHorizontalWhitespace, before + [b], 0, runs)
    ensures PlacedAt(before + [b], lineOffset, runs, AddByte(tokens, before, b, lineOffset))
  {
    if IsHorizontalWhitespace(b) {
      RunsThenSpace(IsHorizontalWhitespace, before, b, init);
      PlacedStill(before, b, lineOffset, init, tokens);
      runs := init;
    } else if before == [] || IsHorizontalWhitespace(before[|before| - 1]) {
      RunStarts(IsHorizontalWhitespace, before, b, init);
      PlacedMore(before, b, lineOffset, init, tokens);
      runs := init + [(|before|, |before| + 1)];
    } else {
      runs := RunLengthens(IsHorizontalWhitespace, before, b, init);
      PlacedLonger(before, b, lineOffset, init, tokens);
    }
  }

  function LineWords(line: Bytes): seq<Bytes> {
    Texts(Words(line, 0))
  }

  /** The words of a line are exactly its maximal runs without whitespace, wherever the line stands. */
  lemma LineWordsAreExact(line: Bytes, lineOffset: nat, words: seq<Bytes>)
    ensures AreWords(IsHorizontalWhitespace, line, words) <==> words == LineWords(line)
    ensures Texts(Words(line, lineOffset)) == LineWords(line)
  {
    var runs := TokensArePlaced(line, 0);
    var runs' := TokensArePlaced(line, lineOffset);
    assert SlicesAt(line, runs, LineWords(line)) && SlicesAt(line, runs', Texts(Words(line, lineOffset)));
    WordsAreUnique(IsHorizontalWhitespace, line, LineWords(line), Texts(Words(line, lineOffset)));
    if AreWords(IsHorizontalWhitespace, line, words) {
      WordsAreUnique(IsHorizontalWhitespace, line, LineWords(line), words);
    }
  }

  // ----- numerals -----

  lemma {:induction false} DecimalIsExact(t: Bytes)
    requires IsUnsigned(t)
    ensures t == Decimal(Value(t))
  {
    var init, last := t[..|t| - 1], t[|t| - 1];
    assert t == init + [last];
    if init == [] {
      assert Value([]) == 0;
    } else {
      assert IsUnsigned(init) by {
        assert init[0] == t[0];
      }
      DecimalIsExact(init);
      ValueIsPositive(init);
    }
  }

  lemma {:induction false} ValueIsPositive(t: Bytes)
    requires IsUnsigned(t) && t[0] != ZERO
    ensures Value(t) >= 1
  {
    if |t| > 1 {
      assert t[..|t| - 1][0] == t[0];
      ValueIsPositive(t[..|t| - 1]);
    } else {
      assert Value(t[..0]) == 0;
    }
  }

  /** A word stands for a number if and only if it is that number's decimal numeral, in 31 bits. */
  lemma NumeralsAreExact(t: Bytes, n: int)
    ensures ParseLiteral(t) == Ok(n) <==> t == Numeral(n) && Abs(n) <= 0x7fff_ffff
    ensures n >= 0 ==> (ParseUnsigned(t) == Ok(n) <==> t == Decimal(n) && n <= 0x7fff_ffff)
  {
    if Abs(n) <= 0x7fff_ffff {
      NumeralRoundTrip(n);
      DecimalRoundTrip(Abs(n));
    }
    if IsUnsigned(t) {
      DecimalIsExact(t);
    } else if |t| > 1 && t[0] == MINUS && IsUnsigned(t[1..]) && t[1] != ZERO {
      DecimalIsExact(t[1..]);
      ValueIsPositive(t[1..]);
      assert t == [MINUS] + t[1..];
    }
  }

  // ----- the numerals after the header -----

  /** The reader's state after the header and some numerals. */
  function StateFor(h: Dimacs.Header, xs: seq<int>): Parser {
    var s := ScanWords(xs);
    Parser(Some(h), s.clauses, s.open, s.observed)
  }

  /** As many clauses as declared at most, variables in range, and the occurrence limit kept. */
  predicate Fitting(h: Dimacs.Header, xs: seq<int>) {
    h.variableCount <= MAX_VARIABLES && h.clauseCount <= MAX_CLAUSES && |ScanWords(xs).clauses| <= h.clauseCount &&
    ScanWords(xs).observed <= MAX_LITERAL_OCCURRENCES && Bounded(xs, h.variableCount)
  }

  predicate Bounded(xs: seq<int>, bound: nat) {
    forall i :: 0 <= i < |xs| ==> Abs(xs[i]) <= bound
  }

  lemma BoundedSnoc(xs: seq<int>, x: int, bound: nat)
    ensures Bounded(xs + [x], bound) <==> Bounded(xs, bound) && Abs(x) <= bound
  {
    var all := xs + [x];
    assert all[|xs|] == x && forall i :: 0 <= i < |xs| ==> all[i] == xs[i];
  }

  predicate HasRoom(h: Dimacs.Header, s: Scan, x: int) {
    if x == 0 then |s.clauses| < h.clauseCount else s.observed < MAX_LITERAL_OCCURRENCES
  }

  lemma FittingSnoc(h: Dimacs.Header, xs: seq<int>, x: int)
    ensures Fitting(h, xs + [x]) <==> Fitting(h, xs) && Abs(x) <= h.variableCount && HasRoom(h, ScanWords(xs), x)
  {
    ScanSnoc(xs, x);
    BoundedSnoc(xs, x, h.variableCount);
  }

  lemma {:induction false} FittingShrinks(h: Dimacs.Header, xs: seq<int>, ys: seq<int>)
    requires Fitting(h, xs + ys)
    ensures Fitting(h, xs)
    decreases |ys|
  {
    if ys == [] {
      Empty(xs);
    } else {
      var init, last := ys[..|ys| - 1], ys[|ys| - 1];
      InitAndLast(xs, ys);
      FittingSnoc(h, xs + init, last);
      FittingShrinks(h, xs, init);
    }
  }

  lemma NumeralMeans(h: Dimacs.Header, xs: seq<int>, token: Token, line: nat, x: int)
    requires Fitting(h, xs) && ParseLiteral(token.text) == Ok(x)
    ensures ProcessToken(StateFor(h, xs), h, token, line).Ok? <==> Fitting(h, xs + [x])
    ensures Fitting(h, xs + [x]) ==> ProcessToken(StateFor(h, xs), h, token, line) == Ok(StateFor(h, xs + [x]))
  {
    ScanSnoc(xs, x);
    FittingSnoc(h, xs, x);
  }

  lemma TokenMeans(h: Dimacs.Header, xs: seq<int>, token: Token, line: nat, p: Parser)
    requires Fitting(h, xs)
    ensures ProcessToken(StateFor(h, xs), h, token, line) == Ok(p) <==>
      exists x :: token.text == Numeral(x) && Fitting(h, xs + [x]) && p == StateFor(h, xs + [x])
  {
    if ParseLiteral(token.text).Ok? {
      var x := ParseLiteral(token.text).value;
      NumeralsAreExact(token.text, x);
      NumeralMeans(h, xs, token, line, x);
    }
    forall x | token.text == Numeral(x) && Fitting(h, xs + [x])
      ensures ProcessToken(StateFor(h, xs), h, token, line) == Ok(StateFor(h, xs + [x]))
    {
      FittingSnoc(h, xs, x);
      NumeralsAreExact(token.text, x);
      NumeralMeans(h, xs, token, line, x);
    }
  }

  // ----- lists of numerals -----

  lemma NumeralsSnoc(xs: seq<int>, x: int)
    ensures Numerals(xs + [x]) == Numerals(xs) + [Numeral(x)]
  {
    TakeBack(xs, [x]);
  }

  lemma {:induction false} NumeralsAppend(xs: seq<int>, ys: seq<int>)
    ensures Numerals(xs + ys) == Numerals(xs) + Numerals(ys)
    decreases |ys|
  {
    if ys == [] {
      Empty(xs);
      Empty(Numerals(xs));
    } else {
      var init, last := ys[..|ys| - 1], ys[|ys| - 1];
      NumeralsAppend(xs, init);
      NumeralsSnoc(xs + init, last);
      InitAndLast(xs, ys);
      Associates(Numerals(xs), Numerals(init), [Numeral(last)]);
    }
  }

  /** Words that are numerals in front of others are the numerals of a prefix. */
  lemma NumeralsSplit(a: seq<Bytes>, b: seq<Bytes>, xs: seq<int>) returns (left: seq<int>, right: seq<int>)
    requires a + b == Numerals(xs)
    ensures xs == left + right && a == Numerals(left) && b == Numerals(right)
  {
    left, right := xs[..|a|], xs[|a|..];
    assert xs == left + right;
    NumeralsAppend(left, right);
    TakeBack(a, b);
    TakeBack(Numerals(left), Numerals(right));
  }

  lemma TextsSnoc(tokens: seq<Token>)
    requires tokens != []
    ensures Texts(tokens) == Texts(tokens[..|tokens| - 1]) + [tokens[|tokens| - 1].text]
  {
  }

  /** Numerals that fit are read, one after the other. */
  lemma {:induction false} NumeralsAreRead(h: Dimacs.Header, xs: seq<int>, tokens: seq<Token>, line: nat, ys: seq<int>)
    requires Texts(tokens) == Numerals(ys) && Fitting(h, xs + ys)
    ensures ProcessTokens(StateFor(h, xs), h, tokens, line) == Ok(StateFor(h, xs + ys))
    decreases |tokens|
  {
    if tokens == [] {
      assert ys == [];
      Empty(xs);
    } else {
      var init, last := tokens[..|tokens| - 1], tokens[|tokens| - 1];
      var zs, y := ys[..|ys| - 1], ys[|ys| - 1];
      TextsSnoc(tokens);
      Whole(ys);
      NumeralsSnoc(zs, y);
      Associates(xs, zs, [y]);
      TakeBack(Texts(init), [last.text]);
      TakeBack(Numerals(zs), [Numeral(y)]);
      FittingShrinks(h, xs + zs, [y]);
      NumeralsAreRead(h, xs, init, line, zs);
      TokenMeans(h, xs + zs, last, line, StateFor(h, xs + ys));
    }
  }

  /** Nothing else is. */
  lemma {:induction false} OnlyNumeralsAreRead(h: Dimacs.Header, xs: seq<int>, tokens: seq<Token>, line: nat) returns (ys: seq<int>)
    requires Fitting(h, xs) && ProcessTokens(StateFor(h, xs), h, tokens, line).Ok?
    ensures Texts(tokens) == Numerals(ys) && Fitting(h, xs + ys)
    ensures ProcessTokens(StateFor(h, xs), h, tokens, line) == Ok(StateFor(h, xs + ys))
    decreases |tokens|
  {
    if tokens == [] {
      ys := [];
      Empty(xs);
    } else {
      var init, last := tokens[..|tokens| - 1], tokens[|tokens| - 1];
      var zs := OnlyNumeralsAreRead(h, xs, init, line);
      TokenMeans(h, xs + zs, last, line, ProcessTokens(StateFor(h, xs), h, tokens, line).value);
      var y :| last.text == Numeral(y) && Fitting(h, xs + zs + [y]) &&
        ProcessTokens(StateFor(h, xs), h, tokens, line).value == StateFor(h, xs + zs + [y]);
      ys := zs + [y];
      TextsSnoc(tokens);
      Associates(xs, zs, [y]);
      NumeralsSnoc(zs, y);
    }
  }

  // ----- the lines -----

  /** Blank lines and comments. */
  predicate Skipped(line: Bytes) {
    LineWords(line) == [] || LineWords(line)[0] == [LETTER_C]
  }

  /** The words of the lines that are neither blank nor comments. */
  function Content(lines: seq<Bytes>): seq<seq<Bytes>> {
    if lines == [] then [] else
      var last := lines[|lines| - 1];
      Content(lines[..|lines| - 1]) + if Skipped(last) then [] else [LineWords(last)]
  }

  function Flat(content: seq<seq<Bytes>>): seq<Bytes> {
    if content == [] then [] else Flat(content[..|content| - 1]) + content[|content| - 1]
  }

  predicate AllAscii(lines: seq<Bytes>) {
    forall i :: 0 <= i < |lines| ==> IsAscii(lines[i])
  }

  const NOTHING_READ := Parser(None, [], [], 0)

  /** A header line, then numerals that fit it. */
  predicate Headed(content: seq<seq<Bytes>>, h: Dimacs.Header, xs: seq<int>) {
    content != [] && content[0] == HeaderWords(h.variableCount, h.clauseCount) && Flat(content[1..]) == Numerals(xs) && Fitting(h, xs)
  }

  ghost predicate Means(content: seq<seq<Bytes>>, p: Parser) {
    if content == [] then p == NOTHING_READ
    else exists h, xs :: Headed(content, h, xs) && p == StateFor(h, xs)
  }

  lemma ContentSnoc(lines: seq<Bytes>, last: Bytes)
    ensures Content(lines + [last]) == Content(lines) + if Skipped(last) then [] else [LineWords(last)]
  {
    TakeBack(lines, [last]);
  }

  lemma FlatSnoc(content: seq<seq<Bytes>>, words: seq<Bytes>)
    ensures Flat(content + [words]) == Flat(content) + words
  {
    TakeBack(content, [words]);
  }

  /** A header line is read exactly when it is the printed one, within the limits. */
  lemma HeaderMeans(tokens: seq<Token>, line: nat, p: Parser)
    requires tokens != [] && tokens[0].text == [LETTER_P]
    ensures ProcessHeader(NOTHING_READ, tokens, line) == Ok(p) <==>
      exists h: Dimacs.Header :: Texts(tokens) == HeaderWords(h.variableCount, h.clauseCount) && Fitting(h, []) && p == StateFor(h, [])
  {
    if ProcessHeader(NOTHING_READ, tokens, line) == Ok(p) {
      var h := p.header.value;
      NumeralsAreExact(tokens[2].text, h.variableCount);
      NumeralsAreExact(tokens[3].text, h.clauseCount);
      assert Texts(tokens) == HeaderWords(h.variableCount, h.clauseCount) && Fitting(h, []) && p == StateFor(h, []);
    }
    forall h: Dimacs.Header | Texts(tokens) == HeaderWords(h.variableCount, h.clauseCount) && Fitting(h, [])
      ensures ProcessHeader(NOTHING_READ, tokens, line) == Ok(StateFor(h, []))
    {
      PrintedHeaderIsRead(tokens, line, h);
    }
  }

  lemma PrintedHeaderIsRead(tokens: seq<Token>, line: nat, h: Dimacs.Header)
    requires Texts(tokens) == HeaderWords(h.variableCount, h.clauseCount) && Fitting(h, [])
    ensures ProcessHeader(NOTHING_READ, tokens, line) == Ok(StateFor(h, []))
  {
    var words := HeaderWords(h.variableCount, h.clauseCount);
    assert |tokens| == |words| && forall i :: 0 <= i < 4 ==> tokens[i].text == words[i];
    NumeralsAreExact(tokens[2].text, h.variableCount);
    NumeralsAreExact(tokens[3].text, h.clauseCount);
  }

  /** The first line that is neither blank nor a comment must be a header. */
  lemma FirstLineMeans(tokens: seq<Token>, line: nat, p: Parser)
    requires tokens != [] && tokens[0].text != [LETTER_C]
    ensures ProcessWords(NOTHING_READ, tokens, line) == Ok(p) <==> Means([Texts(tokens)], p)
  {
    var content := [Texts(tokens)];
    assert Flat(content[1..]) == [];
    if tokens[0].text == [LETTER_P] {
      HeaderMeans(tokens, line, p);
      if h: Dimacs.Header :| Texts(tokens) == HeaderWords(h.variableCount, h.clauseCount) && Fitting(h, []) && p == StateFor(h, []) {
        assert Headed(content, h, []);
      }
    }
    forall h, xs | Headed(content, h, xs) ensures xs == [] && tokens[0].text == [LETTER_P] {
      assert |Numerals(xs)| == 0;
      assert Texts(tokens)[0] == HeaderWords(h.variableCount, h.clauseCount)[0];
    }
  }

  lemma NumeralIsNoLetter(x: int)
    ensures Numeral(x) != [LETTER_P] && Numeral(x) != [LETTER_C]
  {
    NumeralVisible(x);
  }

  lemma MoreContent(content: seq<seq<Bytes>>, words: seq<Bytes>, h: Dimacs.Header, xs: seq<int>, ys: seq<int>)
    requires Headed(content, h, xs) && words == Numerals(ys) && Fitting(h, xs + ys)
    ensures Headed(content + [words], h, xs + ys)
  {
    var all := content + [words];
    assert all[1..] == content[1..] + [words];
    FlatSnoc(content[1..], words);
    NumeralsAppend(xs, ys);
  }

  lemma LessContent(content: seq<seq<Bytes>>, words: seq<Bytes>, h: Dimacs.Header, zs: seq<int>) returns (xs: seq<int>, ys: seq<int>)
    requires content != [] && Headed(content + [words], h, zs)
    ensures Headed(content, h, xs) && words == Numerals(ys) && zs == xs + ys
  {
    var all := content + [words];
    assert all[1..] == content[1..] + [words];
    FlatSnoc(content[1..], words);
    xs, ys := NumeralsSplit(Flat(content[1..]), words, zs);
    FittingShrinks(h, xs, ys);
  }

  /** A later line is read exactly when its words are numerals that still fit. */
  lemma LaterLineMeans(content: seq<seq<Bytes>>, h: Dimacs.Header, xs: seq<int>, tokens: seq<Token>, line: nat, p: Parser)
    requires Headed(content, h, xs) && tokens != [] && tokens[0].text != [LETTER_C]
    requires forall h', xs' :: Headed(content, h', xs') ==> h' == h && xs' == xs
    ensures ProcessWords(StateFor(h, xs), tokens, line) == Ok(p) <==> Means(content + [Texts(tokens)], p)
  {
    if ProcessWords(StateFor(h, xs), tokens, line) == Ok(p) {
      var ys := OnlyNumeralsAreRead(h, xs, tokens, line);
      MoreContent(content, Texts(tokens), h, xs, ys);
    }
    if Means(content + [Texts(tokens)], p) {
      var h', zs :| Headed(content + [Texts(tokens)], h', zs) && p == StateFor(h', zs);
      var xs', ys := LessContent(content, Texts(tokens), h', zs);
      NumeralsAreRead(h, xs, tokens, line, ys);
      NumeralIsNoLetter(ys[0]);
      NumeralsHead(ys);
    }
  }

  lemma {:induction false} NumeralsHead(ys: seq<int>)
    requires ys != []
    ensures Numerals(ys)[0] == Numeral(ys[0])
  {
    if |ys| > 1 {
      NumeralsHead(ys[..|ys| - 1]);
    }
  }

  lemma {:induction false} NumeralsAt(ys: seq<int>, i: nat)
    requires i < |ys|
    ensures Numerals(ys)[i] == Numeral(ys[i])
  {
    if i < |ys| - 1 {
      NumeralsAt(ys[..|ys| - 1], i);
    }
  }

  lemma NumeralsAreInjective(xs: seq<int>, ys: seq<int>, bound: nat)
    requires Numerals(xs) == Numerals(ys) && Bounded(xs, bound) && Bounded(ys, bound) && bound <= 0x7fff_ffff
    ensures xs == ys
  {
    forall i | 0 <= i < |xs| ensures xs[i] == ys[i] {
      NumeralsAt(xs, i);
      NumeralsAt(ys, i);
      NumeralRoundTrip(xs[i]);
      NumeralRoundTrip(ys[i]);
    }
  }

  lemma HeadedOnce(content: seq<seq<Bytes>>, h: Dimacs.Header, xs: seq<int>, h': Dimacs.Header, xs': seq<int>)
    requires Headed(content, h, xs) && Headed(content, h', xs')
    ensures h' == h && xs' == xs
  {
    var words := HeaderWords(h.variableCount, h.clauseCount);
    assert words[2] == HeaderWords(h'.variableCount, h'.clauseCount)[2];
    assert words[3] == HeaderWords(h'.variableCount, h'.clauseCount)[3];
    DecimalRoundTrip(h.variableCount);
    DecimalRoundTrip(h'.variableCount);
    DecimalRoundTrip(h.clauseCount);
    DecimalRoundTrip(h'.clauseCount);
    NumeralsAreInjective(xs, xs', h.variableCount);
  }

  lemma LineMeans(content: seq<seq<Bytes>>, before: Parser, line: Bytes, s: Cursor, p: Parser)
    requires Means(content, before) && IsAscii(line) && !Skipped(line)
    ensures ProcessLine(before, line, s.lineOffset, s.line) == Ok(p) <==> Means(content + [LineWords(line)], p)
  {
    var tokens := Words(line, s.lineOffset);
    LineWordsAreExact(line, s.lineOffset, []);
    assert Texts(tokens) == LineWords(line);
    assert tokens[0].text == LineWords(line)[0];
    assert FirstNonAscii(line) == |line|;
    if content == [] {
      assert [] + [Texts(tokens)] == [Texts(tokens)];
      FirstLineMeans(tokens, s.line, p);
    } else {
      var h, xs :| Headed(content, h, xs) && before == StateFor(h, xs);
      forall h', xs' | Headed(content, h', xs') ensures h' == h && xs' == xs {
        HeadedOnce(content, h, xs, h', xs');
      }
      LaterLineMeans(content, h, xs, tokens, s.line, p);
    }
  }

  /** A blank line or comment is read without effect. */
  lemma SkippedMeans(before: Parser, line: Bytes, lineOffset: nat, number: nat)
    requires IsAscii(line) && Skipped(line)
    ensures ProcessLine(before, line, lineOffset, number) == Ok(before)
  {
    var tokens := Words(line, lineOffset);
    LineWordsAreExact(line, lineOffset, []);
    assert tokens != [] ==> tokens[0].text == LineWords(line)[0];
    assert FirstNonAscii(line) == |line|;
  }

  lemma NotAsciiFails(before: Parser, line: Bytes, lineOffset: nat, number: nat)
    requires !IsAscii(line)
    ensures ProcessLine(before, line, lineOffset, number).Err?
  {
    assert line[..|line|] == line;
  }

  /** What was read means something up to every earlier line. */
  lemma MeansShrinks(content: seq<seq<Bytes>>, words: seq<Bytes>, p: Parser) returns (before: Parser)
    requires Means(content + [words], p)
    ensures Means(content, before)
  {
    if content == [] {
      before := NOTHING_READ;
    } else {
      var h, zs :| Headed(content + [words], h, zs);
      var xs, ys := LessContent(content, words, h, zs);
      before := StateFor(h, xs);
    }
  }

  lemma {:induction false} LinesMean(lines: seq<Bytes>, p: Parser)
    ensures RunLines(lines).Ok? && RunLines(lines).value.parser == p <==> AllAscii(lines) && Means(Content(lines), p)
    decreases |lines|, 0
  {
    if lines != [] {
      var init, last := lines[..|lines| - 1], lines[|lines| - 1];
      Whole(lines);
      ContentSnoc(init, last);
      assert AllAscii(lines) <==> AllAscii(init) && IsAscii(last);
      if RunLines(lines).Ok? && RunLines(lines).value.parser == p {
        ReadLinesMean(init, last, p);
      }
      if AllAscii(lines) && Means(Content(lines), p) {
        MeaningfulLinesAreRead(init, last, p);
      }
    }
  }

  lemma {:induction false} ReadLinesMean(init: seq<Bytes>, last: Bytes, p: Parser)
    requires RunLines(init).Ok? && Advance(RunLines(init).value, last).Ok? && Advance(RunLines(init).value, last).value.parser == p
    ensures AllAscii(init) && IsAscii(last) && Means(Content(init + [last]), p)
    decreases |init|, 1
  {
    var s := RunLines(init).value;
    LinesMean(init, s.parser);
    ContentSnoc(init, last);
    if !IsAscii(last) {
      NotAsciiFails(s.parser, last, s.lineOffset, s.line);
    } else if Skipped(last) {
      SkippedMeans(s.parser, last, s.lineOffset, s.line);
      Empty(Content(init));
    } else {
      LineMeans(Content(init), s.parser, last, s, p);
    }
  }

  lemma {:induction false} MeaningfulLinesAreRead(init: seq<Bytes>, last: Bytes, p: Parser)
    requires AllAscii(init) && IsAscii(last) && Means(Content(init + [last]), p)
    ensures RunLines(init).Ok? && Advance(RunLines(init).value, last).Ok? && Advance(RunLines(init).value, last).value.parser == p
    decreases |init|, 1
  {
    ContentSnoc(init, last);
    if Skipped(last) {
      Empty(Content(init));
      LinesMean(init, p);
      var s := RunLines(init).value;
      SkippedMeans(p, last, s.lineOffset, s.line);
    } else {
      var before := MeansShrinks(Content(init), LineWords(last), p);
      LinesMean(init, before);
      var s := RunLines(init).value;
      LineMeans(Content(init), before, last, s, p);
    }
  }

  // ----- whole inputs -----

  lemma {:induction false} LinesOf(bytes: Bytes)
    ensures Unbroken(Split(bytes)) && Join(Split(bytes), LF) == bytes
    ensures AllAscii(Split(bytes)) <==> IsAscii(bytes)
  {
    if bytes == [] {
      assert Join([[]], LF) == [];
    } else {
      var init, b := bytes[..|bytes| - 1], bytes[|bytes| - 1];
      LinesOf(init);
      AnotherByteOfLines(init, b);
      Whole(bytes);
    }
  }

  predicate Unbroken(lines: seq<Bytes>) {
    forall i :: 0 <= i < |lines| ==> LF !in lines[i]
  }

  lemma AnotherByteOfLines(init: Bytes, b: Byte)
    requires Unbroken(Split(init)) && Join(Split(init), LF) == init && (AllAscii(Split(init)) <==> IsAscii(init))
    ensures Unbroken(Split(init + [b])) && Join(Split(init + [b]), LF) == init + [b]
    ensures AllAscii(Split(init + [b])) <==> IsAscii(init + [b])
  {
    SplitSnoc(init, b);
    AsciiSnoc(init, b);
    if b == LF {
      LineEnds(Split(init), init);
    } else {
      LineGoesOn(Split(init), init, b);
    }
  }

  lemma LineEnds(lines: seq<Bytes>, bytes: Bytes)
    requires lines != [] && Unbroken(lines) && Join(lines, LF) == bytes
    ensures Unbroken(lines + [[]]) && Join(lines + [[]], LF) == bytes + [LF] && (AllAscii(lines + [[]]) <==> AllAscii(lines))
  {
    JoinSnoc(lines, []);
    Empty(bytes + [LF]);
    AsciiLines(lines, []);
  }

  lemma LineGoesOn(lines: seq<Bytes>, bytes: Bytes, b: Byte)
    requires lines != [] && Unbroken(lines) && Join(lines, LF) == bytes && b != LF
    ensures var longer := lines[..|lines| - 1] + [lines[|lines| - 1] + [b]];
      Unbroken(longer) && Join(longer, LF) == bytes + [b] && (AllAscii(longer) <==> AllAscii(lines) && b <= 0x7f)
  {
    var done, open := lines[..|lines| - 1], lines[|lines| - 1];
    Whole(lines);
    AsciiSnoc(open, b);
    JoinLonger(done, open, b);
    AsciiLines(done, open);
    AsciiLines(done, open + [b]);
    UnbrokenLonger(done, open, b);
  }

  lemma AsciiLines(done: seq<Bytes>, open: Bytes)
    ensures AllAscii(done + [open]) <==> AllAscii(done) && IsAscii(open)
  {
    var all := done + [open];
    assert all[|done|] == open && forall i :: 0 <= i < |done| ==> all[i] == done[i];
  }

  lemma UnbrokenLonger(done: seq<Bytes>, open: Bytes, b: Byte)
    requires Unbroken(done + [open]) && b != LF
    ensures Unbroken(done + [open + [b]])
  {
    var all := done + [open];
    assert all[|done|] == open && forall i :: 0 <= i < |done| ==> all[i] == done[i];
  }

  lemma AsciiSnoc(bytes: Bytes, b: Byte)
    ensures IsAscii(bytes + [b]) <==> IsAscii(bytes) && b <= 0x7f
  {
    var all := bytes + [b];
    assert all[|bytes|] == b && forall i :: 0 <= i < |bytes| ==> all[i] == bytes[i];
  }

  lemma JoinSnoc(lines: seq<Bytes>, last: Bytes)
    requires lines != []
    ensures Join(lines + [last], LF) == Join(lines, LF) + [LF] + last
  {
    TakeBack(lines, [last]);
  }

  lemma JoinLonger(done: seq<Bytes>, open: Bytes, b: Byte)
    ensures Join(done + [open + [b]], LF) == Join(done + [open], LF) + [b]
  {
    if done == [] {
      Empty([open]);
      Empty([open + [b]]);
    } else {
      JoinSnoc(done, open);
      JoinSnoc(done, open + [b]);
      Associates(Join(done, LF) + [LF], open, [b]);
    }
  }

  /** The lines of an input are what stands between its line feeds. */
  lemma LinesAreExact(bytes: Bytes, lines: seq<Bytes>)
    ensures lines == Split(bytes) <==>
      lines != [] && Unbroken(lines) && Join(lines, LF) == bytes
  {
    LinesOf(bytes);
    if lines != [] && Unbroken(lines) && Join(lines, LF) == bytes {
      SplitOfJoin(lines);
    }
  }

  /** The parser ends with this formula. */
  predicate EndsWith(p: Parser, f: Cnf1) {
    p.header.Some? && p.current == [] && |p.clauses| == p.header.value.clauseCount &&
    f == Cnf1(p.header.value.variableCount, |p.clauses|, p.literals, p.clauses)
  }

  lemma NoWordsInNothing(p: Parser, lineOffset: nat, line: nat)
    ensures ProcessLine(p, [], lineOffset, line) == Ok(p)
  {
    assert Words([], lineOffset) == [] && FirstNonAscii([]) == 0;
  }

  lemma ParseEnds(bytes: Bytes, f: Cnf1)
    ensures Parse(bytes) == Ok(f) <==> RunLines(Split(bytes)).Ok? && EndsWith(RunLines(Split(bytes)).value.parser, f)
  {
    var lines := Split(bytes);
    if RunLines(Finished(lines)).Ok? {
      var s := RunLines(Finished(lines)).value;
      NoWordsInNothing(s.parser, s.lineOffset, s.line);
    }
  }

  /** A header with the counts of the formula, then its literals, each clause ended by 0, all within the limits. */
  predicate Spells(content: seq<seq<Bytes>>, f: Cnf1) {
    && f.variableCount >= 0 && content != [] && content[0] == HeaderWords(f.variableCount, |f.clauses|)
    && Flat(content[1..]) == Numerals(Stream(f.clauses))
    && f.variableCount <= MAX_VARIABLES && |f.clauses| == f.clauseCount <= MAX_CLAUSES
    && f.literalCount == LiteralTotal(f.clauses) <= MAX_LITERAL_OCCURRENCES && ClausesInRange(f.clauses, f.variableCount)
  }

  lemma SpelledMeans(content: seq<seq<Bytes>>, f: Cnf1)
    requires Spells(content, f)
    ensures exists p :: Means(content, p) && EndsWith(p, f)
  {
    var h, xs := Dimacs.Header(f.variableCount, |f.clauses|), Stream(f.clauses);
    NoZeroInClauses(f.clauses, f.variableCount);
    ScanOfStream(f.clauses);
    forall i | 0 <= i < |xs| ensures Abs(xs[i]) <= h.variableCount {
      StreamInRange(f.clauses, f.variableCount, i);
    }
    assert Headed(content, h, xs);
    assert Means(content, StateFor(h, xs)) && EndsWith(StateFor(h, xs), f);
  }

  lemma MeansSpelled(content: seq<seq<Bytes>>, p: Parser, f: Cnf1)
    requires Means(content, p) && EndsWith(p, f)
    ensures Spells(content, f)
  {
    var h, xs :| Headed(content, h, xs) && p == StateFor(h, xs);
    StreamOfScan(xs);
    Empty(Stream(f.clauses));
    assert xs == Stream(f.clauses);
    ScannedInRange(f.clauses, h.variableCount);
  }

  lemma {:induction false} ScannedInRange(clauses: Formula, bound: nat)
    requires Bounded(Stream(clauses), bound) && forall i :: 0 <= i < |clauses| ==> 0 !in clauses[i]
    ensures ClausesInRange(clauses, bound)
  {
    if clauses != [] {
      var init, last := clauses[..|clauses| - 1], clauses[|clauses| - 1];
      var stream := Stream(clauses);
      assert stream == Stream(init) + last + [0];
      assert forall i :: 0 <= i < |Stream(init)| ==> Stream(init)[i] == stream[i];
      ScannedInRange(init, bound);
      forall i | 0 <= i < |last| ensures InRange(last[i], bound) {
        assert last[i] == stream[|Stream(init)| + i] && last[i] in last;
      }
    }
  }

  /**
   An input is read as a formula if and only if all its bytes are ASCII and, leaving out blank lines and comments, it is a
   header with the formula's counts and then, however broken into lines, the numerals of its literals, each clause ended by 0.
   */
  lemma InputsAreReadExactly(bytes: Bytes, f: Cnf1)
    ensures Parse(bytes) == Ok(f) <==> IsAscii(bytes) && Spells(Content(Split(bytes)), f)
  {
    var lines := Split(bytes);
    LinesOf(bytes);
    ParseEnds(bytes, f);
    if RunLines(lines).Ok? {
      LinesMean(lines, RunLines(lines).value.parser);
    }
    if Parse(bytes) == Ok(f) {
      MeansSpelled(Content(lines), RunLines(lines).value.parser, f);
    }
    if IsAscii(bytes) && Spells(Content(lines), f) {
      SpelledMeans(Content(lines), f);
      var p :| Means(Content(lines), p) && EndsWith(p, f);
      LinesMean(lines, p);
    }
  }

  /** How the words after the header are broken into lines makes no difference: a clause may span lines, and a line clauses. */
  lemma LayoutMakesNoDifference(a: Bytes, b: Bytes, f: Cnf1)
    requires IsAscii(a) && IsAscii(b)
    requires var x, y := Content(Split(a)), Content(Split(b)); x != [] && y != [] && x[0] == y[0] && Flat(x[1..]) == Flat(y[1..])
    ensures Parse(a) == Ok(f) <==> Parse(b) == Ok(f)
  {
    InputsAreReadExactly(a, f);
    InputsAreReadExactly(b, f);
  }

  lemma {:induction false} ContentSkips(before: seq<Bytes>, comment: Bytes, after: seq<Bytes>)
    requires Skipped(comment)
    ensures Content(before + [comment] + after) == Content(before + after)
    decreases |after|
  {
    if after == [] {
      ContentSnoc(before, comment);
      Empty(before);
      Empty(before + [comment]);
      Empty(Content(before));
    } else {
      var init, last := after[..|after| - 1], after[|after| - 1];
      ContentSkips(before, comment, init);
      ContentSnoc(before + [comment] + init, last);
      ContentSnoc(before + init, last);
      InitAndLast(before + [comment], after);
      InitAndLast(before, after);
    }
  }

  /** The text of some lines has this content. */
  lemma ContentOf(lines: seq<Bytes>, f: Cnf1)
    requires lines != [] && Unbroken(lines)
    ensures Parse(Join(lines, LF)) == Ok(f) <==> AllAscii(lines) && Spells(Content(lines), f)
  {
    LinesAreExact(Join(lines, LF), lines);
    LinesOf(Join(lines, LF));
    InputsAreReadExactly(Join(lines, LF), f);
  }

  /** A comment or blank line can be put in or taken out anywhere. */
  lemma CommentsMakeNoDifference(before: seq<Bytes>, comment: Bytes, after: seq<Bytes>, f: Cnf1)
    requires before + after != [] && Unbroken(before + after) && LF !in comment && Skipped(comment) && IsAscii(comment)
    ensures Parse(Join(before + [comment] + after, LF)) == Ok(f) <==> Parse(Join(before + after, LF)) == Ok(f)
  {
    UnbrokenWith(before, comment, after);
    ContentOf(before + [comment] + after, f);
    ContentOf(before + after, f);
    ContentSkips(before, comment, after);
    AsciiWithout(before, comment, after);
  }

  lemma UnbrokenWith(before: seq<Bytes>, comment: Bytes, after: seq<Bytes>)
    requires Unbroken(before + after) && LF !in comment
    ensures Unbroken(before + [comment] + after)
  {
    var all, without := before + [comment] + after, before + after;
    forall i | 0 <= i < |all| && i != |before| ensures LF !in all[i] {
      assert all[i] == without[if i < |before| then i else i - 1];
    }
  }

  lemma AsciiWithout(before: seq<Bytes>, comment: Bytes, after: seq<Bytes>)
    requires IsAscii(comment)
    ensures AllAscii(before + [comment] + after) <==> AllAscii(before + after)
  {
    var with_, without := before + [comment] + after, before + after;
    assert forall i :: 0 <= i < |before| ==> with_[i] == before[i] == without[i];
    assert forall i :: 0 <= i < |after| ==> with_[|before| + 1 + i] == after[i] == without[|before| + i];
    assert with_[|before|] == comment;
    forall i | 0 <= i < |without| && AllAscii(with_) ensures IsAscii(without[i]) {
      assert without[i] == with_[if i < |before| then i else i + 1];
    }
  }
}
