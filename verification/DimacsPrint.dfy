/** The DIMACS text handed to the owner's proof checker, and what the parser makes of it. */
module DimacsPrint {
  import opened Wrappers
  import opened Cnf
  import opened HiveCnf
  import opened Dimacs
  import opened Seqs

  // ----- numerals -----

  function Decimal(n: nat): (t: Bytes)
    ensures t != []
  {
    if n < 10 then [ZERO + n as Byte] else Decimal(n / 10) + [ZERO + (n % 10) as Byte]
  }

  function Numeral(l: int): Bytes {
    if l < 0 then [MINUS] + Decimal(-l) else Decimal(l)
  }

  lemma {:induction false} DecimalRoundTrip(n: nat)
    ensures IsUnsigned(Decimal(n)) && Value(Decimal(n)) == n && (n > 0 ==> Decimal(n)[0] != ZERO)
  {
    if n < 10 {
      assert Value([]) == 0;
      assert Decimal(n)[..0] == [];
    } else {
      DecimalRoundTrip(n / 10);
      var init := Decimal(n / 10);
      assert Decimal(n)[..|Decimal(n)| - 1] == init;
    }
  }

  lemma NumeralRoundTrip(l: int)
    requires Abs(l) <= 0x7fff_ffff
    ensures ParseLiteral(Numeral(l)) == Ok(l)
  {
    DecimalRoundTrip(Abs(l));
    if l < 0 {
      assert Numeral(l)[1..] == Decimal(-l);
    }
  }

  lemma {:induction false} DecimalLength(n: nat)
    requires n < 10_000_000
    ensures |Decimal(n)| <= 7
  {
    if n >= 10 {
      DecimalLengthUpTo(n, 7, 10_000_000);
    }
  }

  lemma {:induction false} DecimalLengthUpTo(n: nat, digits: nat, limit: nat)
    requires digits >= 1 && n < limit && limit == Power10(digits)
    ensures |Decimal(n)| <= digits
    decreases digits
  {
    if n >= 10 {
      DecimalLengthUpTo(n / 10, digits - 1, limit / 10);
    }
  }

  function Power10(k: nat): nat {
    if k == 0 then 1 else 10 * Power10(k - 1)
  }

  // ----- printing -----

  function Join(words: seq<Bytes>, separator: Byte): Bytes {
    if words == [] then []
    else if |words| == 1 then words[0]
    else Join(words[..|words| - 1], separator) + [separator] + words[|words| - 1]
  }

  function Numerals(c: Clause): (words: seq<Bytes>)
    ensures |words| == |c|
  {
    if c == [] then [] else Numerals(c[..|c| - 1]) + [Numeral(c[|c| - 1])]
  }

  function ClauseLine(c: Clause): Bytes {
    Join(Numerals(c), SPACE) + [SPACE, ZERO]
  }

  function HeaderWords(variableCount: nat, clauseCount: nat): seq<Bytes> {
    [[LETTER_P], CNF, Decimal(variableCount), Decimal(clauseCount)]
  }

  function HeaderLine(variableCount: nat, clauseCount: nat): Bytes {
    Join(HeaderWords(variableCount, clauseCount), SPACE)
  }

  function ClauseLines(g: Formula): (lines: seq<Bytes>)
    ensures |lines| == |g|
  {
    if g == [] then [] else ClauseLines(g[..|g| - 1]) + [ClauseLine(g[|g| - 1])]
  }

  function TextLines(variableCount: nat, g: Formula): seq<Bytes> {
    [HeaderLine(variableCount, |g|)] + ClauseLines(g)
  }

  function Text(variableCount: nat, g: Formula): Bytes {
    Join(TextLines(variableCount, g) + [[]], LF)
  }

  /** The owner's checker is given the decoded clauses, then one unit clause for each cube literal. */
  function ToDimacs(encoded: Bytes, cube: Cube): Result<Bytes, DecodeError> {
    match Decode(encoded)
    case Err(e) => Err(e)
    case Ok(f) => Ok(Text(f.variableCount, WithUnits(f.clauses, cube)))
  }

  // ----- reading words and lines back -----

  /** Visible ASCII. */
  predicate Visible(w: Bytes) {
    forall i :: 0 <= i < |w| ==> 33 <= w[i] <= 126
  }

  function Texts(tokens: seq<Token>): (texts: seq<Bytes>)
    ensures |texts| == |tokens|
  {
    seq(|tokens|, i requires 0 <= i < |tokens| => tokens[i].text)
  }

  lemma {:induction false} WordExtends(x: Bytes, w: Bytes, before: seq<Token>, t: Token, lineOffset: nat)
    requires x != [] && !IsHorizontalWhitespace(x[|x| - 1]) && Visible(w) && Words(x, lineOffset) == before + [t]
    ensures Words(x + w, lineOffset) == before + [Token(t.text + w, t.column, t.byteOffset)]
    decreases |w|
  {
    if w == [] {
      Empty(x);
      Empty(t.text);
    } else {
      var t' := Token(t.text + [w[0]], t.column, t.byteOffset);
      var x' := x + [w[0]];
      WordLengthens(x, w[0], before, t, lineOffset);
      WordExtends(x', w[1..], before, t', lineOffset);
      Seqs.FirstAndRest(x, w);
      Seqs.FirstAndRest(t.text, w);
    }
  }

  lemma VisibleParts(w: Bytes)
    requires w != [] && Visible(w)
    ensures [w[0]] + w[1..] == w && !IsHorizontalWhitespace(w[0]) && Visible(w[1..])
  {
  }

  lemma WordAfterSpace(b: Bytes, w: Bytes, before: seq<Token>, lineOffset: nat)
    requires b == [] || b[|b| - 1] == SPACE
    requires w != [] && Visible(w) && Words(b, lineOffset) == before
    ensures Words(b + w, lineOffset) == before + [Token(w, |b| + 1, lineOffset + |b|)]
  {
    var x, t := b + [w[0]], Token([w[0]], |b| + 1, lineOffset + |b|);
    VisibleParts(w);
    Seqs.FirstAndRest(b, w);
    WordBegins(b, w[0], lineOffset);
    assert x[|x|-1] == w[0];
    WordExtends(x, w[1..], before, t, lineOffset);
    assert Token(t.text + w[1..], t.column, t.byteOffset) == Token(w, |b| + 1, lineOffset + |b|);
  }

  lemma SpaceEnds(b: Bytes, lineOffset: nat)
    ensures Words(b + [SPACE], lineOffset) == Words(b, lineOffset)
  {
    WordsSnoc(b, lineOffset, SPACE);
  }

  /** One more word after a space is one more token. */
  lemma AnotherWord(b: Bytes, w: Bytes, lineOffset: nat)
    requires w != [] && Visible(w)
    ensures Texts(Words(b + [SPACE] + w, lineOffset)) == Texts(Words(b, lineOffset)) + [w]
  {
    SpaceEnds(b, lineOffset);
    WordAfterSpace(b + [SPACE], w, Words(b, lineOffset), lineOffset);
  }

  lemma SingleWord(w: Bytes, lineOffset: nat)
    requires w != [] && Visible(w)
    ensures Texts(Words(w, lineOffset)) == [w]
  {
    WordAfterSpace([], w, [], lineOffset);
    Empty(w);
  }

  /** Words joined by spaces are read back one by one. */
  lemma {:induction false} WordsOfJoin(words: seq<Bytes>, lineOffset: nat)
    requires forall i :: 0 <= i < |words| ==> words[i] != [] && Visible(words[i])
    ensures Texts(Words(Join(words, SPACE), lineOffset)) == words
  {
    if |words| == 1 {
      SingleWord(words[0], lineOffset);
    } else if |words| > 1 {
      var init, last := words[..|words| - 1], words[|words| - 1];
      WordsOfJoin(init, lineOffset);
      AnotherWord(Join(init, SPACE), last, lineOffset);
      assert Join(words, SPACE) == Join(init, SPACE) + [SPACE] + last;
      Whole(words);
    }
  }

  /** Printable ASCII, spaces allowed. */
  predicate Clean(line: Bytes) {
    forall i :: 0 <= i < |line| ==> 32 <= line[i] <= 126
  }

  lemma CleanLine(line: Bytes)
    requires Clean(line)
    ensures IsAscii(line) && LF !in line
  {
  }

  lemma {:induction false} JoinIsClean(words: seq<Bytes>)
    requires forall i :: 0 <= i < |words| ==> Visible(words[i])
    ensures Clean(Join(words, SPACE))
  {
    if |words| == 1 {
      assert Visible(words[0]);
    } else if |words| > 1 {
      JoinIsClean(words[..|words| - 1]);
      assert Visible(words[|words| - 1]);
    }
  }

  lemma LineLengthens(x: Bytes, c: Byte, before: seq<Bytes>, open: Bytes)
    requires Split(x) == before + [open] && c != LF
    ensures Split(x + [c]) == before + [open + [c]]
  {
    SplitSnoc(x, c);
    TakeBack(before, [open]);
  }

  lemma {:induction false} SplitExtends(x: Bytes, w: Bytes, before: seq<Bytes>, open: Bytes)
    requires Split(x) == before + [open] && LF !in w
    ensures Split(x + w) == before + [open + w]
    decreases |w|
  {
    if w == [] {
      Empty(x);
      Empty(open);
    } else {
      var init, last := w[..|w| - 1], w[|w| - 1];
      SplitExtends(x, init, before, open);
      LineLengthens(x + init, last, before, open + init);
      InitAndLast(x, w);
      InitAndLast(open, w);
    }
  }

  /** Lines joined by newlines are split back into the same lines. */
  lemma {:induction false} SplitOfJoin(lines: seq<Bytes>)
    requires lines != [] && forall i :: 0 <= i < |lines| ==> LF !in lines[i]
    ensures Split(Join(lines, LF)) == lines
  {
    var init, last := lines[..|lines| - 1], lines[|lines| - 1];
    Empty(last);
    Whole(lines);
    if |lines| == 1 {
      SplitExtends([], last, [], []);
    } else {
      SplitOfJoin(init);
      SplitSnoc(Join(init, LF), LF);
      SplitExtends(Join(init, LF) + [LF], last, init, []);
    }
  }

  // ----- one printed line -----

  lemma {:induction false} DecimalDigits(n: nat)
    ensures forall i :: 0 <= i < |Decimal(n)| ==> ZERO <= Decimal(n)[i] <= ZERO + 9
  {
    DecimalRoundTrip(n);
  }

  lemma NumeralVisible(l: int)
    ensures Numeral(l) != [] && Visible(Numeral(l)) && Numeral(l)[0] <= ZERO + 9
  {
    DecimalDigits(Abs(l));
  }

  lemma {:induction false} NumeralsVisible(c: Clause)
    ensures forall i :: 0 <= i < |c| ==> Numerals(c)[i] == Numeral(c[i]) && Numerals(c)[i] != [] && Visible(Numerals(c)[i])
  {
    if c != [] {
      NumeralsVisible(c[..|c| - 1]);
      NumeralVisible(c[|c| - 1]);
    }
  }

  lemma ClauseLineBytes(c: Clause)
    ensures Clean(ClauseLine(c))
  {
    NumeralsVisible(c);
    JoinIsClean(Numerals(c));
  }

  lemma ClauseLineWords(c: Clause, lineOffset: nat)
    ensures Texts(Words(ClauseLine(c), lineOffset)) == Numerals(c) + [[ZERO]]
  {
    var joined := Join(Numerals(c), SPACE);
    NumeralsVisible(c);
    WordsOfJoin(Numerals(c), lineOffset);
    AnotherWord(joined, [ZERO], lineOffset);
    assert ClauseLine(c) == joined + [SPACE] + [ZERO];
  }

  lemma HeaderLineWords(variableCount: nat, clauseCount: nat, lineOffset: nat)
    ensures Clean(HeaderLine(variableCount, clauseCount))
    ensures Texts(Words(HeaderLine(variableCount, clauseCount), lineOffset)) == HeaderWords(variableCount, clauseCount)
  {
    DecimalDigits(variableCount);
    DecimalDigits(clauseCount);
    JoinIsClean(HeaderWords(variableCount, clauseCount));
    WordsOfJoin(HeaderWords(variableCount, clauseCount), lineOffset);
  }

  /** Printed literals are added to the open clause, as long as the occurrence limit allows. */
  lemma {:induction false} NumeralsAdd(p: Parser, header: Header, tokens: seq<Token>, c: Clause, line: nat)
    requires Texts(tokens) == Numerals(c) && ClauseInRange(c, header.variableCount)
    requires header.variableCount <= MAX_VARIABLES && header.clauseCount <= MAX_CLAUSES && p.literals <= MAX_LITERAL_OCCURRENCES
    ensures var r := ProcessTokens(p, header, tokens, line);
      if p.literals + |c| <= MAX_LITERAL_OCCURRENCES
      then r == Ok(p.(current := p.current + c, literals := p.literals + |c|)) else r.Err?
  {
    if c == [] {
      Empty(p.current);
    } else {
      var init, last := c[..|c| - 1], c[|c| - 1];
      assert Texts(tokens[..|c| - 1]) == Texts(tokens)[..|c| - 1] == Numerals(init);
      NumeralsAdd(p, header, tokens[..|c| - 1], init, line);
      assert tokens[|c| - 1].text == Texts(tokens)[|c| - 1] == Numeral(last);
      assert InRange(last, header.variableCount);
      NumeralRoundTrip(last);
      InitAndLast(p.current, c);
    }
  }

  lemma ZeroCloses(p: Parser, header: Header, token: Token, line: nat)
    requires token.text == [ZERO] && |p.clauses| < header.clauseCount
    ensures ProcessToken(p, header, token, line) == Ok(p.(clauses := p.clauses + [p.current], current := []))
  {
    assert Decimal(0) == [ZERO];
    NumeralRoundTrip(0);
  }

  predicate Accepting(p: Parser, header: Header, c: Clause) {
    && p.header == Some(header) && p.current == [] && |p.clauses| < header.clauseCount <= MAX_CLAUSES
    && header.variableCount <= MAX_VARIABLES && p.literals <= MAX_LITERAL_OCCURRENCES && ClauseInRange(c, header.variableCount)
  }

  function WithClause(p: Parser, c: Clause): Parser {
    p.(clauses := p.clauses + [c], literals := p.literals + |c|)
  }

  lemma LastToken(tokens: seq<Token>, words: seq<Bytes>, last: Bytes)
    requires Texts(tokens) == words + [last]
    ensures var k := |words|;
      |tokens| == k + 1 && Texts(tokens[..k]) == words && tokens[k].text == last && tokens[..k] + [tokens[k]] == tokens
  {
    var k, texts := |words|, Texts(tokens);
    assert texts[..k] == words && texts[k] == last;
    assert Texts(tokens[..k]) == texts[..k];
  }

  lemma TokensSnoc(p: Parser, header: Header, tokens: seq<Token>, token: Token, line: nat)
    ensures ProcessTokens(p, header, tokens + [token], line) ==
      match ProcessTokens(p, header, tokens, line) case Err(e) => Err(e) case Ok(p') => ProcessToken(p', header, token, line)
  {
    TakeBack(tokens, [token]);
  }

  lemma FilledAndClosed(p: Parser, header: Header, init: seq<Token>, token: Token, c: Clause, line: nat)
    requires Accepting(p, header, c) && Texts(init) == Numerals(c) && token.text == [ZERO]
    ensures var r := ProcessTokens(p, header, init + [token], line);
      if p.literals + |c| <= MAX_LITERAL_OCCURRENCES then r == Ok(WithClause(p, c)) else r.Err?
  {
    var filled := p.(current := c, literals := p.literals + |c|);
    NumeralsAdd(p, header, init, c, line);
    Empty(c);
    TokensSnoc(p, header, init, token, line);
    if p.literals + |c| <= MAX_LITERAL_OCCURRENCES {
      assert ProcessTokens(p, header, init, line) == Ok(filled);
      ZeroCloses(filled, header, token, line);
      assert WithClause(p, c) == filled.(clauses := filled.clauses + [c], current := []);
    }
  }

  lemma ClauseTokensParse(p: Parser, header: Header, tokens: seq<Token>, c: Clause, line: nat)
    requires Accepting(p, header, c) && Texts(tokens) == Numerals(c) + [[ZERO]]
    ensures var r := ProcessTokens(p, header, tokens, line);
      if p.literals + |c| <= MAX_LITERAL_OCCURRENCES then r == Ok(WithClause(p, c)) else r.Err?
  {
    LastToken(tokens, Numerals(c), [ZERO]);
    FilledAndClosed(p, header, tokens[..|c|], tokens[|c|], c, line);
  }

  lemma ClauseTokensAreLiterals(p: Parser, tokens: seq<Token>, c: Clause, line: nat)
    requires p.header.Some? && Texts(tokens) == Numerals(c) + [[ZERO]]
    ensures ProcessWords(p, tokens, line) == ProcessTokens(p, p.header.value, tokens, line)
  {
    NumeralsVisible(c);
    assert tokens[0].text == Texts(tokens)[0];
    if c != [] {
      NumeralVisible(c[0]);
      assert tokens[0].text == Numeral(c[0]);
    }
  }

  lemma ClauseLineParses(p: Parser, header: Header, c: Clause, lineOffset: nat, line: nat)
    requires Accepting(p, header, c)
    ensures var r := ProcessLine(p, ClauseLine(c), lineOffset, line);
      if p.literals + |c| <= MAX_LITERAL_OCCURRENCES then r == Ok(WithClause(p, c)) else r.Err?
  {
    var tokens := Words(ClauseLine(c), lineOffset);
    ClauseLineBytes(c);
    CleanLine(ClauseLine(c));
    ClauseLineWords(c, lineOffset);
    ClauseTokensParse(p, header, tokens, c, line);
    ClauseTokensAreLiterals(p, tokens, c, line);
    assert Tokenize(ClauseLine(c), lineOffset, line) == Ok(tokens);
  }

  lemma UnsignedRoundTrip(n: nat)
    ensures ParseUnsigned(Decimal(n)) == if n > 0x7fff_ffff then Err(UnsignedTooLarge) else Ok(n)
  {
    DecimalRoundTrip(n);
  }

  lemma HeaderTokensParse(tokens: seq<Token>, variableCount: nat, clauses: Result<nat, Kind>, line: nat)
    requires variableCount <= MAX_VARIABLES && |tokens| == 4 && tokens[0].text == [LETTER_P] && tokens[1].text == CNF
    requires ParseUnsigned(tokens[2].text) == Ok(variableCount) && ParseUnsigned(tokens[3].text) == clauses
    ensures var r := ProcessWords(START.parser, tokens, line);
      if clauses.Ok? && clauses.value <= MAX_CLAUSES
      then r == Ok(START.parser.(header := Some(Header(variableCount, clauses.value)))) else r.Err?
  {
    assert tokens[0].text[0] == LETTER_P != LETTER_C;
    assert ProcessWords(START.parser, tokens, line) == ProcessHeader(START.parser, tokens, line);
  }

  lemma HeaderLineParses(variableCount: nat, clauseCount: nat)
    requires variableCount <= MAX_VARIABLES
    ensures var r := ProcessLine(START.parser, HeaderLine(variableCount, clauseCount), 0, 1);
      if clauseCount <= MAX_CLAUSES then r == Ok(START.parser.(header := Some(Header(variableCount, clauseCount)))) else r.Err?
  {
    var tokens := Words(HeaderLine(variableCount, clauseCount), 0);
    HeaderLineWords(variableCount, clauseCount, 0);
    CleanLine(HeaderLine(variableCount, clauseCount));
    TextsAt(tokens);
    UnsignedRoundTrip(variableCount);
    UnsignedRoundTrip(clauseCount);
    HeaderTokensParse(tokens, variableCount, ParseUnsigned(Decimal(clauseCount)), 1);
    assert Tokenize(HeaderLine(variableCount, clauseCount), 0, 1) == Ok(tokens);
  }

  lemma TextsAt(tokens: seq<Token>)
    ensures forall i :: 0 <= i < |tokens| ==> tokens[i].text == Texts(tokens)[i]
  {
  }

  // ----- the whole text -----

  lemma RunLinesSnoc(lines: seq<Bytes>, line: Bytes)
    ensures RunLines(lines + [line]) == match RunLines(lines) case Err(e) => Err(e) case Ok(s) => Advance(s, line)
  {
    TakeBack(lines, [line]);
  }

  lemma {:induction false} PrintedLinesRun(variableCount: nat, n: nat, g: Formula)
    requires variableCount <= MAX_VARIABLES && |g| <= n && ClausesInRange(g, variableCount)
    ensures var r := RunLines([HeaderLine(variableCount, n)] + ClauseLines(g));
      if n <= MAX_CLAUSES && LiteralTotal(g) <= MAX_LITERAL_OCCURRENCES
      then r.Ok? && r.value.parser == Parser(Some(Header(variableCount, n)), g, [], LiteralTotal(g)) else r.Err?
  {
    var header := HeaderLine(variableCount, n);
    if g == [] {
      HeaderLineParses(variableCount, n);
      var lines := [header] + ClauseLines(g);
      assert lines == [header] && lines[..0] == [];
    } else {
      var init, last := g[..|g| - 1], g[|g| - 1];
      var before := [header] + ClauseLines(init);
      PrintedLinesRun(variableCount, n, init);
      Associates([header], ClauseLines(init), [ClauseLine(last)]);
      RunLinesSnoc(before, ClauseLine(last));
      Whole(g);
      var r := RunLines(before);
      if r.Ok? {
        assert ClauseInRange(g[|g| - 1], variableCount);
        ClauseLineParses(r.value.parser, Header(variableCount, n), last, r.value.lineOffset, r.value.line);
      }
    }
  }

  lemma {:induction false} LinesHaveNoNewline(g: Formula, i: nat)
    requires i < |g|
    ensures LF !in ClauseLines(g)[i]
  {
    if i < |g| - 1 {
      LinesHaveNoNewline(g[..|g| - 1], i);
    } else {
      ClauseLineBytes(g[i]);
      CleanLine(ClauseLine(g[i]));
    }
  }

  lemma LineIsClean(variableCount: nat, g: Formula, i: nat)
    requires i < |g| + 2
    ensures LF !in (TextLines(variableCount, g) + [[]])[i]
  {
    HeaderLineWords(variableCount, |g|, 0);
    CleanLine(HeaderLine(variableCount, |g|));
    if 1 <= i <= |g| {
      LinesHaveNoNewline(g, i - 1);
      assert (TextLines(variableCount, g) + [[]])[i] == ClauseLines(g)[i - 1];
    }
  }

  lemma TextSplits(variableCount: nat, g: Formula)
    ensures Split(Text(variableCount, g)) == TextLines(variableCount, g) + [[]]
  {
    var lines := TextLines(variableCount, g) + [[]];
    forall i | 0 <= i < |lines| ensures LF !in lines[i] {
      LineIsClean(variableCount, g, i);
    }
    SplitOfJoin(lines);
  }

  lemma ParseOfSplit(text: Bytes, finished: seq<Bytes>)
    requires Split(text) == finished + [[]]
    ensures Parse(text) == match RunLines(finished) case Err(e) => Err(e) case Ok(s) => Conclude(s, s.parser, 0, |text|)
  {
    TakeBack(finished, [[]]);
  }

  lemma TextParses(variableCount: nat, g: Formula)
    requires variableCount <= MAX_VARIABLES && ClausesInRange(g, variableCount)
    ensures var r := Parse(Text(variableCount, g));
      if |g| <= MAX_CLAUSES && LiteralTotal(g) <= MAX_LITERAL_OCCURRENCES
      then r == Ok(Cnf1(variableCount, |g|, LiteralTotal(g), g)) else r.Err?
  {
    TextSplits(variableCount, g);
    ParseOfSplit(Text(variableCount, g), TextLines(variableCount, g));
    PrintedLinesRun(variableCount, |g|, g);
  }

  /**
   Parsing the printed text gives exactly the clauses the server checks the proof against, in order
   and empty clauses included; it fails only when the cube takes the formula past a parser limit.
   */
  lemma PrintThenParse(encoded: Bytes, cube: Cube)
    requires Decode(encoded).Ok? && ClauseInRange(cube, Decode(encoded).value.variableCount)
    ensures var f, text := Decode(encoded).value, ToDimacs(encoded, cube).value;
      var g := WithUnits(f.clauses, cube);
      if |f.clauses| + |cube| <= MAX_CLAUSES && f.literalCount + |cube| <= MAX_LITERAL_OCCURRENCES
      then Parse(text) == Ok(Cnf1(f.variableCount, |g|, f.literalCount + |cube|, g)) && |text| <= MAX_DECOMPRESSED_DIMACS_BYTES
      else Parse(text).Err?
  {
    var f := Decode(encoded).value;
    var g := WithUnits(f.clauses, cube);
    DecodedWithinLimits(encoded);
    UnitsTotal(f.clauses, cube);
    UnitsInRange(f.clauses, cube, f.variableCount);
    TextParses(f.variableCount, g);
    assert ToDimacs(encoded, cube).value == Text(f.variableCount, g);
    if |g| <= MAX_CLAUSES && LiteralTotal(g) <= MAX_LITERAL_OCCURRENCES {
      TextLength(f.variableCount, g);
    }
  }

  lemma UnitsInRange(clauses: Formula, cube: Cube, variableCount: int)
    requires ClausesInRange(clauses, variableCount) && ClauseInRange(cube, variableCount)
    ensures ClausesInRange(WithUnits(clauses, cube), variableCount)
  {
    var g := WithUnits(clauses, cube);
    forall i | 0 <= i < |g| ensures ClauseInRange(g[i], variableCount) {
      if i < |clauses| {
        assert ClauseInRange(clauses[i], variableCount);
      } else {
        assert InRange(cube[i - |clauses|], variableCount);
      }
    }
  }

  // ----- the text stays within the parser's byte limit -----

  function Size(words: seq<Bytes>): nat {
    if words == [] then 0 else Size(words[..|words| - 1]) + |words[|words| - 1]| + 1
  }

  lemma {:induction false} JoinLength(words: seq<Bytes>, separator: Byte)
    ensures |Join(words, separator)| <= Size(words)
  {
    if |words| > 1 {
      JoinLength(words[..|words| - 1], separator);
    }
  }

  lemma {:induction false} NumeralsSize(c: Clause, variableCount: nat)
    requires ClauseInRange(c, variableCount) && variableCount <= MAX_VARIABLES
    ensures Size(Numerals(c)) <= 9 * |c|
  {
    if c != [] {
      NumeralsSize(c[..|c| - 1], variableCount);
      assert InRange(c[|c| - 1], variableCount);
      DecimalLength(Abs(c[|c| - 1]));
    }
  }

  lemma {:induction false} ClauseLinesSize(g: Formula, variableCount: nat)
    requires ClausesInRange(g, variableCount) && variableCount <= MAX_VARIABLES
    ensures Size(ClauseLines(g)) <= 9 * LiteralTotal(g) + 3 * |g|
  {
    if g != [] {
      ClauseLinesSize(g[..|g| - 1], variableCount);
      assert ClauseInRange(g[|g| - 1], variableCount);
      NumeralsSize(g[|g| - 1], variableCount);
      JoinLength(Numerals(g[|g| - 1]), SPACE);
    }
  }

  lemma {:induction false} SizeAppend(a: seq<Bytes>, b: seq<Bytes>)
    ensures Size(a + b) == Size(a) + Size(b)
  {
    if b == [] {
      Empty(a);
    } else {
      SizeAppend(a, b[..|b| - 1]);
      assert (a + b)[..|a + b| - 1] == a + b[..|b| - 1];
    }
  }

  lemma SizeOne(word: Bytes)
    ensures Size([word]) == |word| + 1
  {
    assert [word][..0] == [];
  }

  lemma HeaderLength(variableCount: nat, clauseCount: nat)
    requires variableCount <= MAX_VARIABLES && clauseCount <= MAX_CLAUSES
    ensures |HeaderLine(variableCount, clauseCount)| <= 22
  {
    var p: seq<Bytes>, v, n := [[LETTER_P]], [Decimal(variableCount)], [Decimal(clauseCount)];
    DecimalLength(variableCount);
    DecimalLength(clauseCount);
    SizeOne([LETTER_P]);
    SizeOne(CNF);
    SizeOne(v[0]);
    SizeOne(n[0]);
    SizeAppend(p, [CNF]);
    SizeAppend(p + [CNF], v);
    SizeAppend(p + [CNF] + v, n);
    assert p + [CNF] + v + n == HeaderWords(variableCount, clauseCount);
    JoinLength(HeaderWords(variableCount, clauseCount), SPACE);
  }

  lemma TextLength(variableCount: nat, g: Formula)
    requires ClausesInRange(g, variableCount) && variableCount <= MAX_VARIABLES
    requires |g| <= MAX_CLAUSES && LiteralTotal(g) <= MAX_LITERAL_OCCURRENCES
    ensures |Text(variableCount, g)| <= MAX_DECOMPRESSED_DIMACS_BYTES
  {
    var header, lines := HeaderLine(variableCount, |g|), ClauseLines(g);
    HeaderLength(variableCount, |g|);
    ClauseLinesSize(g, variableCount);
    SizeOne(header);
    SizeOne([]);
    SizeAppend([header], lines);
    SizeAppend([header] + lines, [[]]);
    JoinLength([header] + lines + [[]], LF);
  }
}
