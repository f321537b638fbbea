/** The streaming DIMACS parser: a specification on whole inputs, and the chunked reader that meets it. */
module Dimacs {
  import opened Wrappers
  import opened Chunks
  import opened Cnf
  import opened HiveCnf
  import opened Seqs

  const MAX_DECOMPRESSED_DIMACS_BYTES := 32 * 1024 * 1024
  const LF: Byte := 10
  const SPACE: Byte := 32
  const MINUS: Byte := 45
  const ZERO: Byte := 48
  const LETTER_C: Byte := 99
  const LETTER_P: Byte := 112
  const CNF: Bytes := [99, 110, 102]

  datatype Kind =
    | NotAscii | NotUnsigned | UnsignedTooLarge | NotALiteral | LiteralTooLarge | SecondHeader | HeaderAfterClauses
    | MalformedHeader | TooManyVariables | TooManyClausesDeclared | DeclaredTooLong | NoHeaderYet | MoreThanDeclared
    | UndeclaredVariable | TooManyLiteralOccurrences | FormulaTooLong | InputTooLong | MissingHeader | MissingZero | CountMismatch

  datatype ParseError = ParseError(kind: Kind, line: nat, column: nat, byteOffset: nat)

  datatype Token = Token(text: Bytes, column: nat, byteOffset: nat)

  datatype Header = Header(variableCount: nat, clauseCount: nat)

  datatype Parser = Parser(header: Option<Header>, clauses: Formula, current: Clause, literals: nat)

  // ----- tokens of a line -----

  predicate IsHorizontalWhitespace(b: Byte) {
    b == 9 || b == 11 || b == 12 || b == 13 || b == 32
  }

  predicate IsAscii(bytes: Bytes) {
    forall i :: 0 <= i < |bytes| ==> bytes[i] <= 0x7f
  }

  /** One more byte of a line: whitespace, the start of a word, or the continuation of the last word. */
  function AddByte(tokens: seq<Token>, before: Bytes, b: Byte, lineOffset: nat): seq<Token> {
    if IsHorizontalWhitespace(b) then tokens
    else if tokens == [] || before == [] || IsHorizontalWhitespace(before[|before| - 1]) then
      tokens + [Token([b], |before| + 1, lineOffset + |before|)]
    else
      var open := tokens[|tokens| - 1];
      tokens[..|tokens| - 1] + [open.(text := open.text + [b])]
  }

  /** The maximal runs of bytes that are not whitespace. */
  function Words(bytes: Bytes, lineOffset: nat): seq<Token> {
    if bytes == [] then [] else
      var before := bytes[..|bytes| - 1];
      AddByte(Words(before, lineOffset), before, bytes[|bytes| - 1], lineOffset)
  }

  function FirstNonAscii(bytes: Bytes): (i: nat)
    ensures i <= |bytes| && IsAscii(bytes[..i]) && (i < |bytes| ==> bytes[i] > 0x7f)
  {
    if bytes == [] then 0 else
      var i := FirstNonAscii(bytes[..|bytes| - 1]);
      if i < |bytes| - 1 then i else if bytes[i] > 0x7f then i else |bytes|
  }

  function Tokenize(bytes: Bytes, lineOffset: nat, line: nat): Result<seq<Token>, ParseError> {
    var i := FirstNonAscii(bytes);
    if i < |bytes| then Err(ParseError(NotAscii, line, i + 1, lineOffset + i)) else Ok(Words(bytes, lineOffset))
  }

  lemma {:induction false} FirstNonAsciiIs(bytes: Bytes, i: nat)
    requires i < |bytes| && IsAscii(bytes[..i]) && bytes[i] > 0x7f
    ensures FirstNonAscii(bytes) == i
  {
    assert forall k :: 0 <= k < i ==> bytes[..i][k] == bytes[k];
    var first := bytes[..FirstNonAscii(bytes)];
    assert forall k :: 0 <= k < |first| ==> first[k] == bytes[k];
  }

  lemma WordsSnoc(bytes: Bytes, lineOffset: nat, b: Byte)
    ensures Words(bytes + [b], lineOffset) == AddByte(Words(bytes, lineOffset), bytes, b, lineOffset)
  {
    TakeBack(bytes, [b]);
  }

  lemma WordsGrow(bytes: Bytes, lineOffset: nat, i: nat)
    requires i < |bytes|
    ensures bytes[..i + 1][..i] == bytes[..i] && bytes[..i + 1][i] == bytes[i]
    ensures IsAscii(bytes[..i]) && bytes[i] <= 0x7f ==> IsAscii(bytes[..i + 1])
  {
  }

  /** The bytes from `start` up to `index` are the last word so far. */
  predicate InWord(bytes: Bytes, lineOffset: nat, start: nat, index: nat) {
    && start < index <= |bytes| && IsAscii(bytes[..index]) && !IsHorizontalWhitespace(bytes[index - 1])
    && Words(bytes[..index], lineOffset) ==
         Words(bytes[..start], lineOffset) + [Token(bytes[start..index], start + 1, lineOffset + start)]
  }

  lemma WordStarts(bytes: Bytes, lineOffset: nat, start: nat)
    requires start < |bytes| && IsAscii(bytes[..start]) && bytes[start] <= 0x7f && !IsHorizontalWhitespace(bytes[start])
    requires start == 0 || IsHorizontalWhitespace(bytes[start - 1])
    ensures InWord(bytes, lineOffset, start, start + 1)
  {
    WordsGrow(bytes, lineOffset, start);
    assert bytes[start..start + 1] == [bytes[start]];
    assert start > 0 ==> bytes[..start + 1][start - 1] == bytes[start - 1];
  }

  lemma WordLengthens(x: Bytes, c: Byte, before: seq<Token>, t: Token, lineOffset: nat)
    requires x != [] && !IsHorizontalWhitespace(x[|x| - 1]) && !IsHorizontalWhitespace(c)
    requires Words(x, lineOffset) == before + [t]
    ensures Words(x + [c], lineOffset) == before + [t.(text := t.text + [c])]
  {
    WordsSnoc(x, lineOffset, c);
    TakeBack(before, [t]);
  }

  lemma WordBegins(b: Bytes, c: Byte, lineOffset: nat)
    requires (b == [] || b[|b| - 1] == SPACE) && !IsHorizontalWhitespace(c)
    ensures Words(b + [c], lineOffset) == Words(b, lineOffset) + [Token([c], |b| + 1, lineOffset + |b|)]
  {
    WordsSnoc(b, lineOffset, c);
  }

  lemma WordGrows(bytes: Bytes, lineOffset: nat, start: nat, index: nat)
    requires InWord(bytes, lineOffset, start, index)
    requires index < |bytes| && bytes[index] <= 0x7f && !IsHorizontalWhitespace(bytes[index])
    ensures InWord(bytes, lineOffset, start, index + 1)
  {
    var x, text := bytes[..index], bytes[start..index];
    assert x[|x| - 1] == bytes[index - 1];
    WordLengthens(x, bytes[index], Words(bytes[..start], lineOffset), Token(text, start + 1, lineOffset + start), lineOffset);
    TakeNext(bytes, index);
    SliceNext(bytes, start, index);
  }

  /** The inner scan: from the first byte of a word to the first whitespace after it. */
  method ScanWord(bytes: Bytes, lineOffset: nat, line: nat, start: nat) returns (index: nat, error: Option<ParseError>)
    requires InWord(bytes, lineOffset, start, start + 1)
    ensures error.None? ==> InWord(bytes, lineOffset, start, index) && (index == |bytes| || IsHorizontalWhitespace(bytes[index]))
    ensures error.Some? ==> Tokenize(bytes, lineOffset, line) == Err(error.value)
  {
    index := start + 1;
    while index < |bytes| && !IsHorizontalWhitespace(bytes[index])
      invariant InWord(bytes, lineOffset, start, index)
    {
      if bytes[index] > 0x7f {
        FirstNonAsciiIs(bytes, index);
        return index, Some(ParseError(NotAscii, line, index + 1, lineOffset + index));
      }
      WordGrows(bytes, lineOffset, start, index);
      index := index + 1;
    }
    return index, None;
  }

  method TokenizeLine(bytes: Bytes, lineOffset: nat, line: nat) returns (r: Result<seq<Token>, ParseError>)
    ensures r == Tokenize(bytes, lineOffset, line)
  {
    var tokens: seq<Token>, index := [], 0;
    while index < |bytes|
      invariant 0 <= index <= |bytes| && IsAscii(bytes[..index]) && tokens == Words(bytes[..index], lineOffset)
      invariant index == 0 || index == |bytes| || IsHorizontalWhitespace(bytes[index - 1]) || IsHorizontalWhitespace(bytes[index])
    {
      if bytes[index] > 0x7f {
        FirstNonAsciiIs(bytes, index);
        return Err(ParseError(NotAscii, line, index + 1, lineOffset + index));
      }
      WordsGrow(bytes, lineOffset, index);
      if IsHorizontalWhitespace(bytes[index]) {
        index := index + 1;
      } else {
        WordStarts(bytes, lineOffset, index);
        var end, error := ScanWord(bytes, lineOffset, line, index);
        if error.Some? {
          return Err(error.value);
        }
        tokens := tokens + [Token(bytes[index..end], index + 1, lineOffset + index)];
        index := end;
      }
    }
    assert bytes[..index] == bytes;
    return Ok(tokens);
  }

  // ----- numerals -----

  predicate AllDigits(t: Bytes) {
    forall i :: 0 <= i < |t| ==> ZERO <= t[i] <= ZERO + 9
  }

  function Value(t: Bytes): nat
    requires AllDigits(t)
  {
    if t == [] then 0 else 10 * Value(t[..|t| - 1]) + (t[|t| - 1] as int - ZERO as int)
  }

  /** A lone zero, or digits that do not start with one. */
  predicate IsUnsigned(t: Bytes) {
    t != [] && AllDigits(t) && (t[0] == ZERO ==> |t| == 1)
  }

  function ParseUnsigned(t: Bytes): Result<nat, Kind> {
    if !IsUnsigned(t) then Err(NotUnsigned) else if Value(t) > 0x7fff_ffff then Err(UnsignedTooLarge) else Ok(Value(t))
  }

  function ParseLiteral(t: Bytes): Result<int, Kind> {
    if IsUnsigned(t) then if Value(t) > 0x7fff_ffff then Err(LiteralTooLarge) else Ok(Value(t))
    else if |t| > 1 && t[0] == MINUS && IsUnsigned(t[1..]) && t[1] != ZERO then
      if Value(t[1..]) > 0x7fff_ffff then Err(LiteralTooLarge) else Ok(0 - Value(t[1..]) as int)
    else Err(NotALiteral)
  }

  // ----- one line -----

  function Fault(kind: Kind, token: Token, line: nat): ParseError {
    ParseError(kind, line, token.column, token.byteOffset)
  }

  function ProcessHeader(p: Parser, tokens: seq<Token>, line: nat): Result<Parser, ParseError>
    requires tokens != []
  {
    if p.header.Some? then Err(Fault(SecondHeader, tokens[0], line))
    else if p.clauses != [] || p.current != [] then Err(Fault(HeaderAfterClauses, tokens[0], line))
    else if |tokens| != 4 || tokens[1].text != CNF then Err(Fault(MalformedHeader, tokens[0], line))
    else
      var variables, clauses := ParseUnsigned(tokens[2].text), ParseUnsigned(tokens[3].text);
      if variables.Err? then Err(Fault(variables.error, tokens[2], line))
      else if clauses.Err? then Err(Fault(clauses.error, tokens[3], line))
      else if variables.value > MAX_VARIABLES then Err(Fault(TooManyVariables, tokens[2], line))
      else if clauses.value > MAX_CLAUSES then Err(Fault(TooManyClausesDeclared, tokens[3], line))
      else if EncodedLength(0, clauses.value) > MAX_ENCODED_FORMULA_BYTES then Err(Fault(DeclaredTooLong, tokens[3], line))
      else Ok(p.(header := Some(Header(variables.value, clauses.value))))
  }

  function ProcessToken(p: Parser, header: Header, token: Token, line: nat): Result<Parser, ParseError> {
    match ParseLiteral(token.text)
    case Err(kind) => Err(Fault(kind, token, line))
    case Ok(literal) =>
      if literal == 0 then
        if |p.clauses| + 1 > header.clauseCount then Err(Fault(MoreThanDeclared, token, line))
        else Ok(p.(clauses := p.clauses + [p.current], current := []))
      else if Abs(literal) > header.variableCount then Err(Fault(UndeclaredVariable, token, line))
      else if p.literals + 1 > MAX_LITERAL_OCCURRENCES then Err(Fault(TooManyLiteralOccurrences, token, line))
      else if EncodedLength(p.literals + 1, header.clauseCount) > MAX_ENCODED_FORMULA_BYTES then Err(Fault(FormulaTooLong, token, line))
      else Ok(p.(current := p.current + [literal], literals := p.literals + 1))
  }

  function ProcessTokens(p: Parser, header: Header, tokens: seq<Token>, line: nat): Result<Parser, ParseError> {
    if tokens == [] then Ok(p) else
      match ProcessTokens(p, header, tokens[..|tokens| - 1], line)
      case Err(e) => Err(e)
      case Ok(p') => ProcessToken(p', header, tokens[|tokens| - 1], line)
  }

  function ProcessWords(p: Parser, tokens: seq<Token>, line: nat): Result<Parser, ParseError> {
    if tokens == [] || tokens[0].text == [LETTER_C] then Ok(p)
    else if tokens[0].text == [LETTER_P] then ProcessHeader(p, tokens, line)
    else if p.header.None? then Err(Fault(NoHeaderYet, tokens[0], line))
    else ProcessTokens(p, p.header.value, tokens, line)
  }

  function ProcessLine(p: Parser, bytes: Bytes, lineOffset: nat, line: nat): Result<Parser, ParseError> {
    match Tokenize(bytes, lineOffset, line)
    case Err(e) => Err(e)
    case Ok(tokens) => ProcessWords(p, tokens, line)
  }

  lemma {:induction false} TokenErrorStays(p: Parser, header: Header, tokens: seq<Token>, line: nat, k: nat)
    requires k <= |tokens| && ProcessTokens(p, header, tokens[..k], line).Err?
    ensures ProcessTokens(p, header, tokens, line) == ProcessTokens(p, header, tokens[..k], line)
    decreases |tokens| - k
  {
    if k < |tokens| {
      TakeTake(tokens, k);
      TokenErrorStays(p, header, tokens, line, k + 1);
    } else {
      assert tokens[..k] == tokens;
    }
  }

  method ReadLine(p: Parser, bytes: Bytes, lineOffset: nat, line: nat) returns (r: Result<Parser, ParseError>)
    ensures r == ProcessLine(p, bytes, lineOffset, line)
  {
    var tokenized := TokenizeLine(bytes, lineOffset, line);
    if tokenized.Err? {
      return Err(tokenized.error);
    }
    var tokens := tokenized.value;
    if tokens == [] || tokens[0].text == [LETTER_C] || tokens[0].text == [LETTER_P] || p.header.None? {
      return ProcessWords(p, tokens, line);
    }
    var current := p;
    for k := 0 to |tokens|
      invariant ProcessTokens(p, p.header.value, tokens[..k], line) == Ok(current)
    {
      TakeTake(tokens, k);
      var next := ProcessToken(current, p.header.value, tokens[k], line);
      if next.Err? {
        TokenErrorStays(p, p.header.value, tokens, line, k + 1);
        return next;
      }
      current := next.value;
    }
    Whole(tokens);
    return Ok(current);
  }

  // ----- whole inputs -----

  /** The lines of the input; the last one is not terminated by a newline. */
  function Split(bytes: Bytes): (lines: seq<Bytes>)
    ensures |lines| >= 1
  {
    if bytes == [] then [[]] else
      var lines, b := Split(bytes[..|bytes| - 1]), bytes[|bytes| - 1];
      var open := lines[|lines| - 1];
      if b == LF then lines + [[]] else lines[..|lines| - 1] + [open + [b]]
  }

  function Finished(lines: seq<Bytes>): seq<Bytes>
    requires lines != []
  {
    lines[..|lines| - 1]
  }

  /** The parser, the number of the next line and the offset of its first byte. */
  datatype Cursor = Cursor(parser: Parser, line: nat, lineOffset: nat)

  const START := Cursor(Parser(None, [], [], 0), 1, 0)

  function Advance(s: Cursor, bytes: Bytes): Result<Cursor, ParseError> {
    match ProcessLine(s.parser, bytes, s.lineOffset, s.line)
    case Err(e) => Err(e)
    case Ok(p) => Ok(Cursor(p, s.line + 1, s.lineOffset + |bytes| + 1))
  }

  function RunLines(lines: seq<Bytes>): Result<Cursor, ParseError> {
    if lines == [] then Ok(START) else
      match RunLines(lines[..|lines| - 1])
      case Err(e) => Err(e)
      case Ok(s) => Advance(s, lines[|lines| - 1])
  }

  function Conclude(s: Cursor, p: Parser, pending: nat, bytesRead: nat): Result<Cnf1, ParseError> {
    if p.header.None? then Err(ParseError(MissingHeader, s.line, 1, s.lineOffset))
    else if p.current != [] then Err(ParseError(MissingZero, s.line, pending + 1, bytesRead))
    else if |p.clauses| != p.header.value.clauseCount then Err(ParseError(CountMismatch, s.line, pending + 1, bytesRead))
    else Ok(Cnf1(p.header.value.variableCount, |p.clauses|, p.literals, p.clauses))
  }

  function Finish(s: Cursor, pending: Bytes, bytesRead: nat): Result<Cnf1, ParseError> {
    if pending == [] then Conclude(s, s.parser, 0, bytesRead) else
      match ProcessLine(s.parser, pending, s.lineOffset, s.line)
      case Err(e) => Err(e)
      case Ok(p) => Conclude(s, p, |pending|, bytesRead)
  }

  /** What the bytes mean: their lines are processed in order, the unterminated rest last. */
  function Parse(bytes: Bytes): Result<Cnf1, ParseError> {
    var lines := Split(bytes);
    match RunLines(Finished(lines))
    case Err(e) => Err(e)
    case Ok(s) => Finish(s, lines[|lines| - 1], |bytes|)
  }

  // ----- the chunked reader -----

  lemma SplitSnoc(bytes: Bytes, b: Byte)
    ensures var lines := Split(bytes);
      Split(bytes + [b]) == if b == LF then lines + [[]] else Finished(lines) + [lines[|lines| - 1] + [b]]
  {
    TakeBack(bytes, [b]);
  }

  lemma ErrorStaysOneByte(bytes: Bytes, b: Byte)
    requires RunLines(Finished(Split(bytes))).Err?
    ensures RunLines(Finished(Split(bytes + [b]))) == RunLines(Finished(Split(bytes)))
  {
    var lines := Split(bytes);
    SplitSnoc(bytes, b);
    if b == LF {
      TakeBack(lines, [[]]);
    } else {
      TakeBack(Finished(lines), [lines[|lines| - 1] + [b]]);
    }
  }

  lemma {:induction false} ErrorStays(bytes: Bytes, more: Bytes)
    requires RunLines(Finished(Split(bytes))).Err?
    ensures RunLines(Finished(Split(bytes + more))) == RunLines(Finished(Split(bytes)))
    decreases |more|
  {
    if more == [] {
      Empty(bytes);
    } else {
      var init, b := more[..|more| - 1], more[|more| - 1];
      ErrorStays(bytes, init);
      InitAndLast(bytes, more);
      ErrorStaysOneByte(bytes + init, b);
    }
  }

  /** After these bytes, the finished lines were processed and `open` is the unfinished one. */
  ghost predicate Read(bytes: Bytes, s: Cursor, open: Bytes) {
    RunLines(Finished(Split(bytes))) == Ok(s) && Split(bytes)[|Split(bytes)| - 1] == open
  }

  ghost predicate Failed(bytes: Bytes, e: ParseError) {
    RunLines(Finished(Split(bytes))) == Err(e)
  }

  lemma FailedStays(bytes: Bytes, more: Bytes, e: ParseError)
    requires Failed(bytes, e)
    ensures Failed(bytes + more, e) && Parse(bytes + more) == Err(e)
  {
    ErrorStays(bytes, more);
  }

  lemma ByteExtends(bytes: Bytes, s: Cursor, open: Bytes, b: Byte)
    requires Read(bytes, s, open) && b != LF
    ensures Read(bytes + [b], s, open + [b])
  {
    SplitSnoc(bytes, b);
    var lines := Split(bytes);
    TakeBack(Finished(lines), [open + [b]]);
  }

  /** The cursor after a line whose tokens were processed. */
  function After(s: Cursor, length: nat, parsed: Result<Parser, ParseError>): Result<Cursor, ParseError> {
    match parsed
    case Err(e) => Err(e)
    case Ok(p) => Ok(Cursor(p, s.line + 1, s.lineOffset + length + 1))
  }

  /** The outcome of reading some bytes that end with a newline. */
  ghost predicate Reached(bytes: Bytes, r: Result<Cursor, ParseError>) {
    match r
    case Ok(s) => Read(bytes, s, [])
    case Err(e) => Failed(bytes, e)
  }

  lemma NewlineEnds(bytes: Bytes, s: Cursor, open: Bytes)
    requires Read(bytes, s, open)
    ensures Reached(bytes + [LF], After(s, |open|, ProcessLine(s.parser, open, s.lineOffset, s.line)))
  {
    SplitSnoc(bytes, LF);
    TakeBack(Split(bytes), [[]]);
    assert RunLines(Split(bytes)) == Advance(s, open);
  }

  /** A newline inside a chunk: the parts kept so far and the tail make one line. */
  method FinishLine(parts: seq<Bytes>, tail: Bytes, s: Cursor, ghost bytes: Bytes) returns (r: Result<Cursor, ParseError>)
    requires Read(bytes, s, Joined(parts) + tail)
    ensures Reached(bytes + [LF], r)
  {
    JoinedAppend(parts, tail);
    var lineBytes := Assemble(parts + [tail], PartsLength(parts) + |tail|);
    NewlineEnds(bytes, s, lineBytes);
    var parsed := ReadLine(s.parser, lineBytes, s.lineOffset, s.line);
    return After(s, |lineBytes|, parsed);
  }

  /** Up to `index` in a chunk; the open line is what was held back and the chunk from `start` on. */
  ghost predicate ReadUpTo(before: Bytes, chunk: Bytes, start: nat, index: nat, s: Cursor, held: Bytes) {
    start <= index <= |chunk| && Read(before + chunk[..index], s, held + chunk[start..index])
  }

  lemma ChunkStarts(before: Bytes, chunk: Bytes, s: Cursor, held: Bytes)
    requires Read(before, s, held)
    ensures ReadUpTo(before, chunk, 0, 0, s, held)
  {
    Empty(before);
    Empty(held);
    assert chunk[..0] == [] && chunk[0..0] == [];
  }

  lemma ChunkByte(before: Bytes, chunk: Bytes, start: nat, index: nat, s: Cursor, held: Bytes)
    requires ReadUpTo(before, chunk, start, index, s, held) && index < |chunk| && chunk[index] != LF
    ensures ReadUpTo(before, chunk, start, index + 1, s, held)
  {
    ByteExtends(before + chunk[..index], s, held + chunk[start..index], chunk[index]);
    TakeGrows(before, chunk, index);
    SliceGrows(held, chunk, start, index);
  }

  lemma ChunkNewline(before: Bytes, chunk: Bytes, index: nat, r: Result<Cursor, ParseError>)
    requires index < |chunk| && chunk[index] == LF
    requires Reached(before + chunk[..index] + [LF], r)
    ensures match r case Ok(s) => ReadUpTo(before, chunk, index + 1, index + 1, s, []) case Err(e) => Failed(before + chunk, e)
  {
    TakeGrows(before, chunk, index);
    if r.Err? {
      FailedStays(before + chunk[..index + 1], chunk[index + 1..], r.error);
      TakeAndRest(before, chunk, index + 1);
    } else {
      Empty(chunk[index + 1..index + 1]);
    }
  }

  lemma ChunkEnds(before: Bytes, chunk: Bytes, start: nat, s: Cursor, held: Bytes)
    requires ReadUpTo(before, chunk, start, |chunk|, s, held)
    ensures Read(before + chunk, s, held + chunk[start..])
  {
    assert chunk[..|chunk|] == chunk && chunk[start..|chunk|] == chunk[start..];
  }

  /** Reads the lines that end inside one chunk and keeps its remainder. */
  method ConsumeChunk(chunk: Bytes, parts: seq<Bytes>, cursor: Cursor, ghost before: Bytes)
    returns (r: Result<Cursor, ParseError>, parts': seq<Bytes>)
    requires Read(before, cursor, Joined(parts))
    ensures match r case Ok(s') => Read(before + chunk, s', Joined(parts')) case Err(e) => Failed(before + chunk, e)
  {
    var s, start := cursor, 0;
    parts' := parts;
    ChunkStarts(before, chunk, s, Joined(parts));
    for index := 0 to |chunk|
      invariant 0 <= start && ReadUpTo(before, chunk, start, index, s, Joined(parts'))
    {
      if chunk[index] != LF {
        ChunkByte(before, chunk, start, index, s, Joined(parts'));
      } else {
        var ended := FinishLine(parts', chunk[start..index], s, before + chunk[..index]);
        ChunkNewline(before, chunk, index, ended);
        if ended.Err? {
          return ended, [];
        }
        s, start, parts' := ended.value, index + 1, [];
      }
    }
    ChunkEnds(before, chunk, start, s, Joined(parts'));
    if start < |chunk| {
      JoinedAppend(parts', chunk[start..]);
      parts' := parts' + [chunk[start..]];
    } else {
      Empty(Joined(parts'));
    }
    return Ok(s), parts';
  }

  function PartsLength(parts: seq<Bytes>): (n: nat)
    ensures n == |Joined(parts)|
  {
    if parts == [] then 0 else PartsLength(parts[..|parts| - 1]) + |parts[|parts| - 1]|
  }

  /** Chunk `i` is the one with which the input becomes too long. */
  predicate Overruns(chunks: seq<Bytes>, i: nat) {
    i < |chunks| && |Joined(chunks[..i])| <= MAX_DECOMPRESSED_DIMACS_BYTES < |Joined(chunks[..i + 1])|
  }

  /** The fault of a line finished before, or else that the input is too long, at the start of the line that is open. */
  function Overrun(before: Bytes): ParseError {
    match RunLines(Finished(Split(before)))
    case Err(e) => e
    case Ok(s) => ParseError(InputTooLong, s.line, 1, s.lineOffset)
  }

  lemma OverrunsOnce(chunks: seq<Bytes>, i: nat, j: nat)
    requires Overruns(chunks, i) && j <= |chunks| && |Joined(chunks[..j])| <= MAX_DECOMPRESSED_DIMACS_BYTES
    ensures j <= i
  {
    if i < j {
      JoinedSplits(chunks[..j], i + 1);
      assert chunks[..j][..i + 1] == chunks[..i + 1];
    }
  }

  lemma FailedBefore(chunks: seq<Bytes>, i: nat, j: nat, e: ParseError)
    requires i <= j <= |chunks| && Failed(Joined(chunks[..i]), e)
    ensures Overrun(Joined(chunks[..j])) == e
  {
    JoinedSplits(chunks[..j], i);
    assert chunks[..j][..i] == chunks[..i];
    FailedStays(Joined(chunks[..i]), Joined(chunks[..j][i..]), e);
  }

  lemma OverrunsHere(chunks: seq<Bytes>, i: nat)
    requires Overruns(chunks, i)
    ensures |Joined(chunks)| > MAX_DECOMPRESSED_DIMACS_BYTES
  {
    JoinedSplits(chunks, i + 1);
  }

  lemma FailsBeforeOverrun(chunks: seq<Bytes>, i: nat, e: ParseError)
    requires i < |chunks| && |Joined(chunks[..i + 1])| <= MAX_DECOMPRESSED_DIMACS_BYTES && Failed(Joined(chunks[..i + 1]), e)
    ensures forall j: nat :: Overruns(chunks, j) ==> Overrun(Joined(chunks[..j])) == e
    ensures Parse(Joined(chunks)) == Err(e)
  {
    forall j: nat | Overruns(chunks, j) ensures Overrun(Joined(chunks[..j])) == e {
      OverrunsOnce(chunks, j, i + 1);
      FailedBefore(chunks, i + 1, j, e);
    }
    JoinedSplits(chunks, i + 1);
    FailedStays(Joined(chunks[..i + 1]), Joined(chunks[i + 1..]), e);
  }

  lemma {:induction false} TooLongOverruns(chunks: seq<Bytes>)
    requires |Joined(chunks)| > MAX_DECOMPRESSED_DIMACS_BYTES
    ensures exists i: nat :: Overruns(chunks, i)
  {
    var n := |chunks| - 1;
    assert chunks[..n + 1] == chunks;
    if |Joined(chunks[..n])| > MAX_DECOMPRESSED_DIMACS_BYTES {
      TooLongOverruns(chunks[..n]);
      var i: nat :| Overruns(chunks[..n], i);
      assert chunks[..n][..i] == chunks[..i] && chunks[..n][..i + 1] == chunks[..i + 1];
      assert Overruns(chunks, i);
    } else {
      assert Overruns(chunks, n);
    }
  }

  /**
   Within the byte limit the result, error position included, is a function of the concatenated
   bytes alone; beyond it every input is refused, for a fault in the chunks before the one that is
   too much, or because of it.
   */
  method ParseDimacs(chunks: seq<Bytes>) returns (r: Result<Cnf1, ParseError>)
    ensures |Joined(chunks)| <= MAX_DECOMPRESSED_DIMACS_BYTES ==> r == Parse(Joined(chunks))
    ensures |Joined(chunks)| > MAX_DECOMPRESSED_DIMACS_BYTES ==>
      exists i: nat :: Overruns(chunks, i) && r == Err(Overrun(Joined(chunks[..i])))
  {
    var s, pendingParts: seq<Bytes>, bytesRead := START, [], 0;
    for i := 0 to |chunks|
      invariant bytesRead == |Joined(chunks[..i])| <= MAX_DECOMPRESSED_DIMACS_BYTES
      invariant Read(Joined(chunks[..i]), s, Joined(pendingParts))
    {
      JoinedGrows(chunks, i);
      bytesRead := bytesRead + |chunks[i]|;
      if bytesRead > MAX_DECOMPRESSED_DIMACS_BYTES {
        OverrunsHere(chunks, i);
        assert Overruns(chunks, i);
        return Err(ParseError(InputTooLong, s.line, 1, s.lineOffset));
      }
      var consumed, parts := ConsumeChunk(chunks[i], pendingParts, s, Joined(chunks[..i]));
      if consumed.Err? {
        FailsBeforeOverrun(chunks, i, consumed.error);
        if |Joined(chunks)| > MAX_DECOMPRESSED_DIMACS_BYTES {
          TooLongOverruns(chunks);
        }
        return Err(consumed.error);
      }
      s, pendingParts := consumed.value, parts;
    }
    Whole(chunks);
    var pending := Assemble(pendingParts, PartsLength(pendingParts));
    if |pending| > 0 {
      var parsed := ReadLine(s.parser, pending, s.lineOffset, s.line);
      if parsed.Err? {
        return Err(parsed.error);
      }
      return Conclude(s, parsed.value, |pending|, bytesRead);
    }
    return Conclude(s, s.parser, 0, bytesRead);
  }

  lemma {:induction false} JoinedSplits(chunks: seq<Bytes>, k: nat)
    requires k <= |chunks|
    ensures Joined(chunks) == Joined(chunks[..k]) + Joined(chunks[k..])
    decreases |chunks|
  {
    if k == |chunks| {
      assert chunks[..k] == chunks;
    } else {
      var init := chunks[..|chunks| - 1];
      JoinedSplits(init, k);
      assert init[..k] == chunks[..k] && chunks[k..][..|chunks| - 1 - k] == init[k..];
    }
  }

  // ----- what is parsed can be encoded -----

  predicate Sound(p: Parser) {
    match p.header
    case None => p.clauses == [] && p.current == [] && p.literals == 0
    case Some(h) =>
      && h.variableCount <= MAX_VARIABLES && |p.clauses| <= h.clauseCount <= MAX_CLAUSES
      && LiteralTotal(p.clauses) + |p.current| == p.literals <= MAX_LITERAL_OCCURRENCES
      && ClausesInRange(p.clauses, h.variableCount) && ClauseInRange(p.current, h.variableCount)
  }

  lemma {:induction false} TokensKeepSound(p: Parser, header: Header, tokens: seq<Token>, line: nat)
    requires Sound(p) && p.header == Some(header) && ProcessTokens(p, header, tokens, line).Ok?
    ensures var p' := ProcessTokens(p, header, tokens, line).value; Sound(p') && p'.header == Some(header)
  {
    if tokens != [] {
      var init := tokens[..|tokens| - 1];
      TokensKeepSound(p, header, init, line);
      var p' := ProcessTokens(p, header, init, line).value;
      AppendClause(p'.clauses, p'.current);
    }
  }

  lemma LineKeepsSound(p: Parser, bytes: Bytes, lineOffset: nat, line: nat)
    requires Sound(p) && ProcessLine(p, bytes, lineOffset, line).Ok?
    ensures Sound(ProcessLine(p, bytes, lineOffset, line).value)
  {
    var tokens := Words(bytes, lineOffset);
    if tokens != [] && tokens[0].text != [LETTER_C] && tokens[0].text != [LETTER_P] {
      TokensKeepSound(p, p.header.value, tokens, line);
    }
  }

  lemma {:induction false} LinesKeepSound(lines: seq<Bytes>)
    requires RunLines(lines).Ok?
    ensures Sound(RunLines(lines).value.parser)
  {
    if lines != [] {
      var init := lines[..|lines| - 1];
      LinesKeepSound(init);
      var s := RunLines(init).value;
      LineKeepsSound(s.parser, lines[|lines| - 1], s.lineOffset, s.line);
    }
  }

  lemma SoundEncodes(s: Cursor, p: Parser, pending: nat, bytesRead: nat)
    requires Sound(p) && Conclude(s, p, pending, bytesRead).Ok?
    ensures Encode(Conclude(s, p, pending, bytesRead).value).Ok?
  {
  }

  /** Every parsed formula encodes, and decoding gives it back. */
  lemma ParsedFormulaEncodes(bytes: Bytes)
    requires Parse(bytes).Ok?
    ensures Encode(Parse(bytes).value).Ok? && Decode(Encode(Parse(bytes).value).value) == Ok(Parse(bytes).value)
  {
    var lines := Split(bytes);
    var pending := lines[|lines| - 1];
    LinesKeepSound(Finished(lines));
    var s := RunLines(Finished(lines)).value;
    if pending != [] {
      LineKeepsSound(s.parser, pending, s.lineOffset, s.line);
      SoundEncodes(s, ProcessLine(s.parser, pending, s.lineOffset, s.line).value, |pending|, |bytes|);
    } else {
      SoundEncodes(s, s.parser, 0, |bytes|);
    }
    DecodeOfEncode(Parse(bytes).value);
  }

  // ----- two checks that never fire -----

  predicate LengthRefused<T>(r: Result<T, ParseError>) {
    r.Err? && (r.error.kind.DeclaredTooLong? || r.error.kind.FormulaTooLong?)
  }

  lemma {:induction false} TokensNeverTooLong(p: Parser, header: Header, tokens: seq<Token>, line: nat)
    requires Sound(p) && p.header == Some(header)
    ensures !LengthRefused(ProcessTokens(p, header, tokens, line))
  {
    if tokens != [] {
      var init := tokens[..|tokens| - 1];
      TokensNeverTooLong(p, header, init, line);
      if ProcessTokens(p, header, init, line).Ok? {
        TokensKeepSound(p, header, init, line);
      }
    }
  }

  lemma LineNeverTooLong(p: Parser, bytes: Bytes, lineOffset: nat, line: nat)
    requires Sound(p)
    ensures !LengthRefused(ProcessLine(p, bytes, lineOffset, line))
  {
    var tokens := Words(bytes, lineOffset);
    if p.header.Some? {
      TokensNeverTooLong(p, p.header.value, tokens, line);
    }
  }

  lemma {:induction false} LinesNeverTooLong(lines: seq<Bytes>)
    ensures !LengthRefused(RunLines(lines))
  {
    if lines != [] {
      var init := lines[..|lines| - 1];
      LinesNeverTooLong(init);
      if RunLines(init).Ok? {
        var s := RunLines(init).value;
        LinesKeepSound(init);
        LineNeverTooLong(s.parser, lines[|lines| - 1], s.lineOffset, s.line);
      }
    }
  }

  /**
   No input is ever refused for its encoded length: the limits on clauses and literal occurrences keep
   every formula below 32 MiB, so both length checks of the parser are dead.
   */
  lemma LengthChecksNeverFire(bytes: Bytes)
    ensures !LengthRefused(Parse(bytes))
  {
    var lines := Split(bytes);
    LinesNeverTooLong(Finished(lines));
    if RunLines(Finished(lines)).Ok? {
      var s := RunLines(Finished(lines)).value;
      LinesKeepSound(Finished(lines));
      LineNeverTooLong(s.parser, lines[|lines| - 1], s.lineOffset, s.line);
    }
  }
}
