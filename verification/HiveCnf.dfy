/** HiveCnfV1: the canonical little-endian encoding of a formula, its decoder, and solver batches. */
module HiveCnf {
  import opened Wrappers
  import opened Cnf
  import opened Seqs

  type Byte = x: int | 0 <= x < 256
  type Bytes = seq<Byte>

  const MAX_ENCODED_FORMULA_BYTES := 32 * 1024 * 1024
  const MAX_VARIABLES := 2_000_000
  const MAX_CLAUSES := 1_000_000
  const MAX_LITERAL_OCCURRENCES := 2_000_000
  const HEADER_BYTES := 20
  const MAGIC: Bytes := [0x48, 0x49, 0x56, 0x45, 0x43, 0x4e, 0x46, 0x31]

  /** A formula with the counts it declares. */
  datatype Cnf1 = Cnf1(variableCount: int, clauseCount: int, literalCount: int, clauses: Formula)

  datatype EncodeError = BadVariableCount | MismatchedMetadata | TooManyClauses | TooManyLiterals | InvalidLiteral | EncodingTooLong
  datatype DecodeError =
    | BadLength | BadMagic | VariableLimit | ClauseLimit | LiteralLimit | LengthMismatch | OutOfRangeLiteral(offset: int) | MetadataMismatch

  datatype BatchError = BadBatchSize

  // ----- words -----

  const TWO32 := 0x1_0000_0000
  const TWO31 := 0x8000_0000

  function Word(n: int): (w: Bytes)
    requires 0 <= n < TWO32
    ensures |w| == 4
  {
    [n % 256, n / 256 % 256, n / 65536 % 256, n / 16777216]
  }

  function ReadWord(b: Bytes, k: int): (n: int)
    requires 0 <= k && k + 4 <= |b|
    ensures 0 <= n < TWO32
  {
    (b[k] as int) + 256 * (b[k + 1] as int) + 65536 * (b[k + 2] as int) + 16777216 * (b[k + 3] as int)
  }

  /** Two's complement. */
  function Unsigned(n: int): (u: int)
    requires -TWO31 <= n < TWO31
    ensures 0 <= u < TWO32
  {
    if n < 0 then n + TWO32 else n
  }

  function Signed(u: int): (n: int)
    requires 0 <= u < TWO32
    ensures -TWO31 <= n < TWO31
  {
    if u < TWO31 then u else u - TWO32
  }

  function ReadInt(b: Bytes, k: int): int
    requires 0 <= k && k + 4 <= |b|
  {
    Signed(ReadWord(b, k))
  }

  lemma WordRoundTrip(n: int)
    requires 0 <= n < TWO32
    ensures ReadWord(Word(n), 0) == n
  {
    assert n / 256 / 256 == n / 65536 && n / 65536 / 256 == n / 16777216;
  }

  lemma ReadWordRoundTrip(b: Bytes)
    requires |b| == 4
    ensures Word(ReadWord(b, 0)) == b
  {
    var n := ReadWord(b, 0);
    var b0: int, b1: int, b2: int, b3: int := b[0], b[1], b[2], b[3];
    var q1 := b1 + 256 * b2 + 65536 * b3;
    var q2 := b2 + 256 * b3;
    assert n == b0 + 256 * q1 && n / 256 == q1 && n % 256 == b0;
    assert q1 == b1 + 256 * q2 && q1 / 256 == q2 && q1 % 256 == b1;
    assert q2 / 256 == b3 && q2 % 256 == b2;
    assert n / 65536 == n / 256 / 256 && n / 16777216 == n / 65536 / 256;
  }

  lemma IntRoundTrip(n: int)
    requires -TWO31 <= n < TWO31
    ensures ReadInt(Word(Unsigned(n)), 0) == n
  {
    WordRoundTrip(Unsigned(n));
  }

  predicate Fits(xs: seq<int>) {
    forall i :: 0 <= i < |xs| ==> -TWO31 <= xs[i] < TWO31
  }

  function IntBytes(xs: seq<int>): (b: Bytes)
    requires Fits(xs)
    ensures |b| == 4 * |xs|
  {
    if xs == [] then [] else IntBytes(xs[..|xs| - 1]) + Word(Unsigned(xs[|xs| - 1]))
  }

  function BytesInts(b: Bytes): (xs: seq<int>)
    requires |b| % 4 == 0
    ensures |xs| == |b| / 4 && Fits(xs)
  {
    seq(|b| / 4, i requires 0 <= i < |b| / 4 => ReadInt(b, 4 * i))
  }

  lemma ReadIntShift(a: Bytes, b: Bytes, k: int)
    requires 0 <= k && k + 4 <= |b|
    ensures ReadInt(a + b, |a| + k) == ReadInt(b, k)
  {
  }

  lemma ReadIntPrefix(a: Bytes, b: Bytes, k: int)
    requires 0 <= k && k + 4 <= |a|
    ensures ReadInt(a + b, k) == ReadInt(a, k)
  {
  }

  lemma {:induction false} IntBytesAt(xs: seq<int>, i: int)
    requires Fits(xs) && 0 <= i < |xs|
    ensures ReadInt(IntBytes(xs), 4 * i) == xs[i]
  {
    var init, w := xs[..|xs| - 1], Word(Unsigned(xs[|xs| - 1]));
    if i < |init| {
      IntBytesAt(init, i);
      ReadIntPrefix(IntBytes(init), w, 4 * i);
    } else {
      IntRoundTrip(xs[i]);
      ReadIntShift(IntBytes(init), w, 0);
    }
  }

  lemma IntsOfBytes(xs: seq<int>)
    requires Fits(xs)
    ensures BytesInts(IntBytes(xs)) == xs
  {
    forall i | 0 <= i < |xs| ensures BytesInts(IntBytes(xs))[i] == xs[i] {
      IntBytesAt(xs, i);
    }
  }

  lemma {:induction false} BytesOfInts(b: Bytes)
    requires |b| % 4 == 0
    ensures IntBytes(BytesInts(b)) == b
  {
    if b != [] {
      var init, last := b[..|b| - 4], b[|b| - 4..];
      var xs := BytesInts(b);
      BytesOfInts(init);
      assert init + last == b;
      forall i | 0 <= i < |xs| - 1 ensures xs[i] == BytesInts(init)[i] {
        ReadIntPrefix(init, last, 4 * i);
      }
      assert xs[..|xs| - 1] == BytesInts(init);
      ReadIntShift(init, last, 0);
      WordOfReadInt(last);
    }
  }

  lemma WordOfReadInt(w: Bytes)
    requires |w| == 4
    ensures Word(Unsigned(ReadInt(w, 0))) == w
  {
    ReadWordRoundTrip(w);
  }

  // ----- the zero-terminated stream of clauses -----

  function Stream(clauses: Formula): (s: seq<int>) {
    if clauses == [] then [] else Stream(clauses[..|clauses| - 1]) + clauses[|clauses| - 1] + [0]
  }

  function LiteralTotal(clauses: Formula): nat {
    if clauses == [] then 0 else LiteralTotal(clauses[..|clauses| - 1]) + |clauses[|clauses| - 1]|
  }

  predicate InRange(l: Literal, variableCount: int) {
    l != 0 && Abs(l) <= variableCount
  }

  predicate ClauseInRange(c: Clause, variableCount: int) {
    forall i :: 0 <= i < |c| ==> InRange(c[i], variableCount)
  }

  predicate ClausesInRange(clauses: Formula, variableCount: int) {
    forall i :: 0 <= i < |clauses| ==> ClauseInRange(clauses[i], variableCount)
  }

  /** The reader's state after some words: finished clauses and the open one. */
  datatype Scan = Scan(clauses: Formula, open: Clause, observed: nat)

  function ScanWord(s: Scan, w: int): Scan {
    if w == 0 then Scan(s.clauses + [s.open], [], s.observed) else Scan(s.clauses, s.open + [w], s.observed + 1)
  }

  function ScanWords(ws: seq<int>): Scan {
    if ws == [] then Scan([], [], 0) else ScanWord(ScanWords(ws[..|ws| - 1]), ws[|ws| - 1])
  }

  lemma ScanSnoc(ws: seq<int>, w: int)
    ensures ScanWords(ws + [w]) == ScanWord(ScanWords(ws), w)
  {
    TakeBack(ws, [w]);
  }

  lemma {:induction false} ScanOpen(ws: seq<int>, c: Clause)
    requires 0 !in c
    ensures var s := ScanWords(ws);
      ScanWords(ws + c) == Scan(s.clauses, s.open + c, s.observed + |c|)
  {
    if c == [] {
      Empty(ws);
      Empty(ScanWords(ws).open);
    } else {
      var init, last := c[..|c| - 1], c[|c| - 1];
      ScanOpen(ws, init);
      assert last in c;
      ScanSnoc(ws + init, last);
      InitAndLast(ws, c);
      InitAndLast(ScanWords(ws).open, c);
    }
  }

  /** Reading back a written stream gives the clauses. */
  lemma {:induction false} ScanOfStream(clauses: Formula)
    requires forall i :: 0 <= i < |clauses| ==> 0 !in clauses[i]
    ensures ScanWords(Stream(clauses)) == Scan(clauses, [], LiteralTotal(clauses))
  {
    if clauses != [] {
      var init, last := clauses[..|clauses| - 1], clauses[|clauses| - 1];
      ScanOfStream(init);
      ScanOpen(Stream(init), last);
      ScanSnoc(Stream(init) + last, 0);
      Empty(last);
      Whole(clauses);
    }
  }

  /** Writing what was read gives the stream, up to the clause still open. */
  lemma {:induction false} StreamOfScan(ws: seq<int>)
    ensures var s := ScanWords(ws);
      && Stream(s.clauses) + s.open == ws
      && LiteralTotal(s.clauses) + |s.open| == s.observed
      && 0 !in s.open && (forall i :: 0 <= i < |s.clauses| ==> 0 !in s.clauses[i])
  {
    if ws != [] {
      var init, w := ws[..|ws| - 1], ws[|ws| - 1];
      StreamOfScan(init);
      var s := ScanWords(init);
      Whole(ws);
      ScanSnoc(init, w);
      if w == 0 {
        AppendClause(s.clauses, s.open);
        Empty(Stream(s.clauses + [s.open]));
      } else {
        Associates(Stream(s.clauses), s.open, [w]);
      }
    }
  }

  lemma AppendClause(clauses: Formula, c: Clause)
    ensures Stream(clauses + [c]) == Stream(clauses) + c + [0]
    ensures LiteralTotal(clauses + [c]) == LiteralTotal(clauses) + |c|
  {
    TakeBack(clauses, [c]);
  }

  lemma {:induction false} StreamLength(clauses: Formula)
    ensures |Stream(clauses)| == LiteralTotal(clauses) + |clauses|
  {
    if clauses != [] {
      StreamLength(clauses[..|clauses| - 1]);
    }
  }

  lemma {:induction false} UnitsTotal(f: Formula, cube: Cube)
    ensures LiteralTotal(WithUnits(f, cube)) == LiteralTotal(f) + |cube|
    decreases |cube|
  {
    var g := WithUnits(f, cube);
    if cube == [] {
      assert g == f;
    } else {
      assert g[..|g| - 1] == WithUnits(f, cube[..|cube| - 1]);
      UnitsTotal(f, cube[..|cube| - 1]);
    }
  }

  lemma {:induction false} StreamInRange(clauses: Formula, variableCount: int, i: int)
    requires ClausesInRange(clauses, variableCount) && 0 <= i < |Stream(clauses)|
    ensures Stream(clauses)[i] == 0 || InRange(Stream(clauses)[i], variableCount)
  {
    var init, last := clauses[..|clauses| - 1], clauses[|clauses| - 1];
    if i < |Stream(init)| {
      StreamInRange(init, variableCount, i);
    } else if i < |Stream(init)| + |last| {
      assert Stream(clauses)[i] == last[i - |Stream(init)|];
    }
  }

  // ----- encoding -----

  function EncodedLength(literals: int, clauses: int): int {
    HEADER_BYTES + (literals + clauses) * 4
  }

  function Header(variableCount: int, clauseCount: int, literalCount: int): (b: Bytes)
    requires 0 <= variableCount < TWO32 && 0 <= clauseCount < TWO32 && 0 <= literalCount < TWO32
    ensures |b| == HEADER_BYTES
  {
    MAGIC + Word(variableCount) + Word(clauseCount) + Word(literalCount)
  }

  function Encode(f: Cnf1): Result<Bytes, EncodeError> {
    if !(0 <= f.variableCount <= MAX_VARIABLES) then Err(BadVariableCount)
    else if |f.clauses| != f.clauseCount || LiteralTotal(f.clauses) != f.literalCount then Err(MismatchedMetadata)
    else if f.clauseCount > MAX_CLAUSES then Err(TooManyClauses)
    else if f.literalCount > MAX_LITERAL_OCCURRENCES then Err(TooManyLiterals)
    else if !ClausesInRange(f.clauses, f.variableCount) then Err(InvalidLiteral)
    else if EncodedLength(f.literalCount, f.clauseCount) > MAX_ENCODED_FORMULA_BYTES then Err(EncodingTooLong)
    else
      StreamFits(f.clauses, f.variableCount);
      Ok(Header(f.variableCount, f.clauseCount, f.literalCount) + IntBytes(Stream(f.clauses)))
  }

  lemma StreamFits(clauses: Formula, variableCount: int)
    requires ClausesInRange(clauses, variableCount) && variableCount <= MAX_VARIABLES
    ensures Fits(Stream(clauses))
  {
    forall i | 0 <= i < |Stream(clauses)| ensures -TWO31 <= Stream(clauses)[i] < TWO31 {
      StreamInRange(clauses, variableCount, i);
    }
  }

  // ----- decoding -----

  /** Position of the first word that is neither zero nor a literal in range. */
  function FirstBad(ws: seq<int>, variableCount: int): (i: nat)
    ensures i <= |ws|
    ensures forall k :: 0 <= k < i ==> ws[k] == 0 || InRange(ws[k], variableCount)
    ensures i < |ws| ==> ws[i] != 0 && !InRange(ws[i], variableCount)
  {
    if ws == [] then 0 else
      var i := FirstBad(ws[..|ws| - 1], variableCount);
      if i < |ws| - 1 then i
      else if ws[|ws| - 1] == 0 || InRange(ws[|ws| - 1], variableCount) then |ws| else |ws| - 1
  }

  function ReadPayload(variableCount: int, clauseCount: int, literalCount: int, payload: Bytes): Result<Cnf1, DecodeError>
    requires |payload| % 4 == 0
  {
    var ws := BytesInts(payload);
    var bad := FirstBad(ws, variableCount);
    var s := ScanWords(ws);
    if bad < |ws| then Err(OutOfRangeLiteral(HEADER_BYTES + 4 * bad))
    else if s.open != [] || |s.clauses| != clauseCount || s.observed != literalCount then Err(MetadataMismatch)
    else Ok(Cnf1(variableCount, clauseCount, literalCount, s.clauses))
  }

  function Decode(b: Bytes): Result<Cnf1, DecodeError> {
    if |b| < HEADER_BYTES || |b| > MAX_ENCODED_FORMULA_BYTES then Err(BadLength)
    else if b[..8] != MAGIC then Err(BadMagic)
    else
      var variableCount, clauseCount, literalCount := ReadWord(b, 8), ReadWord(b, 12), ReadWord(b, 16);
      if variableCount > MAX_VARIABLES then Err(VariableLimit)
      else if clauseCount > MAX_CLAUSES then Err(ClauseLimit)
      else if literalCount > MAX_LITERAL_OCCURRENCES then Err(LiteralLimit)
      else if EncodedLength(literalCount, clauseCount) != |b| then Err(LengthMismatch)
      else ReadPayload(variableCount, clauseCount, literalCount, b[HEADER_BYTES..])
  }

  lemma HeaderReads(v: int, c: int, l: int, rest: Bytes)
    requires 0 <= v < TWO32 && 0 <= c < TWO32 && 0 <= l < TWO32
    ensures var b := Header(v, c, l) + rest;
      ReadWord(b, 8) == v && ReadWord(b, 12) == c && ReadWord(b, 16) == l && b[..8] == MAGIC && b[HEADER_BYTES..] == rest
  {
    WordRoundTrip(v);
    WordRoundTrip(c);
    WordRoundTrip(l);
    var b := Header(v, c, l) + rest;
    assert b[8..12] == Word(v) && b[12..16] == Word(c) && b[16..20] == Word(l);
  }

  lemma NoZeroInClauses(clauses: Formula, variableCount: int)
    requires ClausesInRange(clauses, variableCount)
    ensures forall i :: 0 <= i < |clauses| ==> 0 !in clauses[i]
  {
    forall i | 0 <= i < |clauses| ensures 0 !in clauses[i] {
      assert ClauseInRange(clauses[i], variableCount);
    }
  }

  /** The payload of an encoding decodes without a complaint. */
  lemma PayloadReads(clauses: Formula, variableCount: int)
    requires ClausesInRange(clauses, variableCount) && variableCount <= MAX_VARIABLES
    ensures Fits(Stream(clauses)) && BytesInts(IntBytes(Stream(clauses))) == Stream(clauses)
    ensures FirstBad(Stream(clauses), variableCount) == |Stream(clauses)|
    ensures ScanWords(Stream(clauses)) == Scan(clauses, [], LiteralTotal(clauses))
  {
    StreamFits(clauses, variableCount);
    IntsOfBytes(Stream(clauses));
    NoZeroInClauses(clauses, variableCount);
    ScanOfStream(clauses);
    var bad := FirstBad(Stream(clauses), variableCount);
    if bad < |Stream(clauses)| {
      StreamInRange(clauses, variableCount, bad);
    }
  }

  lemma PayloadDecodes(f: Cnf1)
    requires ClausesInRange(f.clauses, f.variableCount) && f.variableCount <= MAX_VARIABLES
    requires |f.clauses| == f.clauseCount && LiteralTotal(f.clauses) == f.literalCount
    ensures Fits(Stream(f.clauses))
    ensures ReadPayload(f.variableCount, f.clauseCount, f.literalCount, IntBytes(Stream(f.clauses))) == Ok(f)
  {
    PayloadReads(f.clauses, f.variableCount);
  }

  /** Decoding what was encoded gives back the formula. */
  lemma DecodeOfEncode(f: Cnf1)
    requires Encode(f).Ok?
    ensures Decode(Encode(f).value) == Ok(f)
  {
    PayloadDecodes(f);
    StreamLength(f.clauses);
    HeaderReads(f.variableCount, f.clauseCount, f.literalCount, IntBytes(Stream(f.clauses)));
  }

  lemma {:induction false} ScanInRange(ws: seq<int>, variableCount: int)
    requires forall k :: 0 <= k < |ws| ==> ws[k] == 0 || InRange(ws[k], variableCount)
    ensures ClausesInRange(ScanWords(ws).clauses, variableCount) && ClauseInRange(ScanWords(ws).open, variableCount)
  {
    if ws != [] {
      ScanInRange(ws[..|ws| - 1], variableCount);
    }
  }

  lemma PayloadEncodes(f: Cnf1, payload: Bytes)
    requires |payload| % 4 == 0
    requires ReadPayload(f.variableCount, f.clauseCount, f.literalCount, payload) == Ok(f)
    ensures |f.clauses| == f.clauseCount && LiteralTotal(f.clauses) == f.literalCount
    ensures ClausesInRange(f.clauses, f.variableCount)
    ensures Fits(Stream(f.clauses)) && IntBytes(Stream(f.clauses)) == payload
  {
    var ws := BytesInts(payload);
    ScanInRange(ws, f.variableCount);
    StreamOfScan(ws);
    assert Stream(f.clauses) + [] == Stream(f.clauses);
    BytesOfInts(payload);
  }

  lemma HeaderRebuilds(b: Bytes)
    requires |b| >= HEADER_BYTES && b[..8] == MAGIC
    ensures Header(ReadWord(b, 8), ReadWord(b, 12), ReadWord(b, 16)) == b[..HEADER_BYTES]
  {
    ReadWordRoundTrip(b[8..12]);
    ReadWordRoundTrip(b[12..16]);
    ReadWordRoundTrip(b[16..20]);
  }

  /** Every accepted byte string is the encoding of the formula it decodes to: the format is canonical. */
  lemma EncodeOfDecode(b: Bytes)
    requires Decode(b).Ok?
    ensures Encode(Decode(b).value) == Ok(b)
  {
    PayloadEncodes(Decode(b).value, b[HEADER_BYTES..]);
    HeaderRebuilds(b);
    assert b[..HEADER_BYTES] + b[HEADER_BYTES..] == b;
  }

  lemma DecodedWithinLimits(b: Bytes)
    requires Decode(b).Ok?
    ensures var f := Decode(b).value;
      && 0 <= f.variableCount <= MAX_VARIABLES && |f.clauses| == f.clauseCount <= MAX_CLAUSES
      && LiteralTotal(f.clauses) == f.literalCount <= MAX_LITERAL_OCCURRENCES && ClausesInRange(f.clauses, f.variableCount)
  {
    EncodeOfDecode(b);
  }

  /** Two accepted byte strings with the same formula are the same string. */
  lemma DecodeIsInjective(b: Bytes, b': Bytes)
    requires Decode(b).Ok? && Decode(b') == Decode(b)
    ensures b == b'
  {
    EncodeOfDecode(b);
    EncodeOfDecode(b');
  }

  // ----- the encoder and decoder as they run -----

  method PutWord(a: array<Byte>, offset: nat, n: int)
    requires offset + 4 <= a.Length && 0 <= n < TWO32
    modifies a
    ensures a[..offset] == old(a[..offset]) && a[offset..offset + 4] == Word(n)
    ensures a[..offset + 4] == old(a[..offset]) + Word(n)
  {
    a[offset], a[offset + 1], a[offset + 2], a[offset + 3] := n % 256, n / 256 % 256, n / 65536 % 256, n / 16777216;
    assert a[offset..offset + 4] == Word(n);
    assert a[..offset + 4] == a[..offset] + a[offset..offset + 4];
  }

  lemma IntBytesAppend(xs: seq<int>, x: int)
    requires Fits(xs) && -TWO31 <= x < TWO31
    ensures Fits(xs + [x]) && IntBytes(xs + [x]) == IntBytes(xs) + Word(Unsigned(x))
  {
    assert (xs + [x])[..|xs|] == xs;
  }

  method CountLiterals(clauses: Formula) returns (total: nat)
    ensures total == LiteralTotal(clauses)
  {
    total := 0;
    for i := 0 to |clauses|
      invariant total == LiteralTotal(clauses[..i])
    {
      TakeTake(clauses, i);
      total := total + |clauses[i]|;
    }
    Whole(clauses);
  }

  method CheckLiterals(clauses: Formula, variableCount: int) returns (ok: bool)
    ensures ok == ClausesInRange(clauses, variableCount)
  {
    for i := 0 to |clauses|
      invariant ClausesInRange(clauses[..i], variableCount)
    {
      for j := 0 to |clauses[i]|
        invariant ClauseInRange(clauses[i][..j], variableCount)
      {
        if !InRange(clauses[i][j], variableCount) {
          assert !ClauseInRange(clauses[i], variableCount);
          return false;
        }
      }
      assert clauses[i][..|clauses[i]|] == clauses[i];
    }
    return true;
  }

  lemma {:induction false} IntBytesConcat(xs: seq<int>, ys: seq<int>)
    requires Fits(xs) && Fits(ys)
    ensures Fits(xs + ys) && IntBytes(xs + ys) == IntBytes(xs) + IntBytes(ys)
  {
    if ys == [] {
      Empty(xs);
      Empty(IntBytes(xs));
    } else {
      var init, last := ys[..|ys| - 1], ys[|ys| - 1];
      IntBytesConcat(xs, init);
      IntBytesAppend(xs + init, last);
      InitAndLast(xs, ys);
      Associates(IntBytes(xs), IntBytes(init), Word(Unsigned(last)));
    }
  }

  lemma IntBytesNext(prefix: Bytes, xs: seq<int>, j: nat)
    requires Fits(xs) && j < |xs|
    ensures prefix + IntBytes(xs[..j]) + Word(Unsigned(xs[j])) == prefix + IntBytes(xs[..j + 1])
  {
    IntBytesAppend(xs[..j], xs[j]);
    TakeGrows([], xs, j);
    Empty(xs[..j]);
    Empty(xs[..j + 1]);
    Associates(prefix, IntBytes(xs[..j]), Word(Unsigned(xs[j])));
  }

  /** Writes one clause and its terminator at a moving offset. */
  method WriteClause(output: array<Byte>, start: nat, clause: Clause)
    requires Fits(clause) && start + 4 * (|clause| + 1) <= output.Length
    modifies output
    ensures Fits(clause + [0]) && output[..start + 4 * (|clause| + 1)] == old(output[..start]) + IntBytes(clause + [0])
  {
    ghost var prefix, words := output[..start], clause + [0];
    var offset := start;
    Empty(prefix);
    for j := 0 to |clause|
      invariant offset == start + 4 * j && output[..offset] == prefix + IntBytes(words[..j])
    {
      IntBytesNext(prefix, words, j);
      PutWord(output, offset, Unsigned(clause[j]));
      offset := offset + 4;
    }
    IntBytesNext(prefix, words, |clause|);
    PutWord(output, offset, 0);
    TakeBack(words, []);
    Empty(words);
  }

  lemma StreamGrows(clauses: Formula, i: nat)
    requires i < |clauses|
    ensures Stream(clauses[..i + 1]) == Stream(clauses[..i]) + (clauses[i] + [0])
    ensures |Stream(clauses[..i + 1])| <= |Stream(clauses)|
    decreases |clauses| - i
  {
    TakeTake(clauses, i);
    Associates(Stream(clauses[..i]), clauses[i], [0]);
    if i + 1 < |clauses| {
      StreamGrows(clauses, i + 1);
    } else {
      Whole(clauses);
    }
  }

  lemma GrowsBytes(header: Bytes, s: seq<int>, c: seq<int>)
    requires Fits(s) && Fits(c)
    ensures Fits(s + c) && (header + IntBytes(s)) + IntBytes(c) == header + IntBytes(s + c)
  {
    IntBytesConcat(s, c);
  }

  method WriteNext(output: array<Byte>, offset: nat, clause: Clause, ghost header: Bytes, ghost done: seq<int>)
    requires Fits(done) && Fits(clause + [0]) && offset + 4 * (|clause| + 1) <= output.Length
    requires output[..offset] == header + IntBytes(done)
    modifies output
    ensures Fits(done + (clause + [0]))
    ensures output[..offset + 4 * (|clause| + 1)] == header + IntBytes(done + (clause + [0]))
  {
    GrowsBytes(header, done, clause + [0]);
    assert forall k :: 0 <= k < |clause| ==> clause[k] == (clause + [0])[k];
    WriteClause(output, offset, clause);
  }

  method WriteStream(output: array<Byte>, clauses: Formula)
    requires forall i :: 0 <= i < |clauses| ==> Fits(clauses[i] + [0])
    requires output.Length == HEADER_BYTES + 4 * |Stream(clauses)|
    modifies output
    ensures Fits(Stream(clauses)) && output[..] == old(output[..HEADER_BYTES]) + IntBytes(Stream(clauses))
  {
    ghost var header, done := output[..HEADER_BYTES], [];
    var offset := HEADER_BYTES;
    Empty(header);
    for i := 0 to |clauses|
      invariant done == Stream(clauses[..i]) && Fits(done) && |done| <= |Stream(clauses)|
      invariant offset == HEADER_BYTES + 4 * |done|
      invariant output[..offset] == header + IntBytes(done)
    {
      StreamGrows(clauses, i);
      WriteNext(output, offset, clauses[i], header, done);
      done := done + (clauses[i] + [0]);
      offset := offset + 4 * (|clauses[i]| + 1);
    }
    Whole(clauses);
    assert output[..] == output[..offset];
  }

  method EncodeHiveCnfV1(f: Cnf1) returns (r: Result<Bytes, EncodeError>)
    ensures r == Encode(f)
  {
    if !(0 <= f.variableCount <= MAX_VARIABLES) {
      return Err(BadVariableCount);
    }
    var actualLiteralCount := CountLiterals(f.clauses);
    if |f.clauses| != f.clauseCount || actualLiteralCount != f.literalCount {
      return Err(MismatchedMetadata);
    }
    if |f.clauses| > MAX_CLAUSES {
      return Err(TooManyClauses);
    }
    if actualLiteralCount > MAX_LITERAL_OCCURRENCES {
      return Err(TooManyLiterals);
    }
    var inRange := CheckLiterals(f.clauses, f.variableCount);
    if !inRange {
      return Err(InvalidLiteral);
    }
    var byteLength := EncodedLength(f.literalCount, f.clauseCount);
    if byteLength > MAX_ENCODED_FORMULA_BYTES {
      return Err(EncodingTooLong);
    }
    var output := new Byte[byteLength](_ => 0);
    for i := 0 to 8
      invariant output[..i] == MAGIC[..i]
    {
      output[i] := MAGIC[i];
    }
    assert output[..8] == MAGIC;
    PutWord(output, 8, f.variableCount);
    PutWord(output, 12, f.clauseCount);
    PutWord(output, 16, f.literalCount);
    StreamLength(f.clauses);
    forall i | 0 <= i < |f.clauses| ensures Fits(f.clauses[i] + [0]) {
      assert ClauseInRange(f.clauses[i], f.variableCount);
    }
    WriteStream(output, f.clauses);
    return Ok(output[..]);
  }

  lemma ScanPrefix(ws: seq<int>, k: nat)
    requires k < |ws|
    ensures ScanWords(ws[..k + 1]) == ScanWord(ScanWords(ws[..k]), ws[k])
  {
    TakeTake(ws, k);
  }

  lemma {:induction false} FirstBadAt(ws: seq<int>, variableCount: int, k: nat)
    requires k < |ws| && ws[k] != 0 && !InRange(ws[k], variableCount)
    requires forall i :: 0 <= i < k ==> ws[i] == 0 || InRange(ws[i], variableCount)
    ensures FirstBad(ws, variableCount) == k
  {
  }

  method DecodePayload(variableCount: int, clauseCount: int, literalCount: int, payload: Bytes)
    returns (r: Result<Cnf1, DecodeError>)
    requires |payload| % 4 == 0 && variableCount <= MAX_VARIABLES
    ensures r == ReadPayload(variableCount, clauseCount, literalCount, payload)
  {
    ghost var ws := BytesInts(payload);
    var clauses: Formula, currentClause: Clause, observedLiterals := [], [], 0;
    var k := 0;
    while 4 * k < |payload|
      invariant 0 <= k <= |ws|
      invariant forall i :: 0 <= i < k ==> ws[i] == 0 || InRange(ws[i], variableCount)
      invariant observedLiterals >= 0 && ScanWords(ws[..k]) == Scan(clauses, currentClause, observedLiterals)
    {
      var literal := ReadInt(payload, 4 * k);
      ScanPrefix(ws, k);
      if literal == 0 {
        clauses, currentClause := clauses + [currentClause], [];
      } else {
        if literal == -TWO31 || Abs(literal) > variableCount {
          FirstBadAt(ws, variableCount, k);
          return Err(OutOfRangeLiteral(HEADER_BYTES + 4 * k));
        }
        currentClause, observedLiterals := currentClause + [literal], observedLiterals + 1;
      }
      k := k + 1;
    }
    assert ws[..k] == ws;
    if |currentClause| > 0 || |clauses| != clauseCount || observedLiterals != literalCount {
      return Err(MetadataMismatch);
    }
    return Ok(Cnf1(variableCount, clauseCount, literalCount, clauses));
  }

  method DecodeHiveCnfV1(b: Bytes) returns (r: Result<Cnf1, DecodeError>)
    ensures r == Decode(b)
  {
    if |b| < HEADER_BYTES || |b| > MAX_ENCODED_FORMULA_BYTES {
      return Err(BadLength);
    }
    for i := 0 to 8
      invariant b[..i] == MAGIC[..i]
    {
      if b[i] != MAGIC[i] {
        assert b[..8][i] != MAGIC[i];
        return Err(BadMagic);
      }
    }
    assert b[..8] == MAGIC;
    var variableCount, clauseCount, literalCount := ReadWord(b, 8), ReadWord(b, 12), ReadWord(b, 16);
    if variableCount > MAX_VARIABLES {
      return Err(VariableLimit);
    }
    if clauseCount > MAX_CLAUSES {
      return Err(ClauseLimit);
    }
    if literalCount > MAX_LITERAL_OCCURRENCES {
      return Err(LiteralLimit);
    }
    if HEADER_BYTES + (literalCount + clauseCount) * 4 != |b| {
      return Err(LengthMismatch);
    }
    r := DecodePayload(variableCount, clauseCount, literalCount, b[HEADER_BYTES..]);
  }

  // ----- solver batches -----

  function Flatten(batches: seq<seq<int>>): seq<int> {
    if batches == [] then [] else Flatten(batches[..|batches| - 1]) + batches[|batches| - 1]
  }

  /** A batch ends with a finished clause; only a single clause may exceed the target. */
  predicate WholeClauses(batch: seq<int>, target: int) {
    batch != [] && batch[|batch| - 1] == 0 && (|batch| <= target || 0 !in batch[..|batch| - 1])
  }

  /** Length of the first clause of a batch, terminator included. */
  function FirstClause(batch: seq<int>): nat {
    if batch == [] then 0 else if batch[0] == 0 then 1 else 1 + FirstClause(batch[1..])
  }

  lemma {:induction false} FirstClauseOf(c: Clause, rest: seq<int>)
    requires 0 !in c
    ensures FirstClause(c + [0] + rest) == |c| + 1
    decreases |c|
  {
    if c != [] {
      assert (c + [0] + rest)[1..] == c[1..] + [0] + rest;
      FirstClauseOf(c[1..], rest);
    } else {
      assert (c + [0] + rest)[0] == 0;
    }
  }

  lemma FlattenAppend(batches: seq<seq<int>>, batch: seq<int>)
    ensures Flatten(batches + [batch]) == Flatten(batches) + batch
  {
    assert (batches + [batch])[..|batches|] == batches;
  }

  /** Sent batches are well cut and none had room for the first clause of the next. */
  ghost predicate Sent(batches: seq<seq<int>>, target: int) {
    && (forall k :: 0 <= k < |batches| ==> WholeClauses(batches[k], target))
    && (forall k :: 0 <= k < |batches| - 1 ==> |batches[k]| + FirstClause(batches[k + 1]) > target)
  }

  /** The last batch had no room for the first clause of this one. */
  ghost predicate Full(batches: seq<seq<int>>, batch: seq<int>, target: int) {
    batches != [] ==> |batches[|batches| - 1]| + FirstClause(batch) > target
  }

  /** The batches sent so far, and the one being filled, after the clauses of `stream`. */
  ghost predicate Filling(batches: seq<seq<int>>, pending: seq<int>, target: int, stream: seq<int>) {
    && Flatten(batches) + pending == stream && Sent(batches, target)
    && (pending != [] ==> WholeClauses(pending, target) && |pending| < target && Full(batches, pending, target))
  }

  /** With nothing pending, the last batch was sent because it was full. */
  predicate Settled(batches: seq<seq<int>>, pending: seq<int>, target: int) {
    batches != [] && pending == [] ==> |batches[|batches| - 1]| >= target
  }

  lemma SentGrows(batches: seq<seq<int>>, batch: seq<int>, target: int)
    requires Sent(batches, target) && WholeClauses(batch, target) && Full(batches, batch, target)
    ensures Sent(batches + [batch], target)
  {
  }

  /** A full batch is sent before a clause that no longer fits. */
  method Flush(batches: seq<seq<int>>, pending: seq<int>, target: int, ghost stream: seq<int>) returns (sent: seq<seq<int>>)
    requires Flatten(batches) + pending == stream && Sent(batches, target)
    requires WholeClauses(pending, target) && Full(batches, pending, target)
    ensures sent == batches + [pending] && Flatten(sent) + [] == stream && Sent(sent, target)
  {
    FlattenAppend(batches, pending);
    SentGrows(batches, pending, target);
    Empty(Flatten(batches + [pending]));
    sent := batches + [pending];
  }

  lemma PendingGrows(before: seq<int>, clause: Clause, target: int)
    requires 0 !in clause
    requires before != [] ==> WholeClauses(before, target) && |before| + |clause| + 1 <= target
    ensures var after := before + (clause + [0]);
      WholeClauses(after, target) && FirstClause(after) == if before == [] then |clause| + 1 else FirstClause(before)
  {
    var after := before + (clause + [0]);
    if before == [] {
      assert after == clause + [0] + [] && after[..|after| - 1] == clause;
      FirstClauseOf(clause, []);
    } else {
      FirstClausePrefix(before, clause + [0]);
    }
  }

  /** Sends the pending batch first when the clause does not fit behind it. */
  method MakeRoom(batches: seq<seq<int>>, pending: seq<int>, clause: Clause, target: int, ghost stream: seq<int>)
    returns (batches': seq<seq<int>>, pending': seq<int>)
    requires Filling(batches, pending, target, stream) && Settled(batches, pending, target)
    ensures Filling(batches', pending', target, stream)
    ensures pending' != [] ==> |pending'| + |clause| + 1 <= target
    ensures batches' != [] && pending' == [] ==> |batches'[|batches'| - 1]| + |clause| + 1 > target
  {
    batches', pending' := batches, pending;
    if |pending'| > 0 && |pending'| + |clause| + 1 > target {
      batches' := Flush(batches', pending', target, stream);
      pending' := [];
    }
  }

  lemma PendingTakes(batches: seq<seq<int>>, pending: seq<int>, clause: Clause, target: int, stream: seq<int>)
    requires 0 !in clause && Filling(batches, pending, target, stream)
    requires pending != [] ==> |pending| + |clause| + 1 <= target
    requires batches != [] && pending == [] ==> |batches[|batches| - 1]| + |clause| + 1 > target
    ensures var after := pending + (clause + [0]);
      Flatten(batches) + after == stream + (clause + [0]) && WholeClauses(after, target) && Full(batches, after, target)
  {
    PendingGrows(pending, clause, target);
    Associates(Flatten(batches), pending, clause + [0]);
  }

  method AddClause(batches: seq<seq<int>>, pending: seq<int>, clause: Clause, target: int, ghost stream: seq<int>)
    returns (batches': seq<seq<int>>, pending': seq<int>)
    requires target >= 1 && 0 !in clause && Filling(batches, pending, target, stream) && Settled(batches, pending, target)
    ensures Filling(batches', pending', target, stream + (clause + [0])) && Settled(batches', pending', target)
  {
    batches', pending' := MakeRoom(batches, pending, clause, target, stream);
    PendingTakes(batches', pending', clause, target, stream);
    pending' := pending' + (clause + [0]);
    if |pending'| >= target {
      batches' := Flush(batches', pending', target, stream + (clause + [0]));
      pending' := [];
    }
  }

  /**
   The batches concatenate to the zero-terminated stream, keep clauses whole, stay within the
   target where they can, and are maximal: no batch had room for the clause that follows it.
   */
  method CreateClauseBatches(clauses: Formula, targetInts: int) returns (r: Result<seq<seq<int>>, BatchError>)
    requires forall i :: 0 <= i < |clauses| ==> 0 !in clauses[i]
    ensures r.Err? <==> targetInts < 1
    ensures r.Ok? ==>
      && Flatten(r.value) == Stream(clauses)
      && (forall i :: 0 <= i < |r.value| ==> WholeClauses(r.value[i], targetInts))
      && (forall i :: 0 <= i < |r.value| - 1 ==> |r.value[i]| + FirstClause(r.value[i + 1]) > targetInts)
  {
    if targetInts < 1 {
      return Err(BadBatchSize);
    }
    var batches: seq<seq<int>>, pending: seq<int> := [], [];
    for i := 0 to |clauses|
      invariant Filling(batches, pending, targetInts, Stream(clauses[..i])) && Settled(batches, pending, targetInts)
    {
      StreamGrows(clauses, i);
      batches, pending := AddClause(batches, pending, clauses[i], targetInts, Stream(clauses[..i]));
    }
    Whole(clauses);
    if |pending| > 0 {
      batches := Flush(batches, pending, targetInts, Stream(clauses));
    }
    Empty(Flatten(batches));
    return Ok(batches);
  }

  lemma {:induction false} FirstClausePrefix(batch: seq<int>, more: seq<int>)
    requires batch != [] && batch[|batch| - 1] == 0
    ensures FirstClause(batch + more) == FirstClause(batch)
    decreases |batch|
  {
    if batch[0] != 0 {
      assert (batch + more)[1..] == batch[1..] + more;
      FirstClausePrefix(batch[1..], more);
    }
  }
}
