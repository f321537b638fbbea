/**
 The bytes of HiveCnfV1, position by position, and exactly which formulas and byte strings are accepted.
 No writer, reader or scan appears in these statements.
 */
module HiveCnfLayout {
  import opened Wrappers
  import opened Cnf
  import opened HiveCnf
  import opened Seqs

  /** Four bytes, the least significant first. */
  ghost predicate LittleEndian(b: Bytes, k: int, n: int) {
    0 <= k && k + 4 <= |b| && n == b[k] as int + 0x100 * b[k + 1] as int + 0x1_0000 * b[k + 2] as int + 0x100_0000 * b[k + 3] as int
  }

  /** Negative numbers in two's complement. */
  ghost predicate SignedAt(b: Bytes, k: int, n: int) {
    LittleEndian(b, k, if n < 0 then n + 0x1_0000_0000 else n)
  }

  /** How many words come before clause `k`: its predecessors' literals and their terminators. */
  function WordsBefore(clauses: Formula, k: nat): nat
    requires k <= |clauses|
  {
    if k == 0 then 0 else WordsBefore(clauses, k - 1) + |clauses[k - 1]| + 1
  }

  /** Clause `k` stands behind its predecessors, literal by literal, and a zero ends it. */
  ghost predicate ClauseAt(clauses: Formula, k: nat, b: Bytes)
    requires k < |clauses|
  {
    var start := HEADER_BYTES + 4 * WordsBefore(clauses, k);
    && SignedAt(b, start + 4 * |clauses[k]|, 0)
    && forall j :: 0 <= j < |clauses[k]| ==> SignedAt(b, start + 4 * j, clauses[k][j])
  }

  /** "HIVECNF1", the three counts, the clauses, and nothing else. */
  ghost predicate Layout(f: Cnf1, b: Bytes) {
    && |b| == HEADER_BYTES + 4 * WordsBefore(f.clauses, |f.clauses|)
    && b[..8] == [0x48, 0x49, 0x56, 0x45, 0x43, 0x4e, 0x46, 0x31]
    && LittleEndian(b, 8, f.variableCount) && LittleEndian(b, 12, f.clauseCount) && LittleEndian(b, 16, f.literalCount)
    && forall k: nat :: k < |f.clauses| ==> ClauseAt(f.clauses, k, b)
  }

  predicate LiteralsExist(clauses: Formula, variableCount: int) {
    forall c, l :: c in clauses && l in c ==> l != 0 && -variableCount <= l <= variableCount
  }

  /** The declared counts are true and within the limits, and every literal is one of the formula's variables. */
  ghost predicate Encodable(f: Cnf1) {
    && 0 <= f.variableCount <= 2_000_000 && f.clauseCount <= 1_000_000 && f.literalCount <= 2_000_000
    && f.clauseCount == |f.clauses| && f.literalCount + f.clauseCount == WordsBefore(f.clauses, |f.clauses|)
    && LiteralsExist(f.clauses, f.variableCount)
  }

  lemma {:induction false} WordsBeforePrefix(clauses: Formula, more: Formula, k: nat)
    requires k <= |clauses|
    ensures WordsBefore(clauses + more, k) == WordsBefore(clauses, k)
  {
    if k > 0 {
      WordsBeforePrefix(clauses, more, k - 1);
    }
  }

  /** The stream has a place for every literal and every terminator. */
  lemma {:induction false} StreamPlaces(clauses: Formula)
    ensures |Stream(clauses)| == WordsBefore(clauses, |clauses|) == LiteralTotal(clauses) + |clauses|
    ensures forall k: nat :: k < |clauses| ==> InStream(clauses, k)
  {
    if clauses != [] {
      var init, last := clauses[..|clauses| - 1], clauses[|clauses| - 1];
      StreamPlaces(init);
      assert clauses == init + [last];
      WordsBeforePrefix(init, [last], |init|);
      forall k: nat | k < |clauses| ensures InStream(clauses, k) {
        WordsBeforePrefix(init, [last], k);
        if k < |init| {
          assert InStream(init, k) && clauses[k] == init[k];
        }
      }
    }
  }

  ghost predicate InStream(clauses: Formula, k: nat)
    requires k < |clauses|
  {
    var s, start := Stream(clauses), WordsBefore(clauses, k);
    && start + |clauses[k]| < |s| && s[start + |clauses[k]|] == 0
    && forall j :: 0 <= j < |clauses[k]| ==> s[start + j] == clauses[k][j]
  }

  lemma WordIsLittleEndian(b: Bytes, k: int, n: int)
    requires 0 <= n < TWO32
    ensures LittleEndian(b, k, n) <==> 0 <= k && k + 4 <= |b| && ReadWord(b, k) == n
  {
  }

  lemma IntIsSigned(b: Bytes, k: int, n: int)
    requires -TWO31 <= n < TWO31
    ensures SignedAt(b, k, n) <==> 0 <= k && k + 4 <= |b| && ReadInt(b, k) == n
  {
    if 0 <= k && k + 4 <= |b| {
      WordIsLittleEndian(b, k, Unsigned(n));
    }
  }

  lemma EncodableIsExact(f: Cnf1)
    ensures Encode(f).Ok? <==> Encodable(f)
  {
    StreamPlaces(f.clauses);
    if ClausesInRange(f.clauses, f.variableCount) {
      forall c, l | c in f.clauses && l in c ensures l != 0 && -f.variableCount <= l <= f.variableCount {
        var k :| 0 <= k < |f.clauses| && f.clauses[k] == c;
        assert ClauseInRange(f.clauses[k], f.variableCount);
        var j :| 0 <= j < |c| && c[j] == l;
        assert InRange(c[j], f.variableCount);
      }
    }
    if LiteralsExist(f.clauses, f.variableCount) {
      forall k | 0 <= k < |f.clauses| ensures ClauseInRange(f.clauses[k], f.variableCount) {
        assert f.clauses[k] in f.clauses;
        assert forall j :: 0 <= j < |f.clauses[k]| ==> f.clauses[k][j] in f.clauses[k];
      }
    }
  }

  lemma PayloadIsStream(f: Cnf1, b: Bytes)
    requires ClausesInRange(f.clauses, f.variableCount) && f.variableCount <= MAX_VARIABLES && |b| >= HEADER_BYTES
    requires Fits(Stream(f.clauses)) && b[HEADER_BYTES..] == IntBytes(Stream(f.clauses))
    ensures forall i :: 0 <= i < |Stream(f.clauses)| ==> SignedAt(b, HEADER_BYTES + 4 * i, Stream(f.clauses)[i])
  {
    var s, header := Stream(f.clauses), b[..HEADER_BYTES];
    assert b == header + IntBytes(s);
    forall i | 0 <= i < |s| ensures SignedAt(b, HEADER_BYTES + 4 * i, s[i]) {
      IntBytesAt(s, i);
      ReadIntShift(header, IntBytes(s), 4 * i);
      IntIsSigned(b, HEADER_BYTES + 4 * i, s[i]);
    }
  }

  lemma StreamIsLaidOut(clauses: Formula, b: Bytes, k: nat)
    requires k < |clauses| && InStream(clauses, k)
    requires forall i :: 0 <= i < |Stream(clauses)| ==> SignedAt(b, HEADER_BYTES + 4 * i, Stream(clauses)[i])
    ensures ClauseAt(clauses, k, b)
  {
    var s, start := Stream(clauses), WordsBefore(clauses, k);
    var last := start + |clauses[k]|;
    assert SignedAt(b, HEADER_BYTES + 4 * last, s[last]);
    forall j | 0 <= j < |clauses[k]| ensures SignedAt(b, HEADER_BYTES + 4 * start + 4 * j, clauses[k][j]) {
      var i := start + j;
      assert SignedAt(b, HEADER_BYTES + 4 * i, s[i]);
    }
  }

  /** The writer succeeds exactly on encodable formulas, and puts every byte where the layout has it. */
  lemma EncodingIsExact(f: Cnf1)
    ensures Encode(f).Ok? <==> Encodable(f)
    ensures Encode(f).Ok? ==> Layout(f, Encode(f).value)
  {
    EncodableIsExact(f);
    if Encode(f).Ok? {
      var b := Encode(f).value;
      StreamPlaces(f.clauses);
      StreamFits(f.clauses, f.variableCount);
      HeaderReads(f.variableCount, f.clauseCount, f.literalCount, IntBytes(Stream(f.clauses)));
      WordIsLittleEndian(b, 8, f.variableCount);
      WordIsLittleEndian(b, 12, f.clauseCount);
      WordIsLittleEndian(b, 16, f.literalCount);
      PayloadIsStream(f, b);
      forall k: nat | k < |f.clauses| ensures ClauseAt(f.clauses, k, b) {
        StreamIsLaidOut(f.clauses, b, k);
      }
    }
  }

  // ----- the layout determines the bytes -----

  /** Four bytes are equal where they spell the same number. */
  lemma SameWord(a: Bytes, b: Bytes, k: int, n: int)
    requires LittleEndian(a, k, n) && LittleEndian(b, k, n)
    ensures a[k..k + 4] == b[k..k + 4]
  {
    ReadWordRoundTrip(a[k..k + 4]);
    ReadWordRoundTrip(b[k..k + 4]);
  }

  /** Every word of the payload belongs to a clause. */
  lemma {:induction false} Locate(clauses: Formula, n: nat, i: nat) returns (k: nat, j: nat)
    requires n <= |clauses| && i < WordsBefore(clauses, n)
    ensures k < n && j <= |clauses[k]| && i == WordsBefore(clauses, k) + j
  {
    if i < WordsBefore(clauses, n - 1) {
      k, j := Locate(clauses, n - 1, i);
    } else {
      k, j := n - 1, i - WordsBefore(clauses, n - 1);
    }
  }

  lemma SamePayload(f: Cnf1, a: Bytes, b: Bytes, i: nat)
    requires Layout(f, a) && Layout(f, b) && i < WordsBefore(f.clauses, |f.clauses|)
    ensures a[HEADER_BYTES + 4 * i..HEADER_BYTES + 4 * i + 4] == b[HEADER_BYTES + 4 * i..HEADER_BYTES + 4 * i + 4]
  {
    var k, j := Locate(f.clauses, |f.clauses|, i);
    assert ClauseAt(f.clauses, k, a) && ClauseAt(f.clauses, k, b);
    var n := if j == |f.clauses[k]| then 0 else f.clauses[k][j];
    var at := HEADER_BYTES + 4 * i;
    assert at == HEADER_BYTES + 4 * WordsBefore(f.clauses, k) + 4 * j;
    assert SignedAt(a, at, n) && SignedAt(b, at, n);
    SameWord(a, b, at, if n < 0 then n + 0x1_0000_0000 else n);
  }

  lemma LayoutIsUnique(f: Cnf1, a: Bytes, b: Bytes)
    requires Layout(f, a) && Layout(f, b)
    ensures a == b
  {
    SameWord(a, b, 8, f.variableCount);
    SameWord(a, b, 12, f.clauseCount);
    SameWord(a, b, 16, f.literalCount);
    forall p | 0 <= p < |a| ensures a[p] == b[p] {
      if p < 8 {
        assert a[..8][p] == b[..8][p];
      } else {
        var low := p - p % 4;
        if low >= HEADER_BYTES {
          var i: nat := (low - HEADER_BYTES) / 4;
          assert low == HEADER_BYTES + 4 * i;
          SamePayload(f, a, b, i);
        }
        assert a[low..low + 4][p % 4] == b[low..low + 4][p % 4];
      }
    }
  }

  /** The reader accepts a byte string for a formula exactly if the formula is encodable and these are its bytes. */
  lemma DecodingIsExact(b: Bytes, f: Cnf1)
    ensures Decode(b) == Ok(f) <==> Encodable(f) && Layout(f, b)
  {
    EncodingIsExact(f);
    if Decode(b) == Ok(f) {
      EncodeOfDecode(b);
    }
    if Encodable(f) && Layout(f, b) {
      LayoutIsUnique(f, Encode(f).value, b);
      DecodeOfEncode(f);
    }
  }

  // ----- refusals -----

  /** The word at `i` is neither zero nor a literal, and all words before it are one or the other. */
  ghost predicate FirstStrange(b: Bytes, variableCount: int, i: nat) {
    && HEADER_BYTES + 4 * i + 4 <= |b| && IsStrange(b, variableCount, i)
    && forall k: nat :: k < i ==> !IsStrange(b, variableCount, k)
  }

  ghost predicate IsStrange(b: Bytes, variableCount: int, i: nat) {
    StrangeAt(b, variableCount, HEADER_BYTES + 4 * i)
  }

  ghost predicate StrangeAt(b: Bytes, variableCount: int, at: int) {
    exists n :: SignedAt(b, at, n) && -0x8000_0000 <= n < 0x8000_0000 && (n < -variableCount || n > variableCount)
  }

  /** Which error a byte string is refused with: the tests in their order. */
  ghost predicate RefusedWith(b: Bytes, error: DecodeError) {
    if |b| < 20 || |b| > 32 * 1024 * 1024 then error == BadLength
    else if b[..8] != [0x48, 0x49, 0x56, 0x45, 0x43, 0x4e, 0x46, 0x31] then error == BadMagic
    else exists v, c, l :: LittleEndian(b, 8, v) && LittleEndian(b, 12, c) && LittleEndian(b, 16, l) && RefusedCounts(b, v, c, l, error)
  }

  ghost predicate RefusedCounts(b: Bytes, v: int, c: int, l: int, error: DecodeError) {
    if v > 2_000_000 then error == VariableLimit
    else if c > 1_000_000 then error == ClauseLimit
    else if l > 2_000_000 then error == LiteralLimit
    else if |b| != 20 + 4 * (l + c) then error == LengthMismatch
    else if exists i: nat :: FirstStrange(b, v, i) then exists i: nat :: FirstStrange(b, v, i) && error == OutOfRangeLiteral(20 + 4 * i)
    else error == MetadataMismatch
  }

  lemma StrangeIsBad(b: Bytes, v: int, i: nat)
    requires v >= 0 && |b| >= HEADER_BYTES && (|b| - HEADER_BYTES) % 4 == 0 && HEADER_BYTES + 4 * i + 4 <= |b|
    ensures var w := BytesInts(b[HEADER_BYTES..])[i]; IsStrange(b, v, i) <==> w != 0 && !InRange(w, v)
  {
    var w := BytesInts(b[HEADER_BYTES..])[i];
    var at := HEADER_BYTES + 4 * i;
    assert b == b[..HEADER_BYTES] + b[HEADER_BYTES..];
    ReadIntShift(b[..HEADER_BYTES], b[HEADER_BYTES..], 4 * i);
    assert w == ReadInt(b, at);
    IntIsSigned(b, at, w);
    if IsStrange(b, v, i) {
      var n :| SignedAt(b, at, n) && -0x8000_0000 <= n < 0x8000_0000 && (n < -v || n > v);
      IntIsSigned(b, at, n);
    }
  }

  lemma FirstBadIsStrange(b: Bytes, v: int)
    requires v >= 0 && |b| >= HEADER_BYTES && (|b| - HEADER_BYTES) % 4 == 0
    ensures var ws := BytesInts(b[HEADER_BYTES..]); var bad := FirstBad(ws, v);
      if bad < |ws| then FirstStrange(b, v, bad) else forall i: nat :: !FirstStrange(b, v, i)
  {
    var ws := BytesInts(b[HEADER_BYTES..]);
    var bad := FirstBad(ws, v);
    forall k: nat | k < |ws| ensures IsStrange(b, v, k) <==> ws[k] != 0 && !InRange(ws[k], v) {
      StrangeIsBad(b, v, k);
    }
  }

  /** A refused byte string is refused with the first test it fails. */
  lemma RefusalIsExact(b: Bytes)
    requires Decode(b).Err?
    ensures RefusedWith(b, Decode(b).error)
  {
    if 20 <= |b| <= 32 * 1024 * 1024 && b[..8] == MAGIC {
      var v, c, l := ReadWord(b, 8), ReadWord(b, 12), ReadWord(b, 16);
      WordIsLittleEndian(b, 8, v);
      WordIsLittleEndian(b, 12, c);
      WordIsLittleEndian(b, 16, l);
      if |b| == 20 + 4 * (l + c) {
        FirstBadIsStrange(b, v);
      }
      assert RefusedCounts(b, v, c, l, Decode(b).error);
    }
  }
}
