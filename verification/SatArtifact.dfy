/** The binary SAT artifact: a JSON header and one bit for each variable. */
module SatArtifact {
  import opened Wrappers
  import opened Cnf
  import opened HiveCnf
  import opened Seqs

  const MAX_SAT_MODEL_ARTIFACT_BYTES := 512 * 1024
  const FIXED_HEADER_BYTES := 12
  const MAX_METADATA_BYTES := 8 * 1024
  const MODEL_MAGIC: Bytes := [0x48, 0x53, 0x4d, 0x4f, 0x44, 0x4c, 0x30, 0x31]

  datatype Metadata = Metadata(
    version: int, formulaHash: string, taskId: string, cube: Cube, pathHash: string, solverVersion: string, variableCount: int)

  datatype ArtifactError =
    | InvalidMetadata | MetadataTooLarge | NotOneLiteralPerVariable | ArtifactTooLarge
    | BadArtifactLength | BadArtifactMagic | BadMetadataLength | NotJson | BitsetLengthMismatch

  /** What the text of a header parses to: no JSON at all, JSON without the seven typed fields, or the fields. */
  datatype HeaderText = NoJson | OtherJson | Fields(metadata: Metadata)

  /** The platform's JSON and UTF-8 conversions of headers. */
  datatype Json = Json(text: Metadata -> Bytes, parse: Bytes -> HeaderText)
  {
    /** Printing the metadata and parsing the bytes gives the metadata back (false only of lone surrogates). */
    predicate Faithful(metadata: Metadata) {
      |text(metadata)| >= 2 && parse(text(metadata)) == Fields(metadata)
    }
  }

  // ----- validity of manifests -----

  predicate IsSha256(s: string) {
    |s| == 64 && forall i :: 0 <= i < 64 ==> '0' <= s[i] <= '9' || 'a' <= s[i] <= 'f'
  }

  predicate IsId(s: string) {
    1 <= |s| <= 128 &&
    forall i :: 0 <= i < |s| ==> 'A' <= s[i] <= 'Z' || 'a' <= s[i] <= 'z' || '0' <= s[i] <= '9' || s[i] == '_' || s[i] == '-'
  }

  predicate IsCube(cube: Cube) {
    && |cube| <= 64
    && (forall i :: 0 <= i < |cube| ==> cube[i] != 0 && Abs(cube[i]) <= 0x7fff_ffff)
    && (forall i, j :: 0 <= i < j < |cube| ==> Abs(cube[i]) != Abs(cube[j]))
  }

  predicate ValidMetadata(m: Metadata) {
    && m.version == 1 && IsSha256(m.formulaHash) && IsId(m.taskId) && IsCube(m.cube) && IsSha256(m.pathHash)
    && 1 <= |m.solverVersion| <= 64 && 0 <= m.variableCount <= MAX_VARIABLES
  }

  // ----- bits -----

  predicate Bit(b: nat, k: nat) {
    if k == 0 then b % 2 == 1 else Bit(b / 2, k - 1)
  }

  /** `b | 1 << k`. */
  function SetBit(b: nat, k: nat): nat {
    if k == 0 then b / 2 * 2 + 1 else 2 * SetBit(b / 2, k - 1) + b % 2
  }

  function Pow2(n: nat): nat {
    if n == 0 then 1 else 2 * Pow2(n - 1)
  }

  lemma {:induction false} SetBitSets(b: nat, k: nat, j: nat)
    ensures Bit(SetBit(b, k), j) <==> j == k || Bit(b, j)
    decreases k
  {
    var set' := SetBit(b, k);
    if k > 0 {
      assert set' / 2 == SetBit(b / 2, k - 1) && set' % 2 == b % 2;
      if j > 0 {
        SetBitSets(b / 2, k - 1, j - 1);
      }
    } else {
      assert set' / 2 == b / 2 && set' % 2 == 1;
    }
  }

  lemma {:induction false} SetBitFits(b: nat, k: nat, n: nat)
    requires k < n && b < Pow2(n)
    ensures SetBit(b, k) < Pow2(n)
    decreases k
  {
    var half := Pow2(n - 1);
    assert Pow2(n) == 2 * half && b / 2 < half;
    if k > 0 {
      SetBitFits(b / 2, k - 1, n - 1);
      assert SetBit(b, k) == 2 * SetBit(b / 2, k - 1) + b % 2 <= 2 * (half - 1) + 1;
    }
  }

  lemma {:induction false} ZeroHasNoBits(k: nat)
    ensures !Bit(0, k)
  {
    if k > 0 {
      ZeroHasNoBits(k - 1);
    }
  }

  function BitsetBytes(variableCount: nat): nat {
    (variableCount + 7) / 8
  }

  /** One variable of a bitset; `None` when the source throws. */
  function BitsetValue(bitset: Bytes, variable: int): Option<bool> {
    if variable < 1 || variable > |bitset| * 8 then None
    else Some(Bit(bitset[(variable - 1) / 8] as int, (variable - 1) % 8))
  }

  /** Exactly the positive literals of the model are set, padding included. */
  ghost predicate IsBitsetOf(bitset: Bytes, model: seq<int>) {
    |bitset| == BitsetBytes(|model|) &&
    forall v :: 1 <= v <= 8 * |bitset| ==> (BitsetValue(bitset, v) == Some(true) <==> v in model)
  }

  predicate OneLiteralPerVariable(model: seq<int>) {
    forall i :: 0 <= i < |model| ==> Abs(model[i]) == i + 1
  }

  // ----- encoding -----

  ghost predicate Laid(bytes: Bytes, header: Bytes, bitset: Bytes) {
    |header| < TWO32 && bytes == MODEL_MAGIC + Word(|header|) + header + bitset
  }

  method SetVariable(bitset: array<Byte>, index: nat)
    requires index < 8 * bitset.Length
    modifies bitset
    ensures forall v :: 1 <= v <= 8 * bitset.Length ==>
      (BitsetValue(bitset[..], v) == Some(true) <==> v == index + 1 || BitsetValue(old(bitset[..]), v) == Some(true))
  {
    var byte, k := index / 8, index % 8;
    assert Pow2(8) == 256 by {
      assert Pow2(3) == 8 && Pow2(6) == 8 * Pow2(3);
    }
    var b: nat := bitset[byte];
    SetBitFits(b, k, 8);
    forall j: nat ensures Bit(SetBit(b, k), j) <==> j == k || Bit(b, j) {
      SetBitSets(b, k, j);
    }
    bitset[byte] := SetBit(b, k);
  }

  /** The bits of the first literals, or nothing when some literal is out of place. */
  method FillBitset(bitset: array<Byte>, model: seq<int>) returns (ok: bool)
    requires bitset.Length == BitsetBytes(|model|) && forall i :: 0 <= i < bitset.Length ==> bitset[i] == 0
    modifies bitset
    ensures ok <==> OneLiteralPerVariable(model)
    ensures ok ==> IsBitsetOf(bitset[..], model)
  {
    forall k: nat ensures !Bit(0, k) {
      ZeroHasNoBits(k);
    }
    for i := 0 to |model|
      invariant OneLiteralPerVariable(model[..i])
      invariant forall v :: 1 <= v <= 8 * bitset.Length ==> (BitsetValue(bitset[..], v) == Some(true) <==> v in model[..i])
    {
      var literal := model[i];
      assert model[..i + 1] == model[..i] + [literal];
      if Abs(literal) != i + 1 {
        return false;
      }
      if literal > 0 {
        SetVariable(bitset, i);
      }
    }
    Whole(model);
    return true;
  }

  /** Which fault is reported; the total size is never at fault. */
  function EncodeFault(json: Json, metadata: Metadata, model: seq<int>): ArtifactError {
    if !ValidMetadata(metadata) || |model| != metadata.variableCount then InvalidMetadata
    else if |json.text(metadata)| > MAX_METADATA_BYTES then MetadataTooLarge
    else NotOneLiteralPerVariable
  }

  method EncodeSatModelArtifact(json: Json, metadata: Metadata, model: seq<int>) returns (r: Result<Bytes, ArtifactError>)
    ensures r.Ok? <==>
      ValidMetadata(metadata) && |model| == metadata.variableCount && |json.text(metadata)| <= MAX_METADATA_BYTES &&
      OneLiteralPerVariable(model)
    ensures r.Err? ==> r.error == EncodeFault(json, metadata, model)
    ensures r.Ok? ==> |r.value| <= MAX_SAT_MODEL_ARTIFACT_BYTES
    ensures r.Ok? ==> exists bitset :: IsBitsetOf(bitset, model) && Laid(r.value, json.text(metadata), bitset)
  {
    if !ValidMetadata(metadata) || |model| != metadata.variableCount {
      return Err(InvalidMetadata);
    }
    var header := json.text(metadata);
    if |header| > MAX_METADATA_BYTES {
      return Err(MetadataTooLarge);
    }
    var bitset := new Byte[BitsetBytes(metadata.variableCount)](_ => 0);
    var ok := FillBitset(bitset, model);
    if !ok {
      return Err(NotOneLiteralPerVariable);
    }
    var output := MODEL_MAGIC + Word(|header|) + header + bitset[..];
    if |output| > MAX_SAT_MODEL_ARTIFACT_BYTES {
      return Err(ArtifactTooLarge);
    }
    assert Laid(output, json.text(metadata), bitset[..]);
    return Ok(output);
  }

  // ----- decoding -----

  datatype DecodedModel = DecodedModel(metadata: Metadata, assignment: Bytes)

  function ReadHeader(json: Json, header: Bytes, assignment: Bytes): Result<DecodedModel, ArtifactError> {
    match json.parse(header)
    case NoJson => Err(NotJson)
    case OtherJson => Err(InvalidMetadata)
    case Fields(metadata) =>
      if !ValidMetadata(metadata) then Err(InvalidMetadata)
      else if |assignment| != BitsetBytes(metadata.variableCount) then Err(BitsetLengthMismatch)
      else Ok(DecodedModel(metadata, assignment))
  }

  function DecodeArtifact(json: Json, bytes: Bytes): Result<DecodedModel, ArtifactError> {
    if |bytes| < FIXED_HEADER_BYTES || |bytes| > MAX_SAT_MODEL_ARTIFACT_BYTES then Err(BadArtifactLength)
    else if bytes[..8] != MODEL_MAGIC then Err(BadArtifactMagic)
    else
      var headerBytes := ReadWord(bytes, 8);
      if headerBytes < 2 || headerBytes > MAX_METADATA_BYTES || FIXED_HEADER_BYTES + headerBytes > |bytes| then Err(BadMetadataLength)
      else ReadHeader(json, bytes[FIXED_HEADER_BYTES..FIXED_HEADER_BYTES + headerBytes], bytes[FIXED_HEADER_BYTES + headerBytes..])
  }

  method DecodeSatModelArtifact(json: Json, bytes: Bytes) returns (r: Result<DecodedModel, ArtifactError>)
    ensures r == DecodeArtifact(json, bytes)
  {
    if |bytes| < FIXED_HEADER_BYTES || |bytes| > MAX_SAT_MODEL_ARTIFACT_BYTES {
      return Err(BadArtifactLength);
    }
    for i := 0 to 8
      invariant bytes[..i] == MODEL_MAGIC[..i]
    {
      if bytes[i] != MODEL_MAGIC[i] {
        assert bytes[..8][i] != MODEL_MAGIC[i];
        return Err(BadArtifactMagic);
      }
    }
    assert bytes[..8] == MODEL_MAGIC;
    var headerBytes := ReadWord(bytes, 8);
    if headerBytes < 2 || headerBytes > MAX_METADATA_BYTES || FIXED_HEADER_BYTES + headerBytes > |bytes| {
      return Err(BadMetadataLength);
    }
    r := ReadHeader(json, bytes[FIXED_HEADER_BYTES..FIXED_HEADER_BYTES + headerBytes], bytes[FIXED_HEADER_BYTES + headerBytes..]);
  }

  // ----- round trip -----

  lemma LaidSlices(bytes: Bytes, header: Bytes, bitset: Bytes)
    requires Laid(bytes, header, bitset)
    ensures |bytes| == FIXED_HEADER_BYTES + |header| + |bitset|
    ensures bytes[..8] == MODEL_MAGIC && ReadWord(bytes, 8) == |header|
    ensures bytes[FIXED_HEADER_BYTES..FIXED_HEADER_BYTES + |header|] == header && bytes[FIXED_HEADER_BYTES + |header|..] == bitset
  {
    WordRoundTrip(|header|);
    var w := Word(|header|);
    assert bytes[8] == w[0] && bytes[9] == w[1] && bytes[10] == w[2] && bytes[11] == w[3];
  }

  /** A written artifact reads back as the same metadata with one bit for each variable, whatever the metadata text. */
  lemma DecodeOfEncoded(json: Json, metadata: Metadata, model: seq<int>, bytes: Bytes, bitset: Bytes)
    requires ValidMetadata(metadata) && |model| == metadata.variableCount && OneLiteralPerVariable(model)
    requires json.Faithful(metadata) && |json.text(metadata)| <= MAX_METADATA_BYTES
    requires IsBitsetOf(bitset, model) && Laid(bytes, json.text(metadata), bitset)
    ensures DecodeArtifact(json, bytes) == Ok(DecodedModel(metadata, bitset))
    ensures forall v :: 1 <= v <= |model| ==> BitsetValue(bitset, v) == Some(model[v - 1] > 0)
  {
    LaidSlices(bytes, json.text(metadata), bitset);
    forall v | 1 <= v <= |model| ensures BitsetValue(bitset, v) == Some(model[v - 1] > 0) {
      assert v in model <==> model[v - 1] > 0 by {
        if v in model {
          var i :| 0 <= i < |model| && model[i] == v;
        }
      }
    }
  }

  /** Only the canonical padding is produced: the bits of a model determine its bitset. */
  lemma BitsetIsUnique(a: Bytes, b: Bytes, model: seq<int>)
    requires IsBitsetOf(a, model) && IsBitsetOf(b, model)
    ensures a == b
  {
    forall i | 0 <= i < |a| ensures a[i] == b[i] {
      var x: nat, y: nat := a[i], b[i];
      forall k: nat | k < 8 ensures Bit(x, k) <==> Bit(y, k) {
        var v := 8 * i + k + 1;
        assert (v - 1) / 8 == i && (v - 1) % 8 == k;
        assert BitsetValue(a, v) == Some(true) <==> BitsetValue(b, v) == Some(true);
      }
      assert Pow2(8) == 256 by {
        assert Pow2(3) == 8 && Pow2(6) == 8 * Pow2(3);
      }
      BitsDetermine(x, y, 8);
    }
  }

  lemma {:induction false} BitsDetermine(x: nat, y: nat, n: nat)
    requires x < Pow2(n) && y < Pow2(n) && forall k: nat :: k < n ==> (Bit(x, k) <==> Bit(y, k))
    ensures x == y
  {
    if n > 0 {
      forall k: nat | k < n - 1 ensures Bit(x / 2, k) <==> Bit(y / 2, k) {
        assert Bit(x, k + 1) <==> Bit(y, k + 1);
      }
      BitsDetermine(x / 2, y / 2, n - 1);
      assert Bit(x, 0) <==> Bit(y, 0);
    }
  }

  /** What the lowest `n` bits are worth: bit `k` counts for two to the `k`. */
  function Worth(b: nat, n: nat): nat {
    if n == 0 then 0 else Worth(b, n - 1) + if Bit(b, n - 1) then Pow2(n - 1) else 0
  }

  lemma {:induction false} WorthOfHalf(b: nat, n: nat)
    ensures Worth(b, n + 1) == 2 * Worth(b / 2, n) + b % 2
  {
    if n == 0 {
      assert Worth(b, 1) == if Bit(b, 0) then Pow2(0) else 0;
    } else {
      WorthOfHalf(b, n - 1);
    }
  }

  /** The bits of a number below two to the `n` are its binary digits. */
  lemma {:induction false} BitsAreDigits(b: nat, n: nat)
    requires b < Pow2(n)
    ensures Worth(b, n) == b
  {
    if n > 0 {
      BitsAreDigits(b / 2, n - 1);
      WorthOfHalf(b, n - 1);
    }
  }
}
