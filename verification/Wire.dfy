/** The V1 envelope format and the V2 stream header (citadel-envelope/src/wire.rs). */
module Wire {
  import opened Wrappers
  import opened Bytes

  const PROTOCOL_VERSION: byte := 0x01
  const SUITE_KEM_HYBRID_X25519_MLKEM768: byte := 0xA3
  const SUITE_AEAD_AES256GCM: byte := 0xB1
  const SUITE_KEM_HYBRID_P384_MLKEM1024: byte := 0xA4
  const FLAGS_V1: byte := 0x00
  const STREAM_VERSION: byte := 0x02
  const FLAGS_STREAM: byte := 0x01

  const KEM_CIPHERTEXT_BYTES: nat := 1120
  const KEM_PUBLIC_KEY_BYTES: nat := 1216
  const KEM_SECRET_KEY_BYTES: nat := 2432
  const NONCE_BYTES: nat := 12
  const AEAD_TAG_BYTES: nat := 16
  const HEADER_BYTES: nat := 6
  const MIN_CIPHERTEXT_BYTES: nat := HEADER_BYTES + KEM_CIPHERTEXT_BYTES + NONCE_BYTES + AEAD_TAG_BYTES
  const STREAM_HEADER_BYTES: nat := HEADER_BYTES + KEM_CIPHERTEXT_BYTES
  const USIZE_MAX: nat := U64_MAX

  type Nonce = s: bytes | |s| == 12 witness seq(12, _ => 0)

  // ----- suite table -----

  datatype SuiteParams = SuiteParams(
    suiteKem: byte,
    kemCiphertextBytes: nat,
    kemPublicKeyBytes: nat,
    kemSecretKeyBytes: nat)

  const SUITE_TABLE: seq<SuiteParams> := [
    SuiteParams(SUITE_KEM_HYBRID_X25519_MLKEM768, KEM_CIPHERTEXT_BYTES, KEM_PUBLIC_KEY_BYTES, KEM_SECRET_KEY_BYTES),
    SuiteParams(SUITE_KEM_HYBRID_P384_MLKEM1024, 1665, 1665, 112)
  ]

  /** The first row for the suite, or none: absence from the table is a hard reject. */
  method LookupSuite(table: seq<SuiteParams>, suiteKem: byte) returns (r: Option<SuiteParams>)
    ensures r.None? <==> forall j | 0 <= j < |table| :: table[j].suiteKem != suiteKem
    ensures r.Some? ==> exists j | 0 <= j < |table| :: table[j] == r.value && r.value.suiteKem == suiteKem
                          && forall k | 0 <= k < j :: table[k].suiteKem != suiteKem
  {
    var i := 0;
    while i < |table|
      invariant 0 <= i <= |table|
      invariant forall j | 0 <= j < i :: table[j].suiteKem != suiteKem
    {
      if table[i].suiteKem == suiteKem {
        return Some(table[i]);
      }
      i := i + 1;
    }
    return None;
  }

  /** The table minimum: a lower bound that some row attains. */
  method MinKemCiphertextBytes(table: seq<SuiteParams>) returns (min: nat)
    ensures min <= USIZE_MAX
    ensures forall j | 0 <= j < |table| :: min <= table[j].kemCiphertextBytes
    ensures min == USIZE_MAX || exists j | 0 <= j < |table| :: table[j].kemCiphertextBytes == min
  {
    min := USIZE_MAX;
    var i := 0;
    while i < |table|
      invariant 0 <= i <= |table|
      invariant min <= USIZE_MAX
      invariant forall j | 0 <= j < i :: min <= table[j].kemCiphertextBytes
      invariant min == USIZE_MAX || exists j | 0 <= j < i :: table[j].kemCiphertextBytes == min
    {
      if table[i].kemCiphertextBytes < min {
        min := table[i].kemCiphertextBytes;
      }
      i := i + 1;
    }
  }

  /** `suite_params`: this build's row for the suite; exactly the suites 0xA3 and 0xA4 have one. */
  method ParamsOfSuite(suiteKem: byte) returns (r: Option<SuiteParams>)
    ensures r.Some? <==> suiteKem in {SUITE_KEM_HYBRID_X25519_MLKEM768, SUITE_KEM_HYBRID_P384_MLKEM1024}
    ensures suiteKem == 0xA3 ==> r == Some(SuiteParams(0xA3, 1120, 1216, 2432))
    ensures suiteKem == 0xA4 ==> r == Some(SuiteParams(0xA4, 1665, 1665, 112))
  {
    r := LookupSuite(SUITE_TABLE, suiteKem);
    assert SUITE_TABLE[0].suiteKem == SUITE_KEM_HYBRID_X25519_MLKEM768;
    assert SUITE_TABLE[1].suiteKem == SUITE_KEM_HYBRID_P384_MLKEM1024;
  }

  /** `MIN_KEM_CIPHERTEXT_BYTES`: the length guard this build derives from its table. */
  method MinSupportedKemCiphertextBytes() returns (min: nat)
    ensures min == KEM_CIPHERTEXT_BYTES
  {
    min := MinKemCiphertextBytes(SUITE_TABLE);
    assert SUITE_TABLE[0].kemCiphertextBytes == KEM_CIPHERTEXT_BYTES;
  }

  // ----- envelopes -----

  datatype WireComponents = WireComponents(
    version: byte,
    suiteKem: byte,
    suiteAead: byte,
    flags: byte,
    kemCtLen: u16,
    kemCiphertext: bytes,
    nonce: Nonce,
    aeadCiphertext: bytes)

  function CheckV1Suites(c: WireComponents): Result<()> {
    if c.suiteKem != SUITE_KEM_HYBRID_X25519_MLKEM768 || c.suiteAead != SUITE_AEAD_AES256GCM then Err
    else Ok(())
  }

  function DecodeWireRaw(data: bytes): Result<WireComponents> {
    if |data| < MIN_CIPHERTEXT_BYTES then Err
    else if data[0] != PROTOCOL_VERSION then Err
    else if data[3] != FLAGS_V1 then Err
    else if U16FromBE(data[4..6]) != KEM_CIPHERTEXT_BYTES then Err
    else
      var kemStart := HEADER_BYTES;
      var kemEnd := kemStart + KEM_CIPHERTEXT_BYTES;
      var nonceStart := kemEnd;
      var nonceEnd := nonceStart + NONCE_BYTES;
      if |data[nonceEnd..]| < AEAD_TAG_BYTES then Err
      else Ok(WireComponents(data[0], data[1], data[2], data[3], U16FromBE(data[4..6]),
                             data[kemStart..kemEnd], data[nonceStart..nonceEnd], data[nonceEnd..]))
  }

  function DecodeWire(data: bytes): Result<WireComponents> {
    var c :- DecodeWireRaw(data);
    var _ :- CheckV1Suites(c);
    Ok(c)
  }

  function WireBytes(kemCt: bytes, nonce: Nonce, aeadCt: bytes): bytes {
    [PROTOCOL_VERSION, SUITE_KEM_HYBRID_X25519_MLKEM768, SUITE_AEAD_AES256GCM, FLAGS_V1]
    + U16ToBE(KEM_CIPHERTEXT_BYTES) + kemCt + nonce + aeadCt
  }

  predicate Encodable(kemCt: bytes, aeadCt: bytes) {
    |kemCt| == KEM_CIPHERTEXT_BYTES && |aeadCt| >= AEAD_TAG_BYTES
  }

  /** The envelope at its offsets: version, suites, flags and length, then KEM ciphertext, nonce and AEAD ciphertext. */
  lemma WireWrittenOut(kemCt: bytes, nonce: Nonce, aeadCt: bytes)
    ensures WireBytes(kemCt, nonce, aeadCt) == [0x01, 0xA3, 0xB1, 0x00, 0x04, 0x60] + kemCt + nonce + aeadCt
  {
    BigEndian1120();
    assert [0x01, 0xA3, 0xB1, 0x00] + [0x04, 0x60] == [0x01, 0xA3, 0xB1, 0x00, 0x04, 0x60];
  }

  /** The raw parser leaves the suites to its caller: it looks at version, flags and the two lengths alone. */
  lemma RawAcceptsExactly(data: bytes)
    ensures DecodeWireRaw(data).Ok? <==>
              |data| >= 1154 && data[0] == 0x01 && data[3] == 0x00 && data[4..6] == [0x04, 0x60]
    ensures DecodeWireRaw(data).Ok? ==>
              var c := DecodeWireRaw(data).value;
              && c.version == 0x01 && c.suiteKem == data[1] && c.suiteAead == data[2] && c.flags == 0x00
                 && c.kemCtLen == 1120
              && c.kemCiphertext == data[6..1126] && c.nonce == data[1126..1138] && c.aeadCiphertext == data[1138..]
  {
    BigEndian1120();
    if |data| >= 1154 {
      ToFromBE(data[4..6]);
    }
  }

  method EncodeWire(kemCt: bytes, nonce: Nonce, aeadCt: bytes) returns (r: Result<bytes>)
    ensures r.Ok? <==> Encodable(kemCt, aeadCt)
    ensures r.Ok? ==> r.value == WireBytes(kemCt, nonce, aeadCt)
  {
    if |kemCt| != KEM_CIPHERTEXT_BYTES {
      return Err;
    }
    if |aeadCt| < AEAD_TAG_BYTES {
      return Err;
    }
    var out: bytes := [];
    out := out + [PROTOCOL_VERSION];
    out := out + [SUITE_KEM_HYBRID_X25519_MLKEM768];
    out := out + [SUITE_AEAD_AES256GCM];
    out := out + [FLAGS_V1];
    out := out + U16ToBE(KEM_CIPHERTEXT_BYTES);
    out := out + kemCt;
    out := out + nonce;
    out := out + aeadCt;
    return Ok(out);
  }

  /** Parsing a printed envelope gives back exactly the parts. */
  lemma DecodeEncodeWire(kemCt: bytes, nonce: Nonce, aeadCt: bytes)
    requires Encodable(kemCt, aeadCt)
    ensures DecodeWire(WireBytes(kemCt, nonce, aeadCt))
         == Ok(WireComponents(PROTOCOL_VERSION, SUITE_KEM_HYBRID_X25519_MLKEM768, SUITE_AEAD_AES256GCM,
                              FLAGS_V1, KEM_CIPHERTEXT_BYTES, kemCt, nonce, aeadCt))
  {
    var data := WireBytes(kemCt, nonce, aeadCt);
    assert data[4..6] == U16ToBE(KEM_CIPHERTEXT_BYTES);
    assert data[6..1126] == kemCt;
    assert data[1126..1138] == nonce;
    assert data[1138..] == aeadCt;
  }

  /** Printing what the parser accepted gives back exactly the input: the format has one spelling. */
  lemma EncodeDecodeWire(data: bytes)
    requires DecodeWire(data).Ok?
    ensures var c := DecodeWire(data).value;
            Encodable(c.kemCiphertext, c.aeadCiphertext)
            && WireBytes(c.kemCiphertext, c.nonce, c.aeadCiphertext) == data
  {
    var c := DecodeWire(data).value;
    ToFromBE(data[4..6]);
    assert U16ToBE(KEM_CIPHERTEXT_BYTES) == data[4..6];
    assert data == data[..4] + data[4..6] + data[6..1126] + data[1126..1138] + data[1138..];
    assert data[..4] == [data[0], data[1], data[2], data[3]];
  }

  // ----- V2 stream header -----

  datatype StreamHeader = StreamHeader(version: byte, suiteKem: byte, suiteAead: byte, flags: byte,
                                       kemCiphertext: bytes)

  function StreamHeaderBytes(kemCt: bytes): bytes {
    [STREAM_VERSION, SUITE_KEM_HYBRID_X25519_MLKEM768, SUITE_AEAD_AES256GCM, FLAGS_STREAM]
    + U16ToBE(KEM_CIPHERTEXT_BYTES) + kemCt
  }

  lemma StreamHeaderWrittenOut(kemCt: bytes)
    ensures StreamHeaderBytes(kemCt) == [0x02, 0xA3, 0xB1, 0x01, 0x04, 0x60] + kemCt
  {
    BigEndian1120();
    assert [0x02, 0xA3, 0xB1, 0x01] + [0x04, 0x60] == [0x02, 0xA3, 0xB1, 0x01, 0x04, 0x60];
  }

  method EncodeStreamHeader(kemCt: bytes) returns (r: Result<bytes>)
    ensures r.Ok? <==> |kemCt| == KEM_CIPHERTEXT_BYTES
    ensures r.Ok? ==> r.value == StreamHeaderBytes(kemCt) && |r.value| == STREAM_HEADER_BYTES
  {
    if |kemCt| != KEM_CIPHERTEXT_BYTES {
      return Err;
    }
    var out: bytes := [];
    out := out + [STREAM_VERSION];
    out := out + [SUITE_KEM_HYBRID_X25519_MLKEM768];
    out := out + [SUITE_AEAD_AES256GCM];
    out := out + [FLAGS_STREAM];
    out := out + U16ToBE(KEM_CIPHERTEXT_BYTES);
    out := out + kemCt;
    return Ok(out);
  }

  function DecodeStreamHeader(data: bytes): Result<StreamHeader> {
    if |data| < STREAM_HEADER_BYTES then Err
    else if data[0] != STREAM_VERSION then Err
    else if data[1] != SUITE_KEM_HYBRID_X25519_MLKEM768 || data[2] != SUITE_AEAD_AES256GCM then Err
    else if data[3] != FLAGS_STREAM then Err
    else if U16FromBE(data[4..6]) != KEM_CIPHERTEXT_BYTES then Err
    else Ok(StreamHeader(data[0], data[1], data[2], data[3], data[HEADER_BYTES..STREAM_HEADER_BYTES]))
  }

  /** A printed header parses back, whatever bytes follow it. */
  lemma DecodeEncodeStreamHeader(kemCt: bytes, tail: bytes)
    requires |kemCt| == KEM_CIPHERTEXT_BYTES
    ensures DecodeStreamHeader(StreamHeaderBytes(kemCt) + tail)
         == Ok(StreamHeader(STREAM_VERSION, SUITE_KEM_HYBRID_X25519_MLKEM768, SUITE_AEAD_AES256GCM,
                            FLAGS_STREAM, kemCt))
  {
    var data := StreamHeaderBytes(kemCt) + tail;
    assert data[4..6] == U16ToBE(KEM_CIPHERTEXT_BYTES);
    assert data[6..1126] == kemCt;
  }

  /** An accepted buffer starts with the printed form of what was parsed; the tail is ignored. */
  lemma EncodeDecodeStreamHeader(data: bytes)
    requires DecodeStreamHeader(data).Ok?
    ensures StreamHeaderBytes(DecodeStreamHeader(data).value.kemCiphertext) == data[..STREAM_HEADER_BYTES]
  {
    ToFromBE(data[4..6]);
    assert U16ToBE(KEM_CIPHERTEXT_BYTES) == data[4..6];
    var front := data[..STREAM_HEADER_BYTES];
    assert front == [data[0], data[1], data[2], data[3]] + data[4..6] + data[6..STREAM_HEADER_BYTES];
  }

  /** No buffer is both a V1 envelope and a V2 stream, even for the parser that accepts any suite. */
  lemma FormatsDisjoint(data: bytes)
    ensures !(DecodeWireRaw(data).Ok? && DecodeStreamHeader(data).Ok?)
  {
  }
}
