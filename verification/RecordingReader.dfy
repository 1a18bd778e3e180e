/**
  The streaming recording reader. One pass over an arbitrarily chunked ciphertext object checks
  the multipart layout of the manifest and, at the same time, cuts, verifies and decrypts the
  framed records. The whole-object specification below knows nothing about chunks, cursors or
  carry-over buffers; the method is proved to decide exactly that specification.
*/
module RecordingReader {
  import opened Bytes

  const RECORD_HEADER_BYTES: nat := 32
  const AES_GCM_TAG_BYTES: nat := 16
  const MAX_PLAINTEXT_CHUNK_BYTES: nat := 4 * 1024 * 1024
  const MAX_SEALED_BYTES: nat := MAX_PLAINTEXT_CHUNK_BYTES + 16
  const MAX_UINT32: nat := 0xffff_ffff
  const RECORD_MAGIC: seq<byte> := [0x53, 0x50, 0x43, 0x31]

  type Digest = seq<byte>

  datatype ManifestChunk = ManifestChunk(index: nat, plaintextBytes: nat, sealedBytes: nat, ciphertextSha256: Digest)
  datatype ManifestPart = ManifestPart(byteLength: nat, sha256: Digest)
  datatype Manifest = Manifest(
    noncePrefix: seq<byte>, chunks: seq<ManifestChunk>, parts: seq<ManifestPart>, totalObjectBytes: nat)

  /**
    What lies outside the reader: the hash, AES-GCM opening under the recording key (nonce,
    authenticated plaintext length, sealed bytes), and whether the sink's n-th callback succeeds.
  */
  datatype World = World(
    sha256: seq<byte> -> Digest,
    open: (seq<byte>, nat, seq<byte>) -> Option<seq<byte>>,
    sinkAccepts: nat -> bool)

  // ---------------------------------------------------------------------------------------------
  // One framed record
  // ---------------------------------------------------------------------------------------------

  datatype ChunkRecord = ChunkRecord(chunkIndex: nat, nonce: seq<byte>, plaintextLength: nat, sealed: seq<byte>)

  /** buildChunkNonce: an eight-byte prefix followed by the big-endian index, or an error. */
  function ChunkNonce(prefix: seq<byte>, index: nat): Option<seq<byte>> {
    if |prefix| != 8 || index > MAX_UINT32 then None else Some(prefix + Be32Bytes(index))
  }

  /** parseChunkRecord: one complete record and nothing after it. */
  function ParseChunkRecord(bytes: seq<byte>): Option<ChunkRecord> {
    if |bytes| < RECORD_HEADER_BYTES || bytes[..4] != RECORD_MAGIC then None
    else if bytes[4] != 1 || bytes[5] != 0 || Be16(bytes, 6) != RECORD_HEADER_BYTES then None
    else
      var index, nonce := Be32(bytes, 8), bytes[12..24];
      var plaintextLength, sealedLength := Be32(bytes, 24), Be32(bytes, 28);
      if ChunkNonce(nonce[..8], index) != Some(nonce) then None
      else if plaintextLength < 1 || plaintextLength > MAX_PLAINTEXT_CHUNK_BYTES then None
      else if sealedLength != plaintextLength + AES_GCM_TAG_BYTES then None
      else if |bytes| != RECORD_HEADER_BYTES + sealedLength then None
      else Some(ChunkRecord(index, nonce, plaintextLength, bytes[RECORD_HEADER_BYTES..]))
  }

  /** validateRecordFields */
  predicate FieldsFit(r: ChunkRecord) {
    && r.chunkIndex <= MAX_UINT32 && |r.nonce| == 12 && ChunkNonce(r.nonce[..8], r.chunkIndex) == Some(r.nonce)
    && 1 <= r.plaintextLength <= MAX_PLAINTEXT_CHUNK_BYTES
    && |r.sealed| == r.plaintextLength + AES_GCM_TAG_BYTES
  }

  function HeaderOf(r: ChunkRecord): (s: seq<byte>)
    requires FieldsFit(r)
    ensures |s| == RECORD_HEADER_BYTES
  {
    RECORD_MAGIC + [1, 0, 0, 32] + Be32Bytes(r.chunkIndex) + r.nonce + Be32Bytes(r.plaintextLength)
    + Be32Bytes(|r.sealed|)
  }

  /** buildChunkRecord, on fields that pass its validation */
  function BuildChunkRecord(r: ChunkRecord): seq<byte>
    requires FieldsFit(r)
  {
    HeaderOf(r) + r.sealed
  }

  lemma HeaderFields(r: ChunkRecord, bytes: seq<byte>)
    requires FieldsFit(r) && |bytes| >= RECORD_HEADER_BYTES && bytes[..RECORD_HEADER_BYTES] == HeaderOf(r)
    ensures bytes[..4] == RECORD_MAGIC && bytes[4..8] == [1, 0, 0, 32] && bytes[12..24] == r.nonce
    ensures Be32(bytes, 8) == r.chunkIndex && Be32(bytes, 24) == r.plaintextLength && Be32(bytes, 28) == |r.sealed|
  {
    var h := HeaderOf(r);
    assert forall i :: 0 <= i < 32 ==> bytes[i] == h[i];
    assert h[..4] == RECORD_MAGIC && h[4..8] == [1, 0, 0, 32] && h[12..24] == r.nonce;
    assert bytes[..4] == h[..4] && bytes[4..8] == h[4..8] && bytes[12..24] == h[12..24];
    assert bytes[8..12] == h[8..12] == Be32Bytes(r.chunkIndex);
    assert bytes[24..28] == h[24..28] == Be32Bytes(r.plaintextLength);
    assert bytes[28..32] == h[28..32] == Be32Bytes(|r.sealed|);
    Be32Encoded(bytes, 8, r.chunkIndex);
    Be32Encoded(bytes, 24, r.plaintextLength);
    Be32Encoded(bytes, 28, |r.sealed|);
  }

  /** A built record parses back to its fields. */
  lemma BuiltRecordParses(r: ChunkRecord)
    requires FieldsFit(r)
    ensures ParseChunkRecord(BuildChunkRecord(r)) == Some(r)
  {
    var bytes := BuildChunkRecord(r);
    assert bytes[..RECORD_HEADER_BYTES] == HeaderOf(r) && bytes[RECORD_HEADER_BYTES..] == r.sealed;
    HeaderFields(r, bytes);
    assert bytes[4] == bytes[4..8][0] && bytes[5] == bytes[4..8][1];
    assert bytes[6] == bytes[4..8][2] && bytes[7] == bytes[4..8][3];
  }

  lemma HeaderPieces(h: seq<byte>)
    requires |h| == 32
    ensures h == h[..4] + h[4..8] + h[8..12] + h[12..24] + h[24..28] + h[28..32]
  {
  }

  lemma HeaderIsBuilt(h: seq<byte>, r: ChunkRecord)
    requires |h| == 32 && FieldsFit(r)
    requires h[..4] == RECORD_MAGIC && h[4..8] == [1, 0, 0, 32] && h[12..24] == r.nonce
    requires Be32(h, 8) == r.chunkIndex && Be32(h, 24) == r.plaintextLength && Be32(h, 28) == |r.sealed|
    ensures h == HeaderOf(r)
  {
    Be32Decodes(h, 8);
    Be32Decodes(h, 24);
    Be32Decodes(h, 28);
    HeaderPieces(h);
  }

  /** Only built records parse: the format has one encoding per record. */
  lemma ParsedRecordIsBuilt(bytes: seq<byte>)
    requires ParseChunkRecord(bytes).Some?
    ensures FieldsFit(ParseChunkRecord(bytes).value) && BuildChunkRecord(ParseChunkRecord(bytes).value) == bytes
  {
    var r := ParseChunkRecord(bytes).value;
    var h := bytes[..RECORD_HEADER_BYTES];
    assert h[..4] == bytes[..4] && h[12..24] == bytes[12..24];
    assert h[4..8] == [1, 0, 0, 32];
    HeaderIsBuilt(h, r);
    assert bytes == h + bytes[RECORD_HEADER_BYTES..];
  }

  predicate RecordMatchesManifest(w: World, m: Manifest, i: nat, r: ChunkRecord) {
    && i < |m.chunks|
    && r.chunkIndex == m.chunks[i].index
    && r.plaintextLength == m.chunks[i].plaintextBytes
    && |r.sealed| == m.chunks[i].sealedBytes
    && w.sha256(r.sealed) == m.chunks[i].ciphertextSha256
  }

  /** decryptRecordingChunk: the record is parsed again and must carry the expected index and nonce. */
  function DecryptRecordingChunk(w: World, m: Manifest, i: nat, bytes: seq<byte>): Option<seq<byte>> {
    match ParseChunkRecord(bytes)
    case None => None
    case Some(r) =>
      if r.chunkIndex != i || ChunkNonce(m.noncePrefix, i) != Some(r.nonce) then None
      else
        match w.open(r.nonce, r.plaintextLength, r.sealed)
        case None => None
        case Some(p) => if |p| == r.plaintextLength then Some(p) else None
  }

  /** The plaintext of the i-th record of the manifest, if these bytes are that record. */
  function DecodeRecord(w: World, m: Manifest, i: nat, bytes: seq<byte>): Option<seq<byte>> {
    match ParseChunkRecord(bytes)
    case None => None
    case Some(r) => if RecordMatchesManifest(w, m, i, r) then DecryptRecordingChunk(w, m, i, bytes) else None
  }

  /** What the head of a buffer is: no complete record yet, a length no record has, or a record. */
  datatype Frame = NeedsMore | BadLength | Complete(length: nat)

  function RecordFrame(bytes: seq<byte>): (f: Frame)
    ensures f.Complete? ==> RECORD_HEADER_BYTES + 17 <= f.length <= |bytes|
    ensures f.NeedsMore? ==> |bytes| < RECORD_HEADER_BYTES + MAX_SEALED_BYTES
  {
    if |bytes| < RECORD_HEADER_BYTES then NeedsMore
    else
      var sealedLength := Be32(bytes, 28);
      if sealedLength < 17 || sealedLength > MAX_SEALED_BYTES then BadLength
      else if |bytes| < RECORD_HEADER_BYTES + sealedLength then NeedsMore
      else Complete(RECORD_HEADER_BYTES + sealedLength)
  }

  /**
    The stream parser is generic in the format: how a buffer is framed, what a framed record decodes
    to at its position, and whether the sink takes the plaintext of that position.
  */
  datatype Format = Format(
    frame: seq<byte> -> Frame,
    decode: (nat, seq<byte>) -> Option<seq<byte>>,
    accepts: nat -> bool)

  ghost predicate Streamable(f: Format) {
    && (forall a, b :: FrameIsStable(f, a, b))
    && (forall a :: FrameIsBounded(f, a))
    && (forall i: nat, a :: DecodesOneFrame(f, i, a))
    && f.frame([]) == NeedsMore
  }

  ghost predicate FrameIsStable(f: Format, a: seq<byte>, b: seq<byte>) {
    !f.frame(a).NeedsMore? ==> f.frame(a + b) == f.frame(a)
  }

  ghost predicate FrameIsBounded(f: Format, a: seq<byte>) {
    match f.frame(a)
    case NeedsMore => |a| < RECORD_HEADER_BYTES + MAX_SEALED_BYTES
    case BadLength => true
    case Complete(length) => 0 < length <= |a|
  }

  ghost predicate DecodesOneFrame(f: Format, i: nat, a: seq<byte>) {
    f.decode(i, a).Some? ==> f.frame(a) == Complete(|a|)
  }

  function RecordFormat(w: World, m: Manifest): Format {
    Format(RecordFrame, (i: nat, bytes: seq<byte>) => DecodeRecord(w, m, i, bytes), w.sinkAccepts)
  }

  lemma RecordFormatIsStreamable(w: World, m: Manifest)
    ensures Streamable(RecordFormat(w, m))
  {
    var f := RecordFormat(w, m);
    forall a, b ensures FrameIsStable(f, a, b) {
      if !RecordFrame(a).NeedsMore? {
        assert Be32(a + b, 28) == Be32(a, 28);
      }
    }
    forall a ensures FrameIsBounded(f, a) {
    }
    forall i: nat, a ensures DecodesOneFrame(f, i, a) {
      if DecodeRecord(w, m, i, a).Some? {
        assert ParseChunkRecord(a).Some?;
      }
    }
  }

  // ---------------------------------------------------------------------------------------------
  // The whole-object specification
  // ---------------------------------------------------------------------------------------------

  ghost predicate PartLayout(w: World, m: Manifest, segments: seq<seq<byte>>) {
    && |segments| == |m.parts|
    && forall k :: 0 <= k < |segments| ==>
         |segments[k]| == m.parts[k].byteLength && w.sha256(segments[k]) == m.parts[k].sha256
  }

  predicate NoEmptyPart(m: Manifest) { forall k :: 0 <= k < |m.parts| ==> m.parts[k].byteLength > 0 }

  ghost predicate RecordLayout(f: Format, records: seq<seq<byte>>, plaintexts: seq<seq<byte>>) {
    && |records| == |plaintexts|
    && forall k :: 0 <= k < |records| ==> f.decode(k, records[k]) == Some(plaintexts[k])
  }

  /** The object is exactly the manifest's parts, laid end to end, each with its hash. */
  ghost predicate CutsIntoParts(w: World, m: Manifest, obj: seq<byte>) {
    exists segments :: PartLayout(w, m, segments) && Flatten(segments) == obj
  }

  /** The object is exactly the manifest's records, laid end to end, and decodes to `plaintexts`. */
  ghost predicate Decodes(w: World, m: Manifest, obj: seq<byte>, plaintexts: seq<seq<byte>>) {
    exists records ::
      && |records| == |m.chunks|
      && RecordLayout(RecordFormat(w, m), records, plaintexts)
      && Flatten(records) == obj
  }

  /** What a recorder that follows the manifest writes: record k carries plaintext k under nonce k. */
  predicate Encodes(w: World, m: Manifest, k: nat, r: ChunkRecord, plaintext: seq<byte>) {
    && FieldsFit(r) && RecordMatchesManifest(w, m, k, r) && r.chunkIndex == k
    && ChunkNonce(m.noncePrefix, k) == Some(r.nonce)
    && w.open(r.nonce, r.plaintextLength, r.sealed) == Some(plaintext) && |plaintext| == r.plaintextLength
  }

  predicate AllEncode(
    w: World, m: Manifest, rs: seq<ChunkRecord>, records: seq<seq<byte>>, plaintexts: seq<seq<byte>>)
  {
    && |rs| == |records| == |plaintexts|
    && forall k :: 0 <= k < |rs| ==> Encodes(w, m, k, rs[k], plaintexts[k]) && records[k] == BuildChunkRecord(rs[k])
  }

  ghost predicate IsRecorded(w: World, m: Manifest, obj: seq<byte>, plaintexts: seq<seq<byte>>) {
    exists rs, records :: AllEncode(w, m, rs, records, plaintexts) && |records| == |m.chunks| && Flatten(records) == obj
  }

  lemma EncodedRecordDecodes(w: World, m: Manifest, k: nat, bytes: seq<byte>, plaintext: seq<byte>)
    ensures DecodeRecord(w, m, k, bytes) == Some(plaintext) <==>
            exists r :: Encodes(w, m, k, r, plaintext) && BuildChunkRecord(r) == bytes
  {
    if DecodeRecord(w, m, k, bytes) == Some(plaintext) {
      ParsedRecordIsBuilt(bytes);
      var r := ParseChunkRecord(bytes).value;
      assert Encodes(w, m, k, r, plaintext);
    }
    if r :| Encodes(w, m, k, r, plaintext) && BuildChunkRecord(r) == bytes {
      BuiltRecordParses(r);
    }
  }

  lemma RecordsWereBuilt(w: World, m: Manifest, records: seq<seq<byte>>, plaintexts: seq<seq<byte>>)
    returns (rs: seq<ChunkRecord>)
    requires RecordLayout(RecordFormat(w, m), records, plaintexts)
    ensures AllEncode(w, m, rs, records, plaintexts)
  {
    rs := [];
    for i := 0 to |records|
      invariant |rs| == i
      invariant forall k :: 0 <= k < i ==>
                  Encodes(w, m, k, rs[k], plaintexts[k]) && records[k] == BuildChunkRecord(rs[k])
    {
      assert RecordFormat(w, m).decode(i, records[i]) == Some(plaintexts[i]);
      EncodedRecordDecodes(w, m, i, records[i], plaintexts[i]);
      var r :| Encodes(w, m, i, r, plaintexts[i]) && BuildChunkRecord(r) == records[i];
      rs := rs + [r];
    }
  }

  lemma BuiltRecordsDecode(
    w: World, m: Manifest, rs: seq<ChunkRecord>, records: seq<seq<byte>>, plaintexts: seq<seq<byte>>)
    requires AllEncode(w, m, rs, records, plaintexts)
    ensures RecordLayout(RecordFormat(w, m), records, plaintexts)
  {
    forall k | 0 <= k < |records|
      ensures DecodeRecord(w, m, k, records[k]) == Some(plaintexts[k])
    {
      assert Encodes(w, m, k, rs[k], plaintexts[k]) && BuildChunkRecord(rs[k]) == records[k];
      EncodedRecordDecodes(w, m, k, records[k], plaintexts[k]);
    }
  }

  lemma DecodedWasRecorded(w: World, m: Manifest, obj: seq<byte>, plaintexts: seq<seq<byte>>)
    requires Decodes(w, m, obj, plaintexts)
    ensures IsRecorded(w, m, obj, plaintexts)
  {
    var f := RecordFormat(w, m);
    var records :| |records| == |m.chunks| && RecordLayout(f, records, plaintexts) && Flatten(records) == obj;
    var rs := RecordsWereBuilt(w, m, records, plaintexts);
  }

  /** An object decodes exactly when a recorder wrote it: the reader's specification inverts the writer. */
  lemma DecodesExactlyRecorded(w: World, m: Manifest, obj: seq<byte>, plaintexts: seq<seq<byte>>)
    ensures Decodes(w, m, obj, plaintexts) <==> IsRecorded(w, m, obj, plaintexts)
  {
    if Decodes(w, m, obj, plaintexts) {
      DecodedWasRecorded(w, m, obj, plaintexts);
    }
    if IsRecorded(w, m, obj, plaintexts) {
      var rs, records :| AllEncode(w, m, rs, records, plaintexts) && |records| == |m.chunks| && Flatten(records) == obj;
      BuiltRecordsDecode(w, m, rs, records, plaintexts);
    }
  }

  ghost predicate Authentic(w: World, m: Manifest, obj: seq<byte>) {
    && |obj| == m.totalObjectBytes
    && CutsIntoParts(w, m, obj)
    && exists plaintexts :: Decodes(w, m, obj, plaintexts)
  }

  /** The plaintexts of the longest run of leading records that decode in order. */
  function LeadingPlaintexts(f: Format, i: nat, bytes: seq<byte>): seq<seq<byte>>
    decreases |bytes|
  {
    var head := f.frame(bytes);
    if !head.Complete? || head.length == 0 || head.length > |bytes| then []
    else
      match f.decode(i, bytes[..head.length])
      case None => []
      case Some(p) => [p] + LeadingPlaintexts(f, i + 1, bytes[head.length..])
  }

  // ---------------------------------------------------------------------------------------------
  // The record format, byte by byte
  // ---------------------------------------------------------------------------------------------

  /** Four bytes as a number, the most significant first. */
  function Number(s: seq<byte>): nat
    requires |s| == 4
  {
    s[0] as nat * 0x100_0000 + s[1] as nat * 0x1_0000 + s[2] as nat * 0x100 + s[3] as nat
  }

  /**
    Record k of a manifest and its plaintext: "SPC1", version 1, a reserved zero, the header size 32,
    the index, a nonce that is the manifest's prefix followed by k, the two lengths, and sealed bytes
    with the manifest's hash that open under that nonce.
  */
  predicate IsRecordOf(w: World, m: Manifest, k: nat, record: seq<byte>, plaintext: seq<byte>) {
    && k < |m.chunks| && |record| >= 32
    && record[..8] == [0x53, 0x50, 0x43, 0x31, 1, 0, 0, 32]
    && Number(record[8..12]) == k == m.chunks[k].index
    && record[12..20] == m.noncePrefix && Number(record[20..24]) == k
    && Number(record[24..28]) == |plaintext| == m.chunks[k].plaintextBytes
    && Number(record[28..32]) == |plaintext| + 16 == m.chunks[k].sealedBytes
    && 1 <= |plaintext| <= 4_194_304 && |record| == 32 + |plaintext| + 16
    && w.sha256(record[32..]) == m.chunks[k].ciphertextSha256
    && w.open(record[12..24], |plaintext|, record[32..]) == Some(plaintext)
  }

  lemma NumberIsBe32(s: seq<byte>, at: nat)
    requires at + 4 <= |s|
    ensures Number(s[at..at + 4]) == Be32(s, at)
  {
  }

  lemma NumberIsEncoded(s: seq<byte>, v: nat)
    requires |s| == 4
    ensures Number(s) < 0x1_0000_0000
    ensures Number(s) == v <==> v < 0x1_0000_0000 && s == Be32Bytes(v)
  {
    assert s[0..4] == s;
    NumberIsBe32(s, 0);
    Be32Decodes(s, 0);
    if v < 0x1_0000_0000 && s == Be32Bytes(v) {
      Be32Encoded(s, 0, v);
    }
  }

  lemma NonceIsPrefixAndIndex(prefix: seq<byte>, k: nat, nonce: seq<byte>)
    requires |nonce| == 12
    ensures ChunkNonce(prefix, k) == Some(nonce) <==> nonce[..8] == prefix && Number(nonce[8..]) == k
  {
    NumberIsEncoded(nonce[8..], k);
    assert nonce == nonce[..8] + nonce[8..];
  }

  lemma HeaderIsParsed(bytes: seq<byte>)
    requires |bytes| >= 32
    ensures bytes[..8] == [0x53, 0x50, 0x43, 0x31, 1, 0, 0, 32] <==>
            bytes[..4] == RECORD_MAGIC && bytes[4] == 1 && bytes[5] == 0 && Be16(bytes, 6) == RECORD_HEADER_BYTES
  {
    assert bytes[..8] == bytes[..4] + bytes[4..8];
    assert bytes[4..8] == [bytes[4], bytes[5], bytes[6], bytes[7]];
  }

  /** The bytes that parse, and what they parse to. */
  lemma ParsedByBytes(bytes: seq<byte>)
    requires |bytes| >= 32
    ensures ParseChunkRecord(bytes) ==
            if && bytes[..8] == [0x53, 0x50, 0x43, 0x31, 1, 0, 0, 32]
               && Number(bytes[20..24]) == Number(bytes[8..12]) && 1 <= Number(bytes[24..28]) <= 4_194_304
               && Number(bytes[28..32]) == Number(bytes[24..28]) + 16 && |bytes| == 32 + Number(bytes[28..32])
            then Some(ChunkRecord(Number(bytes[8..12]), bytes[12..24], Number(bytes[24..28]), bytes[32..]))
            else None
  {
    HeaderIsParsed(bytes);
    NumberIsBe32(bytes, 8);
    NumberIsBe32(bytes, 24);
    NumberIsBe32(bytes, 28);
    var nonce := bytes[12..24];
    assert nonce[8..] == bytes[20..24];
    NonceIsPrefixAndIndex(nonce[..8], Number(bytes[8..12]), nonce);
  }

  lemma DecodedByBytes(w: World, m: Manifest, k: nat, bytes: seq<byte>, plaintext: seq<byte>)
    ensures DecodeRecord(w, m, k, bytes) == Some(plaintext) <==> IsRecordOf(w, m, k, bytes, plaintext)
  {
    if |bytes| >= 32 {
      ParsedByBytes(bytes);
      var nonce := bytes[12..24];
      assert nonce[..8] == bytes[12..20] && nonce[8..] == bytes[20..24];
      NonceIsPrefixAndIndex(m.noncePrefix, k, nonce);
    }
  }

  ghost predicate AreRecordsOf(w: World, m: Manifest, records: seq<seq<byte>>, plaintexts: seq<seq<byte>>) {
    && |records| == |plaintexts| == |m.chunks|
    && forall k :: 0 <= k < |records| ==> IsRecordOf(w, m, k, records[k], plaintexts[k])
  }

  /** An object decodes exactly when it is the manifest's records end to end, each as the format says. */
  lemma DecodesByBytes(w: World, m: Manifest, obj: seq<byte>, plaintexts: seq<seq<byte>>)
    ensures Decodes(w, m, obj, plaintexts) <==>
            exists records :: AreRecordsOf(w, m, records, plaintexts) && Flatten(records) == obj
  {
    forall records | |records| == |m.chunks|
      ensures RecordLayout(RecordFormat(w, m), records, plaintexts) <==> AreRecordsOf(w, m, records, plaintexts)
    {
      LayoutByBytes(w, m, records, plaintexts);
    }
  }

  lemma LayoutByBytes(w: World, m: Manifest, records: seq<seq<byte>>, plaintexts: seq<seq<byte>>)
    requires |records| == |m.chunks|
    ensures RecordLayout(RecordFormat(w, m), records, plaintexts) <==> AreRecordsOf(w, m, records, plaintexts)
  {
    if |records| == |plaintexts| {
      forall k | 0 <= k < |records|
        ensures RecordFormat(w, m).decode(k, records[k]) == Some(plaintexts[k]) <==>
                IsRecordOf(w, m, k, records[k], plaintexts[k])
      {
        DecodedByBytes(w, m, k, records[k], plaintexts[k]);
      }
    }
  }

  /** No two records of one object share a nonce. */
  lemma NoncesDiffer(w: World, m: Manifest, records: seq<seq<byte>>, plaintexts: seq<seq<byte>>, j: nat, k: nat)
    requires AreRecordsOf(w, m, records, plaintexts) && j < k < |records|
    ensures records[j][12..24] != records[k][12..24]
  {
    assert IsRecordOf(w, m, j, records[j], plaintexts[j]) && IsRecordOf(w, m, k, records[k], plaintexts[k]);
    assert records[j][12..24][8..] == records[j][20..24] && records[k][12..24][8..] == records[k][20..24];
  }

  // ---------------------------------------------------------------------------------------------
  // Incremental part check: which part is open after these bytes, and what it holds so far
  // ---------------------------------------------------------------------------------------------

  function CutParts(w: World, parts: seq<ManifestPart>, k: nat, bytes: seq<byte>): (r: Option<(nat, seq<byte>)>)
    requires k <= |parts|
    ensures r.Some? ==> k <= r.value.0 <= |parts|
    ensures r.Some? && r.value.0 == |parts| ==> r.value.1 == []
    ensures r.Some? && r.value.0 < |parts| ==>
              r.value.1 == [] || |r.value.1| < parts[r.value.0].byteLength
    decreases |parts| - k
  {
    if k == |parts| || parts[k].byteLength == 0 then (if bytes == [] then Some((k, [])) else None)
    else if |bytes| < parts[k].byteLength then Some((k, bytes))
    else if w.sha256(bytes[..parts[k].byteLength]) != parts[k].sha256 then None
    else CutParts(w, parts, k + 1, bytes[parts[k].byteLength..])
  }

  lemma {:induction false} CutPartsAppend(w: World, parts: seq<ManifestPart>, k: nat, a: seq<byte>, b: seq<byte>)
    requires k <= |parts|
    ensures CutParts(w, parts, k, a).None? ==> CutParts(w, parts, k, a + b).None?
    ensures CutParts(w, parts, k, a).Some? ==>
              var open := CutParts(w, parts, k, a).value;
              CutParts(w, parts, k, a + b) == CutParts(w, parts, open.0, open.1 + b)
    decreases |parts| - k
  {
    if k == |parts| || parts[k].byteLength == 0 {
      if a == [] { assert a + b == [] + b; }
    } else if |a| >= parts[k].byteLength {
      var n := parts[k].byteLength;
      assert (a + b)[..n] == a[..n];
      assert (a + b)[n..] == a[n..] + b;
      CutPartsAppend(w, parts, k + 1, a[n..], b);
    }
  }

  lemma {:induction false} CutPartsOfLayout(w: World, m: Manifest, k: nat, segments: seq<seq<byte>>)
    requires PartLayout(w, m, segments) && NoEmptyPart(m) && k <= |m.parts|
    ensures CutParts(w, m.parts, k, Flatten(segments[k..])) == Some((|m.parts|, []))
    decreases |m.parts| - k
  {
    if k < |m.parts| {
      CutPartsOfLayout(w, m, k + 1, segments);
      var tail := Flatten(segments[k + 1..]);
      assert segments[k..][1..] == segments[k + 1..];
      assert Flatten(segments[k..]) == segments[k] + tail;
      assert (segments[k] + tail)[..|segments[k]|] == segments[k];
      assert (segments[k] + tail)[|segments[k]|..] == tail;
    }
  }

  lemma {:induction false} LayoutOfCutParts(w: World, m: Manifest, k: nat, bytes: seq<byte>)
    returns (segments: seq<seq<byte>>)
    requires k <= |m.parts| && CutParts(w, m.parts, k, bytes) == Some((|m.parts|, []))
    ensures Flatten(segments) == bytes && |segments| == |m.parts| - k
    ensures forall j :: 0 <= j < |segments| ==>
              0 < |segments[j]| == m.parts[k + j].byteLength && w.sha256(segments[j]) == m.parts[k + j].sha256
    decreases |m.parts| - k
  {
    if k == |m.parts| {
      segments := [];
    } else {
      var n := m.parts[k].byteLength;
      var rest := LayoutOfCutParts(w, m, k + 1, bytes[n..]);
      segments := [bytes[..n]] + rest;
      assert segments[1..] == rest;
      assert bytes == bytes[..n] + bytes[n..];
    }
  }

  /**
    Cutting byte by byte reaches the end of the last part exactly on objects cut into the parts, if no
    part is empty; a manifest with an empty part gets no object through.
  */
  lemma CutPartsDecidesLayout(w: World, m: Manifest, obj: seq<byte>)
    ensures CutParts(w, m.parts, 0, obj) == Some((|m.parts|, [])) <==> CutsIntoParts(w, m, obj) && NoEmptyPart(m)
  {
    if CutsIntoParts(w, m, obj) && NoEmptyPart(m) {
      var segments :| PartLayout(w, m, segments) && Flatten(segments) == obj;
      CutPartsOfLayout(w, m, 0, segments);
      assert segments[0..] == segments;
    }
    if CutParts(w, m.parts, 0, obj) == Some((|m.parts|, [])) {
      var segments := LayoutOfCutParts(w, m, 0, obj);
      assert forall j :: 0 <= j < |m.parts| ==> |segments[j]| == m.parts[0 + j].byteLength == m.parts[j].byteLength;
      assert PartLayout(w, m, segments) && NoEmptyPart(m);
    }
  }

  // ---------------------------------------------------------------------------------------------
  // Incremental record parser: what was delivered, what stays in the buffer, and whether it failed
  // ---------------------------------------------------------------------------------------------

  datatype Drained = Drained(delivered: seq<seq<byte>>, rest: seq<byte>, ok: bool)

  /** Parse a buffer after `delivered` records have gone to the sink. */
  function Drain(f: Format, delivered: seq<seq<byte>>, bytes: seq<byte>): (d: Drained)
    ensures delivered <= d.delivered
    decreases |bytes|
  {
    var head := f.frame(bytes);
    if head.NeedsMore? then Drained(delivered, bytes, true)
    else if head.BadLength? || head.length == 0 || head.length > |bytes| then Drained(delivered, bytes, false)
    else
      match f.decode(|delivered|, bytes[..head.length])
      case None => Drained(delivered, bytes, false)
      case Some(p) =>
        if !f.accepts(|delivered|) then Drained(delivered + [p], bytes[head.length..], false)
        else Drain(f, delivered + [p], bytes[head.length..])
  }

  /** Parsing more bytes continues where the buffer stopped: the chunk boundary leaves no trace. */
  lemma {:induction false} DrainAppend(f: Format, out: seq<seq<byte>>, a: seq<byte>, b: seq<byte>)
    requires Streamable(f)
    ensures var d := Drain(f, out, a);
            if d.ok then Drain(f, out, a + b) == Drain(f, d.delivered, d.rest + b)
            else !Drain(f, out, a + b).ok && Drain(f, out, a + b).delivered == d.delivered
    decreases |a|
  {
    assert FrameIsStable(f, a, b) && FrameIsBounded(f, a);
    var head := f.frame(a);
    if head.Complete? {
      assert (a + b)[..head.length] == a[..head.length];
      assert (a + b)[head.length..] == a[head.length..] + b;
      var p := f.decode(|out|, a[..head.length]);
      if p.Some? {
        DrainAppend(f, out + [p.value], a[head.length..], b);
      }
    }
  }

  /** What stays in the buffer is the unread tail, and it is shorter than one maximal record. */
  lemma {:induction false} CarryOverIsShortTail(f: Format, out: seq<seq<byte>>, bytes: seq<byte>)
    requires Streamable(f) && Drain(f, out, bytes).ok
    ensures var d := Drain(f, out, bytes);
            && |d.rest| < RECORD_HEADER_BYTES + MAX_SEALED_BYTES
            && |d.rest| <= |bytes| && d.rest == bytes[|bytes| - |d.rest|..]
            && f.frame(d.rest).NeedsMore?
    decreases |bytes|
  {
    assert FrameIsBounded(f, bytes);
    var head := f.frame(bytes);
    if head.Complete? {
      var p := f.decode(|out|, bytes[..head.length]);
      CarryOverIsShortTail(f, out + [p.value], bytes[head.length..]);
    }
  }

  /** Whatever was delivered is an initial segment of the object's leading plaintexts. */
  lemma {:induction false} DrainDeliversPrefix(f: Format, out: seq<seq<byte>>, a: seq<byte>, b: seq<byte>)
    requires Streamable(f)
    ensures Drain(f, out, a).delivered <= out + LeadingPlaintexts(f, |out|, a + b)
    decreases |a|
  {
    assert FrameIsStable(f, a, b) && FrameIsBounded(f, a);
    var head := f.frame(a);
    if head.Complete? {
      assert (a + b)[..head.length] == a[..head.length];
      assert (a + b)[head.length..] == a[head.length..] + b;
      var p := f.decode(|out|, a[..head.length]);
      if p.Some? {
        DrainDeliversPrefix(f, out + [p.value], a[head.length..], b);
        var later := LeadingPlaintexts(f, |out| + 1, a[head.length..] + b);
        assert out + [p.value] + later == out + ([p.value] + later);
      }
    }
  }

  /** Records laid end to end, in order, are parsed back, whatever the sink says. */
  lemma {:induction false} LeadingOfRecords(f: Format, k: nat, records: seq<seq<byte>>, plaintexts: seq<seq<byte>>)
    requires Streamable(f) && RecordLayout(f, records, plaintexts) && k <= |records|
    ensures LeadingPlaintexts(f, k, Flatten(records[k..])) == plaintexts[k..]
    decreases |records| - k
  {
    if k < |records| {
      LeadingOfRecords(f, k + 1, records, plaintexts);
      HeadOfRecords(f, k, records, plaintexts);
      assert [plaintexts[k]] + plaintexts[k + 1..] == plaintexts[k..];
    }
  }

  lemma HeadOfRecords(f: Format, k: nat, records: seq<seq<byte>>, plaintexts: seq<seq<byte>>)
    requires Streamable(f) && RecordLayout(f, records, plaintexts) && k < |records|
    ensures var bytes, n := Flatten(records[k..]), |records[k]|;
            && 0 < n <= |bytes| && f.frame(bytes) == Complete(n)
            && bytes[..n] == records[k] && bytes[n..] == Flatten(records[k + 1..])
  {
    var record, tail := records[k], Flatten(records[k + 1..]);
    assert records[k..][1..] == records[k + 1..];
    assert (record + tail)[..|record|] == record && (record + tail)[|record|..] == tail;
    assert DecodesOneFrame(f, k, record) && FrameIsBounded(f, record) && FrameIsStable(f, record, tail);
  }

  lemma {:induction false} DrainOfRecords(f: Format, k: nat, records: seq<seq<byte>>, plaintexts: seq<seq<byte>>)
    requires Streamable(f) && RecordLayout(f, records, plaintexts) && k <= |records|
    requires forall j :: k <= j < |records| ==> f.accepts(j)
    ensures Drain(f, plaintexts[..k], Flatten(records[k..])) == Drained(plaintexts, [], true)
    decreases |records| - k
  {
    if k < |records| {
      DrainOfRecords(f, k + 1, records, plaintexts);
      HeadOfRecords(f, k, records, plaintexts);
      assert plaintexts[..k] + [plaintexts[k]] == plaintexts[..k + 1];
    } else {
      assert plaintexts[..k] == plaintexts;
    }
  }

  lemma {:induction false} RecordsOfDrain(f: Format, out: seq<seq<byte>>, bytes: seq<byte>)
    returns (records: seq<seq<byte>>)
    requires Streamable(f) && Drain(f, out, bytes).ok && Drain(f, out, bytes).rest == []
    ensures var d := Drain(f, out, bytes).delivered;
            && Flatten(records) == bytes && |records| == |d| - |out|
            && forall j :: |out| <= j < |d| ==> f.accepts(j) && f.decode(j, records[j - |out|]) == Some(d[j])
    decreases |bytes|
  {
    assert FrameIsBounded(f, bytes);
    var head := f.frame(bytes);
    if head.NeedsMore? {
      records := [];
    } else {
      var record := bytes[..head.length];
      var p := f.decode(|out|, record);
      var d := Drain(f, out, bytes).delivered;
      var tail := RecordsOfDrain(f, out + [p.value], bytes[head.length..]);
      records := [record] + tail;
      assert records[1..] == tail;
      assert bytes == record + bytes[head.length..];
      forall j | |out| <= j < |d|
        ensures f.accepts(j) && f.decode(j, records[j - |out|]) == Some(d[j])
      {
        if j > |out| {
          assert records[j - |out|] == tail[j - (|out| + 1)];
        }
      }
    }
  }

  lemma LayoutOfDrain(f: Format, obj: seq<byte>) returns (records: seq<seq<byte>>)
    requires Streamable(f) && Drain(f, [], obj).ok && Drain(f, [], obj).rest == []
    ensures RecordLayout(f, records, Drain(f, [], obj).delivered) && Flatten(records) == obj
    ensures forall j :: 0 <= j < |records| ==> f.accepts(j)
  {
    records := RecordsOfDrain(f, [], obj);
    var d := Drain(f, [], obj).delivered;
    forall j | 0 <= j < |d|
      ensures f.accepts(j) && f.decode(j, records[j]) == Some(d[j])
    {
      assert records[j - 0] == records[j];
    }
  }

  ghost predicate ParsesAsManifest(m: Manifest, d: Drained) {
    d.ok && d.rest == [] && |d.delivered| == |m.chunks|
  }

  ghost predicate SinkTakesAll(w: World, m: Manifest) {
    forall j :: 0 <= j < |m.chunks| ==> w.sinkAccepts(j)
  }

  lemma ParsedIsDecoded(w: World, m: Manifest, obj: seq<byte>)
    requires ParsesAsManifest(m, Drain(RecordFormat(w, m), [], obj))
    ensures Decodes(w, m, obj, Drain(RecordFormat(w, m), [], obj).delivered) && SinkTakesAll(w, m)
  {
    RecordFormatIsStreamable(w, m);
    var records := LayoutOfDrain(RecordFormat(w, m), obj);
  }

  lemma DecodedIsParsed(w: World, m: Manifest, obj: seq<byte>, plaintexts: seq<seq<byte>>)
    requires Decodes(w, m, obj, plaintexts) && SinkTakesAll(w, m)
    ensures Drain(RecordFormat(w, m), [], obj) == Drained(plaintexts, [], true) && |plaintexts| == |m.chunks|
  {
    var f := RecordFormat(w, m);
    RecordFormatIsStreamable(w, m);
    var records :| |records| == |m.chunks| && RecordLayout(f, records, plaintexts) && Flatten(records) == obj;
    DrainOfRecords(f, 0, records, plaintexts);
    assert records[0..] == records && plaintexts[..0] == [];
  }

  /** The incremental parser ends clean after |chunks| records exactly on objects made of the records. */
  lemma DrainDecidesRecords(w: World, m: Manifest, obj: seq<byte>)
    ensures ParsesAsManifest(m, Drain(RecordFormat(w, m), [], obj)) <==>
            (exists plaintexts :: Decodes(w, m, obj, plaintexts)) && SinkTakesAll(w, m)
  {
    if ParsesAsManifest(m, Drain(RecordFormat(w, m), [], obj)) {
      ParsedIsDecoded(w, m, obj);
    }
    if (exists plaintexts :: Decodes(w, m, obj, plaintexts)) && SinkTakesAll(w, m) {
      var plaintexts :| Decodes(w, m, obj, plaintexts);
      DecodedIsParsed(w, m, obj, plaintexts);
    }
  }

  /** An object has at most one decoding, and it is the run of its leading plaintexts. */
  lemma DecodingIsUnique(w: World, m: Manifest, obj: seq<byte>, plaintexts: seq<seq<byte>>)
    requires Decodes(w, m, obj, plaintexts)
    ensures plaintexts == LeadingPlaintexts(RecordFormat(w, m), 0, obj)
  {
    var f := RecordFormat(w, m);
    RecordFormatIsStreamable(w, m);
    var records :| |records| == |m.chunks| && RecordLayout(f, records, plaintexts) && Flatten(records) == obj;
    LeadingOfRecords(f, 0, records, plaintexts);
    assert records[0..] == records && plaintexts[0..] == plaintexts;
  }

  // ---------------------------------------------------------------------------------------------
  // The reader
  // ---------------------------------------------------------------------------------------------

  /** One record of the inner loop: parse, compare with the manifest entry, decrypt. */
  method DecodeManifestRecord(w: World, m: Manifest, recordIndex: nat, recordBytes: seq<byte>)
    returns (plaintext: Option<seq<byte>>)
    ensures plaintext == DecodeRecord(w, m, recordIndex, recordBytes)
  {
    var record := ParseChunkRecord(recordBytes);
    if record.None? || !RecordMatchesManifest(w, m, recordIndex, record.value) {
      return None;
    }
    plaintext := DecryptRecordingChunk(w, m, recordIndex, recordBytes);
  }

  /** The cursor of the part check: the open part, how much of it is missing, the bytes hashed so far. */
  ghost predicate PartCursor(m: Manifest, partIndex: nat, partRemaining: nat, partHash: seq<byte>) {
    if partIndex < |m.parts| then
      && |partHash| + partRemaining == m.parts[partIndex].byteLength
      && (partRemaining == 0 ==> partHash == [])
    else
      partIndex == |m.parts| && partRemaining == 0 && partHash == []
  }

  /**
    First inner loop: feed one incoming chunk to the part check. The running hash is represented
    by the bytes fed to it.
  */
  method HashIncoming(
      w: World, m: Manifest, incoming: seq<byte>, index: nat, remaining: nat, hash: seq<byte>)
    returns (ok: bool, partIndex: nat, partRemaining: nat, partHash: seq<byte>)
    requires PartCursor(m, index, remaining, hash)
    ensures ok <==> CutParts(w, m.parts, index, hash + incoming).Some?
    ensures ok ==> CutParts(w, m.parts, index, hash + incoming) == Some((partIndex, partHash))
    ensures ok ==> PartCursor(m, partIndex, partRemaining, partHash)
  {
    partIndex, partRemaining, partHash := index, remaining, hash;
    var hashOffset := 0;
    assert hash + incoming == partHash + incoming[hashOffset..];
    while hashOffset < |incoming|
      invariant 0 <= hashOffset <= |incoming|
      invariant PartCursor(m, partIndex, partRemaining, partHash)
      invariant CutParts(w, m.parts, index, hash + incoming) ==
                CutParts(w, m.parts, partIndex, partHash + incoming[hashOffset..])
      decreases |incoming| - hashOffset
    {
      var take := if partRemaining < |incoming| - hashOffset then partRemaining else |incoming| - hashOffset;
      if take <= 0 {
        ok := false;
        return;
      }
      ghost var unread := partHash + incoming[hashOffset..];
      partHash := partHash + incoming[hashOffset..hashOffset + take];
      hashOffset := hashOffset + take;
      partRemaining := partRemaining - take;
      assert unread == partHash + incoming[hashOffset..];
      if partRemaining == 0 {
        assert unread[..m.parts[partIndex].byteLength] == partHash;
        assert unread[m.parts[partIndex].byteLength..] == [] + incoming[hashOffset..];
        if partIndex >= |m.parts| || w.sha256(partHash) != m.parts[partIndex].sha256 {
          ok := false;
          return;
        }
        partIndex := partIndex + 1;
        partRemaining := if partIndex < |m.parts| then m.parts[partIndex].byteLength else 0;
        partHash := [];
      }
    }
    assert partHash + incoming[hashOffset..] == partHash;
    ok := true;
  }

  /** A buffer whose head is a complete record: it is taken, or it fails, or the sink refuses it. */
  lemma DrainTakes(w: World, m: Manifest, delivered: seq<seq<byte>>, pending: seq<byte>, length: nat)
    requires RecordFrame(pending) == Complete(length)
    ensures Drain(RecordFormat(w, m), delivered, pending) ==
            match DecodeRecord(w, m, |delivered|, pending[..length])
            case None => Drained(delivered, pending, false)
            case Some(p) =>
              if w.sinkAccepts(|delivered|) then Drain(RecordFormat(w, m), delivered + [p], pending[length..])
              else Drained(delivered + [p], pending[length..], false)
  {
  }

  lemma DrainWaits(w: World, m: Manifest, delivered: seq<seq<byte>>, pending: seq<byte>)
    requires !RecordFrame(pending).Complete?
    ensures Drain(RecordFormat(w, m), delivered, pending) ==
            Drained(delivered, pending, RecordFrame(pending).NeedsMore?)
  {
  }

  /** The complete record at the head of the buffer is checked, decrypted and handed to the sink. */
  method DeliverRecord(w: World, m: Manifest, earlier: seq<seq<byte>>, buffer: seq<byte>, length: nat)
    returns (again: bool, delivered: seq<seq<byte>>, pending: seq<byte>)
    requires RecordFrame(buffer) == Complete(length)
    ensures again ==> |pending| < |buffer|
    ensures Drain(RecordFormat(w, m), earlier, buffer) ==
            if again then Drain(RecordFormat(w, m), delivered, pending) else Drained(delivered, pending, false)
  {
    DrainTakes(w, m, earlier, buffer, length);
    var plaintext := DecodeManifestRecord(w, m, |earlier|, buffer[..length]);
    if plaintext.None? {
      return false, earlier, buffer;
    }
    pending := buffer[length..];
    delivered := earlier + [plaintext.value];
    again := w.sinkAccepts(|earlier|);
  }

  /** One round of the second inner loop: a record taken and delivered, or the reason to stop. */
  method TakeRecord(w: World, m: Manifest, earlier: seq<seq<byte>>, buffer: seq<byte>)
    returns (again: bool, ok: bool, delivered: seq<seq<byte>>, pending: seq<byte>)
    requires |buffer| >= RECORD_HEADER_BYTES
    ensures again ==> |pending| < |buffer|
    ensures Drain(RecordFormat(w, m), earlier, buffer) ==
            if again then Drain(RecordFormat(w, m), delivered, pending) else Drained(delivered, pending, ok)
  {
    again, ok, delivered, pending := false, false, earlier, buffer;
    var sealedLength := Be32(pending, 28);
    if sealedLength < 17 || sealedLength > MAX_SEALED_BYTES {
      DrainWaits(w, m, earlier, buffer);
      return;
    }
    var recordLength := RECORD_HEADER_BYTES + sealedLength;
    if |pending| < recordLength {
      DrainWaits(w, m, earlier, buffer);
      ok := true;
      return;
    }
    again, delivered, pending := DeliverRecord(w, m, earlier, buffer, recordLength);
  }

  /** Second inner loop: take complete records off the carry-over buffer until it holds no more. */
  method DrainPending(w: World, m: Manifest, earlier: seq<seq<byte>>, buffer: seq<byte>)
    returns (ok: bool, delivered: seq<seq<byte>>, pending: seq<byte>)
    ensures Drain(RecordFormat(w, m), earlier, buffer) == Drained(delivered, pending, ok)
  {
    delivered, pending := earlier, buffer;
    while |pending| >= RECORD_HEADER_BYTES
      invariant Drain(RecordFormat(w, m), earlier, buffer) == Drain(RecordFormat(w, m), delivered, pending)
      decreases |pending|
    {
      var again;
      again, ok, delivered, pending := TakeRecord(w, m, delivered, pending);
      if !again {
        return;
      }
    }
    ok := true;
  }

  /** Both parsers are still open after these bytes. */
  ghost predicate Progresses(w: World, m: Manifest, bytes: seq<byte>) {
    CutParts(w, m.parts, 0, bytes).Some? && Drain(RecordFormat(w, m), [], bytes).ok
  }

  /**
    What reached the sink of a run: everything complete in the chunks both parsers got through,
    and, when the next chunk passes the part check, its records up to the one that failed.
  */
  ghost predicate DeliveredUpTo(
    w: World, m: Manifest, chunks: seq<seq<byte>>, c: nat, delivered: seq<seq<byte>>)
    requires c <= |chunks|
  {
    var through := Flatten(chunks[..c]);
    && Progresses(w, m, through)
    && if c == |chunks| then delivered == Drain(RecordFormat(w, m), [], through).delivered
       else
         var next := through + chunks[c];
         && !Progresses(w, m, next)
         && delivered == Drain(RecordFormat(w, m), [],
                               if CutParts(w, m.parts, 0, next).Some? then next else through).delivered
  }

  lemma ProgressIsMonotone(w: World, m: Manifest, a: seq<byte>, b: seq<byte>)
    ensures Progresses(w, m, a + b) ==> Progresses(w, m, a)
  {
    RecordFormatIsStreamable(w, m);
    CutPartsAppend(w, m.parts, 0, a, b);
    DrainAppend(RecordFormat(w, m), [], a, b);
  }

  /** What a stream must carry to be accepted, however it is chunked. */
  ghost predicate Acceptable(w: World, m: Manifest, obj: seq<byte>) {
    Authentic(w, m, obj) && NoEmptyPart(m) && SinkTakesAll(w, m)
  }

  /** An empty part keeps out even the object that consists of exactly the manifest's parts and records. */
  lemma EmptyPartIsNeverAccepted(w: World, key: Digest)
    requires w.sha256([]) == key
    ensures var m := Manifest([], [], [ManifestPart(0, key)], 0); Authentic(w, m, []) && !Acceptable(w, m, [])
  {
    var m := Manifest([], [], [ManifestPart(0, key)], 0);
    var none: seq<seq<byte>> := [];
    var segments: seq<seq<byte>> := [[]];
    assert PartLayout(w, m, segments) && Flatten(segments) == segments[0] + Flatten(segments[1..]) == [];
    assert RecordLayout(RecordFormat(w, m), none, none) && Flatten(none) == [];
    assert Decodes(w, m, [], none);
    assert m.parts[0].byteLength == 0;
  }

  lemma AcceptedProgresses(w: World, m: Manifest, obj: seq<byte>)
    requires Acceptable(w, m, obj)
    ensures Progresses(w, m, obj)
  {
    CutPartsDecidesLayout(w, m, obj);
    DrainDecidesRecords(w, m, obj);
  }

  /**
    streamDecryptedRecording. `chunks` are the values the stream yields, empty ones included;
    `readFails` says whether the read after them rejects instead of ending the stream.
  */
  method StreamDecryptedRecording(w: World, m: Manifest, chunks: seq<seq<byte>>, readFails: bool)
    returns (ok: bool, delivered: seq<seq<byte>>)
    ensures ok <==> !readFails && Acceptable(w, m, Flatten(chunks))
    ensures ok ==> Decodes(w, m, Flatten(chunks), delivered)
    ensures exists c: nat | c <= |chunks| :: DeliveredUpTo(w, m, chunks, c, delivered)
  {
    ghost var f := RecordFormat(w, m);
    RecordFormatIsStreamable(w, m);
    delivered := [];
    var pending: seq<byte> := [];
    var partIndex: nat, partHash: seq<byte> := 0, [];
    var partRemaining: nat := if |m.parts| > 0 then m.parts[0].byteLength else 0;
    var objectBytes := 0;

    for c := 0 to |chunks|
      invariant CutParts(w, m.parts, 0, Flatten(chunks[..c])) == Some((partIndex, partHash))
      invariant PartCursor(m, partIndex, partRemaining, partHash)
      invariant Drain(f, [], Flatten(chunks[..c])) == Drained(delivered, pending, true)
      invariant objectBytes == |Flatten(chunks[..c])|
    {
      var incoming := chunks[c];
      ghost var through := Flatten(chunks[..c]);
      SplitAround(chunks, c);
      CutPartsAppend(w, m.parts, 0, through, incoming);
      DrainAppend(f, [], through, incoming);
      objectBytes := objectBytes + |incoming|;
      var hashed;
      hashed, partIndex, partRemaining, partHash := HashIncoming(w, m, incoming, partIndex, partRemaining, partHash);
      if !hashed {
        RejectedChunk(w, m, chunks, c);
        assert DeliveredUpTo(w, m, chunks, c, delivered);
        ok := false;
        return;
      }
      var drained;
      drained, delivered, pending := DrainPending(w, m, delivered, pending + incoming);
      if !drained {
        RejectedChunk(w, m, chunks, c);
        assert DeliveredUpTo(w, m, chunks, c, delivered);
        ok := false;
        return;
      }
    }
    assert chunks[..|chunks|] == chunks;
    assert DeliveredUpTo(w, m, chunks, |chunks|, delivered);
    CutPartsDecidesLayout(w, m, Flatten(chunks));
    DrainDecidesRecords(w, m, Flatten(chunks));
    if readFails {
      ok := false;
      return;
    }
    ok := && |pending| == 0 && |delivered| == |m.chunks| && partIndex == |m.parts|
          && partRemaining == 0 && objectBytes == m.totalObjectBytes;
    if ok {
      ParsedIsDecoded(w, m, Flatten(chunks));
    }
  }

  lemma SplitAround(chunks: seq<seq<byte>>, c: nat)
    requires c < |chunks|
    ensures Flatten(chunks[..c + 1]) == Flatten(chunks[..c]) + chunks[c]
    ensures Flatten(chunks) == Flatten(chunks[..c]) + chunks[c] + Flatten(chunks[c + 1..])
  {
    FlattenTake(chunks, c);
    FlattenSplit(chunks, c + 1);
  }

  lemma RejectedChunk(w: World, m: Manifest, chunks: seq<seq<byte>>, c: nat)
    requires c < |chunks| && !Progresses(w, m, Flatten(chunks[..c]) + chunks[c])
    ensures !Acceptable(w, m, Flatten(chunks))
  {
    SplitAround(chunks, c);
    ProgressIsMonotone(w, m, Flatten(chunks[..c]) + chunks[c], Flatten(chunks[c + 1..]));
    if Acceptable(w, m, Flatten(chunks)) {
      AcceptedProgresses(w, m, Flatten(chunks));
    }
  }

  /** In every run, failing or not, what reached the sink is an initial segment of the whole-object decoding. */
  lemma DeliveredIsPrefix(w: World, m: Manifest, chunks: seq<seq<byte>>, c: nat, delivered: seq<seq<byte>>)
    requires c <= |chunks| && DeliveredUpTo(w, m, chunks, c, delivered)
    ensures delivered <= LeadingPlaintexts(RecordFormat(w, m), 0, Flatten(chunks))
    ensures forall plaintexts | Decodes(w, m, Flatten(chunks), plaintexts) :: delivered <= plaintexts
  {
    var f := RecordFormat(w, m);
    RecordFormatIsStreamable(w, m);
    FlattenSplit(chunks, c);
    DrainDeliversPrefix(f, [], Flatten(chunks[..c]), Flatten(chunks[c..]));
    if c < |chunks| {
      SplitAround(chunks, c);
      DrainDeliversPrefix(f, [], Flatten(chunks[..c]) + chunks[c], Flatten(chunks[c + 1..]));
    }
    var leading := LeadingPlaintexts(f, 0, Flatten(chunks));
    assert [] + leading == leading;
    forall plaintexts | Decodes(w, m, Flatten(chunks), plaintexts)
      ensures delivered <= plaintexts
    {
      DecodingIsUnique(w, m, Flatten(chunks), plaintexts);
    }
  }

  /** The chunk at which a run stops, and so what it delivers, is fixed by the chunking. */
  lemma StopIsUnique(
    w: World, m: Manifest, chunks: seq<seq<byte>>, c: nat, d: nat, a: seq<seq<byte>>, b: seq<seq<byte>>)
    requires c <= |chunks| && DeliveredUpTo(w, m, chunks, c, a)
    requires d <= |chunks| && DeliveredUpTo(w, m, chunks, d, b)
    ensures c == d && a == b
    decreases if d < c then 1 else 0
  {
    if c < d {
      var tail := Flatten(chunks[c + 1..d]);
      assert chunks[..d][..c + 1] == chunks[..c + 1] && chunks[..d][c + 1..] == chunks[c + 1..d];
      FlattenSplit(chunks[..d], c + 1);
      SplitAround(chunks, c);
      ProgressIsMonotone(w, m, Flatten(chunks[..c + 1]), tail);
    } else if d < c {
      StopIsUnique(w, m, chunks, d, c, b, a);
    }
  }

  /** An accepted run got through every chunk. */
  lemma AcceptedIsThrough(
    w: World, m: Manifest, chunks: seq<seq<byte>>, c: nat, delivered: seq<seq<byte>>)
    requires Acceptable(w, m, Flatten(chunks))
    requires c <= |chunks| && DeliveredUpTo(w, m, chunks, c, delivered)
    ensures Decodes(w, m, Flatten(chunks), delivered)
  {
    if c < |chunks| {
      RejectedChunk(w, m, chunks, c);
    } else {
      assert chunks[..c] == chunks;
      DrainDecidesRecords(w, m, Flatten(chunks));
      ParsedIsDecoded(w, m, Flatten(chunks));
    }
  }

  /**
    Two splits of one object, in failing runs too: what one delivers is a prefix of what the other
    delivers, and when the object is accepted both deliver the same plaintexts.
  */
  lemma SplitIndependent(
    w: World, m: Manifest, a: seq<seq<byte>>, b: seq<seq<byte>>, c: nat, d: nat, pa: seq<seq<byte>>,
    pb: seq<seq<byte>>)
    requires Flatten(a) == Flatten(b)
    requires c <= |a| && DeliveredUpTo(w, m, a, c, pa) && d <= |b| && DeliveredUpTo(w, m, b, d, pb)
    ensures pa <= pb || pb <= pa
    ensures Acceptable(w, m, Flatten(a)) ==> pa == pb
  {
    DeliveredIsPrefix(w, m, a, c, pa);
    DeliveredIsPrefix(w, m, b, d, pb);
    if Acceptable(w, m, Flatten(a)) {
      AcceptedIsThrough(w, m, a, c, pa);
      AcceptedIsThrough(w, m, b, d, pb);
      DecodingIsUnique(w, m, Flatten(a), pa);
      DecodingIsUnique(w, m, Flatten(b), pb);
    }
  }
}
