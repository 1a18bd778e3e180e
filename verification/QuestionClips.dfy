/**
  Question audio clips: the interval check of a transcription source, the slice of decoded PCM an
  interval selects, and the RIFF/WAVE file written around it. The written file is read back by an
  independent chunk-walking parser.
*/
module QuestionClips {
  import opened Bytes

  const MAX_RECORDING_DURATION_MS: nat := 8 * 60 * 1000
  const MAX_PROOF_QUESTION_COUNT: nat := 5
  const PCM_SAMPLE_RATE: nat := 16_000
  const PCM_CHANNELS: nat := 1
  const PCM_BYTES_PER_SAMPLE: nat := 2
  const PCM_BYTES_PER_MILLISECOND: nat := 32
  const WAV_HEADER_BYTES: nat := 44
  const MAX_QUESTION_AUDIO_BYTES: nat := 16 * 1024 * 1024
  const MAX_QUESTION_CLIP_END_CLAMP_MS: nat := 250

  // ---------------------------------------------------------------------------------------------
  // Intervals
  // ---------------------------------------------------------------------------------------------

  datatype Interval = Interval(questionId: string, ordinal: nat, startMs: nat, endMs: nat, recordedDurationMs: nat)

  /** ProofQuestionIntervalV1Schema */
  predicate IsInterval(i: Interval) {
    && i.ordinal < MAX_PROOF_QUESTION_COUNT
    && i.startMs < i.endMs <= i.recordedDurationMs <= MAX_RECORDING_DURATION_MS
  }

  datatype Source = Source(
    recordingDurationMs: nat, manifestDurationMs: nat, proofQuestionIds: seq<string>, intervals: seq<Interval>)

  /** What the field schemas guarantee before the cross-field check runs. */
  predicate FieldsParse(s: Source) {
    && (forall i :: 0 <= i < |s.intervals| ==> IsInterval(s.intervals[i]))
    && 1 <= |s.intervals| <= MAX_PROOF_QUESTION_COUNT && 1 <= |s.proofQuestionIds| <= MAX_PROOF_QUESTION_COUNT
  }

  predicate Before(a: Interval, b: Interval) { a.endMs <= b.startMs && a.questionId != b.questionId }

  predicate InPlace(s: Source, i: nat) {
    && i < |s.intervals| && i < |s.proofQuestionIds|
    && s.intervals[i].ordinal == i && s.intervals[i].questionId == s.proofQuestionIds[i]
    && s.intervals[i].recordedDurationMs == s.manifestDurationMs
    && s.intervals[i].endMs <= s.recordingDurationMs
  }

  /** One interval per stored question, in its order, inside the recording; any two apart. */
  ghost predicate IsTimeline(s: Source) {
    && |s.intervals| == |s.proofQuestionIds|
    && (forall i :: 0 <= i < |s.intervals| ==> InPlace(s, i))
    && (forall i, j :: 0 <= i < j < |s.intervals| ==> Before(s.intervals[i], s.intervals[j]))
  }

  lemma TimelineAt(s: Source, index: nat)
    requires IsTimeline(s) && index < |s.intervals|
    ensures InPlace(s, index)
    ensures index > 0 ==> s.intervals[index - 1].endMs <= s.intervals[index].startMs
    ensures forall k :: 0 <= k < index ==> s.intervals[k].questionId != s.intervals[index].questionId
  {
  }

  /** The cross-field check compares each interval only with the one before it and with the ids seen. */
  method CheckTimeline(s: Source) returns (ok: bool)
    requires FieldsParse(s)
    ensures ok <==> IsTimeline(s)
  {
    ok := true;
    var questionIds: set<string> := {};
    var previousEnd := 0;
    for index := 0 to |s.intervals|
      invariant questionIds == set k | 0 <= k < index :: s.intervals[k].questionId
      invariant previousEnd == if index == 0 then 0 else s.intervals[index - 1].endMs
      invariant !ok ==> !IsTimeline(s)
      invariant ok ==> forall k :: 0 <= k < index ==> InPlace(s, k) && s.intervals[k].endMs <= previousEnd
      invariant ok ==> forall j, k :: 0 <= j < k < index ==> Before(s.intervals[j], s.intervals[k])
    {
      var interval := s.intervals[index];
      if
        || interval.ordinal != index
        || interval.recordedDurationMs != s.manifestDurationMs
        || interval.endMs > s.recordingDurationMs
        || interval.startMs < previousEnd
        || interval.questionId in questionIds
        || index >= |s.proofQuestionIds| || s.proofQuestionIds[index] != interval.questionId
      {
        if IsTimeline(s) {
          TimelineAt(s, index);
        }
        ok := false;
      }
      previousEnd := interval.endMs;
      questionIds := questionIds + {interval.questionId};
    }
    if |s.proofQuestionIds| != |s.intervals| {
      ok := false;
    }
  }

  // ---------------------------------------------------------------------------------------------
  // Slices
  // ---------------------------------------------------------------------------------------------

  /** clampQuestionClipEndByte */
  function ClampEnd(requestedEnd: nat, pcmBytes: nat): nat {
    if requestedEnd <= pcmBytes then requestedEnd
    else if requestedEnd - pcmBytes > MAX_QUESTION_CLIP_END_CLAMP_MS * PCM_BYTES_PER_MILLISECOND then requestedEnd
    else pcmBytes
  }

  datatype Clip = Clip(start: nat, end: nat)

  /** The byte range of an interval, or nothing when the decoded audio does not hold it. */
  function ClipOf(pcmBytes: nat, i: Interval): Option<Clip> {
    var start, requestedEnd := i.startMs * PCM_BYTES_PER_MILLISECOND, i.endMs * PCM_BYTES_PER_MILLISECOND;
    var aligned := pcmBytes - pcmBytes % PCM_BYTES_PER_SAMPLE;
    var end := ClampEnd(requestedEnd, aligned);
    if !IsInterval(i) then None
    else if end > aligned || end <= start || end - start + WAV_HEADER_BYTES > MAX_QUESTION_AUDIO_BYTES
         || (end - start) % PCM_BYTES_PER_SAMPLE != 0 then None
    else Some(Clip(start, end))
  }

  /**
    A clip is a whole-sample slice that starts where the interval starts and ends where it ends,
    cut by at most 250 ms and only at the end of the audio; it exists exactly when the interval is
    well formed, of a recording of eight minutes at most, and the audio reaches past its start and to
    within 250 ms of its end. The size limit of a clip file therefore never stops one.
  */
  lemma ClipIsSlice(pcmBytes: nat, i: Interval)
    ensures var aligned := pcmBytes - pcmBytes % 2;
            ClipOf(pcmBytes, i).Some? <==>
            && i.ordinal <= 4 && i.startMs < i.endMs <= i.recordedDurationMs <= 480_000
            && 32 * i.startMs < aligned && 32 * i.endMs <= aligned + 32 * 250
    ensures ClipOf(pcmBytes, i).Some? ==>
              var c := ClipOf(pcmBytes, i).value;
              && c.start == 32 * i.startMs && c.start < c.end <= pcmBytes && (c.end - c.start) % 2 == 0
              && 32 * i.endMs - 32 * 250 <= c.end <= 32 * i.endMs
              && (c.end < 32 * i.endMs ==> c.end == pcmBytes - pcmBytes % 2)
  {
    var aligned := pcmBytes - pcmBytes % 2;
    EvenDifference(aligned / 2, 16 * i.startMs);
    EvenDifference(16 * i.endMs, 16 * i.startMs);
    assert aligned == 2 * (aligned / 2);
  }

  lemma EvenDifference(a: int, b: int)
    ensures (2 * a - 2 * b) % 2 == 0
  {
  }

  /** Accepted by the adjacent-only check, all clips of a recording are pairwise disjoint. */
  lemma ClipsAreDisjoint(s: Source, pcmBytes: nat, i: nat, j: nat)
    requires FieldsParse(s) && IsTimeline(s) && i < j < |s.intervals|
    requires ClipOf(pcmBytes, s.intervals[i]).Some? && ClipOf(pcmBytes, s.intervals[j]).Some?
    ensures ClipOf(pcmBytes, s.intervals[i]).value.end <= ClipOf(pcmBytes, s.intervals[j]).value.start
  {
  }

  // ---------------------------------------------------------------------------------------------
  // RIFF, read independently of how it is written
  // ---------------------------------------------------------------------------------------------

  function Le16(s: seq<byte>, at: nat): (v: nat)
    requires at + 2 <= |s|
  {
    s[at] as nat + s[at + 1] as nat * 0x100
  }

  function Le32(s: seq<byte>, at: nat): (v: nat)
    requires at + 4 <= |s|
  {
    Le16(s, at) + Le16(s, at + 2) * 0x1_0000
  }

  datatype Chunk = Chunk(id: seq<byte>, body: seq<byte>)

  /** The chunks of a RIFF body, each padded to an even length. */
  function ParseChunks(s: seq<byte>): Option<seq<Chunk>>
    decreases |s|
  {
    if s == [] then Some([])
    else if |s| < 8 then None
    else
      var size := Le32(s, 4);
      var next := 8 + size + size % 2;
      if next > |s| then None
      else
        match ParseChunks(s[next..])
        case None => None
        case Some(rest) => Some([Chunk(s[..4], s[8..8 + size])] + rest)
  }

  /** What a RIFF file of type WAVE holds, if its size field is that of the file. */
  function WaveBody(s: seq<byte>): Option<seq<byte>> {
    if |s| < 12 || s[..4] != RIFF || Le32(s, 4) != |s| - 8 || s[8..12] != WAVE then None else Some(s[12..])
  }

  function ParseWave(s: seq<byte>): Option<seq<Chunk>> {
    match WaveBody(s)
    case None => None
    case Some(body) => ParseChunks(body)
  }

  datatype Format = Format(
    encoding: nat, channels: nat, sampleRate: nat, byteRate: nat, blockAlign: nat, bitsPerSample: nat)

  function ParseFormat(c: Chunk): Option<Format> {
    if c.id != FMT || |c.body| != 16 then None
    else Some(Format(Le16(c.body, 0), Le16(c.body, 2), Le32(c.body, 4), Le32(c.body, 8), Le16(c.body, 12),
                     Le16(c.body, 14)))
  }

  const RIFF: seq<byte> := [0x52, 0x49, 0x46, 0x46]
  const WAVE: seq<byte> := [0x57, 0x41, 0x56, 0x45]
  const FMT: seq<byte> := [0x66, 0x6d, 0x74, 0x20]
  const DATA: seq<byte> := [0x64, 0x61, 0x74, 0x61]

  // ---------------------------------------------------------------------------------------------
  // The file that is written
  // ---------------------------------------------------------------------------------------------

  function Le16Bytes(v: nat): (s: seq<byte>)
    requires v < 0x1_0000
    ensures |s| == 2 && Le16(s, 0) == v
  {
    [(v % 0x100) as byte, (v / 0x100) as byte]
  }

  function Le32Bytes(v: nat): (s: seq<byte>)
    requires v < 0x1_0000_0000
    ensures |s| == 4 && Le32(s, 0) == v
  {
    Le16Bytes(v % 0x1_0000) + Le16Bytes(v / 0x1_0000)
  }

  function FormatBody(): (s: seq<byte>)
    ensures |s| == 16
  {
    Le16Bytes(1) + Le16Bytes(PCM_CHANNELS) + Le32Bytes(PCM_SAMPLE_RATE)
    + Le32Bytes(PCM_SAMPLE_RATE * PCM_CHANNELS * PCM_BYTES_PER_SAMPLE)
    + Le16Bytes(PCM_CHANNELS * PCM_BYTES_PER_SAMPLE) + Le16Bytes(PCM_BYTES_PER_SAMPLE * 8)
  }

  function WriteChunk(id: seq<byte>, body: seq<byte>): seq<byte>
    requires |id| == 4 && |body| < 0x1_0000_0000
  {
    id + Le32Bytes(|body|) + body
  }

  function WaveFile(chunks: seq<byte>): seq<byte>
    requires |chunks| < 0x1_0000_0000 - 4
  {
    RIFF + Le32Bytes(4 + |chunks|) + WAVE + chunks
  }

  function Wav(data: seq<byte>): (s: seq<byte>)
    requires |data| < 0x1_0000_0000 - 36
    ensures |s| == WAV_HEADER_BYTES + |data|
  {
    WaveFile(WriteChunk(FMT, FormatBody()) + WriteChunk(DATA, data))
  }

  lemma Le32Of(s: seq<byte>, at: nat, v: nat)
    requires at + 4 <= |s| && v < 0x1_0000_0000 && s[at..at + 4] == Le32Bytes(v)
    ensures Le32(s, at) == v
  {
  }

  lemma WaveFileHolds(chunks: seq<byte>)
    requires |chunks| < 0x1_0000_0000 - 4
    ensures WaveBody(WaveFile(chunks)) == Some(chunks)
  {
  }

  lemma ParsesChunk(id: seq<byte>, body: seq<byte>, rest: seq<byte>)
    requires |id| == 4 && |body| < 0x1_0000_0000 && |body| % 2 == 0
    ensures ParseChunks(WriteChunk(id, body) + rest) ==
            match ParseChunks(rest) case None => None case Some(r) => Some([Chunk(id, body)] + r)
  {
    var s := WriteChunk(id, body) + rest;
    assert s[..4] == id && s[4..8] == Le32Bytes(|body|);
    Le32Of(s, 4, |body|);
    assert s[8..8 + |body|] == body && s[8 + |body|..] == rest;
  }

  lemma FormatParses()
    ensures ParseFormat(Chunk(FMT, FormatBody())) == Some(Format(1, 1, 16_000, 32_000, 2, 16))
  {
  }

  function Ascii(s: string): seq<byte>
    requires forall i :: 0 <= i < |s| ==> s[i] < 128 as char
  {
    seq(|s|, i requires 0 <= i < |s| => s[i] as int as byte)
  }

  /** Four bytes hold this number, the least significant first. */
  predicate Holds(s: seq<byte>, v: nat) {
    && |s| == 4
    && s[0] as nat + 0x100 * s[1] as nat + 0x1_0000 * s[2] as nat + 0x100_0000 * s[3] as nat == v
  }

  lemma NumberInBytes(v: nat)
    requires v < 0x1_0000_0000
    ensures Holds(Le32Bytes(v), v)
  {
    var s := Le32Bytes(v);
    assert Le32(s, 0) == Le16(s, 0) + Le16(s, 2) * 0x1_0000;
  }

  lemma FormatInBytes()
    ensures FormatBody() == [1, 0, 1, 0, 0x80, 0x3e, 0, 0, 0, 0x7d, 0, 0, 2, 0, 16, 0]
  {
    assert Le32Bytes(16_000) == [0x80, 0x3e, 0, 0];
    assert Le32Bytes(32_000) == [0, 0x7d, 0, 0];
  }

  lemma NamesInBytes()
    ensures RIFF == Ascii("RIFF") && WAVE + FMT == Ascii("WAVEfmt ") && DATA == Ascii("data")
    ensures Le32Bytes(16) == [16, 0, 0, 0]
  {
  }

  lemma WavInParts(data: seq<byte>)
    requires |data| < 0x1_0000_0000 - 36
    ensures var file := Wav(data);
            && file[..4] == RIFF && file[4..8] == Le32Bytes(36 + |data|) && file[8..16] == WAVE + FMT
            && file[16..36] == Le32Bytes(16) + FormatBody()
            && file[36..40] == DATA && file[40..44] == Le32Bytes(|data|) && file[44..] == data
  {
  }

  /** The bytes that are written: RIFF, WAVE, one format chunk and one data chunk, with their sizes. */
  lemma WavInBytes(data: seq<byte>)
    requires |data| < 0x1_0000_0000 - 36
    ensures var file := Wav(data);
            && file[..4] == Ascii("RIFF") && Holds(file[4..8], 36 + |data|) && file[8..16] == Ascii("WAVEfmt ")
            && file[16..36] == [16, 0, 0, 0, 1, 0, 1, 0, 0x80, 0x3e, 0, 0, 0, 0x7d, 0, 0, 2, 0, 16, 0]
            && file[36..40] == Ascii("data") && Holds(file[40..44], |data|) && file[44..] == data
  {
    WavInParts(data);
    NumberInBytes(36 + |data|);
    NumberInBytes(|data|);
    NamesInBytes();
    FormatInBytes();
  }

  /** A written clip reads back: consistent sizes, 16 kHz mono 16-bit PCM, and exactly its samples. */
  lemma WavRoundTrip(data: seq<byte>)
    requires |data| + WAV_HEADER_BYTES <= MAX_QUESTION_AUDIO_BYTES && |data| % 2 == 0
    ensures ParseWave(Wav(data)) == Some([Chunk(FMT, FormatBody()), Chunk(DATA, data)])
    ensures ParseFormat(Chunk(FMT, FormatBody())) == Some(Format(1, 1, 16_000, 32_000, 2, 16))
  {
    FormatParses();
    var samples := WriteChunk(DATA, data);
    assert samples + [] == samples;
    ParsesChunk(DATA, data, []);
    ParsesChunk(FMT, FormatBody(), samples);
    WaveFileHolds(WriteChunk(FMT, FormatBody()) + samples);
    assert [Chunk(FMT, FormatBody())] + ([Chunk(DATA, data)] + []) == [Chunk(FMT, FormatBody()), Chunk(DATA, data)];
  }

  // ---------------------------------------------------------------------------------------------
  // The writer
  // ---------------------------------------------------------------------------------------------

  /** writeAscii, setUint16, setUint32 and set: consecutive bytes from an offset on. */
  method WriteAt(a: array<byte>, offset: nat, s: seq<byte>)
    requires offset + |s| <= a.Length
    modifies a
    ensures a[..offset + |s|] == old(a[..offset]) + s
  {
    for i := 0 to |s|
      invariant a[..offset] == old(a[..offset])
      invariant a[offset..offset + i] == s[..i]
    {
      a[offset + i] := s[i];
    }
    assert a[..offset + |s|] == a[..offset] + a[offset..offset + |s|];
  }

  method WriteFormat(wav: array<byte>)
    requires wav.Length >= 36
    modifies wav
    ensures wav[..36] == old(wav[..12]) + WriteChunk(FMT, FormatBody())
  {
    WriteAt(wav, 12, FMT);
    WriteAt(wav, 16, Le32Bytes(16));
    WriteAt(wav, 20, Le16Bytes(1));
    WriteAt(wav, 22, Le16Bytes(PCM_CHANNELS));
    WriteAt(wav, 24, Le32Bytes(PCM_SAMPLE_RATE));
    WriteAt(wav, 28, Le32Bytes(PCM_SAMPLE_RATE * PCM_CHANNELS * PCM_BYTES_PER_SAMPLE));
    WriteAt(wav, 32, Le16Bytes(PCM_CHANNELS * PCM_BYTES_PER_SAMPLE));
    WriteAt(wav, 34, Le16Bytes(PCM_BYTES_PER_SAMPLE * 8));
  }

  method WriteFile(wav: array<byte>, data: seq<byte>)
    requires wav.Length == WAV_HEADER_BYTES + |data| && wav.Length <= MAX_QUESTION_AUDIO_BYTES
    modifies wav
    ensures wav[..] == Wav(data)
  {
    WriteAt(wav, 0, RIFF);
    WriteAt(wav, 4, Le32Bytes(wav.Length - 8));
    WriteAt(wav, 8, WAVE);
    ghost var head := RIFF + Le32Bytes(36 + |data|) + WAVE;
    assert wav[..12] == head;
    WriteFormat(wav);
    ghost var format := WriteChunk(FMT, FormatBody());
    assert wav[..36] == head + format;
    WriteAt(wav, 36, DATA);
    WriteAt(wav, 40, Le32Bytes(|data|));
    WriteAt(wav, WAV_HEADER_BYTES, data);
    assert wav[..] == wav[..wav.Length] == head + format + DATA + Le32Bytes(|data|) + data;
    assert head + format + DATA + Le32Bytes(|data|) + data == head + (format + (DATA + Le32Bytes(|data|) + data));
  }

  /** questionWavFromPcm */
  method QuestionWavFromPcm(pcm: seq<byte>, interval: Interval) returns (wav: array?<byte>)
    ensures wav == null <==> ClipOf(|pcm|, interval).None?
    ensures wav != null ==>
              var clip := ClipOf(|pcm|, interval).value;
              && fresh(wav) && clip.start <= clip.end <= |pcm|
              && clip.end - clip.start + WAV_HEADER_BYTES <= MAX_QUESTION_AUDIO_BYTES
              && wav[..] == Wav(pcm[clip.start..clip.end])
  {
    if !IsInterval(interval) {
      return null;
    }
    ClipIsSlice(|pcm|, interval);
    var startByte := interval.startMs * PCM_BYTES_PER_MILLISECOND;
    var requestedEndByte := interval.endMs * PCM_BYTES_PER_MILLISECOND;
    var alignedPcmBytes := |pcm| - |pcm| % PCM_BYTES_PER_SAMPLE;
    var endByte := ClampEnd(requestedEndByte, alignedPcmBytes);
    var dataBytes := endByte - startByte;
    if endByte > alignedPcmBytes || dataBytes <= 0 || dataBytes + WAV_HEADER_BYTES > MAX_QUESTION_AUDIO_BYTES
       || dataBytes % PCM_BYTES_PER_SAMPLE != 0
    {
      return null;
    }
    var data := pcm[startByte..endByte];
    var file := new byte[WAV_HEADER_BYTES + dataBytes];
    WriteFile(file, data);
    wav := file;
  }

  /** The clip file of an accepted interval reads back to exactly the interval's slice of the PCM. */
  lemma ClipFileRoundTrip(pcm: seq<byte>, interval: Interval)
    requires ClipOf(|pcm|, interval).Some?
    ensures var clip := ClipOf(|pcm|, interval).value;
            && clip.start <= clip.end <= |pcm| && clip.end - clip.start + WAV_HEADER_BYTES <= MAX_QUESTION_AUDIO_BYTES
            && ParseWave(Wav(pcm[clip.start..clip.end])) ==
               Some([Chunk(FMT, FormatBody()), Chunk(DATA, pcm[clip.start..clip.end])])
            && ParseFormat(Chunk(FMT, FormatBody())) == Some(Format(1, 1, 16_000, 32_000, 2, 16))
  {
    ClipIsSlice(|pcm|, interval);
    var clip := ClipOf(|pcm|, interval).value;
    WavRoundTrip(pcm[clip.start..clip.end]);
  }
}
