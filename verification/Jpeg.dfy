/**
  The JPEG marker scanner. The grammar it accepts is written down as a writer (ITU-T T.81, annex
  B.1.1: fill bytes, standalone markers, marker segments), and the scanner is proved to return a
  size exactly when the bytes were written by that grammar, and then the size that was written.
*/
module Jpeg {
  import opened Bytes

  const MAX_INLINE_JPEG_BYTES: nat := 512 * 1024
  const FRAME_WIDTH: nat := 320
  const FRAME_HEIGHT: nat := 180

  datatype Dimensions = Dimensions(width: nat, height: nat)

  /** isBoundedJpeg */
  predicate IsBoundedJpeg(bytes: seq<byte>) {
    && 12 <= |bytes| <= MAX_INLINE_JPEG_BYTES
    && bytes[0] == 0xff && bytes[1] == 0xd8
    && bytes[|bytes| - 2] == 0xff && bytes[|bytes| - 1] == 0xd9
  }

  /** isStartOfFrameMarker */
  predicate IsStartOfFrame(m: byte) { 0xc0 <= m <= 0xcf && m != 0xc4 && m != 0xc8 && m != 0xcc }

  predicate IsStandalone(m: byte) { m == 0x01 || 0xd0 <= m <= 0xd8 }

  // ---------------------------------------------------------------------------------------------
  // The grammar, as a writer
  // ---------------------------------------------------------------------------------------------

  /** A marker preceded by `fill` extra 0xff bytes, alone or with a length-prefixed payload. */
  datatype Item = Standalone(fill: nat, marker: byte) | Segment(fill: nat, marker: byte, payload: seq<byte>)

  function Fill(n: nat): (s: seq<byte>)
    ensures |s| == n && forall i :: 0 <= i < n ==> s[i] == 0xff
  {
    seq(n, _ => 0xff)
  }

  predicate Fits(item: Item) { item.Segment? ==> |item.payload| + 2 < 0x1_0000 }

  function Write(item: Item): seq<byte>
    requires Fits(item)
  {
    match item
    case Standalone(fill, marker) => Fill(fill + 1) + [marker]
    case Segment(fill, marker, payload) => Fill(fill + 1) + [marker] + Be16Bytes(|payload| + 2) + payload
  }

  /** An item that is neither an image's end, nor the start of a scan, nor a frame header. */
  predicate IsSkipped(item: Item) {
    && Fits(item)
    && match item
       case Standalone(_, m) => IsStandalone(m)
       case Segment(_, m, _) => m !in {0xff, 0xd9, 0xda} && !IsStandalone(m) && !IsStartOfFrame(m)
  }

  /** A frame header long enough for precision, height and width. */
  predicate IsFrameHeader(item: Item) {
    Fits(item) && item.Segment? && IsStartOfFrame(item.marker) && |item.payload| >= 6
  }

  function SizeOf(frame: Item): Dimensions
    requires IsFrameHeader(frame)
  {
    Dimensions(Be16(frame.payload, 3), Be16(frame.payload, 1))
  }

  function WriteAll(items: seq<Item>): seq<byte>
    requires forall i :: 0 <= i < |items| ==> Fits(items[i])
  {
    if items == [] then [] else Write(items[0]) + WriteAll(items[1..])
  }

  /** Skipped items, then a frame header, then at least the two bytes of the end marker. */
  ghost predicate IsWritten(bytes: seq<byte>, items: seq<Item>, frame: Item, tail: seq<byte>) {
    && (forall i :: 0 <= i < |items| ==> Fits(items[i]) && IsSkipped(items[i]))
    && IsFrameHeader(frame) && |tail| >= 2
    && bytes == WriteAll(items) + (Write(frame) + tail)
  }

  /** The markers of Table B.1, byte by byte: frame headers, and those without a segment among the skipped. */
  lemma MarkersInNumbers(m: byte)
    ensures IsStartOfFrame(m) <==>
            m in {0xc0, 0xc1, 0xc2, 0xc3, 0xc5, 0xc6, 0xc7, 0xc9, 0xca, 0xcb, 0xcd, 0xce, 0xcf}
    ensures IsStandalone(m) <==> m in {0x01, 0xd0, 0xd1, 0xd2, 0xd3, 0xd4, 0xd5, 0xd6, 0xd7, 0xd8}
  {
  }

  /**
    A written item, byte by byte: fill bytes and its marker, then, for a segment, its big-endian
    length, which counts itself, and its payload; a frame header's height and width are the bytes
    after the precision.
  */
  lemma ItemInBytes(item: Item)
    requires Fits(item)
    ensures var s, n := Write(item), item.fill + 1;
            && (forall i :: 0 <= i < n ==> s[i] == 0xff) && s[n] == item.marker
            && (item.Standalone? ==> |s| == n + 1)
            && (item.Segment? ==>
                  && |s| == n + 3 + |item.payload| && s[n + 3..] == item.payload
                  && s[n + 1] as nat * 256 + s[n + 2] as nat == |item.payload| + 2)
            && (IsFrameHeader(item) ==>
                  && SizeOf(item).height == s[n + 4] as nat * 256 + s[n + 5] as nat
                  && SizeOf(item).width == s[n + 6] as nat * 256 + s[n + 7] as nat)
  {
    var s, n := Write(item), item.fill + 1;
    assert forall i :: 0 <= i < n ==> s[i] == Fill(n)[i];
    if item.Segment? {
      var length := Be16Bytes(|item.payload| + 2);
      assert Be16(length, 0) == length[0] as nat * 256 + length[1] as nat;
      assert s[n + 1] == length[0] && s[n + 2] == length[1];
      assert forall i :: 0 <= i < |item.payload| ==> s[n + 3 + i] == item.payload[i];
    }
  }

  // ---------------------------------------------------------------------------------------------
  // Reading one item off the front
  // ---------------------------------------------------------------------------------------------

  /** The bytes end in something other than a fill byte, so a run of fill bytes always stops. */
  predicate EndsClean(s: seq<byte>) { s != [] ==> s[|s| - 1] != 0xff }

  function LeadingFill(s: seq<byte>): (n: nat)
    requires EndsClean(s)
    ensures n <= |s| && (s != [] ==> n < |s| && s[n] != 0xff)
    ensures forall i :: 0 <= i < n ==> s[i] == 0xff
  {
    if s == [] || s[0] != 0xff then 0 else 1 + LeadingFill(s[1..])
  }

  datatype Read = Stop | Skip(length: nat) | Frame(size: Dimensions)

  /** What one round of the scanner makes of the unread bytes. */
  function ReadItem(s: seq<byte>): (r: Read)
    requires EndsClean(s)
    ensures r.Skip? ==> 0 < r.length <= |s|
  {
    if |s| < 4 || s[0] != 0xff then Stop
    else
      var n := LeadingFill(s);
      var marker, body := s[n], s[n + 1..];
      if marker == 0xd9 || marker == 0xda then Stop
      else if IsStandalone(marker) then Skip(n + 1)
      else if |body| < 2 then Stop
      else
        var length := Be16(body, 0);
        if length < 2 || length > |body| - 2 then Stop
        else if !IsStartOfFrame(marker) then Skip(n + 1 + length)
        else if length < 8 then Stop
        else Frame(Dimensions(Be16(body, 5), Be16(body, 3)))
  }

  function Scan(s: seq<byte>): Option<Dimensions>
    requires EndsClean(s)
    decreases |s|
  {
    match ReadItem(s)
    case Stop => None
    case Frame(size) => Some(size)
    case Skip(length) => Scan(s[length..])
  }

  lemma LeadingFillOf(n: nat, marker: byte, rest: seq<byte>)
    requires marker != 0xff && EndsClean(Fill(n) + [marker] + rest)
    ensures LeadingFill(Fill(n) + [marker] + rest) == n
  {
    var s := Fill(n) + [marker] + rest;
    assert s[n] == marker && forall i :: 0 <= i < n ==> s[i] == Fill(n)[i];
  }

  lemma ReadsStandalone(item: Item, rest: seq<byte>)
    requires IsSkipped(item) && item.Standalone? && |rest| >= 2 && EndsClean(Write(item) + rest)
    ensures ReadItem(Write(item) + rest) == Skip(|Write(item)|)
  {
    LeadingFillOf(item.fill + 1, item.marker, rest);
  }

  lemma SegmentBody(item: Item, rest: seq<byte>)
    requires item.Segment? && Fits(item) && item.marker != 0xff && EndsClean(Write(item) + rest)
    ensures var s, n := Write(item) + rest, item.fill + 1;
            && LeadingFill(s) == n && |s| > n + 2 && s[0] == 0xff && s[n] == item.marker
            && s[n + 1..] == Be16Bytes(|item.payload| + 2) + item.payload + rest
            && Be16(s[n + 1..], 0) == |item.payload| + 2
  {
    var s, n := Write(item) + rest, item.fill + 1;
    var body := Be16Bytes(|item.payload| + 2) + item.payload + rest;
    assert s == Fill(n) + [item.marker] + body;
    LeadingFillOf(n, item.marker, body);
    assert s[n + 1..] == body;
  }

  lemma ReadsSegment(item: Item, rest: seq<byte>)
    requires IsSkipped(item) && item.Segment? && |rest| >= 2 && EndsClean(Write(item) + rest)
    ensures ReadItem(Write(item) + rest) == Skip(|Write(item)|)
  {
    SegmentBody(item, rest);
  }

  lemma SizeInBody(length: nat, payload: seq<byte>, rest: seq<byte>)
    requires length < 0x1_0000 && |payload| >= 6
    ensures var body := Be16Bytes(length) + payload + rest;
            Be16(body, 5) == Be16(payload, 3) && Be16(body, 3) == Be16(payload, 1)
  {
    var head, body := Be16Bytes(length) + payload, Be16Bytes(length) + payload + rest;
    assert forall i :: 0 <= i < |payload| ==> head[i + 2] == payload[i];
    assert forall i :: 0 <= i < |head| ==> body[i] == head[i];
  }

  lemma ReadsFrame(item: Item, rest: seq<byte>)
    requires IsFrameHeader(item) && |rest| >= 2 && EndsClean(Write(item) + rest)
    ensures ReadItem(Write(item) + rest) == Frame(SizeOf(item))
  {
    SegmentBody(item, rest);
    SizeInBody(|item.payload| + 2, item.payload, rest);
  }

  lemma ReadsItem(item: Item, rest: seq<byte>)
    requires IsSkipped(item) && |rest| >= 2 && EndsClean(Write(item) + rest)
    ensures Scan(Write(item) + rest) == Scan(rest)
  {
    if item.Standalone? {
      ReadsStandalone(item, rest);
    } else {
      ReadsSegment(item, rest);
    }
    assert (Write(item) + rest)[|Write(item)|..] == rest;
  }

  lemma {:induction false} ScanSkips(items: seq<Item>, last: seq<byte>)
    requires forall i :: 0 <= i < |items| ==> Fits(items[i]) && IsSkipped(items[i])
    requires |last| >= 2 && EndsClean(last)
    ensures Scan(WriteAll(items) + last) == Scan(last)
    decreases |items|
  {
    if items == [] {
      assert WriteAll(items) + last == last;
    } else {
      var head, others := Write(items[0]), WriteAll(items[1..]);
      assert (head + others) + last == head + (others + last);
      ReadsItem(items[0], others + last);
      ScanSkips(items[1..], last);
    }
  }

  lemma FrameScans(frame: Item, tail: seq<byte>)
    requires IsFrameHeader(frame) && |tail| >= 2 && EndsClean(Write(frame) + tail)
    ensures Scan(Write(frame) + tail) == Some(SizeOf(frame))
  {
    ReadsFrame(frame, tail);
  }

  lemma EndsCleanTail(head: seq<byte>, last: seq<byte>)
    requires EndsClean(head + last) && last != []
    ensures EndsClean(last)
  {
    assert last[|last| - 1] == (head + last)[|head + last| - 1];
  }

  lemma ScanOfWritten(items: seq<Item>, frame: Item, tail: seq<byte>, bytes: seq<byte>)
    requires IsWritten(bytes, items, frame, tail) && EndsClean(bytes)
    ensures Scan(bytes) == Some(SizeOf(frame))
  {
    EndsCleanTail(WriteAll(items), Write(frame) + tail);
    FrameScans(frame, tail);
    ScanSkips(items, Write(frame) + tail);
  }

  /** The item the scanner just read: cut back out of the bytes. */
  function ItemAt(s: seq<byte>): (item: Item)
    requires EndsClean(s) && ReadItem(s) != Stop
  {
    var n := LeadingFill(s);
    var body := s[n + 1..];
    if IsStandalone(s[n]) then Standalone(n - 1, s[n]) else Segment(n - 1, s[n], body[2..Be16(body, 0)])
  }

  /** The item's bytes are the head of the unread ones. */
  predicate IsHead(item: Item, s: seq<byte>) {
    Fits(item) && |Write(item)| <= |s| && s[..|Write(item)|] == Write(item)
  }

  lemma StandaloneIsWritten(s: seq<byte>)
    requires EndsClean(s) && ReadItem(s) != Stop && IsStandalone(s[LeadingFill(s)])
    ensures IsSkipped(ItemAt(s)) && IsHead(ItemAt(s), s) && ReadItem(s) == Skip(|Write(ItemAt(s))|)
  {
    var n := LeadingFill(s);
    assert s[..n] == Fill(n);
    assert s[..n + 1] == Fill(n) + [s[n]];
  }

  lemma SegmentBytes(s: seq<byte>, n: nat, length: nat)
    requires n < |s| && s[..n] == Fill(n) && 2 <= length <= |s| - (n + 1) && length < 0x1_0000
    requires Be16(s[n + 1..], 0) == length
    ensures s[..n + 1 + length] == Fill(n) + [s[n]] + Be16Bytes(length) + s[n + 1..][2..length]
  {
  }

  lemma SegmentIsWritten(s: seq<byte>)
    requires EndsClean(s) && ReadItem(s) != Stop && !IsStandalone(s[LeadingFill(s)])
    ensures var n := LeadingFill(s);
            IsHead(ItemAt(s), s) && |Write(ItemAt(s))| == n + 1 + Be16(s[n + 1..], 0)
  {
    var n := LeadingFill(s);
    assert s[..n] == Fill(n);
    SegmentBytes(s, n, Be16(s[n + 1..], 0));
  }

  lemma FrameIsRead(s: seq<byte>)
    requires EndsClean(s) && ReadItem(s).Frame?
    ensures IsFrameHeader(ItemAt(s)) && SizeOf(ItemAt(s)) == ReadItem(s).size
  {
    var body, payload := s[LeadingFill(s) + 1..], ItemAt(s).payload;
    assert forall i :: 0 <= i < |payload| ==> payload[i] == body[i + 2];
  }

  lemma ItemIsWritten(s: seq<byte>)
    requires EndsClean(s) && ReadItem(s) != Stop
    ensures var item := ItemAt(s);
            && IsHead(item, s)
            && (match ReadItem(s)
                case Skip(length) => IsSkipped(item) && length == |Write(item)|
                case Frame(size) => IsFrameHeader(item) && SizeOf(item) == size && |Write(item)| + 2 <= |s|
                case Stop => false)
  {
    if IsStandalone(s[LeadingFill(s)]) {
      StandaloneIsWritten(s);
    } else {
      SegmentIsWritten(s);
      if ReadItem(s).Frame? {
        FrameIsRead(s);
      }
    }
  }

  lemma Prepend(item: Item, bytes: seq<byte>, items: seq<Item>, frame: Item, tail: seq<byte>)
    requires IsSkipped(item) && IsWritten(bytes, items, frame, tail)
    ensures IsWritten(Write(item) + bytes, [item] + items, frame, tail)
  {
    var all := [item] + items;
    assert all[1..] == items;
    var others, last := WriteAll(items), Write(frame) + tail;
    assert (Write(item) + others) + last == Write(item) + (others + last);
  }

  lemma {:induction false} WrittenOfScan(s: seq<byte>) returns (items: seq<Item>, frame: Item, tail: seq<byte>)
    requires EndsClean(s) && Scan(s).Some?
    ensures IsWritten(s, items, frame, tail) && Scan(s) == Some(SizeOf(frame))
    decreases |s|
  {
    ItemIsWritten(s);
    var item := ItemAt(s);
    var rest := s[|Write(item)|..];
    assert s == Write(item) + rest;
    if ReadItem(s).Frame? {
      items, frame, tail := [], item, rest;
      assert WriteAll([]) + (Write(frame) + tail) == Write(frame) + tail;
    } else {
      items, frame, tail := WrittenOfScan(rest);
      Prepend(item, rest, items, frame, tail);
      items := [item] + items;
    }
  }

  // ---------------------------------------------------------------------------------------------
  // The scanner
  // ---------------------------------------------------------------------------------------------

  /** One round of the outer loop, from the first fill byte to the decision about the segment. */
  method NextItem(bytes: seq<byte>, start: nat) returns (r: Read)
    requires IsBoundedJpeg(bytes) && start + 1 < |bytes| - 2
    ensures r == ReadItem(bytes[start..])
  {
    ghost var s := bytes[start..];
    var offset := start;
    if bytes[offset] != 0xff { return Stop; }
    while bytes[offset] == 0xff
      invariant start <= offset < |bytes|
      invariant forall i :: start <= i < offset ==> bytes[i] == 0xff
      decreases |bytes| - offset
    {
      offset := offset + 1;
    }
    FillEnds(s, offset - start);
    var marker := bytes[offset];
    offset := offset + 1;
    ghost var body := s[offset - start..];
    assert body == bytes[offset..];
    if marker == 0xd9 || marker == 0xda { return Stop; }
    if marker == 0x01 || 0xd0 <= marker <= 0xd8 { return Skip(offset - start); }
    if offset + 1 >= |bytes| { return Stop; }
    var segmentLength := Be16(bytes, offset);
    if segmentLength < 2 || offset + segmentLength > |bytes| - 2 { return Stop; }
    if IsStartOfFrame(marker) {
      if segmentLength < 8 { return Stop; }
      return Frame(Dimensions(Be16(bytes, offset + 5), Be16(bytes, offset + 3)));
    }
    r := Skip(offset + segmentLength - start);
  }

  lemma FillEnds(s: seq<byte>, n: nat)
    requires EndsClean(s) && n < |s| && s[n] != 0xff && forall i :: 0 <= i < n ==> s[i] == 0xff
    ensures LeadingFill(s) == n
  {
  }

  /** The scan yields a size exactly for bytes the grammar wrote, the size that was written. */
  lemma ScanDecides(s: seq<byte>)
    requires EndsClean(s)
    ensures forall items, frame, tail | IsWritten(s, items, frame, tail) :: Scan(s) == Some(SizeOf(frame))
    ensures Scan(s).Some? ==>
              exists items, frame, tail :: IsWritten(s, items, frame, tail) && Scan(s).value == SizeOf(frame)
  {
    forall items, frame, tail | IsWritten(s, items, frame, tail)
      ensures Scan(s) == Some(SizeOf(frame))
    {
      ScanOfWritten(items, frame, tail, s);
    }
    if Scan(s).Some? {
      var items, frame, tail := WrittenOfScan(s);
    }
  }

  /**
    jpegDimensions. Every byte read is in range (the verifier checks each index), the scan
    terminates, and a size comes out exactly for bytes the grammar wrote.
  */
  method JpegDimensions(bytes: seq<byte>) returns (size: Option<Dimensions>)
    requires IsBoundedJpeg(bytes)
    ensures forall items, frame, tail | IsWritten(bytes[2..], items, frame, tail) :: size == Some(SizeOf(frame))
    ensures size.Some? ==>
              exists items, frame, tail :: IsWritten(bytes[2..], items, frame, tail) && size.value == SizeOf(frame)
  {
    var offset := 2;
    size := None;
    while offset + 1 < |bytes| - 2
      invariant 2 <= offset <= |bytes|
      invariant Scan(bytes[2..]) == Scan(bytes[offset..])
      decreases |bytes| - offset
    {
      var item := NextItem(bytes, offset);
      if item.Stop? { break; }
      if item.Frame? {
        size := Some(item.size);
        break;
      }
      assert bytes[offset..][item.length..] == bytes[offset + item.length..];
      offset := offset + item.length;
    }
    assert size == Scan(bytes[2..]);
    ScanDecides(bytes[2..]);
  }

  datatype Verdict = Accepted | JpegInvalid | DimensionsInvalid

  /** A frame of this size, in bytes the grammar wrote between the start and the end marker. */
  ghost predicate HoldsFrame(bytes: seq<byte>, width: nat, height: nat)
    requires |bytes| >= 2
  {
    exists items, frame, tail :: IsWritten(bytes[2..], items, frame, tail) && SizeOf(frame) == Dimensions(width, height)
  }

  /**
    The check of a normalized frame: it is accepted if and only if it has between 12 bytes and half a
    MiB, begins with the start marker, ends with the end marker, and holds a 320 by 180 frame.
  */
  method CheckNormalizedJpeg(bytes: seq<byte>) returns (verdict: Verdict)
    ensures verdict == JpegInvalid <==>
            !(12 <= |bytes| <= 524_288 && bytes[..2] == [0xff, 0xd8] && bytes[|bytes| - 2..] == [0xff, 0xd9])
    ensures verdict == Accepted ==> |bytes| >= 2 && HoldsFrame(bytes, 320, 180)
    ensures verdict == DimensionsInvalid ==> |bytes| >= 2 && !HoldsFrame(bytes, 320, 180)
  {
    if !IsBoundedJpeg(bytes) {
      return JpegInvalid;
    }
    var size := JpegDimensions(bytes);
    if size.None? || size.value.width != FRAME_WIDTH || size.value.height != FRAME_HEIGHT {
      return DimensionsInvalid;
    }
    verdict := Accepted;
  }
}
