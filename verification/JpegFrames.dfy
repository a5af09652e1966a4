/** The walk over the marker segments of a JPEG file up to its first frame header
    (app/ingestion/pdf_reader.py:21-25, 153-188; sections B.1.1 and B.2.2 of ITU-T T.81). */
module JpegFrames {
  import opened Common

  type Byte = x: int | 0 <= x < 256

  const START_OF_SCAN: Byte := 0xDA
  const MAX_MARKERS := 512

  /** Markers that have no parameters: restarts, start and end of image, and TEM. */
  predicate Standalone(code: Byte) { 0xD0 <= code <= 0xD9 || code == 0x01 }

  /** The codes C0 to CF but those of DHT, JPG and DAC. */
  predicate StartsFrame(code: Byte) { 0xC0 <= code <= 0xCF && code != 0xC4 && code != 0xC8 && code != 0xCC }

  // ----- the format

  /** A marker segment before the frame header. Any number of fill bytes may precede the code of a marker. This is what
      the program takes for a segment: section B.1.1 has no marker with the code 00 and nothing behind the end of an
      image, and both are admitted here. */
  datatype Segment = Bare(fill: nat, code: Byte) | Parameters(fill: nat, code: Byte, data: seq<Byte>) {
    predicate Valid() {
      match this
      case Bare(_, code) => Standalone(code)
      case Parameters(_, code, data) =>
        !Standalone(code) && !StartsFrame(code) && code != START_OF_SCAN && code != 0xFF && |data| + 2 < 0x10000
    }

    function Bytes(): seq<Byte>
      requires Valid()
    {
      match this
      case Bare(fill, code) => MarkerBytes(fill, code)
      case Parameters(fill, code, data) => MarkerBytes(fill, code) + (Two(|data| + 2) + data)
    }
  }

  /** The frame header up to its width. `length` counts the whole segment. */
  datatype Frame = Frame(fill: nat, code: Byte, length: nat, precision: Byte, height: nat, width: nat) {
    predicate Valid() { StartsFrame(code) && 7 <= length < 0x10000 && height < 0x10000 && width < 0x10000 }

    function Bytes(): seq<Byte>
      requires Valid()
    {
      MarkerBytes(fill, code) + (Two(length) + ([precision] + (Two(height) + Two(width))))
    }
  }

  function Fill(n: nat): seq<Byte> { if n == 0 then [] else [0xFF] + Fill(n - 1) }

  function MarkerBytes(fill: nat, code: Byte): seq<Byte> { [0xFF] + (Fill(fill) + [code]) }

  /** Two bytes, most significant first. */
  function Two(n: nat): seq<Byte>
    requires n < 0x10000
  {
    [n / 256, n % 256]
  }

  ghost predicate AllValid(segments: seq<Segment>) { forall i :: 0 <= i < |segments| ==> segments[i].Valid() }

  function AllBytes(segments: seq<Segment>): seq<Byte>
    requires AllValid(segments)
  {
    if segments == [] then [] else segments[0].Bytes() + AllBytes(segments[1..])
  }

  /** `bytes` starts with fewer than `markers` segments and then a frame header of that size. */
  ghost predicate FrameFollows(bytes: seq<Byte>, markers: nat, size: (nat, nat)) {
    exists segments: seq<Segment>, frame: Frame, tail: seq<Byte> :: Parsed(bytes, markers, segments, frame, tail) && size == (frame.width, frame.height)
  }

  ghost predicate Parsed(bytes: seq<Byte>, markers: nat, segments: seq<Segment>, frame: Frame, tail: seq<Byte>) {
    && AllValid(segments) && frame.Valid() && |segments| < markers
    && bytes == AllBytes(segments) + (frame.Bytes() + tail)
  }

  // ----- the walk

  function Value(bytes: seq<Byte>): nat
    requires |bytes| >= 2
  {
    var high: nat := bytes[0];
    256 * high + bytes[1]
  }

  function AfterFill(rest: seq<Byte>): Option<(Byte, seq<Byte>)> {
    if rest == [] then None
    else if rest[0] == 0xFF then AfterFill(rest[1..])
    else Some((rest[0], rest[1..]))
  }

  /** The next marker code and what follows it. */
  function NextMarker(rest: seq<Byte>): Option<(Byte, seq<Byte>)> {
    if rest == [] || rest[0] != 0xFF then None else AfterFill(rest[1..])
  }

  function Drop(rest: seq<Byte>, n: nat): seq<Byte> { if n <= |rest| then rest[n..] else [] }

  /** The width and height the walk returns when it may still read `markers` markers. */
  function Walk(rest: seq<Byte>, markers: nat): Option<(nat, nat)>
    decreases markers, 1
  {
    if markers == 0 then None
    else
      match NextMarker(rest)
      case None => None
      case Some((code, after)) => Visit(code, after, markers)
  }

  function Visit(code: Byte, after: seq<Byte>, markers: nat): Option<(nat, nat)>
    requires markers > 0
    decreases markers, 0
  {
    if code == START_OF_SCAN then None
    else if Standalone(code) then Walk(after, markers - 1)
    else if |after| < 2 || Value(after) < 2 then None
    else if StartsFrame(code) then
      if |after| < 7 || Value(after) < 7 then None else Some((Value(after[5..]), Value(after[3..])))
    else Walk(Drop(after[2..], Value(after) - 2), markers - 1)
  }

  // ----- the walk reads what the format says

  lemma {:induction false} SkipFill(fill: nat, code: Byte, after: seq<Byte>)
    requires code != 0xFF
    ensures AfterFill(Fill(fill) + ([code] + after)) == Some((code, after))
  {
    if fill == 0 {
      assert Fill(0) + ([code] + after) == [code] + after;
    } else {
      SkipFill(fill - 1, code, after);
      assert (Fill(fill) + ([code] + after))[1..] == Fill(fill - 1) + ([code] + after);
    }
  }

  lemma MarkerIsRead(fill: nat, code: Byte, after: seq<Byte>)
    requires code != 0xFF
    ensures NextMarker(MarkerBytes(fill, code) + after) == Some((code, after))
  {
    SkipFill(fill, code, after);
    assert (MarkerBytes(fill, code) + after)[1..] == Fill(fill) + ([code] + after);
  }

  lemma TwoReadsBack(n: nat, after: seq<Byte>)
    requires n < 0x10000
    ensures Value(Two(n) + after) == n && (Two(n) + after)[2..] == after
  {
  }

  lemma SegmentIsSkipped(segment: Segment, after: seq<Byte>, markers: nat)
    requires segment.Valid() && markers > 0
    ensures Walk(segment.Bytes() + after, markers) == Walk(after, markers - 1)
  {
    MarkerIsRead(segment.fill, segment.code, segment.Bytes()[|MarkerBytes(segment.fill, segment.code)|..] + after);
    match segment
    case Bare(fill, code) =>
      assert segment.Bytes() + after == MarkerBytes(fill, code) + ([] + after);
      assert [] + after == after;
    case Parameters(fill, code, data) =>
      var length := |data| + 2;
      Regroup(MarkerBytes(fill, code), Two(length) + data, after);
      Regroup(Two(length), data, after);
      TwoReadsBack(length, data + after);
      assert (data + after)[|data|..] == after;
  }

  lemma FrameIsRead(frame: Frame, tail: seq<Byte>, markers: nat)
    requires frame.Valid() && markers > 0
    ensures Walk(frame.Bytes() + tail, markers) == Some((frame.width, frame.height))
  {
    var size := Two(frame.height) + Two(frame.width);
    var after := Two(frame.length) + ([frame.precision] + size) + tail;
    MarkerIsRead(frame.fill, frame.code, after);
    assert frame.Bytes() + tail == MarkerBytes(frame.fill, frame.code) + after;
    TwoReadsBack(frame.length, [frame.precision] + size + tail);
    assert after == Two(frame.length) + ([frame.precision] + size + tail);
    TwoReadsBack(frame.height, Two(frame.width) + tail);
    assert after[3..] == Two(frame.height) + (Two(frame.width) + tail);
    TwoReadsBack(frame.width, tail);
    assert after[5..] == Two(frame.width) + tail;
  }

  /** The walk returns the size in the first frame header. */
  lemma {:induction false} WalkReads(bytes: seq<Byte>, markers: nat, segments: seq<Segment>, frame: Frame, tail: seq<Byte>)
    requires Parsed(bytes, markers, segments, frame, tail)
    ensures Walk(bytes, markers) == Some((frame.width, frame.height))
    decreases |segments|
  {
    if segments == [] {
      assert bytes == frame.Bytes() + tail;
      FrameIsRead(frame, tail, markers);
    } else {
      var rest := AllBytes(segments[1..]) + (frame.Bytes() + tail);
      assert bytes == segments[0].Bytes() + rest;
      SegmentIsSkipped(segments[0], rest, markers);
      WalkReads(rest, markers - 1, segments[1..], frame, tail);
    }
  }

  // ----- what the walk reads is in the format

  lemma {:induction false} FillIsSkipped(rest: seq<Byte>) returns (fill: nat)
    requires AfterFill(rest).Some?
    ensures var (code, after) := AfterFill(rest).value; code != 0xFF && rest == Fill(fill) + ([code] + after)
  {
    if rest[0] == 0xFF {
      fill := FillIsSkipped(rest[1..]);
      fill := fill + 1;
      assert rest == [0xFF] + rest[1..];
    } else {
      fill := 0;
    }
  }

  lemma MarkerWasThere(rest: seq<Byte>) returns (fill: nat)
    requires NextMarker(rest).Some?
    ensures var (code, after) := NextMarker(rest).value; code != 0xFF && rest == MarkerBytes(fill, code) + after
  {
    fill := FillIsSkipped(rest[1..]);
    assert rest == [0xFF] + rest[1..];
  }

  lemma ValueIsTwo(bytes: seq<Byte>)
    requires |bytes| >= 2
    ensures Value(bytes) < 0x10000 && Two(Value(bytes)) == bytes[..2]
  {
  }

  lemma FrameWasThere(rest: seq<Byte>, fill: nat, code: Byte, after: seq<Byte>) returns (frame: Frame, tail: seq<Byte>)
    requires rest == MarkerBytes(fill, code) + after && StartsFrame(code) && |after| >= 7 && Value(after) >= 7
    ensures frame.Valid() && rest == frame.Bytes() + tail
    ensures frame.width == Value(after[5..]) && frame.height == Value(after[3..])
  {
    ValueIsTwo(after);
    ValueIsTwo(after[3..]);
    ValueIsTwo(after[5..]);
    frame := Frame(fill, code, Value(after), after[2], Value(after[3..]), Value(after[5..]));
    tail := after[7..];
    assert after == Two(frame.length) + ([frame.precision] + (Two(frame.height) + Two(frame.width))) + tail;
  }

  lemma SegmentWasThere(rest: seq<Byte>, fill: nat, code: Byte, after: seq<Byte>) returns (segment: Segment)
    requires rest == MarkerBytes(fill, code) + after && code != 0xFF && code != START_OF_SCAN && !StartsFrame(code)
    requires !Standalone(code) ==> |after| >= 2 && Value(after) >= 2 && Value(after) <= |after|
    ensures segment.Valid()
    ensures rest == segment.Bytes() + (if Standalone(code) then after else after[Value(after)..])
  {
    if Standalone(code) {
      segment := Bare(fill, code);
    } else {
      ValueIsTwo(after);
      var length := Value(after);
      segment := Parameters(fill, code, after[2..length]);
      assert after == Two(length) + after[2..length] + after[length..];
    }
  }

  lemma {:induction false} WalkFinds(bytes: seq<Byte>, markers: nat) returns (segments: seq<Segment>, frame: Frame, tail: seq<Byte>)
    requires Walk(bytes, markers).Some?
    ensures Parsed(bytes, markers, segments, frame, tail) && Walk(bytes, markers) == Some((frame.width, frame.height))
    decreases markers
  {
    var (code, after) := NextMarker(bytes).value;
    var fill := MarkerWasThere(bytes);
    if StartsFrame(code) {
      frame, tail := FrameWasThere(bytes, fill, code, after);
      segments := [];
    } else {
      if !Standalone(code) {
        NothingFollowsTheEnd(markers - 1);
      }
      var segment := SegmentWasThere(bytes, fill, code, after);
      var rest := if Standalone(code) then after else after[Value(after)..];
      segments, frame, tail := WalkFinds(rest, markers - 1);
      PrependSegment(bytes, markers, segment, rest, segments, frame, tail);
      segments := [segment] + segments;
    }
  }

  lemma NothingFollowsTheEnd(markers: nat)
    ensures Walk([], markers) == None
  {
  }

  lemma PrependSegment(bytes: seq<Byte>, markers: nat, segment: Segment, rest: seq<Byte>, segments: seq<Segment>, frame: Frame, tail: seq<Byte>)
    requires markers > 0 && Parsed(rest, markers - 1, segments, frame, tail) && segment.Valid() && bytes == segment.Bytes() + rest
    ensures Parsed(bytes, markers, [segment] + segments, frame, tail)
  {
    assert ([segment] + segments)[1..] == segments;
    Regroup(segment.Bytes(), AllBytes(segments), frame.Bytes() + tail);
  }

  /** The walk answers a size exactly when a frame header of that size follows valid segments within the marker limit. */
  lemma WalkFindsFirstFrame(bytes: seq<Byte>, markers: nat, size: (nat, nat))
    ensures Walk(bytes, markers) == Some(size) <==> FrameFollows(bytes, markers, size)
  {
    if Walk(bytes, markers) == Some(size) {
      var segments, frame, tail := WalkFinds(bytes, markers);
      assert Parsed(bytes, markers, segments, frame, tail);
    } else if FrameFollows(bytes, markers, size) {
      var segments: seq<Segment>, frame: Frame, tail: seq<Byte> :| Parsed(bytes, markers, segments, frame, tail) && size == (frame.width, frame.height);
      WalkReads(bytes, markers, segments, frame, tail);
      assert false;
    }
  }

  // ----- the program

  /** A file open for reading. Its position may be moved past its end. */
  class Stream {
    const bytes: seq<Byte>
    var position: nat

    constructor (bytes: seq<Byte>, position: nat)
      ensures this.bytes == bytes && this.position == position
    {
      this.bytes := bytes;
      this.position := position;
    }

    function Rest(): seq<Byte>
      reads this
    {
      Drop(bytes, position)
    }

    method Read(n: nat) returns (r: seq<Byte>)
      modifies this
      ensures r == old(Rest())[..Min(n, |old(Rest())|)] && Rest() == old(Rest())[|r|..]
    {
      var left := Rest();
      r := left[..Min(n, |left|)];
      if position <= |bytes| {
        position := position + |r|;
      }
    }

    method Seek(n: nat)
      modifies this
      ensures Rest() == Drop(old(Rest()), n)
    {
      position := position + n;
    }

    method NextJpegMarker() returns (marker: Option<Byte>)
      modifies this
      ensures marker.None? <==> NextMarker(old(Rest())).None?
      ensures marker.Some? ==> NextMarker(old(Rest())) == Some((marker.value, Rest()))
    {
      var prefix := Read(1);
      if prefix != [0xFF] {
        return None;
      }
      ghost var filled := Rest();
      assert NextMarker(old(Rest())) == AfterFill(filled);
      var byte := Read(1);
      while byte == [0xFF]
        invariant byte == [] ==> AfterFill(filled) == None
        invariant byte != [] ==> byte == [byte[0]] && AfterFill(filled) == AfterFill([byte[0]] + Rest())
        decreases |Rest()|, |byte|
      {
        byte := Read(1);
      }
      marker := if byte == [] then None else Some(byte[0]);
    }

    /** The width and height of the image, from its first frame header. */
    method JpegFrameDimensions() returns (size: Option<(nat, nat)>)
      modifies this
      ensures size == Walk(old(Rest()), MAX_MARKERS)
      ensures forall s :: size == Some(s) <==> FrameFollows(old(Rest()), MAX_MARKERS, s)
    {
      size := Measure();
      forall s
        ensures Walk(old(Rest()), MAX_MARKERS) == Some(s) <==> FrameFollows(old(Rest()), MAX_MARKERS, s)
      {
        WalkFindsFirstFrame(old(Rest()), MAX_MARKERS, s);
      }
    }

    method Measure() returns (size: Option<(nat, nat)>)
      modifies this
      ensures size == Walk(old(Rest()), MAX_MARKERS)
    {
      var markers: nat := MAX_MARKERS;
      while markers > 0
        invariant Walk(Rest(), markers) == Walk(old(Rest()), MAX_MARKERS)
      {
        var marker := NextJpegMarker();
        if marker == None {
          return None;
        }
        var more: bool;
        more, size := VisitSegment(marker.value, markers);
        if !more {
          return;
        }
        markers := markers - 1;
      }
      size := None;
    }

    method VisitSegment(code: Byte, ghost markers: nat) returns (more: bool, size: Option<(nat, nat)>)
      requires markers > 0
      modifies this
      ensures more ==> Visit(code, old(Rest()), markers) == Walk(Rest(), markers - 1)
      ensures !more ==> Visit(code, old(Rest()), markers) == size
    {
      ghost var after := Rest();
      if code == START_OF_SCAN {
        return false, None;
      }
      if Standalone(code) {
        return true, None;
      }
      var length := Read(2);
      if |length| != 2 || Value(length) < 2 {
        return false, None;
      }
      assert Value(length) == Value(after);
      if StartsFrame(code) {
        var header := Read(5);
        if |header| != 5 || Value(length) < 7 {
          return false, None;
        }
        assert header[1..] == after[3..7] && header[3..] == after[5..7];
        return false, Some((Value(header[3..]), Value(header[1..])));
      }
      Seek(Value(length) - 2);
      more, size := true, None;
    }
  }
}
