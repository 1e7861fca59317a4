/**
 The JPEG validator: marker segments, each with its length, and after a scan header the
 entropy-coded data up to the next marker. It accepts exactly the files of that grammar that
 hold a frame before a scan and end with the end-of-image marker.
 */
module Jpeg {
  import opened Bytes
  import opened DeliveryTypes

  const FILL: Byte := 0xff
  const END_OF_IMAGE: Byte := 0xd9
  const START_OF_IMAGE: Byte := 0xd8
  const START_OF_SCAN: Byte := 0xda
  const MAX_PIXELS: nat := 16 * 1024 * 1024

  predicate Frame(marker: Byte) {
    0xc0 <= marker <= 0xc2
  }

  /** What may follow 0xff inside entropy-coded data: a stuffed zero or a restart marker. */
  predicate InsideScan(b: Byte) {
    b == 0 || 0xd0 <= b <= 0xd7
  }

  /** SOF0 to SOF2 are frames; RST0 to RST7 and the stuffed zero belong to coded data, and nothing else does. */
  lemma MarkersAre(b: Byte)
    ensures Frame(b) <==> b in {0xc0, 0xc1, 0xc2}
    ensures InsideScan(b) <==> b in {0x00, 0xd0, 0xd1, 0xd2, 0xd3, 0xd4, 0xd5, 0xd6, 0xd7}
    ensures !(Frame(b) && InsideScan(b)) && !InsideScan(START_OF_SCAN) && !InsideScan(END_OF_IMAGE) && !Frame(START_OF_SCAN)
  {
  }

  // ---------------------------------------------------------------- the grammar

  /** A marker with its fill bytes and payload; a scan header also has its coded data. */
  datatype Segment = Segment(fill: nat, marker: Byte, payload: seq<Byte>, coded: seq<Byte>)

  function Fill(n: nat): (s: seq<Byte>)
    ensures |s| == n && forall k :: 0 <= k < n ==> s[k] == FILL
  {
    seq(n, _ => FILL)
  }

  /** The end of a run of fill bytes. */
  function RunEnd(s: seq<Byte>, at: nat): (e: nat)
    requires at <= |s|
    ensures at <= e <= |s|
    ensures forall k :: at <= k < e ==> s[k] == FILL
    ensures e < |s| ==> s[e] != FILL
    decreases |s| - at
  {
    if at < |s| && s[at] == FILL then RunEnd(s, at + 1) else at
  }

  /** Bytes in which every run of 0xff is followed by a zero or a restart marker. */
  predicate CodedFits(s: seq<Byte>, at: nat)
    requires at <= |s|
    decreases |s| - at
  {
    if at == |s| then true
    else if s[at] != FILL then CodedFits(s, at + 1)
    else
      var m := RunEnd(s, at);
      m < |s| && InsideScan(s[m]) && CodedFits(s, m + 1)
  }

  predicate FrameFits(payload: seq<Byte>) {
    && |payload| >= 9
    && var height, width := Be16(payload, 1), Be16(payload, 3);
    && height > 0 && width > 0 && width * height <= MAX_PIXELS
    && |payload| == 6 + 3 * (payload[5] as int)
  }

  predicate ScanFits(payload: seq<Byte>) {
    |payload| >= 4 && |payload| == 4 + 2 * (payload[0] as int)
  }

  predicate SegmentFits(s: Segment) {
    && s.fill >= 1 && |s.payload| + 2 < 0x1_0000
    && s.marker != FILL && s.marker != 0 && s.marker != START_OF_IMAGE && s.marker != END_OF_IMAGE
    && (Frame(s.marker) ==> FrameFits(s.payload))
    && (if s.marker == START_OF_SCAN then ScanFits(s.payload) && CodedFits(s.coded, 0) else s.coded == [])
  }

  /** Before the segments: whether a frame, and whether a scan, has been seen. */
  datatype Seen = Seen(frame: bool, scan: bool, inScan: bool)

  function After(seen: Seen, s: Segment): Seen {
    Seen(seen.frame || Frame(s.marker), seen.scan || s.marker == START_OF_SCAN, s.marker == START_OF_SCAN)
  }

  /** A scan needs a frame before it, and right after coded data a restart marker would belong to it. */
  ghost predicate Follows(seen: Seen, segments: seq<Segment>)
    decreases |segments|
  {
    if segments == [] then seen.frame && seen.scan
    else
      && SegmentFits(segments[0])
      && !(seen.inScan && InsideScan(segments[0].marker))
      && (segments[0].marker == START_OF_SCAN ==> seen.frame)
      && Follows(After(seen, segments[0]), segments[1..])
  }

  function Be16Bytes(n: nat): seq<Byte>
    requires n < 0x1_0000
  {
    [n / 256, n % 256]
  }

  ghost function HeadBytes(s: Segment): seq<Byte>
    requires |s.payload| + 2 < 0x1_0000
  {
    Fill(s.fill) + [s.marker] + Be16Bytes(|s.payload| + 2) + s.payload
  }

  ghost function FileBytes(seen: Seen, segments: seq<Segment>, fill: nat): seq<Byte>
    requires Follows(seen, segments)
    decreases |segments|
  {
    if segments == [] then Fill(fill) + [END_OF_IMAGE]
    else HeadBytes(segments[0]) + (segments[0].coded + FileBytes(After(seen, segments[0]), segments[1..], fill))
  }

  // ---------------------------------------------------------------- reading

  /** Where the next marker's fill bytes begin: here, or behind coded data. */
  function CodedEnd(raw: seq<Byte>, at: nat): (r: Option<nat>)
    ensures r.Some? ==> at <= r.value < |raw| && raw[r.value] == FILL && RunEnd(raw, r.value) < |raw|
                        && !InsideScan(raw[RunEnd(raw, r.value)])
    decreases |raw| - at
  {
    if at >= |raw| then None
    else if raw[at] != FILL then CodedEnd(raw, at + 1)
    else
      var m := RunEnd(raw, at);
      if m == |raw| then None else if InsideScan(raw[m]) then CodedEnd(raw, m + 1) else Some(at)
  }

  /** The segment whose marker is at m, without coded data. */
  function HeadAt(raw: seq<Byte>, at: nat, m: nat): (r: Option<Segment>)
    requires at < m < |raw|
    ensures r.Some? ==> m + 3 + |r.value.payload| <= |raw| && r.value.marker == raw[m] && r.value.coded == []
  {
    var marker := raw[m];
    if marker == 0 || marker == START_OF_IMAGE || marker == END_OF_IMAGE || m + 3 > |raw| then None
    else
      var length := Be16(raw, m + 1);
      if length < 2 || m + 1 + length > |raw| then None
      else
        var payload := raw[m + 3..m + 1 + length];
        if (Frame(marker) && !FrameFits(payload)) || (marker == START_OF_SCAN && !ScanFits(payload)) then None
        else Some(Segment(m - at, marker, payload, []))
  }

  /** The segment whose marker is at m with the coded data of a scan, and where it ends. */
  function SegmentAt(raw: seq<Byte>, at: nat, m: nat): (r: Option<(Segment, nat)>)
    requires at < m < |raw|
    ensures r.Some? ==> m < r.value.1 <= |raw| && r.value.0.marker == raw[m]
  {
    var head := HeadAt(raw, at, m);
    if head.None? then None
    else
      var next := m + 3 + |head.value.payload|;
      var end := if raw[m] == START_OF_SCAN then CodedEnd(raw, next) else Some(next);
      if end.None? then None else Some((head.value.(coded := raw[next..end.value]), end.value))
  }

  /** The segments from `at` on, and the fill bytes of the last marker. */
  function Read(raw: seq<Byte>, at: nat, seen: Seen): Option<(seq<Segment>, nat)>
    decreases |raw| - at
  {
    if at >= |raw| || raw[at] != FILL then None
    else
      var m := RunEnd(raw, at);
      if m == |raw| then None
      else if raw[m] == END_OF_IMAGE then
        if seen.frame && seen.scan && m + 1 == |raw| then Some(([], m - at)) else None
      else if (seen.inScan && InsideScan(raw[m])) || (raw[m] == START_OF_SCAN && !seen.frame) then None
      else
        var segment := SegmentAt(raw, at, m);
        if segment.None? then None
        else
          var more := Read(raw, segment.value.1, After(seen, segment.value.0));
          if more.None? then None else Some(([segment.value.0] + more.value.0, more.value.1))
  }

  const UNSEEN: Seen := Seen(false, false, false)

  ghost predicate WellFormed(raw: seq<Byte>) {
    |raw| >= 2 && exists segments: seq<Segment>, fill: nat ::
      fill >= 1 && Follows(UNSEEN, segments) && FileBytes(UNSEEN, segments, fill) == raw[2..]
  }

  // ---------------------------------------------------------------- soundness

  lemma RunIsFill(raw: seq<Byte>, at: nat)
    requires at <= |raw|
    ensures raw[at..RunEnd(raw, at)] == Fill(RunEnd(raw, at) - at)
  {
  }

  /** `CodedFits` of a stretch of a file, by the file's own positions. */
  predicate CodedOver(raw: seq<Byte>, at: nat, end: nat)
    requires at <= end <= |raw|
    decreases end - at
  {
    if at == end then true
    else if raw[at] != FILL then CodedOver(raw, at + 1, end)
    else
      var m := RunEnd(raw, at);
      m < end && InsideScan(raw[m]) && CodedOver(raw, m + 1, end)
  }

  lemma {:induction false} RunShift(raw: seq<Byte>, at: nat, end: nat, k: nat)
    requires at <= k <= end <= |raw|
    ensures RunEnd(raw[at..end], k - at) == (if RunEnd(raw, k) < end then RunEnd(raw, k) else end) - at
    decreases end - k
  {
    if k < end && raw[k] == FILL {
      RunShift(raw, at, end, k + 1);
    }
  }

  lemma {:induction false} CodedShift(raw: seq<Byte>, at: nat, end: nat, k: nat)
    requires at <= k <= end <= |raw|
    ensures CodedFits(raw[at..end], k - at) <==> CodedOver(raw, k, end)
    decreases end - k
  {
    if k < end {
      if raw[k] != FILL {
        CodedShift(raw, at, end, k + 1);
      } else {
        RunShift(raw, at, end, k);
        var m := RunEnd(raw, k);
        if m < end {
          CodedShift(raw, at, end, m + 1);
        }
      }
    }
  }

  /** Coded data ends at the first marker that is not part of it, and nowhere else. */
  lemma {:induction false} CodedRead(raw: seq<Byte>, at: nat)
    requires CodedEnd(raw, at).Some?
    ensures CodedOver(raw, at, CodedEnd(raw, at).value)
    decreases |raw| - at
  {
    if raw[at] != FILL {
      CodedRead(raw, at + 1);
    } else if InsideScan(raw[RunEnd(raw, at)]) {
      CodedRead(raw, RunEnd(raw, at) + 1);
    }
  }

  lemma {:induction false} CodedFound(raw: seq<Byte>, at: nat, end: nat)
    requires at <= end < |raw| && CodedOver(raw, at, end) && raw[end] == FILL
    requires RunEnd(raw, end) < |raw| && !InsideScan(raw[RunEnd(raw, end)])
    ensures CodedEnd(raw, at) == Some(end)
    decreases end - at
  {
    if at < end {
      if raw[at] != FILL {
        CodedFound(raw, at + 1, end);
      } else {
        CodedFound(raw, RunEnd(raw, at) + 1, end);
      }
    }
  }

  lemma HeadRead(raw: seq<Byte>, at: nat, m: nat)
    requires at < m < |raw| && m == RunEnd(raw, at) && HeadAt(raw, at, m).Some?
    ensures var s := HeadAt(raw, at, m).value;
            |s.payload| + 2 < 0x1_0000 && raw[at..m + 3 + |s.payload|] == HeadBytes(s)
  {
    var s := HeadAt(raw, at, m).value;
    var next := m + 3 + |s.payload|;
    HeadAtParts(raw, at, m);
    hide HeadAt, RunEnd, Be16Bytes;
    RunIsFill(raw, at);
    Joined(raw, at, m, m + 1);
    Joined(raw, at, m + 1, m + 3);
    Joined(raw, at, m + 3, next);
  }

  lemma HeadAtParts(raw: seq<Byte>, at: nat, m: nat)
    requires at < m < |raw| && HeadAt(raw, at, m).Some?
    ensures var s := HeadAt(raw, at, m).value;
            && |s.payload| + 2 < 0x1_0000 && s.fill == m - at && raw[m + 3..m + 3 + |s.payload|] == s.payload
            && raw[m..m + 1] == [s.marker] && raw[m + 1..m + 3] == Be16Bytes(|s.payload| + 2)
  {
    hide FrameFits, ScanFits;
  }

  /** What a successful read did at one segment. */
  lemma ReadHead(raw: seq<Byte>, at: nat, seen: Seen, s: Segment, rest: seq<Segment>, fill: nat) returns (end: nat)
    requires Read(raw, at, seen) == Some(([s] + rest, fill))
    ensures at < |raw| && raw[at] == FILL && at < RunEnd(raw, at) < |raw|
    ensures SegmentAt(raw, at, RunEnd(raw, at)) == Some((s, end)) && at < end
    ensures !(seen.inScan && InsideScan(s.marker)) && (s.marker == START_OF_SCAN ==> seen.frame)
    ensures Read(raw, end, After(seen, s)) == Some((rest, fill))
  {
    hide SegmentAt, InsideScan;
    assert raw[at] == FILL ==> RunEnd(raw, at) > at;
    end := SegmentAt(raw, at, RunEnd(raw, at)).value.1;
    assert ([s] + rest)[1..] == rest && ([s] + rest)[0] == s;
  }

  /** The segment found is well formed, and its bytes are there. */
  lemma SegmentRead(raw: seq<Byte>, at: nat, m: nat, s: Segment, end: nat)
    requires at < m < |raw| && m == RunEnd(raw, at) && SegmentAt(raw, at, m) == Some((s, end))
    ensures var next := m + 3 + |s.payload|;
            && SegmentFits(s) && next <= end <= |raw| && raw[at..next] == HeadBytes(s) && raw[next..end] == s.coded
  {
    hide RunEnd, CodedEnd, CodedOver, CodedFits, FrameFits, ScanFits, HeadBytes;
    var head := HeadAt(raw, at, m).value;
    var next := m + 3 + |head.payload|;
    HeadRead(raw, at, m);
    SameHead(s, head);
    if head.marker == START_OF_SCAN {
      CodedRead(raw, next);
      CodedShift(raw, next, end, next);
    }
  }

  lemma SameHead(s: Segment, t: Segment)
    requires s.fill == t.fill && s.marker == t.marker && s.payload == t.payload && |s.payload| + 2 < 0x1_0000
    ensures HeadBytes(s) == HeadBytes(t)
  {
  }

  lemma {:induction false} FileRead(raw: seq<Byte>, at: nat, seen: Seen)
    requires Read(raw, at, seen).Some?
    ensures var r := Read(raw, at, seen).value;
            r.1 >= 1 && Follows(seen, r.0) && at <= |raw| && raw[at..] == FileBytes(seen, r.0, r.1)
    decreases |raw| - at
  {
    hide Read, FileBytes, Follows, HeadBytes, SegmentFits, SegmentAt, RunEnd;
    var r := Read(raw, at, seen).value;
    if r.0 == [] {
      EndRead(raw, at, seen);
      NoSegments(seen, r.1);
    } else {
      var s, rest := r.0[0], r.0[1..];
      assert [s] + rest == r.0;
      var end := ReadHead(raw, at, seen, s, rest, r.1);
      SegmentRead(raw, at, RunEnd(raw, at), s, end);
      FileRead(raw, end, After(seen, s));
      FileStep(raw, at, RunEnd(raw, at) + 3 + |s.payload|, seen, s, rest, r.1);
    }
  }

  lemma NoSegments(seen: Seen, fill: nat)
    requires seen.frame && seen.scan
    ensures Follows(seen, []) && FileBytes(seen, [], fill) == Fill(fill) + [END_OF_IMAGE]
  {
  }

  /** One segment in front of a file that continues. */
  lemma FileStep(raw: seq<Byte>, at: nat, next: nat, seen: Seen, s: Segment, rest: seq<Segment>, fill: nat)
    requires SegmentFits(s) && !(seen.inScan && InsideScan(s.marker)) && (s.marker == START_OF_SCAN ==> seen.frame)
    requires at <= next && next + |s.coded| <= |raw|
    requires raw[at..next] == HeadBytes(s) && raw[next..next + |s.coded|] == s.coded
    requires Follows(After(seen, s), rest) && raw[next + |s.coded|..] == FileBytes(After(seen, s), rest, fill)
    ensures Follows(seen, [s] + rest) && raw[at..] == FileBytes(seen, [s] + rest, fill)
  {
    hide HeadBytes, SegmentFits, InsideScan;
    var segments, end := [s] + rest, next + |s.coded|;
    assert segments[1..] == rest;
    Joined(raw, at, next, |raw|);
    Joined(raw, next, end, |raw|);
    assert raw[at..] == raw[at..|raw|] && raw[end..] == raw[end..|raw|];
  }

  /** A file that has a segment begins with it. */
  lemma FileHead(seen: Seen, segments: seq<Segment>, fill: nat)
    requires Follows(seen, segments) && segments != []
    ensures var s := segments[0];
            && SegmentFits(s) && !(seen.inScan && InsideScan(s.marker)) && (s.marker == START_OF_SCAN ==> seen.frame)
            && Follows(After(seen, s), segments[1..])
            && FileBytes(seen, segments, fill) == HeadBytes(s) + (s.coded + FileBytes(After(seen, s), segments[1..], fill))
  {
    hide SegmentFits, HeadBytes, InsideScan;
  }

  lemma EndRead(raw: seq<Byte>, at: nat, seen: Seen)
    requires Read(raw, at, seen).Some? && Read(raw, at, seen).value.0 == []
    ensures var fill := Read(raw, at, seen).value.1;
            fill >= 1 && seen.frame && seen.scan && at < |raw| && raw[at..] == Fill(fill) + [END_OF_IMAGE]
  {
    var m := RunEnd(raw, at);
    RunIsFill(raw, at);
    Joined(raw, at, m, |raw|);
    assert raw[m..] == [END_OF_IMAGE];
    assert raw[at..] == raw[at..m] + raw[m..];
  }

  // ---------------------------------------------------------------- completeness

  /** A run of fill bytes ends at the marker. */
  lemma {:induction false} RunFound(raw: seq<Byte>, at: nat, n: nat)
    requires at + n < |raw| && raw[at..at + n] == Fill(n) && raw[at + n] != FILL
    ensures RunEnd(raw, at) == at + n
    decreases n
  {
    if n > 0 {
      assert raw[at] == raw[at..at + n][0];
      assert raw[at + 1..at + 1 + (n - 1)] == raw[at..at + n][1..] == Fill(n)[1..] == Fill(n - 1);
      RunFound(raw, at + 1, n - 1);
    }
  }

  lemma HeadParts(raw: seq<Byte>, at: nat, s: Segment)
    requires at <= |raw| && |s.payload| + 2 < 0x1_0000 && HeadBytes(s) <= raw[at..]
    ensures var m := at + s.fill;
            && m + 3 + |s.payload| <= |raw| && raw[at..m] == Fill(s.fill) && raw[m] == s.marker
            && Be16(raw, m + 1) == |s.payload| + 2 && raw[m + 3..m + 3 + |s.payload|] == s.payload
    ensures |HeadBytes(s)| == s.fill + 3 + |s.payload|
  {
    var m := at + s.fill;
    var length := Be16Bytes(|s.payload| + 2);
    HeadSpelt(s, length);
    hide HeadBytes, Fill;
    DroppedTwice(raw, at, Fill(s.fill), [s.marker], length + s.payload);
    assert length + s.payload == length + (s.payload + []);
    DroppedTwice(raw, m + 1, length, s.payload, []);
    assert raw[m] == raw[m..m + 1][0];
    assert raw[m + 1] == raw[m + 1..m + 3][0] && raw[m + 2] == raw[m + 1..m + 3][1];
  }

  lemma HeadSpelt(s: Segment, length: seq<Byte>)
    requires |s.payload| + 2 < 0x1_0000 && length == Be16Bytes(|s.payload| + 2)
    ensures HeadBytes(s) == Fill(s.fill) + ([s.marker] + (length + s.payload))
  {
  }

  lemma HeadFound(raw: seq<Byte>, at: nat, s: Segment)
    requires at <= |raw| && SegmentFits(s) && HeadBytes(s) <= raw[at..]
    ensures var m := at + s.fill;
            && m < |raw| && RunEnd(raw, at) == m && raw[at] == FILL && raw[m] == s.marker
            && HeadAt(raw, at, m) == Some(s.(coded := []))
    ensures |HeadBytes(s)| == s.fill + 3 + |s.payload|
  {
    hide HeadBytes, FrameFits, ScanFits, CodedFits, Be16, RunEnd;
    HeadParts(raw, at, s);
    RunFound(raw, at, s.fill);
    assert raw[at] == raw[at..at + s.fill][0];
  }

  /** Every file of the grammar starts with a fill byte and a marker that ends coded data. */
  lemma FileStarts(raw: seq<Byte>, at: nat, seen: Seen, segments: seq<Segment>, fill: nat)
    requires at <= |raw| && fill >= 1 && Follows(seen, segments) && raw[at..] == FileBytes(seen, segments, fill)
    ensures at < |raw| && raw[at] == FILL && RunEnd(raw, at) < |raw|
    ensures seen.inScan ==> !InsideScan(raw[RunEnd(raw, at)])
  {
    if segments == [] {
      EndFound(raw, at, fill);
    } else {
      hide FileBytes, Follows, HeadBytes, RunEnd;
      FileHead(seen, segments, fill);
      Dropped(raw, at, HeadBytes(segments[0]), segments[0].coded + FileBytes(After(seen, segments[0]), segments[1..], fill));
      HeadFound(raw, at, segments[0]);
    }
  }

  lemma EndFound(raw: seq<Byte>, at: nat, fill: nat)
    requires at <= |raw| && fill >= 1 && raw[at..] == Fill(fill) + [END_OF_IMAGE]
    ensures at + fill + 1 == |raw| && raw[at] == FILL && RunEnd(raw, at) == at + fill && raw[at + fill] == END_OF_IMAGE
  {
    Dropped(raw, at, Fill(fill), [END_OF_IMAGE]);
    assert raw[at + fill] == raw[at + fill..][0];
    RunFound(raw, at, fill);
  }

  lemma {:induction false} FileFound(raw: seq<Byte>, at: nat, seen: Seen, segments: seq<Segment>, fill: nat)
    requires at <= |raw| && fill >= 1 && Follows(seen, segments) && raw[at..] == FileBytes(seen, segments, fill)
    ensures Read(raw, at, seen) == Some((segments, fill))
    decreases |segments|
  {
    hide FileBytes, Follows, HeadBytes, RunEnd, Read, CodedFits, CodedOver, CodedEnd, SegmentFits, HeadAt, InsideScan;
    if segments == [] {
      NothingLeft(seen, fill);
      EndFound(raw, at, fill);
      ReadEnd(raw, at, seen, fill);
    } else {
      FileHead(seen, segments, fill);
      var s := segments[0];
      var next := at + s.fill + 3 + |s.payload|;
      var end := next + |s.coded|;
      SegmentThere(raw, at, s, FileBytes(After(seen, s), segments[1..], fill));
      FileStarts(raw, end, After(seen, s), segments[1..], fill);
      FileFound(raw, end, After(seen, s), segments[1..], fill);
      if s.marker == START_OF_SCAN {
        CodedThere(raw, next, end);
      }
      ReadStep(raw, at, seen, s, segments[1..], fill);
      assert [s] + segments[1..] == segments;
    }
  }

  /** Where the parts of the first segment are. */
  lemma SegmentThere(raw: seq<Byte>, at: nat, s: Segment, rest: seq<Byte>)
    requires at <= |raw| && SegmentFits(s) && raw[at..] == HeadBytes(s) + (s.coded + rest)
    ensures var next := at + s.fill + 3 + |s.payload|;
            && next + |s.coded| <= |raw| && raw[next..next + |s.coded|] == s.coded && raw[next + |s.coded|..] == rest
    ensures at + s.fill < |raw| && RunEnd(raw, at) == at + s.fill && raw[at] == FILL && raw[at + s.fill] == s.marker
    ensures HeadAt(raw, at, at + s.fill) == Some(s.(coded := []))
    ensures s.fill >= 1 && s.marker != END_OF_IMAGE
    ensures if s.marker == START_OF_SCAN then CodedFits(s.coded, 0) else s.coded == []
  {
    hide HeadBytes, RunEnd, CodedFits, FrameFits, ScanFits, HeadAt;
    Dropped(raw, at, HeadBytes(s), s.coded + rest);
    HeadFound(raw, at, s);
    Dropped(raw, at + |HeadBytes(s)|, s.coded, rest);
  }

  lemma CodedThere(raw: seq<Byte>, next: nat, end: nat)
    requires next <= end < |raw| && CodedFits(raw[next..end], 0) && raw[end] == FILL
    requires RunEnd(raw, end) < |raw| && !InsideScan(raw[RunEnd(raw, end)])
    ensures CodedEnd(raw, next) == Some(end)
  {
    CodedShift(raw, next, end, next);
    CodedFound(raw, next, end);
  }

  lemma NothingLeft(seen: Seen, fill: nat)
    requires Follows(seen, [])
    ensures seen.frame && seen.scan && FileBytes(seen, [], fill) == Fill(fill) + [END_OF_IMAGE]
  {
  }

  lemma ReadEnd(raw: seq<Byte>, at: nat, seen: Seen, fill: nat)
    requires fill >= 1 && seen.frame && seen.scan && at + fill + 1 == |raw| && raw[at] == FILL
    requires RunEnd(raw, at) == at + fill && raw[at + fill] == END_OF_IMAGE
    ensures Read(raw, at, seen) == Some(([], fill))
  {
  }

  lemma ReadStep(raw: seq<Byte>, at: nat, seen: Seen, s: Segment, rest: seq<Segment>, fill: nat)
    requires at < |raw| && raw[at] == FILL && s.fill >= 1 && at + s.fill < |raw| && raw[at + s.fill] == s.marker
    requires s.marker != END_OF_IMAGE && (s.marker != START_OF_SCAN ==> s.coded == [])
    requires RunEnd(raw, at) == at + s.fill && HeadAt(raw, at, at + s.fill) == Some(s.(coded := []))
    requires !(seen.inScan && InsideScan(s.marker)) && (s.marker == START_OF_SCAN ==> seen.frame)
    requires var next := at + s.fill + 3 + |s.payload|;
             && next + |s.coded| <= |raw| && raw[next..next + |s.coded|] == s.coded
             && (s.marker == START_OF_SCAN ==> CodedEnd(raw, next) == Some(next + |s.coded|))
             && Read(raw, next + |s.coded|, After(seen, s)) == Some((rest, fill))
    ensures Read(raw, at, seen) == Some(([s] + rest, fill))
  {
    hide HeadAt, CodedEnd, RunEnd, InsideScan, SegmentAt;
    var m := at + s.fill;
    var next := m + 3 + |s.payload|;
    var head := s.(coded := []);
    SegmentStep(raw, at, m, head, next, next + |s.coded|);
    assert head.(coded := s.coded) == s;
  }

  lemma SegmentStep(raw: seq<Byte>, at: nat, m: nat, head: Segment, next: nat, end: nat)
    requires at < m < |raw| && HeadAt(raw, at, m) == Some(head) && next == m + 3 + |head.payload| && next <= end <= |raw|
    requires if raw[m] == START_OF_SCAN then CodedEnd(raw, next) == Some(end) else end == next
    ensures SegmentAt(raw, at, m) == Some((head.(coded := raw[next..end]), end))
  {
    hide HeadAt, CodedEnd;
  }

  // ---------------------------------------------------------------- the validator

  lemma ReadIsWellFormed(raw: seq<Byte>)
    ensures |raw| >= 2 && Read(raw, 2, UNSEEN).Some? <==> WellFormed(raw)
  {
    if |raw| >= 2 && Read(raw, 2, UNSEEN).Some? {
      FileRead(raw, 2, UNSEEN);
    }
    if WellFormed(raw) {
      var segments: seq<Segment>, fill: nat :| fill >= 1 && Follows(UNSEEN, segments) && FileBytes(UNSEEN, segments, fill) == raw[2..];
      FileFound(raw, 2, UNSEEN, segments, fill);
    }
  }

  /** What is left to find, from inside coded data or from a marker. */
  predicate Going(raw: seq<Byte>, position: nat, seen: Seen) {
    if !seen.inScan then Read(raw, position, seen).Some?
    else
      var end := CodedEnd(raw, position);
      end.Some? && Read(raw, end.value, seen).Some?
  }

  method ValidateJpeg(raw: seq<Byte>) returns (ok: bool)
    ensures ok <==> WellFormed(raw)
  {
    hide WellFormed, SegmentAt, HeadAt, RunEnd;
    ReadIsWellFormed(raw);
    var position: nat, seen := 2, UNSEEN;
    while position < |raw|
      invariant |raw| >= 2 && Read(raw, 2, UNSEEN).Some? <==> Going(raw, position, seen)
      decreases |raw| - position
    {
      var start := position;
      if seen.inScan {
        start := FindFill(raw, position);
        CodedSkip(raw, position, start);
        if start == |raw| {
          return false;
        }
      }
      if raw[start] != FILL {
        return false;
      }
      var m := SkipFill(raw, start);
      RunMoves(raw, start);
      if m >= |raw| {
        return false;
      }
      var marker := raw[m];
      if seen.inScan && InsideScan(marker) {
        position := m + 1;
      } else {
        if marker == END_OF_IMAGE {
          return seen.frame && seen.scan && m + 1 == |raw|;
        }
        var next := CheckHead(raw, start, m, seen.frame);
        if next.None? {
          HeadStops(raw, start, m, seen);
          return false;
        }
        HeadGoes(raw, start, m, seen, next.value);
        position := next.value;
        seen := Seen(seen.frame || Frame(marker), seen.scan || marker == START_OF_SCAN, marker == START_OF_SCAN);
      }
    }
    return false;
  }

  lemma RunMoves(raw: seq<Byte>, at: nat)
    requires at < |raw| && raw[at] == FILL
    ensures RunEnd(raw, at) > at
  {
  }

  /** The first fill byte at or after a position, or the end. */
  method FindFill(raw: seq<Byte>, from: nat) returns (p: nat)
    requires from <= |raw|
    ensures from <= p <= |raw| && (p < |raw| ==> raw[p] == FILL)
    ensures forall k :: from <= k < p ==> raw[k] != FILL
  {
    p := from;
    while p < |raw| && raw[p] != FILL
      invariant from <= p <= |raw|
      invariant forall k :: from <= k < p ==> raw[k] != FILL
    {
      p := p + 1;
    }
  }

  lemma {:induction false} CodedSkip(raw: seq<Byte>, first: nat, last: nat)
    requires first <= last <= |raw| && forall k :: first <= k < last ==> raw[k] != FILL
    ensures CodedEnd(raw, first) == CodedEnd(raw, last)
    decreases last - first
  {
    if first < last {
      CodedSkip(raw, first + 1, last);
    }
  }

  method SkipFill(raw: seq<Byte>, from: nat) returns (p: nat)
    requires from <= |raw|
    ensures p == RunEnd(raw, from)
  {
    p := from;
    while p < |raw| && raw[p] == FILL
      invariant from <= p <= |raw| && RunEnd(raw, from) == RunEnd(raw, p)
    {
      p := p + 1;
    }
  }

  /** The length of a segment, and what a frame or scan header must hold. */
  method CheckHead(raw: seq<Byte>, at: nat, m: nat, frame: bool) returns (next: Option<nat>)
    requires at < m < |raw| && raw[m] != END_OF_IMAGE
    ensures var head := HeadAt(raw, at, m);
            next == if head.None? || (raw[m] == START_OF_SCAN && !frame) then None else Some(m + 3 + |head.value.payload|)
  {
    var marker, position := raw[m], m + 1;
    if marker == 0 || marker == START_OF_IMAGE || position + 2 > |raw| {
      return None;
    }
    var length := Be16(raw, position);
    if length < 2 || position + length > |raw| {
      return None;
    }
    ghost var payload := raw[m + 3..m + 1 + length];
    if Frame(marker) {
      if length < 11 {
        return None;
      }
      var height, width, components := Be16(raw, position + 3), Be16(raw, position + 5), raw[position + 7] as int;
      assert height == Be16(payload, 1) && width == Be16(payload, 3) && components == payload[5];
      if height == 0 || width == 0 || width * height > MAX_PIXELS || length != 8 + 3 * components {
        return None;
      }
    }
    if marker == START_OF_SCAN {
      if !frame || length < 6 || length != 6 + 2 * (raw[position + 2] as int) {
        return None;
      }
    }
    return Some(position + length);
  }

  lemma HeadStops(raw: seq<Byte>, at: nat, m: nat, seen: Seen)
    requires at < m < |raw| && RunEnd(raw, at) == m && raw[m] != END_OF_IMAGE
    requires HeadAt(raw, at, m).None? || (raw[m] == START_OF_SCAN && !seen.frame)
    ensures Read(raw, at, seen).None?
  {
    hide HeadAt, RunEnd, InsideScan;
  }

  lemma HeadGoes(raw: seq<Byte>, at: nat, m: nat, seen: Seen, next: nat)
    requires at < m < |raw| && raw[at] == FILL && RunEnd(raw, at) == m && raw[m] != END_OF_IMAGE
    requires HeadAt(raw, at, m).Some? && next == m + 3 + |HeadAt(raw, at, m).value.payload|
    requires !(seen.inScan && InsideScan(raw[m])) && (raw[m] == START_OF_SCAN ==> seen.frame)
    ensures Read(raw, at, seen).Some? <==>
              Going(raw, next, Seen(seen.frame || Frame(raw[m]), seen.scan || raw[m] == START_OF_SCAN, raw[m] == START_OF_SCAN))
  {
    hide HeadAt, CodedEnd, RunEnd, InsideScan;
  }
}
