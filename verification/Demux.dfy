/** Docker's multiplexed log stream and the demultiplexer that reads it back as lines
    per stream. */
module Demux {
  import opened Wrappers
  import opened Splitting

  const NEWLINE: byte := 10
  const STDERR: byte := 2
  const UINT32: nat := 0x1_0000_0000

  // ----- lines -----

  /** The non-empty lines of a payload. */
  function Lines(s: Bytes): seq<Bytes> { NonEmpty(Split(s, NEWLINE)) }

  /** The finished pieces of what has been read, and the piece being read. */
  ghost predicate Reading(s: Bytes, start: nat, i: nat, lines: seq<Bytes>)
    requires start <= i <= |s|
  {
    var p := Split(s[..i], NEWLINE);
    lines == NonEmpty(p[..|p| - 1]) && p[|p| - 1] == s[start..i]
  }

  lemma SplitStep(s: Bytes, start: nat, i: nat, lines: seq<Bytes>)
    requires start <= i < |s| && Reading(s, start, i, lines)
    ensures s[i] == NEWLINE ==> Reading(s, i + 1, i + 1, lines + if start == i then [] else [s[start..i]])
    ensures s[i] != NEWLINE ==> Reading(s, start, i + 1, lines)
  {
    var p := Split(s[..i], NEWLINE);
    assert s[..i + 1] == s[..i] + [s[i]];
    SplitPush(s[..i], NEWLINE, s[i]);
    var q := Split(s[..i + 1], NEWLINE);
    if s[i] == NEWLINE {
      assert q[..|q| - 1] == p;
    } else {
      assert q[..|q| - 1] == p[..|p| - 1];
      assert s[start..i + 1] == s[start..i] + [s[i]];
    }
  }

  lemma ReadToTheEnd(s: Bytes, start: nat, lines: seq<Bytes>)
    requires start <= |s| && Reading(s, start, |s|, lines)
    ensures Lines(s) == lines + if start == |s| then [] else [s[start..]]
  {
    assert s[..|s|] == s && s[start..|s|] == s[start..];
  }

  method SplitNonEmptyLines(s: Bytes) returns (lines: seq<Bytes>)
    ensures lines == Lines(s)
  {
    lines := [];
    var start, i := 0, 0;
    while i < |s|
      invariant 0 <= start <= i <= |s|
      invariant Reading(s, start, i, lines)
    {
      SplitStep(s, start, i, lines);
      if s[i] == NEWLINE {
        var line := s[start..i];
        if line != [] { lines := lines + [line]; }
        start := i + 1;
      }
      i := i + 1;
    }
    ReadToTheEnd(s, start, lines);
    if start < |s| {
      var line := s[start..];
      if line != [] { lines := lines + [line]; }
    }
  }

  // ----- Docker's framing -----

  datatype Frame = Frame(stream: byte, payload: Bytes)

  predicate ValidFrame(f: Frame) { f.stream <= 2 && |f.payload| < UINT32 }

  function BigEndian(n: nat): Bytes
    requires n < UINT32
  {
    [(n / 0x100_0000) as byte, (n / 0x1_0000 % 256) as byte, (n / 256 % 256) as byte, (n % 256) as byte]
  }

  /** A header of stream type, three zero bytes and the payload's length, then the payload. */
  function EncodeFrame(f: Frame): Bytes
    requires ValidFrame(f)
  {
    [f.stream, 0, 0, 0] + BigEndian(|f.payload|) + f.payload
  }

  function Encode(frames: seq<Frame>): Bytes
    requires forall f | f in frames :: ValidFrame(f)
  {
    if frames == [] then [] else EncodeFrame(frames[0]) + Encode(frames[1..])
  }

  /** The non-empty lines of the frames of one side, stderr or not, in order. */
  function LinesOf(frames: seq<Frame>, stderr: bool): seq<Bytes> {
    if frames == [] then []
    else (if (frames[0].stream == STDERR) == stderr then Lines(frames[0].payload) else []) + LinesOf(frames[1..], stderr)
  }

  // ----- the demultiplexer -----

  function LengthAt(raw: Bytes, i: nat): nat
    requires i + 8 <= |raw|
  {
    raw[i + 4] as nat * 0x100_0000 + raw[i + 5] as nat * 0x1_0000 + raw[i + 6] as nat * 256 + raw[i + 7] as nat
  }

  predicate LooksMultiplexed(raw: Bytes) {
    |raw| >= 8 && raw[0] <= 2 && raw[1] == raw[2] == raw[3] == 0 && 8 + LengthAt(raw, 0) <= |raw|
  }

  /** The frame at the head of `raw`, cut short when its length overruns the buffer. */
  function HeadFrame(raw: Bytes): (f: Frame)
    requires |raw| >= 8
    ensures 8 + |f.payload| <= |raw|
  {
    Frame(raw[0], raw[8..8 + LengthRead(raw, 0)])
  }

  /** The frames the demultiplexer reads; fewer than 8 trailing bytes are dropped. */
  function Frames(raw: Bytes): seq<Frame>
    decreases |raw|
  {
    if |raw| < 8 then [] else [HeadFrame(raw)] + Frames(raw[8 + |HeadFrame(raw).payload|..])
  }

  /** The lines of stdout and of stderr. */
  function Streams(raw: Bytes): (seq<Bytes>, seq<Bytes>) {
    if LooksMultiplexed(raw) then (LinesOf(Frames(raw), false), LinesOf(Frames(raw), true)) else (Lines(raw), [])
  }

  /** Accepts any bytes; every index is shown in range and the loop to end. */
  method DemuxStreams(raw: Bytes) returns (stdout: seq<Bytes>, stderr: seq<Bytes>)
    ensures (stdout, stderr) == Streams(raw)
  {
    stdout, stderr := [], [];
    if !LooksMultiplexed(raw) {
      stdout := SplitNonEmptyLines(raw);
      return;
    }
    var i := 0;
    assert raw[0..] == raw;
    while i + 8 <= |raw|
      invariant 0 <= i <= |raw| && Demuxed(raw, i, stdout, stderr)
      decreases |raw| - i
    {
      var streamType := raw[i];
      var length := LengthAt(raw, i);
      ghost var at := i;
      i := i + 8;
      if i + length > |raw| { length := |raw| - i; }
      var payload := raw[i..i + length];
      i := i + length;
      ReadFrame(raw, at, i, payload, stdout, stderr);
      var lines := SplitNonEmptyLines(payload);
      if streamType == STDERR { stderr := stderr + lines; } else { stdout := stdout + lines; }
    }
    ReadAll(raw, i, stdout, stderr);
  }

  /** What has been put out before `i`, with the lines still to come, is the whole. */
  ghost predicate Demuxed(raw: Bytes, i: nat, stdout: seq<Bytes>, stderr: seq<Bytes>)
    requires i <= |raw|
  {
    && LinesOf(Frames(raw), false) == stdout + LinesOf(Frames(raw[i..]), false)
    && LinesOf(Frames(raw), true) == stderr + LinesOf(Frames(raw[i..]), true)
  }

  function LengthRead(raw: Bytes, i: nat): (n: nat)
    requires i + 8 <= |raw|
    ensures i + 8 + n <= |raw|
  {
    if i + 8 + LengthAt(raw, i) > |raw| then |raw| - (i + 8) else LengthAt(raw, i)
  }

  lemma ReadFrame(raw: Bytes, i: nat, end: nat, payload: Bytes, stdout: seq<Bytes>, stderr: seq<Bytes>)
    requires i + 8 <= |raw| && Demuxed(raw, i, stdout, stderr)
    requires end == i + 8 + LengthRead(raw, i) && payload == raw[i + 8..end]
    ensures raw[i] == STDERR ==> Demuxed(raw, end, stdout, stderr + Lines(payload))
    ensures raw[i] != STDERR ==> Demuxed(raw, end, stdout + Lines(payload), stderr)
  {
    ReadStep(raw, i);
    LinesOfCons(Frame(raw[i], payload), Frames(raw[end..]), stdout, stderr);
  }

  lemma ReadAll(raw: Bytes, i: nat, stdout: seq<Bytes>, stderr: seq<Bytes>)
    requires i <= |raw| < i + 8 && Demuxed(raw, i, stdout, stderr)
    ensures stdout == LinesOf(Frames(raw), false) && stderr == LinesOf(Frames(raw), true)
  {
    assert Frames(raw[i..]) == [];
  }

  /** The frame the loop reads at `i`. */
  lemma ReadStep(raw: Bytes, i: nat)
    requires i + 8 <= |raw|
    ensures var end := i + 8 + LengthRead(raw, i);
            Frames(raw[i..]) == [Frame(raw[i], raw[i + 8..end])] + Frames(raw[end..])
  {
    var rest := raw[i..];
    var length := LengthRead(raw, i);
    assert LengthAt(rest, 0) == LengthAt(raw, i);
    assert rest[8..8 + length] == raw[i + 8..i + 8 + length];
    assert rest[8 + length..] == raw[i + 8 + length..];
  }

  lemma LinesOfCons(f: Frame, frames: seq<Frame>, stdout: seq<Bytes>, stderr: seq<Bytes>)
    ensures stdout + LinesOf([f] + frames, false)
            == (if f.stream == STDERR then stdout else stdout + Lines(f.payload)) + LinesOf(frames, false)
    ensures stderr + LinesOf([f] + frames, true)
            == (if f.stream == STDERR then stderr + Lines(f.payload) else stderr) + LinesOf(frames, true)
  {
    assert ([f] + frames)[1..] == frames;
    Assoc(stdout, Lines(f.payload), LinesOf(frames, false));
    Assoc(stderr, Lines(f.payload), LinesOf(frames, true));
  }

  lemma Assoc(a: seq<Bytes>, b: seq<Bytes>, c: seq<Bytes>)
    ensures a + (b + c) == (a + b) + c && a + ([] + c) == a + c
  {
    assert [] + c == c;
  }

  // ----- it inverts the framing -----

  lemma BigEndianReadsBack(n: nat)
    requires n < UINT32
    ensures var b := BigEndian(n);
            b[0] as nat * 0x100_0000 + b[1] as nat * 0x1_0000 + b[2] as nat * 256 + b[3] as nat == n
  {
    var q := n / 256;
    var r := n / 0x1_0000;
    assert r == q / 256 && r / 256 == n / 0x100_0000;
    assert n == q * 256 + n % 256 && q == r * 256 + q % 256 && r == r / 256 * 256 + r % 256;
  }

  lemma HeadOfEncoded(f: Frame, tail: Bytes)
    requires ValidFrame(f)
    ensures var raw := EncodeFrame(f) + tail;
            LooksMultiplexed(raw) && HeadFrame(raw) == f && raw[8 + |f.payload|..] == tail
  {
    var raw := EncodeFrame(f) + tail;
    var b := BigEndian(|f.payload|);
    BigEndianReadsBack(|f.payload|);
    assert raw[4] == b[0] && raw[5] == b[1] && raw[6] == b[2] && raw[7] == b[3];
    assert LengthAt(raw, 0) == |f.payload|;
    assert raw[8..8 + |f.payload|] == f.payload;
  }

  lemma FrameReadBack(f: Frame, tail: Bytes)
    requires ValidFrame(f)
    ensures Frames(EncodeFrame(f) + tail) == [f] + Frames(tail) && LooksMultiplexed(EncodeFrame(f) + tail)
  {
    HeadOfEncoded(f, tail);
  }

  lemma EncodeCons(frames: seq<Frame>, tail: Bytes)
    requires frames != [] && forall f | f in frames :: ValidFrame(f)
    ensures Encode(frames) + tail == EncodeFrame(frames[0]) + (Encode(frames[1..]) + tail)
  {
    var a, b := EncodeFrame(frames[0]), Encode(frames[1..]);
    assert (a + b) + tail == a + (b + tail);
  }

  lemma ReadBackCons(frames: seq<Frame>, tail: Bytes, more: seq<Frame>)
    requires frames != [] && forall f | f in frames :: ValidFrame(f)
    requires Frames(Encode(frames[1..]) + tail) == frames[1..] + more
    ensures Frames(Encode(frames) + tail) == frames + more && LooksMultiplexed(Encode(frames) + tail)
  {
    EncodeCons(frames, tail);
    FrameReadBack(frames[0], Encode(frames[1..]) + tail);
    HeadAndRest(frames, more);
  }

  lemma HeadAndRest(frames: seq<Frame>, more: seq<Frame>)
    requires frames != []
    ensures [frames[0]] + (frames[1..] + more) == frames + more
  {
    assert frames == [frames[0]] + frames[1..];
  }

  /** Whole frames are read back exactly, whatever bytes follow them. */
  lemma {:induction false} FramesReadBack(frames: seq<Frame>, tail: Bytes)
    requires forall f | f in frames :: ValidFrame(f)
    ensures Frames(Encode(frames) + tail) == frames + Frames(tail)
    ensures frames != [] ==> LooksMultiplexed(Encode(frames) + tail)
  {
    if frames == [] {
      assert Encode(frames) + tail == tail;
    } else {
      FramesReadBack(frames[1..], tail);
      ReadBackCons(frames, tail, Frames(tail));
    }
  }

  /** Demultiplexing inverts Docker's framing: each stream gets the non-empty lines of
      its frames' payloads, in order. */
  lemma DemuxInvertsFraming(frames: seq<Frame>)
    requires forall f | f in frames :: ValidFrame(f)
    ensures Streams(Encode(frames)) == (LinesOf(frames, false), LinesOf(frames, true))
  {
    FramesReadBack(frames, []);
    assert Encode(frames) + [] == Encode(frames) && Frames([]) == [] && frames + [] == frames;
    assert Lines([]) == [] by { assert Split<byte>([], NEWLINE) == [[]] && NonEmpty<byte>([]) == []; }
  }

  /** A stream cut off inside its last frame keeps every whole frame and the part of
      the last payload that arrived. */
  lemma CutOffStream(frames: seq<Frame>, last: Frame, n: nat)
    requires (forall f | f in frames :: ValidFrame(f)) && ValidFrame(last) && n <= |last.payload|
    ensures Frames(Encode(frames) + EncodeFrame(last)[..8 + n]) == frames + [Frame(last.stream, last.payload[..n])]
  {
    FramesReadBack(frames, EncodeFrame(last)[..8 + n]);
    CutOffFrame(last, n);
  }

  lemma CutOffFrame(f: Frame, n: nat)
    requires ValidFrame(f) && n <= |f.payload|
    ensures Frames(EncodeFrame(f)[..8 + n]) == [Frame(f.stream, f.payload[..n])]
  {
    var tail := EncodeFrame(f)[..8 + n];
    BigEndianReadsBack(|f.payload|);
    assert LengthAt(tail, 0) == |f.payload|;
    assert tail[8..8 + n] == f.payload[..n];
    assert |tail[8 + n..]| == 0;
  }
}
