/** MP3 frames: reading their headers, measuring chains of them, and joining chains. */
module Mp3 {
  import opened Numbers
  import opened Wrappers
  import opened Words
  import opened Encoding
  import opened PartTimeline

  const MPEG1 := 3
  const MPEG2 := 2
  const MPEG25 := 0
  const LAYER_III := 1

  /** In kbit/s, by index; 0 is the free format, and there is no index 15. */
  const BITRATES_MPEG1: seq<nat> := [0, 32, 40, 48, 56, 64, 80, 96, 112, 128, 160, 192, 224, 256, 320]
  const BITRATES_MPEG2: seq<nat> := [0, 8, 16, 24, 32, 40, 48, 56, 64, 80, 96, 112, 128, 144, 160]

  datatype FrameHeader = FrameHeader(length: nat, samples: nat, sampleRate: nat)

  /** A frame is longer than its header, so scanning ends. */
  type Header = h: FrameHeader | h.length > 4 && h.sampleRate > 0 witness FrameHeader(96, 576, 24000)

  /**
   * How the second and third bytes of a header and the size of a leading tag
   * are read. Chains compose for any reader; the program's is `Mp3Reader`.
   */
  datatype AnyReader = AnyReader(header: (Byte, Byte) -> Option<Header>, tagSize: seq<Byte> -> nat)

  /** A frame is not taken for a tag. */
  ghost predicate TagsAreNotFrames(r: AnyReader) {
    forall bytes {:trigger r.tagSize(bytes)} :: bytes == [] || bytes[0] == 0xff ==> r.tagSize(bytes) == 0
  }

  type Reader = r: AnyReader | TagsAreNotFrames(r) witness AnyReader((b1, b2) => None, bytes => 0)

  function SampleRate(version: nat, index: nat): Option<nat> {
    if index >= 3 then None
    else if version == MPEG1 then Some([44100, 48000, 32000][index])
    else if version == MPEG2 then Some([22050, 24000, 16000][index])
    else if version == MPEG25 then Some([11025, 12000, 8000][index])
    else None
  }

  function Bitrate(version: nat, index: nat): Option<nat> {
    if index >= 15 then None else Some((if version == MPEG1 then BITRATES_MPEG1 else BITRATES_MPEG2)[index])
  }

  function FrameLength(version: nat, bitrate: nat, sampleRate: nat, padding: nat): nat
    requires sampleRate > 0
  {
    (if version == MPEG1 then 144 else 72) * bitrate * 1000 / sampleRate + padding
  }

  /** The second and third bytes of a header (section 2.4.2.3 of ISO/IEC 11172-3, and its extensions). */
  function HeaderOf(b1: Byte, b2: Byte): Option<Header> {
    var version, layer := b1 / 8 % 4, b1 / 2 % 4;
    var rate, bitrate := SampleRate(version, b2 / 4 % 4), Bitrate(version, b2 / 16);
    if b1 < 0xe0 || layer != LAYER_III || rate.None? || bitrate.None? || bitrate.value == 0 then None
    else
      LongerThanHeader(version, bitrate.value, rate.value, b2 / 2 % 2);
      Some(FrameHeader(FrameLength(version, bitrate.value, rate.value, b2 / 2 % 2),
                       if version == MPEG1 then 1152 else 576, rate.value))
  }

  lemma LongerThanHeader(version: nat, bitrate: nat, rate: nat, padding: nat)
    requires if version == MPEG1 then bitrate >= 32 && 0 < rate <= 48000 else bitrate >= 8 && 0 < rate <= 24000
    ensures FrameLength(version, bitrate, rate, padding) >= 24
  {
    var bits := (if version == MPEG1 then 144 else 72) * bitrate * 1000;
    assert bits >= 24 * rate;
    QuotientAtLeast(bits, rate, 24);
  }

  lemma Product(x: int, b: int)
    requires b > 0
    ensures x < 0 ==> x * b <= -b
  {
  }

  lemma QuotientAtLeast(a: nat, b: nat, q: nat)
    requires b > 0 && a >= q * b
    ensures a / b >= q
  {
    assert (a / b - q) * b == a - a % b - q * b;
    Product(a / b - q, b);
  }

  function ReadFrameHeader(read: Reader, bytes: seq<Byte>, offset: nat): (h: Option<Header>)
    ensures h.Some? ==> offset + 4 <= |bytes| && bytes[offset] == 0xff
  {
    if offset + 4 > |bytes| || bytes[offset] != 0xff then None else read.header(bytes[offset + 1], bytes[offset + 2])
  }

  /** Bitwise or. */
  function Or(a: nat, b: nat): nat {
    if a == 0 && b == 0 then 0 else 2 * Or(a / 2, b / 2) + (if a % 2 == 1 || b % 2 == 1 then 1 else 0)
  }

  /** The size of a leading ID3v2 tag: four groups of seven bits, shifted and put together. */
  function Id3v2Size(bytes: seq<Byte>): nat {
    if |bytes| < 10 || bytes[0] != 0x49 || bytes[1] != 0x44 || bytes[2] != 0x33 then 0
    else
      var a: nat, b: nat, c: nat, d: nat := bytes[6], bytes[7], bytes[8], bytes[9];
      10 + Or(Or(Or(a * 0x20_0000, b * 0x4000), c * 0x80), d)
  }

  function Mp3Reader(): Reader {
    AnyReader(HeaderOf, Id3v2Size)
  }

  lemma DivBounds(x: nat, d: nat)
    requires d > 0
    ensures x / d * d <= x < (x / d + 1) * d
  {
  }

  /**
   * A frame holds what its bitrate gives in the time its samples last, rounded
   * down to whole bytes, and its padding.
   */
  lemma FrameFillsItsTime(b1: Byte, b2: Byte)
    requires HeaderOf(b1, b2).Some?
    ensures var h, kbits := HeaderOf(b1, b2).value, Bitrate(b1 / 8 % 4, b2 / 16);
            && kbits.Some? && h.length >= b2 / 2 % 2
            && (h.length - b2 / 2 % 2) * h.sampleRate * 8 <= h.samples * kbits.value * 1000
            && h.samples * kbits.value * 1000 < (h.length - b2 / 2 % 2 + 1) * h.sampleRate * 8
  {
    var version := b1 / 8 % 4;
    var kbits, rate := Bitrate(version, b2 / 16).value, SampleRate(version, b2 / 4 % 4).value;
    DivBounds((if version == MPEG1 then 144 else 72) * kbits * 1000, rate);
  }

  /** Each version of MPEG halves the sample rates of the one before. */
  lemma RatesHalve(index: nat)
    requires index < 3
    ensures SampleRate(MPEG1, index).value == 2 * SampleRate(MPEG2, index).value
    ensures SampleRate(MPEG2, index).value == 2 * SampleRate(MPEG25, index).value
  {
  }

  // ---- scanning ----

  function Seconds(h: Header): real
  {
    h.samples as real / h.sampleRate as real
  }

  /** The seconds of the frames whose headers can be read one after the other, the last one even if it is cut. */
  function ScannedSeconds(read: Reader, bytes: seq<Byte>, offset: nat): real
    decreases |bytes| - offset
  {
    var h := ReadFrameHeader(read, bytes, offset);
    if h.None? then 0.0 else Seconds(h.value) + ScannedSeconds(read, bytes, offset + h.value.length)
  }

  method Mp3DurationMs(read: Reader, bytes: seq<Byte>) returns (ms: int)
    ensures ms == DurationMs(read, bytes)
  {
    var offset := read.tagSize(bytes);
    var seconds := 0.0;
    ghost var start := offset;
    var h := ReadFrameHeader(read, bytes, offset);
    while h.Some?
      invariant h == ReadFrameHeader(read, bytes, offset)
      invariant seconds + ScannedSeconds(read, bytes, offset) == ScannedSeconds(read, bytes, start)
      decreases |bytes| - offset
    {
      seconds := seconds + Seconds(h.value);
      offset := offset + h.value.length;
      h := ReadFrameHeader(read, bytes, offset);
    }
    ms := Round(seconds * 1000.0);
  }

  function DurationMs(read: Reader, bytes: seq<Byte>): int {
    Round(ScannedSeconds(read, bytes, read.tagSize(bytes)) * 1000.0)
  }

  /** Where the whole frames that start at `offset` end. */
  function ScanEnd(read: Reader, bytes: seq<Byte>, offset: nat): (end: nat)
    ensures offset <= end && (offset <= |bytes| ==> end <= |bytes|) && (offset > |bytes| ==> end == offset)
    decreases |bytes| - offset
  {
    var h := ReadFrameHeader(read, bytes, offset);
    if h.None? || offset + h.value.length > |bytes| then offset else ScanEnd(read, bytes, offset + h.value.length)
  }

  /** `subarray` stops at the end of the bytes. */
  function Subarray(bytes: seq<Byte>, start: nat, end: nat): seq<Byte>
    requires start <= end
  {
    if start >= |bytes| then [] else bytes[start..if end < |bytes| then end else |bytes|]
  }

  function AudioFrames(read: Reader, bytes: seq<Byte>): seq<Byte> {
    Subarray(bytes, read.tagSize(bytes), ScanEnd(read, bytes, read.tagSize(bytes)))
  }

  method Mp3AudioFrames(read: Reader, bytes: seq<Byte>) returns (frames: seq<Byte>)
    ensures frames == AudioFrames(read, bytes)
  {
    var start := read.tagSize(bytes);
    var offset := start;
    var h := ReadFrameHeader(read, bytes, offset);
    while h.Some? && offset + h.value.length <= |bytes|
      invariant start <= offset && h == ReadFrameHeader(read, bytes, offset)
      invariant ScanEnd(read, bytes, offset) == ScanEnd(read, bytes, start)
      decreases |bytes| - offset
    {
      offset := offset + h.value.length;
      h := ReadFrameHeader(read, bytes, offset);
    }
    frames := Subarray(bytes, start, offset);
  }

  // ---- chains of whole frames ----

  /** The frames of a chain, each with its bytes; `None` when something else is in it. */
  function Frames(read: Reader, bytes: seq<Byte>): Option<seq<seq<Byte>>>
    decreases |bytes|
  {
    if bytes == [] then Some([])
    else
      var h := ReadFrameHeader(read, bytes, 0);
      if h.None? || h.value.length > |bytes| then None
      else
        var rest := Frames(read, bytes[h.value.length..]);
        if rest.None? then None else Some([bytes[..h.value.length]] + rest.value)
  }

  predicate IsChain(read: Reader, bytes: seq<Byte>) {
    Frames(read, bytes).Some?
  }

  function FramesIn(read: Reader, bytes: seq<Byte>): seq<seq<Byte>> {
    if IsChain(read, bytes) then Frames(read, bytes).value else []
  }

  lemma HeaderInSlice(read: Reader, bytes: seq<Byte>, from: nat, end: nat)
    requires from <= end <= |bytes|
    ensures from + 4 <= end ==> ReadFrameHeader(read, bytes[from..end], 0) == ReadFrameHeader(read, bytes, from)
  {
  }

  /** What the scan keeps is a chain. */
  lemma {:induction false} ScanIsChain(read: Reader, bytes: seq<Byte>, offset: nat)
    requires offset <= |bytes|
    ensures IsChain(read, bytes[offset..ScanEnd(read, bytes, offset)])
    decreases |bytes| - offset
  {
    var h := ReadFrameHeader(read, bytes, offset);
    var end := ScanEnd(read, bytes, offset);
    if h.Some? && offset + h.value.length <= |bytes| {
      ScanIsChain(read, bytes, offset + h.value.length);
      HeaderInSlice(read, bytes, offset, end);
      assert bytes[offset..end][h.value.length..] == bytes[offset + h.value.length..end];
    }
  }

  /** Tags and unreadable ends removed, what is left is whole frames, whatever the input. */
  lemma ExtractIsChain(read: Reader, bytes: seq<Byte>)
    ensures IsChain(read, AudioFrames(read, bytes))
  {
    var start := read.tagSize(bytes);
    if start < |bytes| {
      ScanIsChain(read, bytes, start);
    }
  }

  lemma {:induction false} ChainScans(read: Reader, bytes: seq<Byte>, offset: nat)
    requires offset <= |bytes| && IsChain(read, bytes[offset..])
    ensures ScanEnd(read, bytes, offset) == |bytes|
    decreases |bytes| - offset
  {
    if offset < |bytes| {
      var h := ReadFrameHeader(read, bytes[offset..], 0).value;
      assert bytes[offset..][h.length..] == bytes[offset + h.length..];
      ChainScans(read, bytes, offset + h.length);
    }
  }

  lemma ChainHasNoTag(read: Reader, bytes: seq<Byte>)
    requires IsChain(read, bytes)
    ensures read.tagSize(bytes) == 0
  {
  }

  /** Extraction is the identity on chains. */
  lemma ChainIsKept(read: Reader, bytes: seq<Byte>)
    requires IsChain(read, bytes)
    ensures AudioFrames(read, bytes) == bytes
  {
    ChainHasNoTag(read, bytes);
    assert bytes[0..] == bytes;
    ChainScans(read, bytes, 0);
  }

  lemma {:induction false} ChainConcat(read: Reader, a: seq<Byte>, b: seq<Byte>)
    requires IsChain(read, a) && IsChain(read, b)
    ensures IsChain(read, a + b) && FramesIn(read, a + b) == FramesIn(read, a) + FramesIn(read, b)
    decreases |a|
  {
    if a == [] {
      assert a + b == b;
    } else {
      var n := ReadFrameHeader(read, a, 0).value.length;
      assert (a + b)[..n] == a[..n] && (a + b)[n..] == a[n..] + b;
      ChainConcat(read, a[n..], b);
    }
  }

  // ---- joining ----

  /** The frames of each chunk. */
  function Extracted(read: Reader, chunks: seq<seq<Byte>>): (chains: seq<seq<Byte>>)
    ensures |chains| == |chunks|
  {
    seq(|chunks|, i requires 0 <= i < |chunks| => AudioFrames(read, chunks[i]))
  }

  function Concat(chains: seq<seq<Byte>>, n: nat): seq<Byte>
    requires n <= |chains|
  {
    if n == 0 then [] else Concat(chains, n - 1) + chains[n - 1]
  }

  function DurationsOf(read: Reader, chains: seq<seq<Byte>>): (durationsMs: seq<int>)
    ensures |durationsMs| == |chains|
  {
    seq(|chains|, i requires 0 <= i < |chains| => DurationMs(read, chains[i]))
  }

  method Durations(read: Reader, frames: seq<seq<Byte>>) returns (durationsMs: seq<int>)
    ensures durationsMs == DurationsOf(read, frames)
  {
    durationsMs := [];
    for i := 0 to |frames|
      invariant |durationsMs| == i && durationsMs == DurationsOf(read, frames)[..i]
    {
      var ms := Mp3DurationMs(read, frames[i]);
      durationsMs := durationsMs + [ms];
    }
  }

  method Fill(frames: seq<seq<Byte>>) returns (audio: array<Byte>)
    ensures fresh(audio) && audio[..] == Concat(frames, |frames|)
  {
    var size := 0;
    for i := 0 to |frames|
      invariant size == |Concat(frames, i)|
    {
      size := size + |frames[i]|;
    }
    audio := new Byte[size];
    var offset := 0;
    for i := 0 to |frames|
      invariant offset == |Concat(frames, i)| <= size
      invariant audio[..offset] == Concat(frames, i)
    {
      ConcatGrows(frames, i + 1, |frames|);
      SetAt(audio, frames[i], offset);
      offset := offset + |frames[i]|;
    }
    assert audio[..offset] == audio[..];
  }

  lemma {:induction false} ConcatGrows(frames: seq<seq<Byte>>, m: nat, n: nat)
    requires m <= n <= |frames|
    ensures |Concat(frames, m)| <= |Concat(frames, n)|
    decreases n
  {
    if m < n {
      ConcatGrows(frames, m, n - 1);
    }
  }

  /** `set`: copies `source` into `target` from `offset` on. */
  method SetAt(target: array<Byte>, source: seq<Byte>, offset: nat)
    requires offset + |source| <= target.Length
    modifies target
    ensures target[..] == old(target[..offset]) + source + old(target[offset + |source|..])
  {
    for i := 0 to |source|
      invariant target[..offset + i] == old(target[..offset]) + source[..i]
      invariant target[offset + i..] == old(target[offset + i..])
    {
      target[offset + i] := source[i];
    }
  }

  ghost predicate AllChains(read: Reader, chains: seq<seq<Byte>>) {
    forall k :: 0 <= k < |chains| ==> IsChain(read, chains[k])
  }

  lemma ExtractedAreChains(read: Reader, chunks: seq<seq<Byte>>)
    ensures AllChains(read, Extracted(read, chunks))
  {
    forall k | 0 <= k < |chunks| ensures IsChain(read, Extracted(read, chunks)[k]) {
      ExtractIsChain(read, chunks[k]);
    }
  }

  /** The frames of the first `n` chains, in order. */
  function FramesOf(read: Reader, chains: seq<seq<Byte>>, n: nat): seq<seq<Byte>>
    requires n <= |chains|
  {
    if n == 0 then [] else FramesOf(read, chains, n - 1) + FramesIn(read, chains[n - 1])
  }

  lemma {:induction false} ConcatIsChain(read: Reader, chains: seq<seq<Byte>>, n: nat)
    requires n <= |chains| && AllChains(read, chains)
    ensures IsChain(read, Concat(chains, n)) && FramesIn(read, Concat(chains, n)) == FramesOf(read, chains, n)
  {
    if n > 0 {
      ConcatIsChain(read, chains, n - 1);
      ChainConcat(read, Concat(chains, n - 1), chains[n - 1]);
    }
  }

  /**
   * The frames of the joined audio are the frames of the chunks, in order, and
   * extracting them again changes nothing.
   */
  lemma JoinKeepsFrames(read: Reader, chunks: seq<seq<Byte>>)
    ensures var audio := Concat(Extracted(read, chunks), |chunks|);
            && IsChain(read, audio)
            && FramesIn(read, audio) == FramesOf(read, Extracted(read, chunks), |chunks|)
            && AudioFrames(read, audio) == audio
  {
    ExtractedAreChains(read, chunks);
    ConcatIsChain(read, Extracted(read, chunks), |chunks|);
    ChainIsKept(read, Concat(Extracted(read, chunks), |chunks|));
  }

  // ---- durations ----

  /** The seconds of whole frames. */
  function SecondsOf(read: Reader, frames: seq<seq<Byte>>): real {
    if frames == [] then 0.0
    else
      var header := ReadFrameHeader(read, frames[0], 0);
      (if header.Some? then Seconds(header.value) else 0.0) + SecondsOf(read, frames[1..])
  }

  lemma {:induction false} SecondsConcat(read: Reader, a: seq<seq<Byte>>, b: seq<seq<Byte>>)
    ensures SecondsOf(read, a + b) == SecondsOf(read, a) + SecondsOf(read, b)
  {
    if a == [] {
      assert a + b == b;
    } else {
      assert (a + b)[1..] == a[1..] + b;
      SecondsConcat(read, a[1..], b);
    }
  }

  lemma {:induction false} ChainSeconds(read: Reader, bytes: seq<Byte>, offset: nat)
    requires offset <= |bytes| && IsChain(read, bytes[offset..])
    ensures ScannedSeconds(read, bytes, offset) == SecondsOf(read, FramesIn(read, bytes[offset..]))
    decreases |bytes| - offset
  {
    if offset < |bytes| {
      var h := ReadFrameHeader(read, bytes[offset..], 0).value;
      var frames := FramesIn(read, bytes[offset..]);
      assert bytes[offset..][h.length..] == bytes[offset + h.length..];
      ChainSeconds(read, bytes, offset + h.length);
      assert frames[1..] == FramesIn(read, bytes[offset + h.length..]);
      assert frames[0] == bytes[offset..offset + h.length];
      HeaderInSlice(read, bytes, offset, offset + h.length);
    }
  }

  /** A chain lasts what its frames last. */
  lemma ChainDuration(read: Reader, bytes: seq<Byte>)
    requires IsChain(read, bytes)
    ensures DurationMs(read, bytes) == Round(SecondsOf(read, FramesIn(read, bytes)) * 1000.0)
  {
    ChainHasNoTag(read, bytes);
    assert bytes[0..] == bytes;
    ChainSeconds(read, bytes, 0);
  }

  /**
   * Measuring and extracting differ on a cut last frame: its header can be
   * read, so the duration counts it, but it is not whole, so it is not kept.
   */
  lemma {:induction false} CutFrameIsCounted(read: Reader, bytes: seq<Byte>, offset: nat)
    requires offset <= |bytes|
    ensures var end := ScanEnd(read, bytes, offset);
            var cut := ReadFrameHeader(read, bytes, end);
            ScannedSeconds(read, bytes, offset)
            == SecondsOf(read, FramesIn(read, bytes[offset..end])) + (if cut.Some? then Seconds(cut.value) else 0.0)
    decreases |bytes| - offset
  {
    ScanIsChain(read, bytes, offset);
    var h := ReadFrameHeader(read, bytes, offset);
    var end := ScanEnd(read, bytes, offset);
    if h.Some? && offset + h.value.length <= |bytes| {
      var next := offset + h.value.length;
      CutFrameIsCounted(read, bytes, next);
      HeaderInSlice(read, bytes, offset, end);
      assert bytes[offset..end][h.value.length..] == bytes[next..end];
      ScanIsChain(read, bytes, next);
      var frames := FramesIn(read, bytes[offset..end]);
      assert frames[1..] == FramesIn(read, bytes[next..end]);
      assert frames[0] == bytes[offset..next];
      HeaderInSlice(read, bytes, offset, next);
    } else {
      assert bytes[offset..end] == [];
    }
  }

  function SumMs(durationsMs: seq<int>, n: nat): int
    requires n <= |durationsMs|
  {
    if n == 0 then 0 else SumMs(durationsMs, n - 1) + durationsMs[n - 1]
  }

  function SumSeconds(seconds: seq<real>, n: nat): real
    requires n <= |seconds|
  {
    if n == 0 then 0.0 else SumSeconds(seconds, n - 1) + seconds[n - 1]
  }

  predicate Near(sum: int, exact: real, n: nat) {
    exact - n as real / 2.0 <= sum as real <= exact + n as real / 2.0
  }

  lemma RoundIsNear(x: real)
    ensures x - 0.5 <= Round(x) as real <= x + 0.5
  {
  }

  /** Each duration is rounded to the nearest millisecond. */
  predicate AreRounded(seconds: seq<real>, durationsMs: seq<int>) {
    |durationsMs| == |seconds| && forall k :: 0 <= k < |seconds| ==> durationsMs[k] == Round(seconds[k] * 1000.0)
  }

  lemma {:induction false} RoundedSum(seconds: seq<real>, durationsMs: seq<int>, n: nat)
    requires AreRounded(seconds, durationsMs) && n <= |seconds|
    ensures Near(SumMs(durationsMs, n), SumSeconds(seconds, n) * 1000.0, n)
  {
    if n > 0 {
      RoundedSum(seconds, durationsMs, n - 1);
      RoundIsNear(seconds[n - 1] * 1000.0);
    }
  }

  function SecondsOfEach(read: Reader, chains: seq<seq<Byte>>): (seconds: seq<real>)
    ensures |seconds| == |chains|
  {
    seq(|chains|, k requires 0 <= k < |chains| => SecondsOf(read, FramesIn(read, chains[k])))
  }

  /** The seconds of several lists of frames. */
  function SecondsOfAll(read: Reader, parts: seq<seq<seq<Byte>>>, n: nat): real
    requires n <= |parts|
  {
    if n == 0 then 0.0 else SecondsOfAll(read, parts, n - 1) + SecondsOf(read, parts[n - 1])
  }

  lemma {:induction false} SecondsOfJoined(read: Reader, parts: seq<seq<seq<Byte>>>, n: nat)
    requires n <= |parts|
    ensures SecondsOf(read, Joined(parts, n)) == SecondsOfAll(read, parts, n)
  {
    if n > 0 {
      SecondsOfJoined(read, parts, n - 1);
      SecondsConcat(read, Joined(parts, n - 1), parts[n - 1]);
    }
  }

  function Joined(parts: seq<seq<seq<Byte>>>, n: nat): seq<seq<Byte>>
    requires n <= |parts|
  {
    if n == 0 then [] else Joined(parts, n - 1) + parts[n - 1]
  }

  function Parts(read: Reader, chains: seq<seq<Byte>>): (parts: seq<seq<seq<Byte>>>)
    ensures |parts| == |chains|
  {
    seq(|chains|, k requires 0 <= k < |chains| => FramesIn(read, chains[k]))
  }

  lemma {:induction false} FramesAreJoined(read: Reader, chains: seq<seq<Byte>>, n: nat)
    requires n <= |chains|
    ensures FramesOf(read, chains, n) == Joined(Parts(read, chains), n)
    ensures SecondsOfAll(read, Parts(read, chains), n) == SumSeconds(SecondsOfEach(read, chains), n)
  {
    if n > 0 {
      FramesAreJoined(read, chains, n - 1);
    }
  }

  lemma SecondsAddUp(read: Reader, chains: seq<seq<Byte>>, n: nat)
    requires n <= |chains|
    ensures SecondsOf(read, FramesOf(read, chains, n)) == SumSeconds(SecondsOfEach(read, chains), n)
  {
    FramesAreJoined(read, chains, n);
    SecondsOfJoined(read, Parts(read, chains), n);
  }

  lemma DurationsAreRounded(read: Reader, chains: seq<seq<Byte>>)
    requires AllChains(read, chains)
    ensures AreRounded(SecondsOfEach(read, chains), DurationsOf(read, chains))
  {
    forall k | 0 <= k < |chains|
      ensures DurationsOf(read, chains)[k] == Round(SecondsOfEach(read, chains)[k] * 1000.0) {
      ChainDuration(read, chains[k]);
    }
  }

  // ---- what stands around the frames of a chunk ----

  /** A leading tag, whatever follows it. */
  ghost predicate IsTag(read: Reader, tag: seq<Byte>) {
    forall rest: seq<Byte> {:trigger tag + rest} :: read.tagSize(tag + rest) == |tag|
  }

  /** A chunk: a tag or none, the whole frames of `chain`, and an end that is not a frame. */
  ghost predicate Holds(read: Reader, chunk: seq<Byte>, chain: seq<Byte>) {
    exists tag: seq<Byte>, end: seq<Byte> :: IsAround(read, chunk, tag, chain, end)
  }

  ghost predicate IsAround(read: Reader, chunk: seq<Byte>, tag: seq<Byte>, chain: seq<Byte>, end: seq<Byte>) {
    && chunk == tag + chain + end && IsChain(read, chain)
    && (IsTag(read, tag) || (tag == [] && chain != []))
    && (end == [] || end[0] != 0xff)
  }

  /** The program reads a tag of ID3v2 (section 3.1 of its specification): ten bytes, and as many as they say. */
  predicate IsId3v2(tag: seq<Byte>) {
    && |tag| >= 10 && tag[0] == 0x49 && tag[1] == 0x44 && tag[2] == 0x33
    && var a: nat, b: nat, c: nat, d: nat := tag[6], tag[7], tag[8], tag[9];
       a < 0x80 && b < 0x80 && c < 0x80 && d < 0x80 && |tag| == 10 + 0x20_0000 * a + 0x4000 * b + 0x80 * c + d
  }

  function Power2(n: nat): nat {
    if n == 0 then 1 else 2 * Power2(n - 1)
  }

  lemma {:induction false} OrZero(a: nat)
    ensures Or(a, 0) == a && Or(0, a) == a
  {
    if a > 0 {
      OrZero(a / 2);
    }
  }

  /** Groups of bits that do not overlap add up. */
  lemma {:induction false} OrAdds(a: nat, b: nat, n: nat)
    requires b < Power2(n)
    ensures Or(a * Power2(n), b) == a * Power2(n) + b
  {
    if n == 0 {
      OrZero(a);
    } else {
      var high := a * Power2(n - 1);
      assert a * Power2(n) == 2 * high;
      OrAdds(a, b / 2, n - 1);
      if 2 * high == 0 && b == 0 {
        OrZero(0);
      }
      assert (2 * high) / 2 == high && (2 * high) % 2 == 0;
    }
  }

  lemma PowersOfGroups()
    ensures Power2(7) == 0x80 && Power2(14) == 0x4000 && Power2(21) == 0x20_0000
  {
    assert Power2(4) == 16;
    assert Power2(8) == 0x100;
    assert Power2(12) == 0x1000;
    assert Power2(16) == 0x1_0000;
    assert Power2(20) == 0x10_0000;
  }

  lemma GroupsAddUp(a: nat, b: nat, c: nat, d: nat)
    requires a < 0x80 && b < 0x80 && c < 0x80 && d < 0x80
    ensures Or(Or(Or(a * 0x20_0000, b * 0x4000), c * 0x80), d) == 0x20_0000 * a + 0x4000 * b + 0x80 * c + d
  {
    hide Or, Power2;
    PowersOfGroups();
    OrAdds(a, b * 0x4000, 21);
    assert a * 0x20_0000 + b * 0x4000 == (a * 0x80 + b) * 0x4000;
    OrAdds(a * 0x80 + b, c * 0x80, 14);
    assert (a * 0x80 + b) * 0x4000 + c * 0x80 == (a * 0x4000 + b * 0x80 + c) * 0x80;
    OrAdds(a * 0x4000 + b * 0x80 + c, d, 7);
  }

  lemma Id3v2IsTag(tag: seq<Byte>)
    requires IsId3v2(tag)
    ensures IsTag(Mp3Reader(), tag)
  {
    hide Or;
    GroupsAddUp(tag[6], tag[7], tag[8], tag[9]);
    forall rest: seq<Byte> ensures Id3v2Size(tag + rest) == |tag| {
      assert (tag + rest)[..10] == tag[..10];
    }
  }

  /** The scan goes over a chain and stops where the next frame does not start. */
  lemma {:induction false} ScanStops(read: Reader, bytes: seq<Byte>, offset: nat, stop: nat)
    requires offset <= stop <= |bytes| && IsChain(read, bytes[offset..stop])
    requires stop < |bytes| ==> bytes[stop] != 0xff
    ensures ScanEnd(read, bytes, offset) == stop
    decreases stop - offset
  {
    if offset < stop {
      var slice := bytes[offset..stop];
      var h := ReadFrameHeader(read, slice, 0).value;
      HeaderInSlice(read, bytes, offset, stop);
      assert slice[h.length..] == bytes[offset + h.length..stop];
      ScanStops(read, bytes, offset + h.length, stop);
    }
  }

  /** Tags, unreadable ends and all, the frames that are kept are the frames of the chunk, unchanged. */
  lemma HeldIsExtracted(read: Reader, chunk: seq<Byte>, chain: seq<Byte>)
    requires Holds(read, chunk, chain)
    ensures AudioFrames(read, chunk) == chain
  {
    var tag: seq<Byte>, end: seq<Byte> :| IsAround(read, chunk, tag, chain, end);
    assert chunk == tag + (chain + end);
    if !IsTag(read, tag) {
      assert chunk[0] == chain[0] == 0xff by { ReadsFirst(read, chain); }
    }
    assert read.tagSize(chunk) == |tag|;
    assert chunk[|tag|..|tag| + |chain|] == chain;
    ScanStops(read, chunk, |tag|, |tag| + |chain|);
  }

  lemma ReadsFirst(read: Reader, chain: seq<Byte>)
    requires IsChain(read, chain) && chain != []
    ensures chain[0] == 0xff
  {
  }

  ghost predicate AllHold(read: Reader, chunks: seq<seq<Byte>>, chains: seq<seq<Byte>>) {
    |chunks| == |chains| && forall k :: 0 <= k < |chunks| ==> Holds(read, chunks[k], chains[k])
  }

  lemma {:induction false} ConcatIsFlatten(parts: seq<seq<Byte>>, n: nat)
    requires n <= |parts|
    ensures Concat(parts, n) == Flatten(parts[..n])
  {
    if n > 0 {
      ConcatIsFlatten(parts, n - 1);
      assert parts[..n] == parts[..n - 1] + [parts[n - 1]];
      FlattenSnoc(parts[..n - 1], parts[n - 1]);
    }
  }

  /**
   * The joined audio is the frames that the chunks hold, end to end, whatever
   * stands around them; each duration is that of its frames, to the millisecond.
   */
  lemma JoinIsHeld(read: Reader, chunks: seq<seq<Byte>>, chains: seq<seq<Byte>>)
    requires AllHold(read, chunks, chains)
    ensures Concat(Extracted(read, chunks), |chunks|) == Flatten(chains)
    ensures AreRounded(SecondsOfEach(read, chains), DurationsOf(read, Extracted(read, chunks)))
  {
    forall k | 0 <= k < |chunks| ensures Extracted(read, chunks)[k] == chains[k] {
      HeldIsExtracted(read, chunks[k], chains[k]);
    }
    assert Extracted(read, chunks) == chains;
    ConcatIsFlatten(chains, |chains|);
    assert chains[..|chains|] == chains;
    ExtractedAreChains(read, chunks);
    DurationsAreRounded(read, chains);
  }

  /** A buffer of the exact size, filled chunk after chunk. */
  method Join(read: Reader, chunks: seq<seq<Byte>>) returns (audio: array<Byte>, durationsMs: seq<int>)
    ensures fresh(audio) && audio[..] == Concat(Extracted(read, chunks), |chunks|)
    ensures durationsMs == DurationsOf(read, Extracted(read, chunks))
    ensures forall chains: seq<seq<Byte>> :: AllHold(read, chunks, chains) ==>
              audio[..] == Flatten(chains) && AreRounded(SecondsOfEach(read, chains), durationsMs)
  {
    var frames: seq<seq<Byte>> := [];
    for i := 0 to |chunks|
      invariant |frames| == i && frames == Extracted(read, chunks)[..i]
    {
      var f := Mp3AudioFrames(read, chunks[i]);
      frames := frames + [f];
    }
    assert frames == Extracted(read, chunks);
    audio := Fill(frames);
    durationsMs := Durations(read, frames);
    forall chains: seq<seq<Byte>> | AllHold(read, chunks, chains)
      ensures audio[..] == Flatten(chains) && AreRounded(SecondsOfEach(read, chains), durationsMs) {
      JoinIsHeld(read, chunks, chains);
    }
  }

  /** The rounded durations of `n` chunks stay within n/2 milliseconds of the exact duration of the joined audio. */
  lemma JoinedDuration(read: Reader, chunks: seq<seq<Byte>>)
    ensures var chains := Extracted(read, chunks);
            var exact := SecondsOf(read, FramesIn(read, Concat(chains, |chunks|))) * 1000.0;
            Near(SumMs(DurationsOf(read, chains), |chunks|), exact, |chunks|)
  {
    var chains := Extracted(read, chunks);
    ExtractedAreChains(read, chunks);
    ConcatIsChain(read, chains, |chunks|);
    SecondsAddUp(read, chains, |chunks|);
    DurationsAreRounded(read, chains);
    RoundedSum(SecondsOfEach(read, chains), DurationsOf(read, chains), |chunks|);
  }

  /** MPEG-2 at 24 kHz: a frame lasts exactly 24 ms. */
  predicate Is24Ms(read: Reader, frame: seq<Byte>) {
    var h := ReadFrameHeader(read, frame, 0);
    h.Some? && h.value.samples == 576 && h.value.sampleRate == 24000
  }

  predicate All24Ms(read: Reader, frames: seq<seq<Byte>>) {
    forall i :: 0 <= i < |frames| ==> Is24Ms(read, frames[i])
  }

  lemma {:induction false} ExactSeconds(read: Reader, frames: seq<seq<Byte>>)
    requires All24Ms(read, frames)
    ensures SecondsOf(read, frames) * 1000.0 == (24 * |frames|) as real
  {
    if frames != [] {
      ExactSeconds(read, frames[1..]);
      assert Is24Ms(read, frames[0]);
      assert Seconds(ReadFrameHeader(read, frames[0], 0).value) * 1000.0 == 24.0;
    }
  }

  lemma RoundExact(n: int)
    ensures Round(n as real) == n
  {
  }

  lemma ExactChain(read: Reader, chain: seq<Byte>)
    requires IsChain(read, chain) && All24Ms(read, FramesIn(read, chain))
    ensures DurationMs(read, chain) == 24 * |FramesIn(read, chain)|
  {
    ChainDuration(read, chain);
    ExactSeconds(read, FramesIn(read, chain));
    RoundExact(24 * |FramesIn(read, chain)|);
  }

  lemma {:induction false} ExactlySummed(seconds: seq<real>, durationsMs: seq<int>, n: nat)
    requires n <= |seconds| == |durationsMs| && forall k :: 0 <= k < |seconds| ==>
               durationsMs[k] as real == seconds[k] * 1000.0
    ensures SumMs(durationsMs, n) as real == SumSeconds(seconds, n) * 1000.0
  {
    if n > 0 {
      ExactlySummed(seconds, durationsMs, n - 1);
    }
  }

  /** For MPEG-2 at 24 kHz the rounded durations add up to the exact duration. */
  lemma JoinedExactly(read: Reader, chunks: seq<seq<Byte>>)
    requires forall k :: 0 <= k < |chunks| ==> All24Ms(read, FramesIn(read, AudioFrames(read, chunks[k])))
    ensures var chains := Extracted(read, chunks);
            SumMs(DurationsOf(read, chains), |chunks|) as real
              == SecondsOf(read, FramesIn(read, Concat(chains, |chunks|))) * 1000.0
  {
    var chains := Extracted(read, chunks);
    ExtractedAreChains(read, chunks);
    ConcatIsChain(read, chains, |chunks|);
    SecondsAddUp(read, chains, |chunks|);
    forall k | 0 <= k < |chains|
      ensures DurationsOf(read, chains)[k] as real == SecondsOfEach(read, chains)[k] * 1000.0 {
      ExactChain(read, chains[k]);
      ExactSeconds(read, FramesIn(read, chains[k]));
    }
    ExactlySummed(SecondsOfEach(read, chains), DurationsOf(read, chains), |chunks|);
  }

  // ---- silence ----

  const SILENT_FRAME_HEADER: seq<Byte> := [0xff, 0xf3, 0x44, 0xc0]
  const SILENT_FRAME_BYTES := 96
  const SILENT_FRAME_MS := 24

  function SilentFrames(durationMs: int): nat {
    Max(1, (durationMs + SILENT_FRAME_MS - 1) / SILENT_FRAME_MS)
  }

  function SilentFrame(): seq<Byte> {
    SILENT_FRAME_HEADER + seq(92, _ => 0)
  }

  function Repeated(frame: seq<Byte>, n: nat): seq<Byte> {
    if n == 0 then [] else Repeated(frame, n - 1) + frame
  }

  lemma {:induction false} RepeatedLength(frame: seq<Byte>, n: nat)
    ensures |Repeated(frame, n)| == n * |frame|
  {
    if n > 0 {
      RepeatedLength(frame, n - 1);
    }
  }

  /** A buffer of zeros where each frame gets its header. */
  method SilentMp3(durationMs: int) returns (out: array<Byte>)
    ensures fresh(out) && out[..] == Repeated(SilentFrame(), SilentFrames(durationMs))
  {
    var frames := SilentFrames(durationMs);
    out := new Byte[frames * SILENT_FRAME_BYTES](_ => 0);
    for frame := 0 to frames
      invariant frame * SILENT_FRAME_BYTES <= out.Length
      invariant out[..frame * SILENT_FRAME_BYTES] == Repeated(SilentFrame(), frame)
      invariant forall i :: frame * SILENT_FRAME_BYTES <= i < out.Length ==> out[i] == 0
    {
      ghost var before := out[..];
      var offset := frame * SILENT_FRAME_BYTES;
      SetAt(out, SILENT_FRAME_HEADER, offset);
      assert out[..offset + 96] == before[..offset] + SilentFrame();
    }
  }

  predicate ReadsSilence(read: Reader) {
    read.header(0xf3, 0x44) == Some(FrameHeader(96, 576, 24000))
  }

  /** MPEG-2 Layer III, 24 kHz, 32 kbit/s: 96 bytes, 24 ms. */
  lemma ProgramReadsSilence()
    ensures ReadsSilence(Mp3Reader())
  {
    assert SampleRate(MPEG2, 0x44 / 4 % 4) == Some(24000);
    assert Bitrate(MPEG2, 0x44 / 16) == Some(32);
  }

  lemma SilentFrameReads(read: Reader)
    requires ReadsSilence(read)
    ensures |SilentFrame()| == 96
    ensures ReadFrameHeader(read, SilentFrame(), 0) == Some(FrameHeader(96, 576, 24000))
    ensures Frames(read, SilentFrame()) == Some([SilentFrame()])
  {
    var f := SilentFrame();
    assert f[..96] == f && f[96..] == [];
    assert Frames(read, f[96..]) == Some([]) && [f] + [] == [f];
  }

  lemma {:induction false} SilenceIsChain(read: Reader, n: nat)
    requires ReadsSilence(read)
    ensures IsChain(read, Repeated(SilentFrame(), n))
    ensures |FramesIn(read, Repeated(SilentFrame(), n))| == n
    ensures forall i :: 0 <= i < n ==> FramesIn(read, Repeated(SilentFrame(), n))[i] == SilentFrame()
  {
    if n > 0 {
      SilenceIsChain(read, n - 1);
      SilentFrameReads(read);
      ChainConcat(read, Repeated(SilentFrame(), n - 1), SilentFrame());
    }
  }

  /** The silence is made of whole frames and lasts at least what was asked, to less than one frame. */
  lemma SilenceLasts(read: Reader, durationMs: int)
    requires ReadsSilence(read)
    ensures var bytes := Repeated(SilentFrame(), SilentFrames(durationMs));
            && IsChain(read, bytes) && DurationMs(read, bytes) == SILENT_FRAME_MS * SilentFrames(durationMs)
            && DurationMs(read, bytes) >= durationMs
            && (durationMs > 0 ==> DurationMs(read, bytes) < durationMs + SILENT_FRAME_MS)
  {
    var n := SilentFrames(durationMs);
    SilenceIsChain(read, n);
    SilentFrameReads(read);
    ChainDuration(read, Repeated(SilentFrame(), n));
    ExactSeconds(read, FramesIn(read, Repeated(SilentFrame(), n)));
    RoundExact(24 * n);
  }

  /** The program's own reading of its silence. */
  lemma ProgramSilenceLasts(durationMs: int)
    ensures var bytes := Repeated(SilentFrame(), SilentFrames(durationMs));
            && DurationMs(Mp3Reader(), bytes) == SILENT_FRAME_MS * SilentFrames(durationMs)
            && DurationMs(Mp3Reader(), bytes) >= durationMs
            && (durationMs > 0 ==> DurationMs(Mp3Reader(), bytes) < durationMs + SILENT_FRAME_MS)
  {
    ProgramReadsSilence();
    SilenceLasts(Mp3Reader(), durationMs);
  }
}
