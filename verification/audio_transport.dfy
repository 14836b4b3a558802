/**
 `AudioTransportDetails`: the audio settings a server announces and a client
 confirms (message 20), their 19-byte wire form, the Opus bit rate they
 imply, and the coarse quality a user interface shows for them.
 */
module AudioTransport {
  import opened Wire
  import opened DataExt
  import opened ApiConsts

  datatype AudioTransportDetails = AudioTransportDetails(
    opusPacketSize: OpusCompressedSize,
    blockFactor: AudioFrameFactor,
    channelCount: byte,
    sampleRate: u32,
    codec: AudioCodec,
    sequenceAudioPackets: bool)

  /** The initialiser's defaults, which are also `stereoNormal`: stereo
      normal-quality double-frame Opus at 48 kHz with sequenced packets. */
  const StereoNormalDetails: AudioTransportDetails :=
    AudioTransportDetails(StereoNormalDouble, Normal, 2, SampleRate48kHz, Opus, true)

  /** `bitRatePerSec()`: bits per second of the encoded stream, from the
      packet size and 64 samples per frame for the 64-sample Opus codec or
      128 otherwise. The product is computed in UInt32, which traps on
      overflow; the quotient always fits the Int32 result. */
  function BitRatePerSec(d: AudioTransportDetails): (r: nat)
    requires d.sampleRate * OpusRaw(d.opusPacketSize) * 8 < 0x1_0000_0000
    ensures var frame := if d.codec == Opus64 then 64 else 128;
            var bits := d.sampleRate * OpusRaw(d.opusPacketSize) * 8;
            r * frame <= bits < (r + 1) * frame
    ensures r < 0x8000_0000
  {
    var frame := if d.codec == Opus64 then FrameSamples64 else 2 * FrameSamples64;
    d.sampleRate * OpusRaw(d.opusPacketSize) * 8 / frame
  }

  /** The default settings ask the Opus encoder for 213 kbit/s. */
  lemma StereoNormalBitRate()
    ensures BitRatePerSec(StereoNormalDetails) == 213000
  {
  }

  /** `parseFrom(data:)`: packet size (LE32), block factor (LE16), channel
      count (byte), sample rate (LE32), codec (LE16), flags (LE16), then four
      unread bytes. Unknown sizes, factors and codecs fall back to the
      defaults; only a flags value of 1 turns on packet sequencing. Its
      `assert` of exactly 19 bytes is not checked in an optimised build,
      where the fields are read from the first fifteen bytes and a shorter
      buffer traps. */
  function ParseFrom(data: Bytes): (r: AudioTransportDetails)
    requires |data| >= 15
    ensures OpusFromRaw(Le(data[0..4])).Some? ==> OpusRaw(r.opusPacketSize) == Le(data[0..4])
    ensures OpusFromRaw(Le(data[0..4])).None? ==> r.opusPacketSize == StereoNormalDouble
    ensures FrameFactorFromRaw(Le(data[4..6])).Some? ==> FrameFactorRaw(r.blockFactor) == Le(data[4..6])
    ensures FrameFactorFromRaw(Le(data[4..6])).None? ==> r.blockFactor == Normal
    ensures r.channelCount == data[6]
    ensures r.sampleRate == Le(data[7..11])
    ensures CodecFromRaw(Le(data[11..13])).Some? ==> CodecRaw(r.codec) == Le(data[11..13])
    ensures CodecFromRaw(Le(data[11..13])).None? ==> r.codec == Opus
    ensures r.sequenceAudioPackets <==> Le(data[13..15]) == 1
  {
    var packetSize := NumericalValueAt(data, 0, 4);
    var blockFactor := NumericalValueAt(data, packetSize.next, 2);
    var channelCount := NumericalValueAt(data, blockFactor.next, 1);
    var sampleRate := NumericalValueAt(data, channelCount.next, 4);
    var codec := NumericalValueAt(data, sampleRate.next, 2);
    var flags := NumericalValueAt(data, codec.next, 2);
    ToLeOfLe(data[0..4]);
    ToLeOfLe(data[4..6]);
    ToLeOfLe(data[7..11]);
    ToLeOfLe(data[11..13]);
    ToLeOfLe(data[13..15]);
    ByteValueAt(data, 6);
    AudioTransportDetails(
      match OpusFromRaw(packetSize.value) case Some(s) => s case None => StereoNormalDouble,
      match FrameFactorFromRaw(blockFactor.value) case Some(f) => f case None => Normal,
      channelCount.value,
      sampleRate.value,
      match CodecFromRaw(codec.value) case Some(c) => c case None => Opus,
      flags.value == 1)
  }

  /** The wire form of the details, as `Data.append(_ value: AudioTransportDetails)`
      writes it. */
  function Encode(d: AudioTransportDetails): (r: Bytes)
    ensures |r| == 19
  {
    ToLe(OpusRaw(d.opusPacketSize), 4) + ToLe(FrameFactorRaw(d.blockFactor), 2) + [d.channelCount]
    + ToLe(d.sampleRate, 4) + ToLe(CodecRaw(d.codec), 2) + ToLe(if d.sequenceAudioPackets then 1 else 0, 2)
    + ToLe(0, 4)
  }

  /** `append(_ value: AudioTransportDetails)`: the details' wire form after
      whatever the buffer already holds. */
  function Append(buffer: Bytes, d: AudioTransportDetails): (r: Bytes)
    ensures |r| == |buffer| + 19
    ensures r[..|buffer|] == buffer && r[|buffer|..] == Encode(d)
  {
    buffer + Encode(d)
  }

  /** The fields of an encoding, each at its offset. */
  lemma EncodeFields(d: AudioTransportDetails)
    ensures var e := Encode(d);
            && e[0..4] == ToLe(OpusRaw(d.opusPacketSize), 4)
            && e[4..6] == ToLe(FrameFactorRaw(d.blockFactor), 2)
            && e[6] == d.channelCount
            && e[7..11] == ToLe(d.sampleRate, 4)
            && e[11..13] == ToLe(CodecRaw(d.codec), 2)
            && e[13..15] == ToLe(if d.sequenceAudioPackets then 1 else 0, 2)
            && e[15..] == [0, 0, 0, 0]
  {
    EncodeFront(d);
    EncodeBack(d);
  }

  /** The encoding, cut in seven pieces. */
  lemma EncodePieces(d: AudioTransportDetails)
    ensures var e := Encode(d);
            && e[0..4] == ToLe(OpusRaw(d.opusPacketSize), 4)
            && e[4..6] == ToLe(FrameFactorRaw(d.blockFactor), 2)
            && e[6..7] == [d.channelCount]
            && e[7..11] == ToLe(d.sampleRate, 4)
            && e[11..13] == ToLe(CodecRaw(d.codec), 2)
            && e[13..15] == ToLe(if d.sequenceAudioPackets then 1 else 0, 2)
            && e[15..] == ToLe(0, 4)
  {
    var size, factor, rate := ToLe(OpusRaw(d.opusPacketSize), 4), ToLe(FrameFactorRaw(d.blockFactor), 2), ToLe(d.sampleRate, 4);
    var codec, flags := ToLe(CodecRaw(d.codec), 2), ToLe(if d.sequenceAudioPackets then 1 else 0, 2);
    SevenPieces(size, factor, [d.channelCount], rate, codec, flags, ToLe(0, 4));
  }

  /** The first three fields of an encoding. */
  lemma EncodeFront(d: AudioTransportDetails)
    ensures var e := Encode(d);
            && e[0..4] == ToLe(OpusRaw(d.opusPacketSize), 4)
            && e[4..6] == ToLe(FrameFactorRaw(d.blockFactor), 2)
            && e[6] == d.channelCount
  {
    var e := Encode(d);
    EncodePieces(d);
    assert e[6] == e[6..7][0];
  }

  /** The last four fields of an encoding. */
  lemma EncodeBack(d: AudioTransportDetails)
    ensures var e := Encode(d);
            && e[7..11] == ToLe(d.sampleRate, 4)
            && e[11..13] == ToLe(CodecRaw(d.codec), 2)
            && e[13..15] == ToLe(if d.sequenceAudioPackets then 1 else 0, 2)
            && e[15..] == [0, 0, 0, 0]
  {
    EncodePieces(d);
    ZeroBytes(4);
  }

  /** Zero written in `w` bytes is `w` zero bytes. */
  lemma {:induction false} ZeroBytes(w: nat)
    ensures ToLe(0, w) == seq(w, _ => 0)
  {
    if w > 0 { ZeroBytes(w - 1); }
  }

  /** Seven consecutive pieces, cut out again. */
  lemma SevenPieces<T>(a: seq<T>, b: seq<T>, c: seq<T>, d: seq<T>, e: seq<T>, f: seq<T>, g: seq<T>)
    ensures var s := a + b + c + d + e + f + g;
            var o1 := |a|;
            var o2 := o1 + |b|;
            var o3 := o2 + |c|;
            var o4 := o3 + |d|;
            var o5 := o4 + |e|;
            && s[0..o1] == a && s[o1..o2] == b && s[o2..o3] == c && s[o3..o4] == d
            && s[o4..o5] == e && s[o5..o5 + |f|] == f && s[o5 + |f|..] == g
  {
    var p2 := a + b;
    var p3 := p2 + c;
    var p4 := p3 + d;
    var p5 := p4 + e;
    var p6 := p5 + f;
    assert p6 + g == a + b + c + d + e + f + g;
    TailOfAppend(p5, f);
    SliceOfAppend(p6, g, |p5|, |p6|);
    TailOfAppend(p4, e);
    SliceOfAppend(p5, f, |p4|, |p5|);
    SliceOfAppend(p6, g, |p4|, |p5|);
    TailOfAppend(p3, d);
    SliceOfAppend(p4, e, |p3|, |p4|);
    SliceOfAppend(p5, f, |p3|, |p4|);
    SliceOfAppend(p6, g, |p3|, |p4|);
    TailOfAppend(p2, c);
    SliceOfAppend(p3, d, |p2|, |p3|);
    SliceOfAppend(p4, e, |p2|, |p3|);
    SliceOfAppend(p5, f, |p2|, |p3|);
    SliceOfAppend(p6, g, |p2|, |p3|);
    TailOfAppend(a, b);
    SliceOfAppend(p2, c, |a|, |p2|);
    SliceOfAppend(p3, d, |a|, |p2|);
    SliceOfAppend(p4, e, |a|, |p2|);
    SliceOfAppend(p5, f, |a|, |p2|);
    SliceOfAppend(p6, g, |a|, |p2|);
    SliceOfAppend(a, b, 0, |a|);
    SliceOfAppend(p2, c, 0, |a|);
    SliceOfAppend(p3, d, 0, |a|);
    SliceOfAppend(p4, e, 0, |a|);
    SliceOfAppend(p5, f, 0, |a|);
    SliceOfAppend(p6, g, 0, |a|);
    assert (p6 + g)[|p6|..] == g;
  }

  /** Parsing what was written gives the details back. */
  lemma ParseEncode(d: AudioTransportDetails)
    ensures ParseFrom(Encode(d)) == d
  {
    EncodeFields(d);
    RawValuesRoundTrip();
    var r := ParseFrom(Encode(d));
    assert OpusFromRaw(OpusRaw(d.opusPacketSize)) == Some(d.opusPacketSize);
    assert FrameFactorFromRaw(FrameFactorRaw(d.blockFactor)) == Some(d.blockFactor);
    assert CodecFromRaw(CodecRaw(d.codec)) == Some(d.codec);
  }

  /** A buffer in the form the writer produces: known size, factor and codec,
      flags 0 or 1, four zero bytes at the end. */
  predicate Canonical(data: Bytes) {
    && |data| == 19
    && OpusFromRaw(Le(data[0..4])).Some?
    && FrameFactorFromRaw(Le(data[4..6])).Some?
    && CodecFromRaw(Le(data[11..13])).Some?
    && Le(data[13..15]) <= 1
    && data[15..] == [0, 0, 0, 0]
  }

  /** Writing what was parsed from a canonical buffer gives the buffer back. */
  lemma EncodeParse(data: Bytes)
    requires Canonical(data)
    ensures Encode(ParseFrom(data)) == data
  {
    var d := ParseFrom(data);
    var e := Encode(d);
    EncodeFields(d);
    LeInjective(e[0..4], data[0..4]);
    LeInjective(e[4..6], data[4..6]);
    LeInjective(e[7..11], data[7..11]);
    LeInjective(e[11..13], data[11..13]);
    LeInjective(e[13..15], data[13..15]);
    forall k | 0 <= k < 19
      ensures e[k] == data[k]
    {
      if k < 4 {
        assert e[k] == e[0..4][k] && data[k] == data[0..4][k];
      } else if k < 6 {
        assert e[k] == e[4..6][k - 4] && data[k] == data[4..6][k - 4];
      } else if k == 6 {
      } else if k < 11 {
        assert e[k] == e[7..11][k - 7] && data[k] == data[7..11][k - 7];
      } else if k < 13 {
        assert e[k] == e[11..13][k - 11] && data[k] == data[11..13][k - 11];
      } else if k < 15 {
        assert e[k] == e[13..15][k - 13] && data[k] == data[13..15][k - 13];
      } else {
        assert e[k] == e[15..][k - 15] && data[k] == data[15..][k - 15];
      }
    }
  }

  // ----- JamulusAudioQuality -----

  datatype Quality = Low | NormalQuality | High

  /** `JamulusAudioQuality.from(_:)`: the quality tier of the packet size. */
  function From(d: AudioTransportDetails): Quality {
    match d.opusPacketSize
    case MonoNormal | StereoNormal | MonoNormalDouble | StereoNormalDouble => NormalQuality
    case MonoLowQuality | StereoLowQuality | MonoLowQualityDouble | StereoLowQualityDouble => Low
    case MonoHighQuality | StereoHighQuality | MonoHighQualityDouble | StereoHighQualityDouble => High
  }

  function Rank(q: Quality): nat {
    match q
    case Low => 0
    case NormalQuality => 1
    case High => 2
  }

  /** The four packet-size families: mono or stereo, single or double frame. */
  function Family(s: OpusCompressedSize): (f: nat)
    ensures f < 4
  {
    match s
    case MonoLowQuality | MonoNormal | MonoHighQuality => 0
    case MonoLowQualityDouble | MonoNormalDouble | MonoHighQualityDouble => 1
    case StereoLowQuality | StereoNormal | StereoHighQuality => 2
    case StereoLowQualityDouble | StereoNormalDouble | StereoHighQualityDouble => 3
  }

  /** Within one family a higher tier means strictly larger packets, so the
      tier is exactly the order of the sizes. */
  lemma QualityFollowsSize(a: AudioTransportDetails, b: AudioTransportDetails)
    requires Family(a.opusPacketSize) == Family(b.opusPacketSize)
    ensures Rank(From(a)) < Rank(From(b)) <==> OpusRaw(a.opusPacketSize) < OpusRaw(b.opusPacketSize)
    ensures From(a) == From(b) <==> a.opusPacketSize == b.opusPacketSize
  {
  }

  /** The default settings are normal quality. */
  lemma StereoNormalIsNormal()
    ensures From(StereoNormalDetails) == NormalQuality
  {
  }
}
