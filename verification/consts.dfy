/**
 Protocol constants and the raw-value enumerations of the Jamulus API: Opus
 packet sizes, audio codecs, frame factors, operating systems and recorder
 states. Each enumeration has its raw value and the failable `init(rawValue:)`.
 */
module ApiConsts {
  import opened Wire

  /** `sampleRate48kHz`, as the whole number the transport details carry. */
  const SampleRate48kHz: u32 := 48000
  const DefaultPort: u16 := 22124
  /** Frame header (marker, id, sequence, length) plus the 2-byte CRC. */
  const PacketHeaderSize: nat := 9
  const PacketHeaderSizeWithoutChecksum: nat := 7
  /** The payload starts right after the header. */
  const PacketDataStartOffset: nat := PacketHeaderSizeWithoutChecksum
  /** Message ids at or above this are never acknowledged. */
  const MessageIdNoAckStart: nat := 1000
  /** Message ids at or below this are never acknowledged. */
  const MessageIdAckStart: nat := 9
  /** Retransmit age and heartbeat timeout, in milliseconds. */
  const RetransmitTimeoutMs: nat := 1000
  const ConnectionTimeoutMs: nat := 15000
  const FrameSamples64: nat := 64
  const MinJitterBuffer: nat := 1
  const DefaultJitterBuffer: nat := 10
  const MaxJitterBuffer: nat := 20
  const AutoJitterBuffer: nat := MaxJitterBuffer + 1

  /** `ChannelPan`: Int16.max / 2 and Int16.max. */
  const PanLeft: u16 := 0
  const PanCenter: u16 := 0x7FFF / 2
  const PanRight: u16 := 0x7FFF

  // ----- OpusCompressedSize: payload sizes of the Opus packets -----

  datatype OpusCompressedSize =
    | MonoLowQuality | MonoNormal | MonoHighQuality
    | MonoLowQualityDouble | MonoNormalDouble | MonoHighQualityDouble
    | StereoLowQuality | StereoNormal | StereoHighQuality
    | StereoLowQualityDouble | StereoNormalDouble | StereoHighQualityDouble

  function OpusRaw(s: OpusCompressedSize): u32 {
    match s
    case MonoLowQuality => 12
    case MonoNormal => 22
    case MonoHighQuality => 36
    case MonoLowQualityDouble => 25
    case MonoNormalDouble => 45
    case MonoHighQualityDouble => 82
    case StereoLowQuality => 24
    case StereoNormal => 35
    case StereoHighQuality => 73
    case StereoLowQualityDouble => 47
    case StereoNormalDouble => 71
    case StereoHighQualityDouble => 165
  }

  /** `OpusCompressedSize(rawValue:)`. */
  function OpusFromRaw(raw: nat): (r: Option<OpusCompressedSize>)
    ensures r.Some? ==> OpusRaw(r.value) == raw
    ensures r.None? ==> forall s :: OpusRaw(s) != raw
  {
    if raw == 12 then Some(MonoLowQuality)
    else if raw == 22 then Some(MonoNormal)
    else if raw == 36 then Some(MonoHighQuality)
    else if raw == 25 then Some(MonoLowQualityDouble)
    else if raw == 45 then Some(MonoNormalDouble)
    else if raw == 82 then Some(MonoHighQualityDouble)
    else if raw == 24 then Some(StereoLowQuality)
    else if raw == 35 then Some(StereoNormal)
    else if raw == 73 then Some(StereoHighQuality)
    else if raw == 47 then Some(StereoLowQualityDouble)
    else if raw == 71 then Some(StereoNormalDouble)
    else if raw == 165 then Some(StereoHighQualityDouble)
    else None
  }

  // ----- AudioCodec -----

  datatype AudioCodec = Raw | Celt | Opus | Opus64

  function CodecRaw(c: AudioCodec): u16 {
    match c
    case Raw => 0
    case Celt => 1
    case Opus => 2
    case Opus64 => 3
  }

  function CodecFromRaw(raw: nat): (r: Option<AudioCodec>)
    ensures r.Some? ==> CodecRaw(r.value) == raw
    ensures r.None? ==> forall c :: CodecRaw(c) != raw
  {
    if raw == 0 then Some(Raw)
    else if raw == 1 then Some(Celt)
    else if raw == 2 then Some(Opus)
    else if raw == 3 then Some(Opus64)
    else None
  }

  // ----- AudioFrameFactor -----

  datatype AudioFrameFactor = Normal | Safe

  function FrameFactorRaw(f: AudioFrameFactor): u16 {
    match f
    case Normal => 1
    case Safe => 2
  }

  function FrameFactorFromRaw(raw: nat): (r: Option<AudioFrameFactor>)
    ensures r.Some? ==> FrameFactorRaw(r.value) == raw
    ensures r.None? ==> forall f :: FrameFactorRaw(f) != raw
  {
    if raw == 1 then Some(Normal) else if raw == 2 then Some(Safe) else None
  }

  /** `AudioFrameFactor.frameSize`: 64 samples per frame factor. */
  function FrameSize(f: AudioFrameFactor): (size: u16)
    ensures size == FrameSamples64 * FrameFactorRaw(f)
    ensures f == Normal ==> size == 64
    ensures f == Safe ==> size == 128
  {
    match f
    case Normal => 64
    case Safe => 128
  }

  // ----- OsType -----

  datatype OsType = Windows | MacOS | Linux | Android | IOS | Unix

  function OsRaw(os: OsType): byte {
    match os
    case Windows => 0
    case MacOS => 1
    case Linux => 2
    case Android => 3
    case IOS => 4
    case Unix => 5
  }

  function OsFromRaw(raw: nat): (r: Option<OsType>)
    ensures r.Some? <==> raw <= 5
    ensures r.Some? ==> OsRaw(r.value) == raw
  {
    if raw == 0 then Some(Windows)
    else if raw == 1 then Some(MacOS)
    else if raw == 2 then Some(Linux)
    else if raw == 3 then Some(Android)
    else if raw == 4 then Some(IOS)
    else if raw == 5 then Some(Unix)
    else None
  }

  // ----- RecorderState -----

  datatype RecorderState = Unknown | NotInitialized | Disabled | Recording

  function RecorderRaw(s: RecorderState): byte {
    match s
    case Unknown => 0
    case NotInitialized => 1
    case Disabled => 2
    case Recording => 3
  }

  function RecorderFromRaw(raw: nat): (r: Option<RecorderState>)
    ensures r.Some? <==> raw <= 3
    ensures r.Some? ==> RecorderRaw(r.value) == raw
  {
    if raw == 0 then Some(Unknown)
    else if raw == 1 then Some(NotInitialized)
    else if raw == 2 then Some(Disabled)
    else if raw == 3 then Some(Recording)
    else None
  }

  /** Every enumeration case survives the trip through its raw value. */
  lemma RawValuesRoundTrip()
    ensures forall s :: OpusFromRaw(OpusRaw(s)) == Some(s)
    ensures forall c :: CodecFromRaw(CodecRaw(c)) == Some(c)
    ensures forall f :: FrameFactorFromRaw(FrameFactorRaw(f)) == Some(f)
    ensures forall os :: OsFromRaw(OsRaw(os)) == Some(os)
    ensures forall s :: RecorderFromRaw(RecorderRaw(s)) == Some(s)
  {
    forall s: OpusCompressedSize ensures OpusFromRaw(OpusRaw(s)) == Some(s) {
      match s
      case MonoLowQuality =>
      case MonoNormal =>
      case MonoHighQuality =>
      case MonoLowQualityDouble =>
      case MonoNormalDouble =>
      case MonoHighQualityDouble =>
      case StereoLowQuality =>
      case StereoNormal =>
      case StereoHighQuality =>
      case StereoLowQualityDouble =>
      case StereoNormalDouble =>
      case StereoHighQualityDouble =>
    }
  }
}
