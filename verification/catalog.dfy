/**
 The two directions of `JamulusMessage` on the wire: `deserialize`, which
 reads the id and the sequence byte from the seven-byte header and hands the
 payload to the parser for that id, and `payload`, which writes the fields
 of the messages that carry any.
 */
module Catalog {
  import opened Wire
  import opened DataExt
  import opened Messages
  import Parsers
  import AudioTransport
  import ApiConsts

  // ----- deserialize -----

  /** What the parser for a kind demands of the payload before it may read:
      the lengths the source indexes up to. The two server lists demand
      that their loops, whose guards are smaller than a record, never read
      past the payload. Kinds with nothing to read demand nothing. */
  predicate Demands(k: Kind, payload: Bytes) {
    if k == KChannelGain || k == KChannelPan then |payload| >= 3
    else if k == KMuteStateChange then |payload| >= 2
    else if k == KSendChannelInfo then |payload| >= 8
    else if k == KVersionAndOsOld || k == KVersionAndOs || k == KClientId then |payload| >= 1
    else if k == KAck || k == KJitterBufSize then |payload| >= 2
    else if k == KAudioTransportProperties then |payload| >= 15
    else if k == KSplitMessageContainer then |payload| >= 4
    else if k == KServerListWithDetails then Parsers.DetailedSafe(payload, 0, 6)
    else if k == KServerList then Parsers.ReducedSafe(payload, 0, 5)
    else true
  }

  /** The demands of the parser an id selects; unknown ids demand nothing. */
  predicate PayloadDefined(id: nat, payload: Bytes) {
    match KindOfId(id)
    case None => true
    case Some(k) => Demands(k, payload)
  }

  /** One case of the switch of `deserialize`: the message of kind `k` read
      from the payload; `sequence` is header byte 4, which only the ack
      keeps. */
  function Build(k: Kind, sequence: byte, payload: Bytes, defaultHost: Bytes): (m: Message)
    requires Demands(k, payload)
    ensures m.Ack? ==> m.sequenceNumber == sequence
  {
    match k
    case KAck => Ack(NumericalValueAt(payload, 0, 2).value, sequence)
    case KJitterBufSize => JitterBufSize(NumericalValueAt(payload, 0, 2).value)
    case KRequestJitterBufSize => RequestJitterBufSize
    case KChannelGain => Parsers.ParseChannelGainFrom(payload)
    case KRequestClientList => RequestClientList
    case KChatText => Parsers.ParseChatTextFrom(payload)
    case KAudioTransportProperties => AudioTransportProperties(AudioTransport.ParseFrom(payload))
    case KRequestAudioTransportProperties => RequestAudioTransportProperties
    case KRequestChannelsInfo => RequestChannelsInfo
    case KClientList => Parsers.ParseClientListFrom(payload)
    case KSendChannelInfo => Parsers.ParseChannelInfoFrom(payload)
    case KLicenseRequired => LicenseRequired
    case KVersionAndOsOld => Parsers.ParseVersionAndOsAckedFrom(payload)
    case KChannelPan => Parsers.ParseChannelPanFrom(payload)
    case KMuteStateChange => Parsers.ParseMuteChangeFrom(payload)
    case KClientId => ClientId(payload[0])
    case KRecorderState => Parsers.ParseRecorderStateFrom(payload)
    case KRequestSplitMessagesSupport => RequestSplitMessagesSupport
    case KSplitMessagesSupport => SplitMessagesSupport
    case KPing => Parsers.ParsePingFrom(payload)
    case KPingPlusClientCount => Parsers.ParsePingAndClientCountFrom(payload)
    case KServerFull => ServerFull
    case KRegisterServer => RegisterServer
    case KUnregisterServer => UnregisterServer
    case KServerListWithDetails => Parsers.ParseServerListWithDetailsFrom(payload, defaultHost)
    case KRequestServerList => RequestServerList
    case KSendEmptyMessage => SendEmptyMessage
    case KEmptyMessage => EmptyMessage
    case KDisconnect => Disconnect
    case KVersionAndOs => Parsers.ParseVersionAndOsFrom(payload)
    case KRequestVersionAndOs => RequestVersionAndOs
    case KClientListNoAck => Parsers.ParseClientListNoAckFrom(payload)
    case KRequestClientListAndDetails => RequestClientListAndDetails
    case KChannelLevelList => Parsers.ParseChannelLevelsFrom(payload)
    case KRegisterServerResponse => RegisterServerResponse
    case KRegisterServerWithDetails => RegisterServerWithDetails
    case KServerList => Parsers.ParseServerListFrom(payload, defaultHost)
    case KSplitMessageContainer => Parsers.ParseSplitMessage(payload)
  }

  /** `Build` makes a message of the kind it is asked for. */
  lemma BuildKind(k: Kind, sequence: byte, payload: Bytes, defaultHost: Bytes)
    requires Demands(k, payload)
    ensures KindOf(Build(k, sequence, payload, defaultHost)) == k
  {
    if AckedLow(k) {
      BuildKindAckedLow(k, sequence, payload, defaultHost);
    } else if AckedHigh(k) {
      BuildKindAckedHigh(k, sequence, payload, defaultHost);
    } else if NoAckLow(k) {
      BuildKindNoAckLow(k, sequence, payload, defaultHost);
    } else {
      BuildKindNoAckHigh(k, sequence, payload, defaultHost);
    }
  }

  /** The acknowledged kinds with ids 1 to 24. */
  predicate AckedLow(k: Kind) {
    || k == KAck || k == KJitterBufSize || k == KRequestJitterBufSize
    || k == KChannelGain || k == KRequestClientList || k == KChatText
    || k == KAudioTransportProperties || k == KRequestAudioTransportProperties || k == KRequestChannelsInfo
    || k == KClientList
  }

  /** The acknowledged kinds with ids 25 to 35. */
  predicate AckedHigh(k: Kind) {
    || k == KSendChannelInfo || k == KLicenseRequired || k == KVersionAndOsOld
    || k == KChannelPan || k == KMuteStateChange || k == KClientId
    || k == KRecorderState || k == KRequestSplitMessagesSupport || k == KSplitMessagesSupport
  }

  /** The unacknowledged kinds with ids 1001 to 1009. */
  predicate NoAckLow(k: Kind) {
    || k == KPing || k == KPingPlusClientCount || k == KServerFull
    || k == KRegisterServer || k == KUnregisterServer || k == KServerListWithDetails
    || k == KRequestServerList || k == KSendEmptyMessage || k == KEmptyMessage
  }

  /** The remaining kinds, with ids 1010 to 1018 and 2001. */
  predicate NoAckHigh(k: Kind) {
    || k == KDisconnect || k == KVersionAndOs || k == KRequestVersionAndOs
    || k == KClientListNoAck || k == KRequestClientListAndDetails || k == KChannelLevelList
    || k == KRegisterServerResponse || k == KRegisterServerWithDetails || k == KServerList
    || k == KSplitMessageContainer
  }

  lemma BuildKindAckedLow(k: Kind, sequence: byte, payload: Bytes, defaultHost: Bytes)
    requires Demands(k, payload) && AckedLow(k)
    ensures KindOf(Build(k, sequence, payload, defaultHost)) == k
  {
    KindOfCase(Build(k, sequence, payload, defaultHost));
  }

  lemma BuildKindAckedHigh(k: Kind, sequence: byte, payload: Bytes, defaultHost: Bytes)
    requires Demands(k, payload) && AckedHigh(k)
    ensures KindOf(Build(k, sequence, payload, defaultHost)) == k
  {
    KindOfCase(Build(k, sequence, payload, defaultHost));
  }

  lemma BuildKindNoAckLow(k: Kind, sequence: byte, payload: Bytes, defaultHost: Bytes)
    requires Demands(k, payload) && NoAckLow(k)
    ensures KindOf(Build(k, sequence, payload, defaultHost)) == k
  {
    KindOfCase(Build(k, sequence, payload, defaultHost));
  }

  lemma BuildKindNoAckHigh(k: Kind, sequence: byte, payload: Bytes, defaultHost: Bytes)
    requires Demands(k, payload) && NoAckHigh(k)
    ensures KindOf(Build(k, sequence, payload, defaultHost)) == k
  {
    KindOfCase(Build(k, sequence, payload, defaultHost));
  }

  /** The switch of `deserialize`: the message an id stands for, read from
      the payload, and nothing for an id outside the table. */
  function Dispatch(id: nat, sequence: byte, payload: Bytes, defaultHost: Bytes): (r: Option<Message>)
    requires PayloadDefined(id, payload)
    ensures r.Some? <==> id in KnownIds
    ensures r.Some? ==> MessageId(r.value) == id
    ensures r.Some? && r.value.Ack? ==> r.value.sequenceNumber == sequence
  {
    match KindOfId(id)
    case None => None
    case Some(k) =>
      var m := Build(k, sequence, payload, defaultHost);
      BuildKind(k, sequence, payload, defaultHost);
      KindIdOfMessage(m);
      KindOfIdInverse(id);
      Some(m)
  }

  /** The message id a frame declares: the little-endian word at bytes 2-3. */
  function FrameId(data: Bytes): (id: u16)
    requires |data| >= 4
    ensures ToLe(id, 2) == data[2..4]
  {
    NumericalValueAt(data, 2, 2).value
  }

  /** The payload of a frame without its checksum: everything after the
      seven header bytes. */
  function FramePayload(data: Bytes): (p: Bytes)
    requires |data| >= ApiConsts.PacketHeaderSizeWithoutChecksum
    ensures |p| + 7 == |data| && data[7..] == p
  {
    data[ApiConsts.PacketDataStartOffset..]
  }

  /** `deserialize(from:defaultHost:)`: nothing for fewer than seven bytes;
      otherwise the message the header's id stands for, or nothing for an
      id outside the table. */
  function Deserialize(data: Bytes, defaultHost: Bytes): (r: Option<Message>)
    requires |data| >= 7 ==> PayloadDefined(FrameId(data), FramePayload(data))
    ensures |data| < 7 ==> r.None?
    ensures |data| >= 7 ==>
              && (r.Some? <==> FrameId(data) in KnownIds)
              && (r.Some? ==> MessageId(r.value) == FrameId(data))
    ensures r.Some? && r.value.Ack? ==> r.value.sequenceNumber == data[4]
  {
    if |data| < ApiConsts.PacketHeaderSizeWithoutChecksum then None
    else Dispatch(FrameId(data), data[4], FramePayload(data), defaultHost)
  }

  // ----- payload -----

  /** The messages `payload` can write: the channel-info encoder is not part
      of this model, a chat text longer than 65535 bytes traps on its
      `UInt16` length and a client count above 255 traps on `UInt8`. */
  predicate Encodable(m: Message) {
    && !m.SendChannelInfo?
    && (m.ChatText? ==> |m.text| < 0x1_0000)
    && (m.PingPlusClientCount? ==> m.clientCount < 0x100)
  }

  /** `payload`: the fields of the messages that have them, little-endian;
      every other message has an empty payload. Only a chat text can be
      longer than an audio-transport record. */
  function Payload(m: Message): (r: Bytes)
    requires Encodable(m)
    ensures m.ChatText? ==> |r| == 2 + |m.text|
    ensures !m.ChatText? ==> |r| <= 19
  {
    if m.ChannelGain? then ChannelWord(m.channel, m.gain)
    else if m.ChannelPan? then ChannelWord(m.channel, m.pan)
    else if m.MuteStateChange? then [m.channel, if m.muted then 1 else 0]
    else if m.Ack? then ToLe(m.ackType, 2)
    else if m.Ping? then ToLe(m.timeStamp, 4)
    else if m.JitterBufSize? then ToLe(m.size, 2)
    else if m.ChatText? then ChatBytes(m.text)
    else if m.AudioTransportProperties? then AudioTransport.Encode(m.transport)
    else if m.ClientId? then [m.id]
    else if m.PingPlusClientCount? then PingCountBytes(m.timeStamp, m.clientCount)
    else []
  }

  /** A channel byte followed by a little-endian word. */
  function ChannelWord(channel: byte, value: u16): (r: Bytes)
    ensures |r| == 3 && r[0] == channel && Le(r[1..]) == value
  {
    var r := [channel] + ToLe(value, 2);
    assert r[1..] == ToLe(value, 2);
    r
  }

  /** A chat text behind its two-byte length. */
  function ChatBytes(text: Bytes): (r: Bytes)
    requires |text| < 0x1_0000
    ensures |r| == 2 + |text| && Le(r[..2]) == |text| && r[2..] == text
  {
    var r := ToLe(|text|, 2) + text;
    assert r[..2] == ToLe(|text|, 2);
    r
  }

  /** A timestamp (four bytes) and a count byte. */
  function PingCountBytes(timeStamp: u32, count: byte): (r: Bytes)
    ensures |r| == 5 && Le(r[..4]) == timeStamp && r[4] == count
  {
    var r := ToLe(timeStamp, 4) + [count];
    assert r[..4] == ToLe(timeStamp, 4);
    r
  }

  // ----- round trips -----

  /** The seven-byte header of a frame: two zero bytes, the id, the
      sequence byte and the payload length. */
  function Header(id: u16, sequence: byte, length: u16): (h: Bytes)
    ensures |h| == 7
  {
    [0, 0] + ToLe(id, 2) + [sequence] + ToLe(length, 2)
  }

  /** Where the fields sit in a header followed by a payload. */
  lemma HeaderFields(id: u16, sequence: byte, length: u16, payload: Bytes)
    ensures var data := Header(id, sequence, length) + payload;
            && FrameId(data) == id && data[4] == sequence && FramePayload(data) == payload
  {
    var data := Header(id, sequence, length) + payload;
    assert data[2..4] == ToLe(id, 2);
    LeInjective(ToLe(FrameId(data), 2), ToLe(id, 2));
  }

  /** The messages with fields that `payload` does not write: the lists,
      versions, recorder states and split containers a client only
      receives, and the channel info whose encoder is not part of this
      model. */
  predicate Unwritten(m: Message) {
    || m.ClientList? || m.ClientListNoAck? || m.ServerListWithDetails? || m.ServerList?
    || m.ChannelLevelList? || m.VersionAndOsOld? || m.VersionAndOs? || m.RecorderState?
    || m.SplitMessageContainer? || m.SendChannelInfo?
  }

  /** The messages whose payload reads back as the message itself: every
      message `payload` can write, except those whose fields it drops. */
  predicate RoundTrips(m: Message) {
    Encodable(m) && !Unwritten(m)
  }

  /** The messages without fields, which `deserialize` builds from the id
      alone. */
  predicate FieldLess(m: Message) {
    || m.RequestClientList? || m.RequestAudioTransportProperties? || m.RequestChannelsInfo?
    || m.RequestJitterBufSize? || m.ServerFull? || m.LicenseRequired? || m.RequestVersionAndOs?
    || m.Disconnect? || m.RegisterServer? || m.UnregisterServer? || m.RequestServerList?
    || m.SendEmptyMessage? || m.EmptyMessage? || m.RequestClientListAndDetails?
    || m.RegisterServerResponse? || m.RegisterServerWithDetails? || m.RequestSplitMessagesSupport?
    || m.SplitMessagesSupport?
  }

  /** The payload of a message that round-trips satisfies its parser's
      demands, and the parser for its id gives the message back; an ack
      takes its sequence number from the header. */
  lemma DispatchPayload(m: Message, sequence: byte, defaultHost: Bytes)
    requires RoundTrips(m)
    requires m.Ack? ==> m.sequenceNumber == sequence
    ensures PayloadDefined(MessageId(m), Payload(m))
    ensures Dispatch(MessageId(m), sequence, Payload(m), defaultHost) == Some(m)
  {
    KindOfMessageId(m);
    BuildPayload(m, sequence, defaultHost);
  }

  /** The same, one kind at a time. */
  lemma BuildPayload(m: Message, sequence: byte, defaultHost: Bytes)
    requires RoundTrips(m)
    requires m.Ack? ==> m.sequenceNumber == sequence
    ensures Demands(KindOf(m), Payload(m))
    ensures Build(KindOf(m), sequence, Payload(m), defaultHost) == m
  {
    KindOfCase(m);
    match m
    case Ping(ts) => PingPayload(ts, sequence, defaultHost);
    case PingPlusClientCount(count, ts) => PingCountPayload(count, ts, sequence, defaultHost);
    case Ack(ackType, _) => AckPayload(ackType, sequence, defaultHost);
    case JitterBufSize(size) => JitterPayload(size, sequence, defaultHost);
    case ChannelGain(channel, gain) => GainPayload(channel, gain, sequence, defaultHost);
    case ChannelPan(channel, pan) => PanPayload(channel, pan, sequence, defaultHost);
    case MuteStateChange(channel, muted) => MutePayload(channel, muted, sequence, defaultHost);
    case ClientId(id) => ClientIdPayload(id, sequence, defaultHost);
    case ChatText(text) => ChatPayload(text, sequence, defaultHost);
    case AudioTransportProperties(details) => AudioPayload(details, sequence, defaultHost);
    case _ => FieldLessPayload(m, sequence, defaultHost);
  }

  lemma PingPayload(ts: u32, sequence: byte, defaultHost: Bytes)
    ensures Demands(KPing, Payload(Ping(ts)))
    ensures Build(KPing, sequence, Payload(Ping(ts)), defaultHost) == Ping(ts)
  {
    var p := Payload(Ping(ts));
    assert p == p[0..4];
  }

  lemma PingCountPayload(count: u64, ts: u32, sequence: byte, defaultHost: Bytes)
    requires count < 0x100
    ensures Demands(KPingPlusClientCount, Payload(PingPlusClientCount(count, ts)))
    ensures Build(KPingPlusClientCount, sequence, Payload(PingPlusClientCount(count, ts)), defaultHost)
            == PingPlusClientCount(count, ts)
  {
    var p := Payload(PingPlusClientCount(count, ts));
    assert p == PingCountBytes(ts, count);
    var m := Parsers.ParsePingAndClientCountFrom(p);
    assert Build(KPingPlusClientCount, sequence, p, defaultHost) == m;
    assert m.timeStamp == ts by {
      assert Le(ToLe(m.timeStamp, 4)) == Le(p[..4]);
    }
  }

  lemma AckPayload(ackType: u16, sequence: byte, defaultHost: Bytes)
    ensures Demands(KAck, Payload(Ack(ackType, sequence)))
    ensures Build(KAck, sequence, Payload(Ack(ackType, sequence)), defaultHost) == Ack(ackType, sequence)
  {
    var p := Payload(Ack(ackType, sequence));
    assert p == p[0..2];
  }

  lemma JitterPayload(size: u16, sequence: byte, defaultHost: Bytes)
    ensures Demands(KJitterBufSize, Payload(JitterBufSize(size)))
    ensures Build(KJitterBufSize, sequence, Payload(JitterBufSize(size)), defaultHost) == JitterBufSize(size)
  {
    var p := Payload(JitterBufSize(size));
    assert p == p[0..2];
  }

  lemma GainPayload(channel: byte, gain: u16, sequence: byte, defaultHost: Bytes)
    ensures Demands(KChannelGain, Payload(ChannelGain(channel, gain)))
    ensures Build(KChannelGain, sequence, Payload(ChannelGain(channel, gain)), defaultHost) == ChannelGain(channel, gain)
  {
    var p := Payload(ChannelGain(channel, gain));
    assert p[1..] == p[1..3];
  }

  lemma PanPayload(channel: byte, pan: u16, sequence: byte, defaultHost: Bytes)
    ensures Demands(KChannelPan, Payload(ChannelPan(channel, pan)))
    ensures Build(KChannelPan, sequence, Payload(ChannelPan(channel, pan)), defaultHost) == ChannelPan(channel, pan)
  {
    var p := Payload(ChannelPan(channel, pan));
    assert p[1..] == p[1..3];
  }

  lemma MutePayload(channel: byte, muted: bool, sequence: byte, defaultHost: Bytes)
    ensures Demands(KMuteStateChange, Payload(MuteStateChange(channel, muted)))
    ensures Build(KMuteStateChange, sequence, Payload(MuteStateChange(channel, muted)), defaultHost)
            == MuteStateChange(channel, muted)
  {
  }

  lemma ClientIdPayload(id: byte, sequence: byte, defaultHost: Bytes)
    ensures Demands(KClientId, Payload(ClientId(id)))
    ensures Build(KClientId, sequence, Payload(ClientId(id)), defaultHost) == ClientId(id)
  {
  }

  lemma AudioPayload(details: AudioTransport.AudioTransportDetails, sequence: byte, defaultHost: Bytes)
    ensures Demands(KAudioTransportProperties, Payload(AudioTransportProperties(details)))
    ensures Build(KAudioTransportProperties, sequence, Payload(AudioTransportProperties(details)), defaultHost)
            == AudioTransportProperties(details)
  {
    var p := Payload(AudioTransportProperties(details));
    assert p == AudioTransport.Encode(details);
    AudioTransport.ParseEncode(details);
    assert Build(KAudioTransportProperties, sequence, p, defaultHost) == AudioTransportProperties(AudioTransport.ParseFrom(p));
  }

  lemma ChatPayload(text: Bytes, sequence: byte, defaultHost: Bytes)
    requires |text| < 0x1_0000
    ensures Demands(KChatText, Payload(ChatText(text)))
    ensures Build(KChatText, sequence, Payload(ChatText(text)), defaultHost) == ChatText(text)
  {
    var p := Payload(ChatText(text));
    assert p[0..2] == p[..2];
    if |text| > 0 {
      assert p[2..2 + |text|] == text;
    }
  }

  /** A message without fields has an empty payload, which demands
      nothing, and the id alone builds it back. */
  lemma FieldLessPayload(m: Message, sequence: byte, defaultHost: Bytes)
    requires FieldLess(m)
    ensures Demands(KindOf(m), Payload(m))
    ensures Build(KindOf(m), sequence, Payload(m), defaultHost) == m
  {
    if m.RequestClientList? || m.RequestAudioTransportProperties? || m.RequestChannelsInfo? {
      FieldLessRequests(m, sequence, defaultHost);
    } else if m.RequestJitterBufSize? || m.RequestVersionAndOs? || m.RequestServerList? {
      FieldLessQueries(m, sequence, defaultHost);
    } else if m.RequestClientListAndDetails? || m.RequestSplitMessagesSupport? || m.SplitMessagesSupport? {
      FieldLessReplies(m, sequence, defaultHost);
    } else if m.ServerFull? || m.LicenseRequired? || m.Disconnect? {
      FieldLessRefusals(m, sequence, defaultHost);
    } else if m.RegisterServer? || m.UnregisterServer? || m.RegisterServerResponse? {
      FieldLessServerSignals(m, sequence, defaultHost);
    } else {
      FieldLessEmpty(m, sequence, defaultHost);
    }
  }

  /** Field-less payloads: the requests for lists and properties. */
  lemma FieldLessRequests(m: Message, sequence: byte, defaultHost: Bytes)
    requires m.RequestClientList? || m.RequestAudioTransportProperties? || m.RequestChannelsInfo?
    ensures Payload(m) == [] && Demands(KindOf(m), [])
    ensures Build(KindOf(m), sequence, [], defaultHost) == m
  {
    KindOfCase(m);
    if m.RequestClientList? {
      assert Build(KRequestClientList, sequence, [], defaultHost) == m;
    } else if m.RequestAudioTransportProperties? {
      assert Build(KRequestAudioTransportProperties, sequence, [], defaultHost) == m;
    } else {
      assert Build(KRequestChannelsInfo, sequence, [], defaultHost) == m;
    }
  }

  /** Field-less payloads: the remaining requests. */
  lemma FieldLessQueries(m: Message, sequence: byte, defaultHost: Bytes)
    requires m.RequestJitterBufSize? || m.RequestVersionAndOs? || m.RequestServerList?
    ensures Payload(m) == [] && Demands(KindOf(m), [])
    ensures Build(KindOf(m), sequence, [], defaultHost) == m
  {
    KindOfCase(m);
    if m.RequestJitterBufSize? {
      assert Build(KRequestJitterBufSize, sequence, [], defaultHost) == m;
    } else if m.RequestVersionAndOs? {
      assert Build(KRequestVersionAndOs, sequence, [], defaultHost) == m;
    } else {
      assert Build(KRequestServerList, sequence, [], defaultHost) == m;
    }
  }

  /** Field-less payloads: the split-support exchange. */
  lemma FieldLessReplies(m: Message, sequence: byte, defaultHost: Bytes)
    requires m.RequestClientListAndDetails? || m.RequestSplitMessagesSupport? || m.SplitMessagesSupport?
    ensures Payload(m) == [] && Demands(KindOf(m), [])
    ensures Build(KindOf(m), sequence, [], defaultHost) == m
  {
    KindOfCase(m);
    if m.RequestClientListAndDetails? {
      assert Build(KRequestClientListAndDetails, sequence, [], defaultHost) == m;
    } else if m.RequestSplitMessagesSupport? {
      assert Build(KRequestSplitMessagesSupport, sequence, [], defaultHost) == m;
    } else {
      assert Build(KSplitMessagesSupport, sequence, [], defaultHost) == m;
    }
  }

  /** Field-less payloads: refusals and the disconnect. */
  lemma FieldLessRefusals(m: Message, sequence: byte, defaultHost: Bytes)
    requires m.ServerFull? || m.LicenseRequired? || m.Disconnect?
    ensures Payload(m) == [] && Demands(KindOf(m), [])
    ensures Build(KindOf(m), sequence, [], defaultHost) == m
  {
    KindOfCase(m);
    if m.ServerFull? {
      assert Build(KServerFull, sequence, [], defaultHost) == m;
    } else if m.LicenseRequired? {
      assert Build(KLicenseRequired, sequence, [], defaultHost) == m;
    } else {
      assert Build(KDisconnect, sequence, [], defaultHost) == m;
    }
  }

  /** Field-less payloads: server registration. */
  lemma FieldLessServerSignals(m: Message, sequence: byte, defaultHost: Bytes)
    requires m.RegisterServer? || m.UnregisterServer? || m.RegisterServerResponse?
    ensures Payload(m) == [] && Demands(KindOf(m), [])
    ensures Build(KindOf(m), sequence, [], defaultHost) == m
  {
    KindOfCase(m);
    if m.RegisterServer? {
      assert Build(KRegisterServer, sequence, [], defaultHost) == m;
    } else if m.UnregisterServer? {
      assert Build(KUnregisterServer, sequence, [], defaultHost) == m;
    } else {
      assert Build(KRegisterServerResponse, sequence, [], defaultHost) == m;
    }
  }

  /** Field-less payloads: the empty messages. */
  lemma FieldLessEmpty(m: Message, sequence: byte, defaultHost: Bytes)
    requires m.SendEmptyMessage? || m.EmptyMessage? || m.RegisterServerWithDetails?
    ensures Payload(m) == [] && Demands(KindOf(m), [])
    ensures Build(KindOf(m), sequence, [], defaultHost) == m
  {
    KindOfCase(m);
    if m.SendEmptyMessage? {
      assert Build(KSendEmptyMessage, sequence, [], defaultHost) == m;
    } else if m.EmptyMessage? {
      assert Build(KEmptyMessage, sequence, [], defaultHost) == m;
    } else {
      assert Build(KRegisterServerWithDetails, sequence, [], defaultHost) == m;
    }
  }

  /** `deserialize(header ++ payload(m)) == m` for every message that round
      trips, whatever the length field says; an ack's header carries its
      own sequence number. */
  lemma DeserializePayload(m: Message, sequence: byte, length: u16, defaultHost: Bytes)
    requires RoundTrips(m)
    requires m.Ack? ==> m.sequenceNumber == sequence
    ensures var data := Header(MessageId(m), sequence, length) + Payload(m);
            && PayloadDefined(FrameId(data), FramePayload(data))
            && Deserialize(data, defaultHost) == Some(m)
  {
    HeaderFields(MessageId(m), sequence, length, Payload(m));
    DispatchPayload(m, sequence, defaultHost);
  }
}
