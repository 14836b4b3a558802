/**
 `JamulusMessage`: the tagged union of protocol messages, the message-id
 table, the acknowledgement rule and the sequence-number override of acks.
 Also the packet classification a received datagram ends up in, and the
 error and connection-state shapes the session uses.
 */
module Messages {
  import opened Wire
  import ChannelInfos
  import ServerDetails
  import AudioTransport
  import ApiConsts

  datatype Message =
    | ClientId(id: byte)
    | SendChannelInfo(info: ChannelInfos.ChannelInfo)
    | RequestClientList
    | RequestAudioTransportProperties
    | AudioTransportProperties(transport: AudioTransport.AudioTransportDetails)
    | RequestChannelsInfo
    | RequestJitterBufSize
    | JitterBufSize(size: u16)
    | ServerFull
    | LicenseRequired
    | RequestVersionAndOs
    | VersionAndOsOld(version: Bytes, os: ApiConsts.OsType)
    | VersionAndOs(version: Bytes, os: ApiConsts.OsType)
    | Disconnect
    | ClientList(channelInfo: seq<ChannelInfos.ChannelInfo>)
    | ChannelLevelList(levels: seq<byte>)
    | ChannelGain(channel: byte, gain: u16)
    | ChannelPan(channel: byte, pan: u16)
    | MuteStateChange(channel: byte, muted: bool)
    | ChatText(text: Bytes)
    | RecorderState(state: ApiConsts.RecorderState)
    | RegisterServer
    | UnregisterServer
    | ServerListWithDetails(details: seq<ServerDetails.ServerDetail>)
    | RequestServerList
    | SendEmptyMessage
    | EmptyMessage
    | RequestClientListAndDetails
    | ClientListNoAck(channelInfo: seq<ChannelInfos.ChannelInfo>)
    | RegisterServerResponse
    | RegisterServerWithDetails
    | ServerList(details: seq<ServerDetails.ServerDetail>)
    | RequestSplitMessagesSupport
    | SplitMessagesSupport
    | SplitMessageContainer(splitId: u16, totalParts: byte, part: byte, payload: Bytes)
    | Ack(ackType: u16, sequenceNumber: byte)
    | Ping(timeStamp: u32)
    | PingPlusClientCount(clientCount: u64, timeStamp: u32)

  /** `messageId`: the protocol number of each kind of message. Ids 1 to 999
      are acknowledged (except the ack itself), the 1000 series is not, and
      2001 is the split-message container. */
  function MessageId(m: Message): u16 {
    match m
    case Ack(_, _) => 1
    case JitterBufSize(_) => 10
    case RequestJitterBufSize => 11
    case ChannelGain(_, _) => 13
    case RequestClientList => 16
    case ChatText(_) => 18
    case AudioTransportProperties(_) => 20
    case RequestAudioTransportProperties => 21
    case RequestChannelsInfo => 23
    case ClientList(_) => 24
    case SendChannelInfo(_) => 25
    case LicenseRequired => 27
    case VersionAndOsOld(_, _) => 29
    case ChannelPan(_, _) => 30
    case MuteStateChange(_, _) => 31
    case ClientId(_) => 32
    case RecorderState(_) => 33
    case RequestSplitMessagesSupport => 34
    case SplitMessagesSupport => 35
    case Ping(_) => 1001
    case PingPlusClientCount(_, _) => 1002
    case ServerFull => 1003
    case RegisterServer => 1004
    case UnregisterServer => 1005
    case ServerListWithDetails(_) => 1006
    case RequestServerList => 1007
    case SendEmptyMessage => 1008
    case EmptyMessage => 1009
    case Disconnect => 1010
    case VersionAndOs(_, _) => 1011
    case RequestVersionAndOs => 1012
    case ClientListNoAck(_) => 1013
    case RequestClientListAndDetails => 1014
    case ChannelLevelList(_) => 1015
    case RegisterServerResponse => 1016
    case RegisterServerWithDetails => 1017
    case ServerList(_) => 1018
    case SplitMessageContainer(_, _, _, _) => 2001
  }

  /** The kind of a message: which case it is, without its fields. */
  datatype Kind =
    | KClientId | KSendChannelInfo | KRequestClientList | KRequestAudioTransportProperties
    | KAudioTransportProperties | KRequestChannelsInfo | KRequestJitterBufSize | KJitterBufSize
    | KServerFull | KLicenseRequired | KRequestVersionAndOs | KVersionAndOsOld | KVersionAndOs
    | KDisconnect | KClientList | KChannelLevelList | KChannelGain | KChannelPan
    | KMuteStateChange | KChatText | KRecorderState | KRegisterServer | KUnregisterServer
    | KServerListWithDetails | KRequestServerList | KSendEmptyMessage | KEmptyMessage
    | KRequestClientListAndDetails | KClientListNoAck | KRegisterServerResponse
    | KRegisterServerWithDetails | KServerList | KRequestSplitMessagesSupport
    | KSplitMessagesSupport | KSplitMessageContainer | KAck | KPing | KPingPlusClientCount

  function KindOf(m: Message): Kind {
    match m
    case ClientId(_) => KClientId
    case SendChannelInfo(_) => KSendChannelInfo
    case RequestClientList => KRequestClientList
    case RequestAudioTransportProperties => KRequestAudioTransportProperties
    case AudioTransportProperties(_) => KAudioTransportProperties
    case RequestChannelsInfo => KRequestChannelsInfo
    case RequestJitterBufSize => KRequestJitterBufSize
    case JitterBufSize(_) => KJitterBufSize
    case ServerFull => KServerFull
    case LicenseRequired => KLicenseRequired
    case RequestVersionAndOs => KRequestVersionAndOs
    case VersionAndOsOld(_, _) => KVersionAndOsOld
    case VersionAndOs(_, _) => KVersionAndOs
    case Disconnect => KDisconnect
    case ClientList(_) => KClientList
    case ChannelLevelList(_) => KChannelLevelList
    case ChannelGain(_, _) => KChannelGain
    case ChannelPan(_, _) => KChannelPan
    case MuteStateChange(_, _) => KMuteStateChange
    case ChatText(_) => KChatText
    case RecorderState(_) => KRecorderState
    case RegisterServer => KRegisterServer
    case UnregisterServer => KUnregisterServer
    case ServerListWithDetails(_) => KServerListWithDetails
    case RequestServerList => KRequestServerList
    case SendEmptyMessage => KSendEmptyMessage
    case EmptyMessage => KEmptyMessage
    case RequestClientListAndDetails => KRequestClientListAndDetails
    case ClientListNoAck(_) => KClientListNoAck
    case RegisterServerResponse => KRegisterServerResponse
    case RegisterServerWithDetails => KRegisterServerWithDetails
    case ServerList(_) => KServerList
    case RequestSplitMessagesSupport => KRequestSplitMessagesSupport
    case SplitMessagesSupport => KSplitMessagesSupport
    case SplitMessageContainer(_, _, _, _) => KSplitMessageContainer
    case Ack(_, _) => KAck
    case Ping(_) => KPing
    case PingPlusClientCount(_, _) => KPingPlusClientCount
  }

  /** The kind of a message is read off its case: one fact per case, so
      that a caller holding only the case need not unfold the whole table. */
  lemma KindOfCase(m: Message)
    ensures m.ClientId? ==> KindOf(m) == KClientId
    ensures m.SendChannelInfo? ==> KindOf(m) == KSendChannelInfo
    ensures m.RequestClientList? ==> KindOf(m) == KRequestClientList
    ensures m.RequestAudioTransportProperties? ==> KindOf(m) == KRequestAudioTransportProperties
    ensures m.AudioTransportProperties? ==> KindOf(m) == KAudioTransportProperties
    ensures m.RequestChannelsInfo? ==> KindOf(m) == KRequestChannelsInfo
    ensures m.RequestJitterBufSize? ==> KindOf(m) == KRequestJitterBufSize
    ensures m.JitterBufSize? ==> KindOf(m) == KJitterBufSize
    ensures m.ServerFull? ==> KindOf(m) == KServerFull
    ensures m.LicenseRequired? ==> KindOf(m) == KLicenseRequired
    ensures m.RequestVersionAndOs? ==> KindOf(m) == KRequestVersionAndOs
    ensures m.VersionAndOsOld? ==> KindOf(m) == KVersionAndOsOld
    ensures m.VersionAndOs? ==> KindOf(m) == KVersionAndOs
    ensures m.Disconnect? ==> KindOf(m) == KDisconnect
    ensures m.ClientList? ==> KindOf(m) == KClientList
    ensures m.ChannelLevelList? ==> KindOf(m) == KChannelLevelList
    ensures m.ChannelGain? ==> KindOf(m) == KChannelGain
    ensures m.ChannelPan? ==> KindOf(m) == KChannelPan
    ensures m.MuteStateChange? ==> KindOf(m) == KMuteStateChange
    ensures m.ChatText? ==> KindOf(m) == KChatText
    ensures m.RecorderState? ==> KindOf(m) == KRecorderState
    ensures m.RegisterServer? ==> KindOf(m) == KRegisterServer
    ensures m.UnregisterServer? ==> KindOf(m) == KUnregisterServer
    ensures m.ServerListWithDetails? ==> KindOf(m) == KServerListWithDetails
    ensures m.RequestServerList? ==> KindOf(m) == KRequestServerList
    ensures m.SendEmptyMessage? ==> KindOf(m) == KSendEmptyMessage
    ensures m.EmptyMessage? ==> KindOf(m) == KEmptyMessage
    ensures m.RequestClientListAndDetails? ==> KindOf(m) == KRequestClientListAndDetails
    ensures m.ClientListNoAck? ==> KindOf(m) == KClientListNoAck
    ensures m.RegisterServerResponse? ==> KindOf(m) == KRegisterServerResponse
    ensures m.RegisterServerWithDetails? ==> KindOf(m) == KRegisterServerWithDetails
    ensures m.ServerList? ==> KindOf(m) == KServerList
    ensures m.RequestSplitMessagesSupport? ==> KindOf(m) == KRequestSplitMessagesSupport
    ensures m.SplitMessagesSupport? ==> KindOf(m) == KSplitMessagesSupport
    ensures m.SplitMessageContainer? ==> KindOf(m) == KSplitMessageContainer
    ensures m.Ack? ==> KindOf(m) == KAck
    ensures m.Ping? ==> KindOf(m) == KPing
    ensures m.PingPlusClientCount? ==> KindOf(m) == KPingPlusClientCount
  {
  }

  /** The kind a message id stands for, if any: the reverse of the id table. */
  function KindOfId(id: nat): (k: Option<Kind>)
    ensures k.Some? <==> id in KnownIds
  {
    if id == 1 then Some(KAck)
    else if id == 10 then Some(KJitterBufSize)
    else if id == 11 then Some(KRequestJitterBufSize)
    else if id == 13 then Some(KChannelGain)
    else if id == 16 then Some(KRequestClientList)
    else if id == 18 then Some(KChatText)
    else if id == 20 then Some(KAudioTransportProperties)
    else if id == 21 then Some(KRequestAudioTransportProperties)
    else if id == 23 then Some(KRequestChannelsInfo)
    else if id == 24 then Some(KClientList)
    else if id == 25 then Some(KSendChannelInfo)
    else if id == 27 then Some(KLicenseRequired)
    else if id == 29 then Some(KVersionAndOsOld)
    else if id == 30 then Some(KChannelPan)
    else if id == 31 then Some(KMuteStateChange)
    else if id == 32 then Some(KClientId)
    else if id == 33 then Some(KRecorderState)
    else if id == 34 then Some(KRequestSplitMessagesSupport)
    else if id == 35 then Some(KSplitMessagesSupport)
    else if id == 2001 then Some(KSplitMessageContainer)
    else if 1001 <= id <= 1018 then Some(NoAckKind(id))
    else None
  }

  /** The 1000-series kinds, in id order. */
  function NoAckKind(id: nat): Kind
    requires 1001 <= id <= 1018
  {
    [KPing, KPingPlusClientCount, KServerFull, KRegisterServer, KUnregisterServer,
     KServerListWithDetails, KRequestServerList, KSendEmptyMessage, KEmptyMessage, KDisconnect,
     KVersionAndOs, KRequestVersionAndOs, KClientListNoAck, KRequestClientListAndDetails,
     KChannelLevelList, KRegisterServerResponse, KRegisterServerWithDetails, KServerList][id - 1001]
  }

  /** The ids the table uses. */
  const KnownIds: set<nat> :=
    {1, 10, 11, 13, 16, 18, 20, 21, 23, 24, 25, 27, 29, 30, 31, 32, 33, 34, 35, 2001}
    + set id | 1001 <= id <= 1018

  /** The id of a kind: the table read forwards. */
  function KindId(k: Kind): u16 {
    match k
    case KAck => 1
    case KJitterBufSize => 10
    case KRequestJitterBufSize => 11
    case KChannelGain => 13
    case KRequestClientList => 16
    case KChatText => 18
    case KAudioTransportProperties => 20
    case KRequestAudioTransportProperties => 21
    case KRequestChannelsInfo => 23
    case KClientList => 24
    case KSendChannelInfo => 25
    case KLicenseRequired => 27
    case KVersionAndOsOld => 29
    case KChannelPan => 30
    case KMuteStateChange => 31
    case KClientId => 32
    case KRecorderState => 33
    case KRequestSplitMessagesSupport => 34
    case KSplitMessagesSupport => 35
    case KPing => 1001
    case KPingPlusClientCount => 1002
    case KServerFull => 1003
    case KRegisterServer => 1004
    case KUnregisterServer => 1005
    case KServerListWithDetails => 1006
    case KRequestServerList => 1007
    case KSendEmptyMessage => 1008
    case KEmptyMessage => 1009
    case KDisconnect => 1010
    case KVersionAndOs => 1011
    case KRequestVersionAndOs => 1012
    case KClientListNoAck => 1013
    case KRequestClientListAndDetails => 1014
    case KChannelLevelList => 1015
    case KRegisterServerResponse => 1016
    case KRegisterServerWithDetails => 1017
    case KServerList => 1018
    case KSplitMessageContainer => 2001
  }

  /** A message's id is the id of its kind. */
  lemma KindIdOfMessage(m: Message)
    ensures KindId(KindOf(m)) == MessageId(m)
  {
  }

  /** Reading the table backwards and then forwards gives the id back. */
  lemma KindOfIdInverse(id: nat)
    requires id in KnownIds
    ensures KindId(KindOfId(id).value) == id
  {
    if 1001 <= id <= 1018 {
      NoAckKindInverse(id);
    } else if id < 25 {
      AckedKindInverse(id);
    }
  }

  lemma AckedKindInverse(id: nat)
    requires id in KnownIds && id < 25
    ensures KindId(KindOfId(id).value) == id
  {
  }

  lemma NoAckKindInverse(id: nat)
    requires 1001 <= id <= 1018
    ensures KindId(NoAckKind(id)) == id
  {
  }

  /** Every message's id names its own kind: the table read backwards gives
      the kind back. */
  lemma KindOfMessageId(m: Message)
    ensures KindOfId(MessageId(m)) == Some(KindOf(m))
  {
  }

  /** No two kinds of message share an id, and equal kinds have equal ids. */
  lemma MessageIdInjective(a: Message, b: Message)
    ensures MessageId(a) == MessageId(b) <==> KindOf(a) == KindOf(b)
  {
    KindOfMessageId(a);
    KindOfMessageId(b);
    if KindOf(a) == KindOf(b) {
      KindIdDetermined(a, b);
    }
  }

  /** Messages of one kind have one id. */
  lemma KindIdDetermined(a: Message, b: Message)
    requires KindOf(a) == KindOf(b)
    ensures MessageId(a) == MessageId(b)
  {
    KindIdOfMessage(a);
    KindIdOfMessage(b);
  }

  /** `needsAck`: acknowledged exactly when the id lies strictly between 9
      and 1000 and is not the ack's own id. */
  predicate NeedsAck(m: Message) {
    MessageId(m) != 1 && MessageId(m) < ApiConsts.MessageIdNoAckStart && MessageId(m) > ApiConsts.MessageIdAckStart
  }

  /** Which messages are acknowledged: everything in the 10-35 range, and
      neither the ack, nor the 1000 series, nor the split container. */
  lemma NeedsAckCases(m: Message)
    ensures NeedsAck(m) <==> 10 <= MessageId(m) <= 35
    ensures m.Ack? || m.SplitMessageContainer? || MessageId(m) >= 1000 ==> !NeedsAck(m)
  {
  }

  /** `sequenceNumberOverride`: an ack carries the sequence number of the
      message it acknowledges; every other message takes the next one. */
  function SequenceNumberOverride(m: Message): (r: Option<byte>)
    ensures r.Some? <==> m.Ack?
    ensures m.Ack? ==> r == Some(m.sequenceNumber)
  {
    match m
    case Ack(_, sequence) => Some(sequence)
    case _ => None
  }

  // ----- errors, packets and connection states -----

  /** The error cases the protocol engine raises; the transport's own error
      values are opaque. */
  datatype JamulusError =
    | InvalidPacket(data: Bytes)
    | ConnectionTimedOut
    | NetworkError
    | NoConnection

  /** `JamulusPacket`: what a received datagram is taken to be. */
  datatype Packet =
    | AckMessage(ackType: u16, sequenceNumber: byte)
    | MessageNeedingAck(message: Message, sequence: byte)
    | MessageNoAck(message: Message)
    | Audio(data: Bytes)
    | Error(error: JamulusError)

  /** `JamulusState`, in the shape the session code uses: the client id is
      optional and a disconnection may carry an error. */
  datatype State =
    | Connecting
    | Connected(clientId: Option<byte>)
    | Disconnecting
    | Disconnected(error: Option<JamulusError>)

  /** `JamulusConnectionType`: what the connection is for. */
  datatype ConnectionKind = MainServer | DirectoryLookup | Listing
}
