# Jamulus control protocol, modelled in Dafny

This project models the client side of the Jamulus control protocol. The
original is a Swift package. A Jamulus client talks to a server over UDP.
Every datagram is either raw audio or a control frame with this layout:

- a zero marker word;
- a 16-bit message id and an 8-bit sequence number;
- a 16-bit payload length, then the payload;
- a 16-bit CRC over everything before it.

All multi-byte numbers are little-endian. Messages whose id lies between
10 and 999 (except 1) must be acknowledged. A message too large for one
frame travels as numbered parts of a split-message container. The package's
reassembly code handles only containers that need an acknowledgement, and a
container (id 2001) never needs one, so received containers are never
reassembled (see Findings).

The model covers each layer of the package:

- **Wire values.** `Wire`, `DataExt`, `ApiConsts`, `Instruments`,
  `ChannelInfos`, `ServerDetails` and `AudioTransport` cover little-endian
  integers, length-prefixed UTF-8 strings, IPv4 addresses, the raw-value
  enumerations and the records carried in payloads.
- **Messages.** `Messages` is the message enumeration and its ids. `Parsers`
  holds the payload parsers. `Builders` holds the second, loop-based copy of
  those parsers. `Catalog` turns a message into its payload and back.
- **Framing.** `Codec` covers the CRC, the sequence counter, framing and
  unframing. `SplitMessages` covers reassembly of split messages, as the
  package would perform it if a container reached that code.
- **Sessions.** `Session`, `Receiving`, `Instance` and `ProtocolActor` model
  the two `async` session layers as records driven by one event at a time.
  The events are calls, connection-state changes, datagrams and timer
  ticks. Each step returns the datagrams it sends. `Live` models the
  Combine-based generation, with its own counter and its keep-alive timer as
  written (the chain holding that timer is never subscribed; see Left out).
- **Addresses.** `HostPort` models `String.asJamulusUrl`.

Modelling choices:

- Swift `Data` and `String` values become byte sequences. A string is its
  UTF-8 encoding, which is what goes on the wire. Ill-formed UTF-8 is kept
  as it is (see Left out).
- Fixed-width integers are unbounded numbers with range bounds. The 8-bit
  wrap of the sequence counters is written out.
- The model follows an optimised (release) build throughout. `assert` and
  `assertionFailure` are not checked there, so the code after them runs.
  A parser whose `assert` names an exact payload length reads only the
  bytes it indexes and ignores the rest.
- A trap that remains in a release build becomes a precondition, or a
  `Trap` outcome where the session layers can reach it. Such traps are an
  index out of range, an unsigned subtraction that underflows, a failed
  integer conversion and the unwrap of a nil implicitly unwrapped optional.
- Wall-clock time is an input. `Date().timeIntervalSince1970` is a number
  of milliseconds. `packetTimestamp` is a separate `UInt32` input.
- `Sources/JamulusProtocol/ProtocolHelpers.swift` lines 1-87 repeat
  `Internal/ProtocolHelpers.swift`. Both are modelled once, in `Codec`.
- `MessageBuilders.swift` repeats `MessageParsers.swift` under `create…`
  names. Its functions are `Builders` methods, each proved equal to the
  `Parsers` function it repeats.
- Message ids outside the catalogue deserialize to no message, as in the
  source.

## Model

| member | source | states |
|---|---|---|
| Wire.ToLe | Sources/JamulusProtocol/Extensions/Data+Extensions.swift:62-67 | appending a fixed-width unsigned value writes exactly its width in bytes, and reading those bytes back little-endian gives the value |
| Wire.ToLeOfLe | Sources/JamulusProtocol/Extensions/Data+Extensions.swift:35-44 | re-encoding the value read from any byte string at that width gives the same bytes back |
| Wire.LeInjective | Sources/JamulusProtocol/Extensions/Data+Extensions.swift:35-44 | two byte strings of one width that read as the same number are equal |
| Wire.Decimal | Sources/JamulusProtocol/Extensions/Data+Extensions.swift:58 | the decimal text of a number is a non-empty digit string with no leading zero, and its value is that number |
| Wire.DecimalInjective | Sources/JamulusProtocol/Models/ServerDetail.swift:7 | different numbers have different decimal texts |
| Wire.Split | Sources/JamulusProtocol/Extensions/String+Extensions.swift:7 | splitting at a separator yields at least one component, no component contains the separator, and joining the components with it restores the text |
| Wire.SplitJoin | Sources/JamulusProtocol/Extensions/String+Extensions.swift:7 | joining separator-free components and splitting again returns exactly those components |
| Wire.SplitFirst | Sources/JamulusProtocol/Extensions/String+Extensions.swift:7-13 | the first component is the text up to the first separator, and the split is the whole text alone exactly when there is no separator |
| DataExt.NumericalValueAt | Sources/JamulusProtocol/Extensions/Data+Extensions.swift:35-44 | reading a width-byte number advances the index by the width, and the number is the little-endian value of those bytes |
| DataExt.ByteValueAt | Sources/JamulusProtocol/Extensions/Data+Extensions.swift:35-44 | a one-byte read is the byte at the index |
| DataExt.AppendUInt | Sources/JamulusProtocol/Extensions/Data+Extensions.swift:62-67 | appending a number keeps the existing bytes, and a read at the old end gives the number back |
| DataExt.JamulusStringAt | Sources/JamulusProtocol/Extensions/Data+Extensions.swift:7-32 | a string is read only if its length header and bytes fit; a read that does not fit gives the empty string; a non-empty result is exactly the bytes after a header equal to its length, and the index moves past them |
| DataExt.HeaderWidth | Sources/JamulusProtocol/Extensions/Data+Extensions.swift:75-79 | the length header is one byte for a one-byte size and two bytes otherwise |
| DataExt.AppendJamulusString | Sources/JamulusProtocol/Extensions/Data+Extensions.swift:70-81 | appending a string keeps the prefix, writes a length header equal to the string's byte count, then the bytes |
| DataExt.StringRoundTrip | Sources/JamulusProtocol/Extensions/Data+Extensions.swift:70-81 | a string appended with a one- or two-byte header reads back as itself and moves the index past it, whatever follows; only an empty string at the very end of the data reads as an empty string left unconsumed |
| DataExt.StringInPlace | Sources/JamulusProtocol/Extensions/Data+Extensions.swift:7-32 | a two-byte length header followed by that many bytes reads as those bytes |
| DataExt.IPv4AddressAt | Sources/JamulusProtocol/Extensions/Data+Extensions.swift:47-60 | four zero bytes give the default host; any other four bytes give the dotted quad, last byte first; the index moves by four |
| DataExt.IPv4AddressParts | Sources/JamulusProtocol/Extensions/Data+Extensions.swift:47-60 | a non-default address splits at its dots into four numbers, equal to the four bytes in reverse order |
| DataExt.DottedQuadSplits | Sources/JamulusProtocol/Extensions/Data+Extensions.swift:58 | the dotted quad splits back into exactly its four decimal components |
| ApiConsts.OpusFromRaw | Sources/JamulusProtocol/Models/ApiConsts.swift:25-39 | the failable initialiser finds the packet size with that raw value, and fails exactly when no size has it |
| ApiConsts.CodecFromRaw | Sources/JamulusProtocol/Models/ApiConsts.swift:49-54 | the same for audio codecs |
| ApiConsts.FrameFactorFromRaw | Sources/JamulusProtocol/Models/ApiConsts.swift:56-59 | the same for frame factors |
| ApiConsts.FrameSize | Sources/JamulusProtocol/Models/ApiConsts.swift:60-63 | the frame size is 64 samples times the factor: 64 for normal, 128 for safe |
| ApiConsts.OsFromRaw | Sources/JamulusProtocol/Models/ApiConsts.swift:78-83 | raw values 0 to 5 name an operating system with that raw value; others name none |
| ApiConsts.RecorderFromRaw | Sources/JamulusProtocol/Models/ApiConsts.swift:86-91 | raw values 0 to 3 name a recorder state with that raw value; others name none |
| ApiConsts.RawValuesRoundTrip | Sources/JamulusProtocol/Models/ApiConsts.swift:25-91 | for all five enumerations, the initialiser applied to a case's raw value gives that case back |
| Instruments.FromRaw | Sources/JamulusProtocol/Models/Instrument.swift:3-55 | raw values below 45 name the instrument with that raw value; 45 and above name none |
| Instruments.RawInjective | Sources/JamulusProtocol/Models/Instrument.swift:11-55 | different instruments have different raw values |
| Instruments.FromRawOfRaw | Sources/JamulusProtocol/Models/Instrument.swift:11-55 | every instrument is found again from its raw value |
| Instruments.PositionOfRaw | Sources/JamulusProtocol/Models/Instrument.swift:11-55 | the list of all cases holds each instrument at the position of its raw value |
| Instruments.Id | Sources/JamulusProtocol/Models/Instrument.swift:6 | the id lies in 0..44 and identifies the instrument |
| Instruments.Description | Sources/JamulusProtocol/Models/Instrument.swift:108-110 | the description is the instrument's name |
| Instruments.Icon | Sources/JamulusProtocol/Models/Instrument.swift:112-149 | every vocal part shows the microphone, and an instrument has no icon exactly when it is one of the fourteen without one |
| Instruments.LessTransitive | Sources/JamulusProtocol/Models/Instrument.swift:9 | the name order used for sorting is transitive |
| Instruments.LessTotal | Sources/JamulusProtocol/Models/Instrument.swift:9 | any two names are ordered one way or the other, or are equal |
| Instruments.Insert | Sources/JamulusProtocol/Models/Instrument.swift:9 | inserting adds exactly that instrument to the sequence's contents |
| Instruments.InsertSorted | Sources/JamulusProtocol/Models/Instrument.swift:9 | inserting into a name-sorted sequence keeps it sorted |
| Instruments.SortByName | Sources/JamulusProtocol/Models/Instrument.swift:8-10 | sorting is a permutation of its input |
| Instruments.SortByNameSorted | Sources/JamulusProtocol/Models/Instrument.swift:8-10 | the sort's output is ordered by name |
| Instruments.Alphabetized | Sources/JamulusProtocol/Models/Instrument.swift:8-10 | `alphabetized` is ordered by name and holds every instrument exactly once |
| ChannelInfos.NewChannelInfo | Sources/JamulusProtocol/Models/ChannelInfo.swift:5-25 | a new channel starts unmuted, at volume 0 and gain 0, panned to the centre |
| ChannelInfos.InstrumentOrNone | Sources/JamulusProtocol/Models/ChannelInfo.swift:52 | a known raw value gives its instrument; an unknown one gives `none` |
| ChannelInfos.ParseFromData | Sources/JamulusProtocol/Models/ChannelInfo.swift:39-56 | the channel id comes from the caller or the first byte; then come country (2 bytes), instrument (4), skill (1), then name and city strings; the mixer fields take their defaults |
| ChannelInfos.EntryInPlace | Sources/JamulusProtocol/Models/ChannelInfo.swift:39-56 | a channel laid out at a position is parsed back as that channel with default mixer values, and the read ends after its city |
| ChannelInfos.ParseEncodedEntry | Sources/JamulusProtocol/Models/ChannelInfo.swift:39-56 | a client-list entry, written as the server writes it, parses back to the channel, whatever precedes or follows it |
| ServerDetails.IdSplits | Sources/JamulusProtocol/Models/ServerDetail.swift:7 | a server id splits at its colon into the address and the decimal port |
| ServerDetails.IdIdentifiesServer | Sources/JamulusProtocol/Models/ServerDetail.swift:7 | two servers have the same id exactly when their addresses and ports agree |
| ServerDetails.PortOrDefault | Sources/JamulusProtocol/Models/ServerDetail.swift:46 | port 0 becomes the default port; any other port is kept |
| ServerDetails.ParseFromData | Sources/JamulusProtocol/Models/ServerDetail.swift:31-52 | a detailed record is address, port (0 means default), country as the code's canonical decimal text (no leading zeros), connection limit, permanent flag (byte 1), then name, internal name and city; it spans at least ten bytes |
| ServerDetails.ParseReducedFromData | Sources/JamulusProtocol/Models/ServerDetail.swift:54-64 | a reduced record is address, port (0 means default) and a name with a one-byte length, and carries nothing else |
| ServerDetails.ParseEncodedRecord | Sources/JamulusProtocol/Models/ServerDetail.swift:31-52 | a detailed record written as the server writes it parses back to the expected server detail |
| ServerDetails.RecordInPlace | Sources/JamulusProtocol/Models/ServerDetail.swift:31-52 | a record laid out at any position in a payload parses back to the expected detail and ends where it was written |
| ServerDetails.ParseEncodedReduced | Sources/JamulusProtocol/Models/ServerDetail.swift:54-64 | a reduced record written as the server writes it parses back to the expected detail |
| AudioTransport.BitRatePerSec | Sources/JamulusProtocol/Models/AudioTransport.swift:39-44 | the bit rate is the packet bits per second, divided by the frame size (64 for Opus64, 128 otherwise) and rounded down, and fits an `Int32` |
| AudioTransport.StereoNormalBitRate | Sources/JamulusProtocol/Models/AudioTransport.swift:87-94 | the default stereo transport runs at 213000 bits per second |
| AudioTransport.ParseFrom | Sources/JamulusProtocol/Models/AudioTransport.swift:46-66 | the fields are read from the first fifteen bytes, each at its offset; unknown packet sizes, frame factors and codecs fall back to stereo-normal-double, normal and Opus; sequencing is on exactly when the flag word is 1 |
| AudioTransport.Append | Sources/JamulusProtocol/Models/AudioTransport.swift:70-78 | appending transport details keeps the buffer and adds their nineteen-byte encoding |
| AudioTransport.EncodeFields | Sources/JamulusProtocol/Models/AudioTransport.swift:70-78 | the encoding holds each field at its offset, little-endian, followed by four zero bytes |
| AudioTransport.ParseEncode | Sources/JamulusProtocol/Models/AudioTransport.swift:46-78 | parsing the encoding of any transport details gives them back |
| AudioTransport.EncodeParse | Sources/JamulusProtocol/Models/AudioTransport.swift:46-78 | re-encoding a parsed block gives the same bytes whenever every field holds a known value and the padding is zero |
| AudioTransport.QualityFollowsSize | Sources/JamulusProtocol/Models/JamulusAudioQuality.swift:9-21 | within one channel layout and frame length, a higher quality tier means a larger Opus packet, and the tiers tell the sizes apart |
| AudioTransport.StereoNormalIsNormal | Sources/JamulusProtocol/Models/AudioTransport.swift:87-94 | the default transport is of normal quality |
| Messages.KindOfId | Sources/JamulusProtocol/JamulusMessage.swift:192-250 | an id names a message kind exactly when it is one of the ids the deserializer accepts |
| Messages.KindIdOfMessage | Sources/JamulusProtocol/JamulusMessage.swift:111-158 | the id of a message's kind is the message's id |
| Messages.KindOfIdInverse | Sources/JamulusProtocol/JamulusMessage.swift:111-158 | every accepted id is the id of the kind it names |
| Messages.KindOfMessageId | Sources/JamulusProtocol/JamulusMessage.swift:111-158 | a message's id names the message's own kind |
| Messages.MessageIdInjective | Sources/JamulusProtocol/JamulusMessage.swift:111-158 | two messages share an id exactly when they are of the same kind |
| Messages.NeedsAckCases | Sources/JamulusProtocol/JamulusMessage.swift:172-177 | a message needs an ack exactly when its id lies in 10..35; acks, split containers and ids from 1000 up never do |
| Messages.SequenceNumberOverride | Sources/JamulusProtocol/JamulusMessage.swift:164-169 | only an ack overrides the frame's sequence number, and it overrides it with the sequence it acknowledges |
| Catalog.Build | Sources/JamulusProtocol/JamulusMessage.swift:192-245 | an ack built from a frame carries the frame's sequence number; each other id is read by its parser as written, the server lists included, on the payloads those parsers survive |
| Catalog.BuildKind | Sources/JamulusProtocol/JamulusMessage.swift:192-245 | the message built for a kind is of that kind |
| Catalog.Dispatch | Sources/JamulusProtocol/JamulusMessage.swift:192-250 | an id yields a message exactly when it is known, and the message has that id |
| Catalog.FrameId | Sources/JamulusProtocol/JamulusMessage.swift:185-186 | the message id is the little-endian word at offset 2 |
| Catalog.FramePayload | Sources/JamulusProtocol/JamulusMessage.swift:188 | the payload is everything from offset 7 on |
| Catalog.Deserialize | Sources/JamulusProtocol/JamulusMessage.swift:180-251 | a frame shorter than seven bytes gives no message; otherwise a message comes out exactly when the id is known, it has that id, and an ack takes the frame's sequence byte |
| Catalog.Payload | Sources/JamulusProtocol/JamulusMessage.swift:256-298 | a chat payload is two bytes longer than the text; every other payload is at most nineteen bytes |
| Catalog.ChannelWord | Sources/JamulusProtocol/JamulusMessage.swift:261-263 | gain and pan payloads are the channel byte then the 16-bit value |
| Catalog.ChatBytes | Sources/JamulusProtocol/JamulusMessage.swift:279-282 | a chat payload is the text's byte count as a 16-bit word, then the text |
| Catalog.PingCountBytes | Sources/JamulusProtocol/JamulusMessage.swift:288-290 | a ping-with-count payload is the 32-bit time stamp then the count byte |
| Catalog.HeaderFields | Sources/JamulusProtocol/Internal/ProtocolHelpers.swift:29-45 | behind a frame header the deserializer finds the id, the sequence byte and the payload that were written |
| Catalog.DispatchPayload | Sources/JamulusProtocol/JamulusMessage.swift:180-298 | dispatching a message's own id and payload gives the message back, for every kind whose payload the package writes |
| Catalog.BuildPayload | Sources/JamulusProtocol/JamulusMessage.swift:180-298 | building a message's kind from its payload gives the message back |
| Catalog.PingPayload | Sources/JamulusProtocol/JamulusMessage.swift:277 | a ping's time stamp survives its payload |
| Catalog.PingCountPayload | Sources/JamulusProtocol/JamulusMessage.swift:288-290 | a ping-with-count's count and time stamp survive its payload |
| Catalog.AckPayload | Sources/JamulusProtocol/JamulusMessage.swift:276 | an ack's type survives its payload, and its sequence comes from the frame |
| Catalog.JitterPayload | Sources/JamulusProtocol/JamulusMessage.swift:278 | a jitter-buffer size survives its payload |
| Catalog.GainPayload | Sources/JamulusProtocol/JamulusMessage.swift:261-263 | a gain change survives its payload |
| Catalog.PanPayload | Sources/JamulusProtocol/JamulusMessage.swift:267-269 | a pan change survives its payload |
| Catalog.MutePayload | Sources/JamulusProtocol/JamulusMessage.swift:271-273 | a mute change survives its payload |
| Catalog.ClientIdPayload | Sources/JamulusProtocol/JamulusMessage.swift:287 | a client id survives its payload |
| Catalog.AudioPayload | Sources/JamulusProtocol/JamulusMessage.swift:284 | audio transport details survive their payload |
| Catalog.ChatPayload | Sources/JamulusProtocol/JamulusMessage.swift:279-282 | a chat text survives its payload |
| Catalog.FieldLessPayload | Sources/JamulusProtocol/JamulusMessage.swift:292-294 | each of the eighteen messages without fields has an empty payload and is rebuilt from it |
| Catalog.DeserializePayload | Sources/JamulusProtocol/JamulusMessage.swift:180-298 | a header followed by a message's payload deserializes to that message |
| Codec.JamulusCrc | Sources/JamulusProtocol/Internal/ProtocolHelpers.swift:5-18 | the bit-by-bit loop computes the checksum, and that checksum is the inverted CRC-16/CCITT of the data |
| Codec.FeedByte | Sources/JamulusProtocol/Internal/ProtocolHelpers.swift:9-14 | the inner loop over a byte's eight bits feeds them most significant first |
| Codec.FinishRegister | Sources/JamulusProtocol/Internal/ProtocolHelpers.swift:16-17 | the result is the low sixteen bits of the inverted register |
| Codec.StepAgrees | Sources/JamulusProtocol/Internal/ProtocolHelpers.swift:10-13 | the low sixteen bits of one 32-bit register step are one CCITT step with polynomial 0x1021 |
| Codec.StepFeedback | Sources/JamulusProtocol/Internal/ProtocolHelpers.swift:10-13 | one register step shifts, and XORs 0x1021 exactly when bit 15 differs from the data bit |
| Codec.ByteAgrees | Sources/JamulusProtocol/Internal/ProtocolHelpers.swift:9-14 | a byte fed to the 32-bit register moves its low half as CCITT moves a 16-bit register |
| Codec.RegisterAgrees | Sources/JamulusProtocol/Internal/ProtocolHelpers.swift:8-15 | over any data, the low half of the 32-bit register equals the CCITT register |
| Codec.CrcIsCcitt | Sources/JamulusProtocol/Internal/ProtocolHelpers.swift:5-18 | the source's checksum equals the CRC-16/CCITT reference for every input |
| Codec.NextSequenceNumber | Sources/JamulusProtocol/Internal/ProtocolHelpers.swift:21-25 | the counter adds one and wraps from 255 to 0 |
| Codec.AdvanceAdds | Sources/JamulusProtocol/Internal/ProtocolHelpers.swift:21-25 | advancing n times adds n modulo 256 |
| Codec.SequencePeriod | Sources/JamulusProtocol/Internal/ProtocolHelpers.swift:21-25 | the counter returns to its value exactly after a multiple of 256 steps |
| Codec.FrameSequence | Sources/JamulusProtocol/Internal/ProtocolHelpers.swift:34-39 | an ack's frame carries the acknowledged sequence; every other frame carries the counter's next value |
| Codec.MessageToData | Sources/JamulusProtocol/Internal/ProtocolHelpers.swift:28-51 | a frame is a zero word, the id, the sequence byte, the payload length, the payload, and the checksum of everything before it |
| Codec.FrameLayout | Sources/JamulusProtocol/Internal/ProtocolHelpers.swift:28-51 | the fields of an assembled frame are found at their offsets |
| Codec.Body | Sources/JamulusProtocol/Internal/ProtocolHelpers.swift:61 | the body is the frame without its two checksum bytes |
| Codec.ParseData | Sources/JamulusProtocol/Internal/ProtocolHelpers.swift:54-87 | data without the zero marker is audio; a framed datagram with a bad length, a bad checksum or an unknown message is an error; an intact ack becomes an ack packet; other intact messages are split by whether they need an ack |
| Codec.ParseMessageToData | Sources/JamulusProtocol/Internal/ProtocolHelpers.swift:28-87 | a serialized message is intact and parses back to itself, classified by whether it needs an ack and carrying its frame's sequence |
| Codec.FramedIntact | Sources/JamulusProtocol/Internal/ProtocolHelpers.swift:55-65 | a frame with a consistent length and a correct checksum passes all of the parser's checks |
| Codec.ParseIntact | Sources/JamulusProtocol/Internal/ProtocolHelpers.swift:65-79 | an intact datagram whose body deserializes is parsed to the packet its message calls for |
| SplitMessages.EmptySlots | Sources/JamulusProtocol/ProtocolHelpers.swift:101 | a new reassembly has one empty slot per part |
| SplitMessages.Place | Sources/JamulusProtocol/ProtocolHelpers.swift:96-104 | a part lands in its slot; every other slot is unchanged, or empty in a new reassembly |
| SplitMessages.HandleSplitMessage | Sources/JamulusProtocol/ProtocolHelpers.swift:93-117 | other reassemblies are untouched; a message comes out exactly when every slot is filled, it is the parts concatenated in order (the corrected reassembly, see Left out), and its storage is dropped; otherwise the storage keeps the filled slots |
| SplitMessages.SinglePartCompletes | Sources/JamulusProtocol/ProtocolHelpers.swift:93-117 | under the corrected reassembly, a one-part message is its only part and leaves no storage behind |
| SplitMessages.Deliver | Sources/JamulusProtocol/ProtocolHelpers.swift:93-117 | delivering parts keeps a reassembly's slot count equal to the number of parts |
| SplitMessages.DeliverPartial | Sources/JamulusProtocol/ProtocolHelpers.swift:106-111 | while a part is missing, no message comes out and the storage holds exactly the parts delivered so far |
| SplitMessages.Incomplete | Sources/JamulusProtocol/ProtocolHelpers.swift:106-109 | a part that leaves a slot empty is stored and yields nothing |
| SplitMessages.PlaceNext | Sources/JamulusProtocol/ProtocolHelpers.swift:96-104 | one more part adds its index to the set of filled slots |
| SplitMessages.ReassembleAnyOrder | Sources/JamulusProtocol/ProtocolHelpers.swift:93-117 | parts delivered once each, in any order, yield the parts concatenated in index order and leave the storage as it was |
| SplitMessages.Completes | Sources/JamulusProtocol/ProtocolHelpers.swift:106-113 | the part that fills the last slot yields the corrected concatenation and removes the reassembly |
| SplitMessages.ConcatFilled | Sources/JamulusProtocol/ProtocolHelpers.swift:106-111 | once every part has arrived, the slots are complete and concatenate to the parts in order |
| SplitMessages.ConcatAsWritten | Sources/JamulusProtocol/ProtocolHelpers.swift:107-111 | the loop as written appends sixteen bytes per part, whatever the part holds |
| SplitMessages.AsWrittenLosesContent | Sources/JamulusProtocol/ProtocolHelpers.swift:110 | for a one-part three-byte message, the loop as written does not produce the message; the witness is the length (sixteen bytes per part), not the image's contents, which are not modelled |
| Parsers.ParsePingFrom | Sources/JamulusProtocol/MessageParsers.swift:5-12 | a four-byte payload is the time stamp; any other length gives a ping with the default time stamp, taken as 0 (see Left out) |
| Parsers.ParsePingAndClientCountFrom | Sources/JamulusProtocol/MessageParsers.swift:14-23 | a five-byte payload is the time stamp then the count; any other length gives count 0 and the default time stamp, taken as 0 (see Left out) |
| Parsers.ChannelLevels | Sources/JamulusProtocol/MessageParsers.swift:28-33 | each byte gives one or two levels, every level fits in four bits |
| Parsers.ParseChannelLevelsFrom | Sources/JamulusProtocol/MessageParsers.swift:25-35 | the level list has between one and two entries per payload byte, each at most 15 |
| Parsers.LevelsRoundTrip | Sources/JamulusProtocol/MessageParsers.swift:25-35 | levels below 15, packed two per byte low nibble first with 15 as filler, unpack to exactly those levels |
| Parsers.ChannelInfosFrom | Sources/JamulusProtocol/MessageParsers.swift:45-57 | the loop reads channels while twelve bytes remain; no channel comes out of fewer, each takes at least eight bytes, each has default mixer values |
| Parsers.ChannelInfosStep | Sources/JamulusProtocol/MessageParsers.swift:50-55 | one turn of the loop reads one channel and continues where it ended |
| Parsers.ParseClientListFrom | Sources/JamulusProtocol/MessageParsers.swift:37-39 | the client list is the channels the loop reads |
| Parsers.ParseClientListNoAckFrom | Sources/JamulusProtocol/MessageParsers.swift:41-43 | the unacknowledged client list reads the same channels |
| Parsers.ChannelListRoundTrip | Sources/JamulusProtocol/MessageParsers.swift:45-57 | a sequence of entries written as the server writes them reads back as those channels with default mixer values |
| Parsers.ClientListRoundTrip | Sources/JamulusProtocol/MessageParsers.swift:37-39 | a client-list payload parses back to its channels |
| Parsers.DetailedListFrom | Sources/JamulusProtocol/MessageParsers.swift:66-71 | the loop reads detailed records while `guard` bytes remain, so it reads none from fewer, and each record takes at least ten bytes |
| Parsers.ReducedListFrom | Sources/JamulusProtocol/MessageParsers.swift:81-86 | the same for reduced records, six bytes each at least |
| Parsers.DetailedRecordsComplete | Sources/JamulusProtocol/Models/ServerDetail.swift:44-51 | every detailed record in a list has a non-zero port, a country and a connection limit |
| Parsers.ReducedRecordsBare | Sources/JamulusProtocol/Models/ServerDetail.swift:61-63 | every reduced record has a non-zero port and no country or connection limit |
| Parsers.DetailedLoopStep | Sources/JamulusProtocol/MessageParsers.swift:66-71 | one turn of the loop reads one record and continues where it ended |
| Parsers.ReducedLoopStep | Sources/JamulusProtocol/MessageParsers.swift:81-86 | the same for reduced records |
| Parsers.DetailedGuardSuffices | Sources/JamulusProtocol/MessageParsers.swift:92-96 | a guard of at least ten bytes never lets a detailed record read past the payload |
| Parsers.ReducedGuardSuffices | Sources/JamulusProtocol/MessageParsers.swift:81 | a guard of at least six bytes never lets a reduced record read past the payload |
| Parsers.GuardsTooSmall | Sources/JamulusProtocol/MessageParsers.swift:59-88 | a seven-byte server-list payload passes the guard of 6 but holds no ten-byte record; a five-byte reduced payload passes the guard of 5 but holds no six-byte record |
| Parsers.ParseServerListWithDetailsFrom | Sources/JamulusProtocol/MessageParsers.swift:59-73 | on payloads the guard of 6 reads safely, the list is empty exactly below six bytes and has at most one record per ten bytes |
| Parsers.ParseServerListFrom | Sources/JamulusProtocol/MessageParsers.swift:75-88 | on payloads the guard of 5 reads safely, the list is empty exactly below five bytes and has at most one record per six bytes |
| Parsers.ParseDetailedServerListFrom | Sources/JamulusProtocol/MessageParsers.swift:90-103 | any payload is read; the list is empty exactly below sixteen bytes, with at most one record per ten bytes |
| Parsers.ServerListWithDetailsGuarded | Sources/JamulusProtocol/MessageParsers.swift:59-73 | the detailed server list with a guard of ten reads any payload; it is empty exactly below ten bytes |
| Parsers.ServerListGuarded | Sources/JamulusProtocol/MessageParsers.swift:75-88 | the reduced server list with a guard of six reads any payload; it is empty exactly below six bytes |
| Parsers.DetailedGuardsAgree | Sources/JamulusProtocol/MessageParsers.swift:59-73 | wherever the guard of 6 does not trap, the guard of 10 reads the same records |
| Parsers.ReducedGuardsAgree | Sources/JamulusProtocol/MessageParsers.swift:75-88 | wherever the guard of 5 does not trap, the guard of 6 reads the same records |
| Parsers.GuardedAgrees | Sources/JamulusProtocol/MessageParsers.swift:59-88 | on every payload the source's server-list parsers survive, the guarded versions return the same message |
| Parsers.DetailedListRoundTrip | Sources/JamulusProtocol/MessageParsers.swift:90-103 | detailed records written back to back read back as their details, for every guard from 3 to 16 |
| Parsers.ReducedListRoundTrip | Sources/JamulusProtocol/MessageParsers.swift:75-88 | reduced records written back to back read back as their details, for every guard from 2 to 7 |
| Parsers.ParseChatTextFrom | Sources/JamulusProtocol/MessageParsers.swift:105-112 | payloads of at most two bytes give empty text; longer ones give the length-prefixed string |
| Parsers.ParseChannelPanFrom | Sources/JamulusProtocol/MessageParsers.swift:114-120 | on any payload of three or more bytes, the channel is the first byte and the pan the next two; later bytes are ignored |
| Parsers.ParseChannelGainFrom | Sources/JamulusProtocol/MessageParsers.swift:122-128 | on any payload of three or more bytes, the channel is the first byte and the gain the next two |
| Parsers.ParseMuteChangeFrom | Sources/JamulusProtocol/MessageParsers.swift:130-133 | on any payload of two or more bytes, the channel is the first byte; muted exactly when the second is non-zero |
| Parsers.ParseChannelInfoFrom | Sources/JamulusProtocol/MessageParsers.swift:135-140 | the channel info has id 0, then the country, skill and name read from the payload |
| Parsers.OsOrLinux | Sources/JamulusProtocol/MessageParsers.swift:146 | a known operating-system byte names its system; an unknown one means Linux |
| Parsers.ParseVersionAndOs | Sources/JamulusProtocol/MessageParsers.swift:142-148 | a known first byte is the operating system with that raw value, and an unknown one means Linux; a non-empty version is exactly the bytes after its two-byte length at offset 1; a payload of three bytes or fewer has an empty version |
| Parsers.ParseVersionAndOsAckedFrom | Sources/JamulusProtocol/MessageParsers.swift:150-153 | the acknowledged version message, whose contents VersionAndOsRoundTrip states |
| Parsers.ParseVersionAndOsFrom | Sources/JamulusProtocol/MessageParsers.swift:155-158 | the unacknowledged version message, whose contents VersionAndOsRoundTrip states |
| Parsers.VersionAndOsRoundTrip | Sources/JamulusProtocol/MessageParsers.swift:142-158 | an OS byte followed by a version with a two-byte length, with anything after it, reads back as that version and OS, in both message forms |
| Parsers.ParseRecorderStateFrom | Sources/JamulusProtocol/MessageParsers.swift:160-167 | an empty payload or an unknown byte gives `unknown`; a known byte gives its state |
| Parsers.ParseSplitMessage | Sources/JamulusProtocol/MessageParsers.swift:169-178 | the id, part count and part number head the payload, and the rest is the part's data, so the four header bytes and the data rebuild the payload |
| Builders.CreatePing | Sources/JamulusProtocol/MessageBuilders.swift:5-12 | the builder copy returns what `parsePingFrom` returns |
| Builders.CreatePingWithClientCount | Sources/JamulusProtocol/MessageBuilders.swift:14-23 | the builder copy returns what `parsePingAndClientCountFrom` returns |
| Builders.LowBitsValue | Sources/JamulusProtocol/MessageBuilders.swift:30 | masking with 0xF keeps the byte's value modulo 16 |
| Builders.HighBitsValue | Sources/JamulusProtocol/MessageBuilders.swift:31 | masking with 0xF0 and shifting by 4 gives the byte's value divided by 16 |
| Builders.ByteLevels | Sources/JamulusProtocol/MessageBuilders.swift:30-33 | the bit operations on one byte give the levels the parser's arithmetic gives |
| Builders.LevelsAppend | Sources/JamulusProtocol/MessageBuilders.swift:29-33 | one more payload byte adds its levels to the end of the list |
| Builders.CreateChannelLevelList | Sources/JamulusProtocol/MessageBuilders.swift:26-36 | the loop returns what the level parser returns |
| Builders.ParseChannelInfos | Sources/JamulusProtocol/MessageBuilders.swift:46-58 | the loop returns the channels the recursive reading gives |
| Builders.CreateClientList | Sources/JamulusProtocol/MessageBuilders.swift:38-40 | the builder copy returns what `parseClientListFrom` returns |
| Builders.CreateClientListNoAck | Sources/JamulusProtocol/MessageBuilders.swift:42-44 | the builder copy returns what `parseClientListNoAckFrom` returns |
| Builders.ReadDetailedRecords | Sources/JamulusProtocol/MessageBuilders.swift:67-72 | the loop over detailed records returns the records the recursive reading gives |
| Builders.ReadReducedRecords | Sources/JamulusProtocol/MessageBuilders.swift:82-87 | the loop over reduced records returns the records the recursive reading gives |
| Builders.CreateServerListWithDetails | Sources/JamulusProtocol/MessageBuilders.swift:60-74 | the builder copy returns what `parseServerListWithDetailsFrom` returns |
| Builders.CreateServerList | Sources/JamulusProtocol/MessageBuilders.swift:76-89 | the builder copy returns what `parseServerListFrom` returns |
| Builders.CreateDetailedServerList | Sources/JamulusProtocol/MessageBuilders.swift:91-104 | the builder copy returns what `parseDetailedServerListFrom` returns |
| Builders.CreateChatText | Sources/JamulusProtocol/MessageBuilders.swift:106-116 | the builder copy returns what `parseChatTextFrom` returns |
| Builders.CreateChannelPan | Sources/JamulusProtocol/MessageBuilders.swift:118-124 | the builder copy returns what `parseChannelPanFrom` returns |
| Builders.CreateChannelGain | Sources/JamulusProtocol/MessageBuilders.swift:126-132 | the builder copy returns what `parseChannelGainFrom` returns |
| Builders.CreateMuteChange | Sources/JamulusProtocol/MessageBuilders.swift:134-137 | the builder copy returns what `parseMuteChangeFrom` returns |
| Builders.CreateSetChannelInfo | Sources/JamulusProtocol/MessageBuilders.swift:139-144 | the builder copy returns what `parseChannelInfoFrom` returns |
| Builders.ParseVersionAndOs | Sources/JamulusProtocol/MessageBuilders.swift:146-152 | the builder copy returns what `parseVersionAndOs` returns |
| Builders.CreateVersionAndOsOld | Sources/JamulusProtocol/MessageBuilders.swift:154-157 | the builder copy returns what `parseVersionAndOsAckedFrom` returns |
| Builders.CreateVersionAndOs | Sources/JamulusProtocol/MessageBuilders.swift:159-162 | the builder copy returns what `parseVersionAndOsFrom` returns |
| Builders.CreateRecorderState | Sources/JamulusProtocol/MessageBuilders.swift:164-171 | the builder copy returns what `parseRecorderStateFrom` returns |
| Session.SortedKeys | Sources/JamulusProtocol/Internal/JamulusProtocolInstance.swift:393-394 | `keys.sorted()` lists each key of the table exactly once, in increasing order |
| Session.RemoveAcked | Sources/JamulusProtocol/Internal/JamulusProtocolInstance.swift:263-273 | an ack with no matching entry leaves the table alone; otherwise exactly one entry with the acked id and sequence is removed and all others are kept |
| Session.AckAfterSend | Sources/JamulusProtocol/Internal/JamulusProtocolInstance.swift:263-273 | the ack for a message just stored shrinks the table back to its old size |
| Session.AckRestoresTable | Sources/JamulusProtocol/Internal/JamulusProtocolInstance.swift:263-273 | when no older entry matches, that ack restores the table exactly |
| Session.Present | Sources/JamulusProtocol/Internal/JamulusProtocolInstance.swift:404-405 | the keys still in the table are kept, in their order |
| Session.Resend | Sources/JamulusProtocol/Internal/JamulusProtocolInstance.swift:404-413 | each resent frame repeats the stored message with its stored sequence number |
| Session.Retransmit | Sources/JamulusProtocol/Internal/JamulusProtocolInstance.swift:392-413 | entries older than ten seconds are dropped and the rest kept; entries older than one second that remain are resent oldest first, each with its stored sequence |
| Session.RetransmitSendable | Sources/JamulusProtocol/Internal/JamulusProtocolInstance.swift:392-413 | retransmission keeps every stored message serializable and sends only serializable frames |
| Session.Publish | Sources/JamulusProtocol/Internal/JamulusProtocolInstance.swift:48-57 | a state with an error finishes the stream with that error; any other state is yielded; a finished stream takes nothing more |
| Session.PublishClean | Sources/JamulusProtocol/Internal/JamulusProtocolInstance.swift:48-57 | the stream never yields a disconnected state that carries an error |
| Session.SetState | Sources/JamulusProtocol/Internal/JamulusProtocolInstance.swift:48-57 | setting the state publishes it and changes nothing else |
| Session.Advanced | Sources/JamulusProtocol/Internal/JamulusProtocolInstance.swift:39 | taking the next sequence number advances the counter and changes nothing else |
| Session.OnConnectionState | Sources/JamulusProtocol/Internal/JamulusProtocolInstance.swift:72-90 | `ready` publishes connecting, and connected for a non-main-server link, and starts the heartbeat; `waiting` and `failed` end the stream with a network error; `cancelled` disconnects; other states change nothing |
| Session.FailureEndsStream | Sources/JamulusProtocol/Internal/JamulusProtocolInstance.swift:81-83 | after a failure, no later connection event changes what the caller's stream shows |
| Session.Heartbeat | Sources/JamulusProtocol/Internal/JamulusProtocolInstance.swift:316-365 | while disconnecting, a turn ends the session three seconds after the last audio; otherwise a timed-out link stops with a timeout error, and a live one pings (main server), pings with count (listing) or stays silent (directory lookup) |
| Session.SilentPeerKeepsPinging | Sources/JamulusProtocol/Internal/JamulusProtocolInstance.swift:321-327 | a link that has never heard a ping is never timed out |
| Session.PingResetsGuard | Sources/JamulusProtocol/Internal/JamulusProtocolInstance.swift:321-327 | a ping heard within fifteen seconds of the next heartbeat ping keeps the link alive |
| Session.KeepAliveTick | Sources/JamulusProtocol/Internal/JamulusProtocolInstance.swift:316-318 | a cancelled heartbeat does nothing; a running one sends only serializable frames and leaves the tables alone |
| Session.RetransmitTick | Sources/JamulusProtocol/Internal/JamulusProtocolInstance.swift:388-390 | a cancelled retransmit loop does nothing; a running one performs one retransmission on the ack table |
| Receiving.Receive | Sources/JamulusProtocol/Internal/JamulusProtocolInstance.swift:140-146 | a received datagram is parsed, then handled; the connection kind and the running loops never change |
| Receiving.HandleReceive | Sources/JamulusProtocol/Internal/JamulusProtocolInstance.swift:173-255 | a packet that needs an ack is acked first; a completed split message is parsed and handled in its part's place (a branch that no parsed datagram reaches, see `Receiving.ContainerNeverReassembled`) |
| Receiving.HandlePacket | Sources/JamulusProtocol/Internal/JamulusProtocolInstance.swift:173-255 | an ack removes its entry and is passed up; an error is passed up; only a split part can hand back a message, and only a split part or a ping can trap |
| Receiving.AckFrame | Sources/JamulusProtocol/Internal/JamulusProtocolInstance.swift:181-190 | the reply ack names the received message's id and takes the next sequence number |
| Receiving.AckEchoesSequence | Sources/JamulusProtocol/Internal/JamulusProtocolInstance.swift:181-190 | on the wire, the ack carries the received frame's sequence byte and parses back as an ack for that id and sequence |
| Receiving.OnNeedingAck | Sources/JamulusProtocol/Internal/JamulusProtocolInstance.swift:181-221 | every such packet is acked; a client id sets the connected state unless disconnecting, where it is consumed; a split-support request is answered and consumed |
| Receiving.OnSplitPart | Sources/JamulusProtocol/Internal/JamulusProtocolInstance.swift:206-219 | a part traps exactly when it does not fit its reassembly; an incomplete message stores the part and passes the container up; a complete one hands back the message, reassembled by the corrected concatenation |
| Receiving.Elapsed | Sources/JamulusProtocol/Internal/JamulusProtocolInstance.swift:232 | an unsigned difference exists exactly when it does not underflow |
| Receiving.OnNoAck | Sources/JamulusProtocol/Internal/JamulusProtocolInstance.swift:223-240 | a ping records its arrival and goes up as a round trip needing an ack; a ping with count goes up likewise; a time stamp ahead of the clock traps; other messages pass through |
| Receiving.OnAudio | Sources/JamulusProtocol/JamulusProtocolActor.swift:199-214 | audio passes up unless disconnecting; the actor then answers with `disconnect` while audio keeps coming within 200 ms, and otherwise disconnects; the instance records the time and starts its disconnect task |
| Receiving.PeerMessageForwarded | Sources/JamulusProtocol/Internal/JamulusProtocolInstance.swift:181-221 | an ordinary message needing an ack, as a peer frames it, is acked once and passed up unchanged |
| Receiving.OrdinaryAcked | Sources/JamulusProtocol/Internal/JamulusProtocolInstance.swift:181-221 | an ordinary packet needing an ack only advances the counter, sends the ack, and is passed up |
| Receiving.ParsesAsNeedingAck | Sources/JamulusProtocol/Internal/ProtocolHelpers.swift:77-79 | a framed message that needs an ack parses as such, with its frame's sequence |
| Receiving.PeerSignalForwarded | Sources/JamulusProtocol/Internal/JamulusProtocolInstance.swift:223-240 | a framed message needing no ack, other than a ping, changes nothing and is passed up |
| Receiving.SinglePartMessage | Sources/JamulusProtocol/Internal/JamulusProtocolInstance.swift:206-219 | under the corrected reassembly, a one-part container that needs an ack is acked, then its message is acked and passed up in its place; this packet is never produced by `Receiving.Parser`, since a container needs no ack |
| Receiving.PacketSerialisable | Sources/JamulusProtocol/Internal/JamulusProtocolInstance.swift:173-255 | handling one packet only sends frames that can be serialized, and keeps the ack table serializable |
| Receiving.HandledSerialisable | Sources/JamulusProtocol/Internal/JamulusProtocolInstance.swift:206-219 | the same holds through any nesting of reassembled messages (nesting the parser never produces, see `Receiving.ContainerNeverReassembled`) |
| Receiving.ContainerNeverReassembled | Sources/JamulusProtocol/Internal/JamulusProtocolInstance.swift:181-219 | as written, no parsed datagram reaches reassembly: a split-message container is never a message needing an ack (`needsAck` at JamulusMessage.swift:172-176 excludes id 2001), so it is passed up untouched, unacked and unstored |
| Receiving.HandlePacketIntended | Sources/JamulusProtocol/Internal/JamulusProtocolInstance.swift:206-219 | the intended handling: a container needing no ack is stored and reassembled without an ack, trapping exactly when the part does not fit; every other packet is handled as written |
| Receiving.HandleReceiveIntended | Sources/JamulusProtocol/Internal/JamulusProtocolInstance.swift:206-219 | the intended handling keeps the connection kind and task flags; a settled packet is its own handling and a trapped one traps |
| Receiving.ReceiveIntended | Sources/JamulusProtocol/Internal/JamulusProtocolInstance.swift:173-219 | parse then the intended handling; an unparsable datagram traps |
| Receiving.UnackedSinglePartReassembled | Sources/JamulusProtocol/Internal/JamulusProtocolInstance.swift:206-219 | with the intended handling, a one-part container needing no ack yields its message, acked once and passed up, with storage unchanged; as written the same packet is passed up as it is |
| Instance.StartDisconnect | Sources/JamulusProtocol/Internal/JamulusProtocolInstance.swift:307-314 | `disconnect()` publishes disconnecting, restarts the audio clock, empties both tables and stops the heartbeat and retransmit loops |
| Instance.Send | Sources/JamulusProtocol/Internal/JamulusProtocolInstance.swift:109-125 | a send takes the next sequence number and sends one frame; a message needing an ack is stored under the send time; `disconnect` first runs `disconnect()` |
| Instance.SendAudio | Sources/JamulusProtocol/Internal/JamulusProtocolInstance.swift:127-133 | audio goes out as one datagram, with the next audio sequence byte appended when asked for |
| Instance.AudioSequenceCounts | Sources/JamulusProtocol/Internal/JamulusProtocolInstance.swift:127-133 | n audio sends carry consecutive sequence bytes modulo 256 and advance the counter by n |
| Instance.DisconnectTick | Sources/JamulusProtocol/Internal/JamulusProtocolInstance.swift:367-386 | a running disconnect task sends `disconnect` while audio is under 200 ms old, and then ends the session |
| Instance.Delivered | Sources/JamulusProtocol/Internal/JamulusProtocolInstance.swift:147-157 | messages go to the caller's stream, audio to the callback, errors and acks nowhere |
| Instance.React | Sources/JamulusProtocol/Internal/JamulusProtocolInstance.swift:105-163 | an event keeps the connection kind and delivers at most one thing; a send succeeds exactly when the message can be serialized |
| Instance.Open | Sources/JamulusProtocol/Internal/JamulusProtocolInstance.swift:60-63 | every `open()` installs a continuation for a new, empty state stream and changes nothing else |
| Instance.Step | Sources/JamulusProtocol/Internal/JamulusProtocolInstance.swift:47-57 | once opened, an event has its reaction; before the first `open()`, a connection state changes nothing, because its loop starts in `open()` (lines 64-91); any other reaction that would publish a state traps instead, so nothing reaches the stream |
| Instance.DisconnectBeforeOpenTraps | Sources/JamulusProtocol/Internal/JamulusProtocolInstance.swift:47-57 | `send(.disconnect)` traps on a new instance, and on an opened one it publishes disconnecting |
| Instance.ClientIdBeforeOpenTraps | Sources/JamulusProtocol/Internal/JamulusProtocolInstance.swift:193-195 | a client id received before the first `open()` traps |
| Instance.Arrive | Sources/JamulusProtocol/Internal/JamulusProtocolInstance.swift:140-158 | an arriving datagram the parser cannot handle stops the receive loop |
| Instance.SendThenAck | Sources/JamulusProtocol/Internal/JamulusProtocolInstance.swift:118-121 | sending a message that needs an ack, then receiving its ack, leaves the table as large as before and drops nothing else |
| Instance.DisconnectingNeedsAudio | Sources/JamulusProtocol/Internal/JamulusProtocolInstance.swift:307-314 | having cancelled its heartbeat, a disconnecting instance stays disconnecting through any calls and ticks until audio arrives |
| Instance.DisconnectHandshake | Sources/JamulusProtocol/Internal/JamulusProtocolInstance.swift:242-249 | audio heard while disconnecting starts the disconnect task, which resends `disconnect` while the audio is fresh and then ends the session |
| ProtocolActor.Open | Sources/JamulusProtocol/JamulusProtocolActor.swift:66-122 | opening creates the state stream once; an open actor is returned as it is |
| ProtocolActor.OpenIdempotent | Sources/JamulusProtocol/JamulusProtocolActor.swift:71-76 | opening twice is opening once, and reopening keeps the existing stream |
| ProtocolActor.Send | Sources/JamulusProtocol/JamulusProtocolActor.swift:253-275 | while disconnecting a send does nothing, whatever the message, before any framing; otherwise it takes the next sequence number, stores a message needing an ack, and `disconnect` empties both tables and starts disconnecting with the loops left running |
| ProtocolActor.SendAudio | Sources/JamulusProtocol/JamulusProtocolActor.swift:276-283 | audio is dropped while disconnecting, otherwise sent with the optional sequence byte |
| ProtocolActor.Step | Sources/JamulusProtocol/JamulusProtocolActor.swift:224-286 | an event keeps the connection kind and whether the stream exists, delivers at most one packet, ignores a connection state before the first `open()` (the loop at lines 84-108 starts there), and a send succeeds exactly when the actor is disconnecting (the guard returns before framing) or the message can be serialized |
| ProtocolActor.Arrive | Sources/JamulusProtocol/JamulusProtocolActor.swift:236-244 | an arriving datagram the parser cannot handle stops the receive loop |
| ProtocolActor.SilentWhileDisconnecting | Sources/JamulusProtocol/JamulusProtocolActor.swift:253-283 | while disconnecting, every sequence of send and audio calls completes without a trap, whatever the messages, and sends nothing and leaves the session as it was |
| ProtocolActor.DisconnectTimesOut | Sources/JamulusProtocol/JamulusProtocolActor.swift:351-354 | after `disconnect`, the heartbeat, which is still running, ends the session three seconds later |
| ProtocolActor.AudioWhileDisconnecting | Sources/JamulusProtocol/JamulusProtocolActor.swift:199-214 | audio heard while disconnecting is consumed; it triggers another `disconnect` while audio is under 200 ms apart, and otherwise ends the session |
| Live.LiveNextSequenceNumber | Sources/JamulusProtocol/JamulusLive.swift:213-219 | this generation's counter adds one and wraps from 254 to 0, so it never holds 255 |
| Live.LiveAdvanceAdds | Sources/JamulusProtocol/JamulusLive.swift:213-219 | advancing n times adds n modulo 255, and returns to the start exactly after a multiple of 255 steps |
| Live.CountersDiffer | Sources/JamulusProtocol/JamulusLive.swift:213-219 | after 254 the two generations' counters disagree: 0 here, 255 in the other |
| Live.LiveMessageToData | Sources/JamulusProtocol/JamulusLive.swift:223-246 | this generation's frame has the same layout, with the checksum taken from the pluggable checksum function |
| Live.LiveFrameIsCodecFrame | Sources/JamulusProtocol/JamulusLive.swift:223-246 | with `jamulusCrc` as the checksum, both generations frame every message identically |
| Live.LiveParseData | Sources/JamulusProtocol/JamulusLive.swift:249-282 | the same classification as the other parser, with the pluggable checksum |
| Live.LiveParseIsCodecParse | Sources/JamulusProtocol/JamulusLive.swift:249-282 | with `jamulusCrc`, both generations parse every datagram identically |
| Live.LiveInitial | Sources/JamulusProtocol/JamulusLive.swift:25-39 | a new link starts with both counters at 0, empty tables and no pings |
| Live.LiveSend | Sources/JamulusProtocol/JamulusLive.swift:191-199 | a send takes the next sequence number, sends one frame, and stores a message needing an ack under the send time; nothing else changes |
| Live.LiveSendAudio | Sources/JamulusProtocol/JamulusLive.swift:200-208 | audio goes out with or without the next audio sequence byte |
| Live.LiveReceive | Sources/JamulusProtocol/JamulusLive.swift:146-178 | an ack removes its entry; a packet needing an ack is acked; a ping records its arrival; audio and errors change nothing |
| Live.PingId | Sources/JamulusProtocol/JamulusLive.swift:168 | id 1001 is exactly a ping |
| Live.LiveRetransmit | Sources/JamulusProtocol/JamulusLive.swift:117-135 | every entry older than one second is resent, oldest first, with its stored sequence; nothing is removed |
| Live.LiveRetransmitAgrees | Sources/JamulusProtocol/JamulusLive.swift:122-134 | where nothing is stale, this generation resends what the other does and keeps the same table |
| Live.LiveKeepAliveAsWritten | Sources/JamulusProtocol/JamulusLive.swift:68-92 | the timer as written reports disconnected unless a ping arrived in the last fifteen seconds, and otherwise beats |
| Live.LiveKeepAlive | Sources/JamulusProtocol/JamulusLive.swift:68-92 | the corrected timer also beats when no ping has arrived yet |
| Live.Beat | Sources/JamulusProtocol/JamulusLive.swift:77-91 | a beat pings a main server and pings with count a listing server, both with the default time stamp (taken as 0, see Left out) and the next sequence number, and records the send time; a directory lookup does nothing |
| Live.FreshLinkNeverPings | Sources/JamulusProtocol/JamulusLive.swift:71-75 | if the timer ran as written, a new link reports disconnected at every tick after the first fifteen seconds of the clock and never sends a ping |
| Live.PingKeepsAlive | Sources/JamulusProtocol/JamulusLive.swift:71-75 | with the corrected timer, a new link pings, and a link that heard a ping within fifteen seconds keeps pinging |
| Live.LiveSendThenAck | Sources/JamulusProtocol/JamulusLive.swift:149-158 | sending a message needing an ack, then receiving its ack, leaves the table as large as before |
| HostPort.ParseUInt | Sources/JamulusProtocol/Extensions/String+Extensions.swift:16 | `UInt(text)` accepts an optional sign and one or more digits whose value fits 64 bits, so a digit string parses exactly when its value fits; the empty text and a bare sign do not |
| HostPort.ParseDecimal | Sources/JamulusProtocol/Extensions/String+Extensions.swift:16 | the decimal text of every 64-bit unsigned value parses back to it |
| HostPort.PortOf | Sources/JamulusProtocol/Extensions/String+Extensions.swift:15-20 | the second component's unsigned value is the port when it parses; otherwise the default port |
| HostPort.AsJamulusUrlAsWritten | Sources/JamulusProtocol/Extensions/String+Extensions.swift:5-22 | the text gives no address exactly when it is empty or starts with a colon |
| HostPort.HugePortTraps | Sources/JamulusProtocol/Extensions/String+Extensions.swift:17 | `host:9223372036854775808` traps in `Int(port)` |
| HostPort.AsJamulusUrl | Sources/JamulusProtocol/Extensions/String+Extensions.swift:5-22 | never traps; no address exactly for empty text or a leading colon; the host is the non-empty text before the first colon; a bare host gets the default port |
| HostPort.CorrectedAgrees | Sources/JamulusProtocol/Extensions/String+Extensions.swift:15-20 | the corrected version returns what the original returns wherever that does not trap, and the default port where it does |
| HostPort.FormatParses | Sources/JamulusProtocol/Extensions/String+Extensions.swift:5-22 | `host:port`, with anything after a further colon, reads back as that host and port |
| HostPort.BadPortDefaults | Sources/JamulusProtocol/Extensions/String+Extensions.swift:15-20 | a port text that is not a number, or a missing port, gives the default port |
| HostPort.ServerIdParses | Sources/JamulusProtocol/Models/ServerDetail.swift:7 | a server's id reads back as its address and port |

## Left out

- The UDP connection, tasks, timers, `AsyncThrowingStream`, Combine publishers and dispatch queues. They become events and returned datagrams. Cancelling a task is a flag in the session record.
- `Date()` and `packetTimestamp` are inputs. `TimeInterval` seconds are whole milliseconds, so the 0.2 s, 1 s, 3 s, 10 s and 15 s thresholds are exact.
- The dictionary order behind `first(where:)` is unspecified. `Session.RemoveAcked` removes the matching entry with the smallest key. Its contract promises only that one matching entry goes.
- `Catalog.Payload`: the `sendChannelInfo` payload is left out. `Data.append(ChannelInfo)` copies the in-memory representation of two `String` values, which a byte-level model cannot know. `Catalog.Encodable` excludes that message.
- `Catalog.Payload`: states only payload lengths. The per-kind round-trip lemmas state the contents.
- `Catalog.RoundTrips` excludes the list, version, recorder-state and split-container messages. The package writes no payload for them.
- `Parsers.ParseServerListWithDetailsFrom`, `Parsers.ParseServerListFrom`, `Builders.CreateServerListWithDetails` and `Builders.CreateServerList` require payloads their too-small guards read safely. On other payloads the source traps (see Findings).
- `Catalog.Build` reads the two server lists with those parsers as written. A frame whose payload makes them read past the end fails `Catalog.PayloadDefined`. So `Codec.Parsable` is false for it, and `Receiving.Receive` traps on it, as the source does.
- `Parsers.ParseChannelPanFrom`, `Parsers.ParseChannelGainFrom`, `Parsers.ParseMuteChangeFrom`, `Parsers.ParseChannelInfoFrom`, `Parsers.ParseVersionAndOs`, `Parsers.ParseSplitMessage` and `AudioTransport.ParseFrom` require the bytes they index, where the source traps on a shorter payload. `Catalog.Deserialize` requires the same through `Catalog.PayloadDefined`.
- `DataExt.JamulusStringAt` returns the string's bytes as they are. `String(decoding:as:)` replaces each ill-formed UTF-8 sequence with U+FFFD, for example `[0xFF]` becomes `EF BF BD`, and that repair is not modelled. On well-formed UTF-8 the two agree.
- A debug build would also trap at each `assert` and at the `assertionFailure` in `jamulusStringAt` and `deserialize`. The model describes the optimised build only.
- `Parsers.ParseChannelInfoFrom`: states the id, country, skill and name. The instrument and city follow from `ChannelInfos.ParseFromData`.
- `Parsers.ParseChannelLevelsFrom`: states the bounds on the levels. `Parsers.LevelsRoundTrip` states the contents.
- `Instruments.Icon`: states which instruments show the microphone and which show nothing. The other emoji are in the definition only.
- Instrument names are compared by character code. Swift's `String` `<` compares by Unicode rules, and the two agree on the ASCII names used here.
- `Instance.React` and `ProtocolActor.Step`: state only what every event keeps. Each event's own effect is stated by `Send`, `SendAudio`, `Arrive`, `Session.Heartbeat`, `Session.Retransmit` and `Instance.DisconnectTick`.
- `SplitMessages.HandleSplitMessage`, `SplitMessages.SinglePartCompletes`, `SplitMessages.Completes`, `Receiving.OnSplitPart` and `Receiving.SinglePartMessage` reassemble a split message with the corrected `SplitMessages.Concat`, which appends each part's bytes. As written, ProtocolHelpers.swift:110 and JamulusProtocolInstance.swift:298 append the 16-byte image of each `Data?` part. That is `SplitMessages.ConcatAsWritten` (see Findings). So what these members promise about the message's contents holds for the corrected code only.
- `Parsers.ParsePingFrom`, `Parsers.ParsePingAndClientCountFrom` and `Live.Beat`: the source builds `.ping()` and `.pingPlusClientCount(clientCount: 0)` without a time stamp, but the cases declare `timeStamp: UInt32` with no default. The default is defined outside the modelled files. The model takes it as 0. A different default would change those messages' time stamps. It would also change whether `Receiving.Elapsed` underflows for a ping whose payload is not four bytes long.
- Nested split messages are handled up to a `depth` bound. Deeper nesting gives `TooDeep`, where the intended handling would recurse on. As written, no datagram reaches reassembly at all (see Findings).
- `Instance.Step` and `ProtocolActor.Step`: a connection state reported before the first `open()` is dropped. The transport (`UdpConnection`) is not part of this model, so whether it would hold such a state for the loop that `open()` starts is not modelled.
- `AudioTransport.BitRatePerSec` requires that the `UInt32` product not overflow, where the source traps.
- Display-only text: `OsType.description`, `ServerDetail.description` and `String.chatDate`, which needs a date formatter and a calendar.
- `Live.LiveKeepAliveAsWritten`: in `JamulusProtocol.live`, `open` builds the chain on `connection.statePublisher` (JamulusLive.swift:45-104) and discards it. Nothing subscribes to it, so in the program the keep-alive timer is never created and the failure completion is never sent. A live link never pings and never reports disconnected or failed. The keep-alive members model the timer's code as it would run if that chain were subscribed.
- `JamulusProtocol.live`: the `.connecting` that `open` sends before anyone subscribes to its publisher. The counter, framing, receiving, sending and retransmission are modelled.
- The connection-state loop that `JamulusProtocolInstance.open` starts is modelled by `Session.OnConnectionState` and the continuation by `Instance.Open`. The task plumbing around them is not modelled: `close`, the task's cancellation on termination, and the actor's `deinit`.

## Findings

| source | as written | input that shows it | evidently intended | confidence | as-written member | corrected member |
|---|---|---|---|---|---|---|
| Sources/JamulusProtocol/ProtocolHelpers.swift:110 | `message.append(part)` with `part` of type `Data?` resolves to the generic `append<T>`. That copies the 16-byte in-memory image of the optional, not the part's bytes. As written, no received datagram reaches this loop (see the row for JamulusProtocolInstance.swift:206-219). | one split part holding the bytes 1, 2, 3 | append the bytes of each part, in order | medium, not executed | SplitMessages.ConcatAsWritten, SplitMessages.AsWrittenLosesContent | SplitMessages.Concat, SplitMessages.ReassembleAnyOrder |
| Sources/JamulusProtocol/JamulusLive.swift:71-75 | The keep-alive guard is `now < lastPingReceived + 15`, with `lastPingReceived` starting at 0. A new link would therefore report disconnected at every tick and never send its first ping. The timer's enclosing chain (45-104) is never subscribed, so in the program as it stands no tick happens at all. | a new main-server link at any wall-clock time past 15 s after the epoch, once the chain is subscribed | treat "no ping heard yet" as alive, as the other two session layers do with `lastPingReceived == 0 \|\|` | low, not executed | Live.LiveKeepAliveAsWritten, Live.FreshLinkNeverPings | Live.LiveKeepAlive, Live.PingKeepsAlive |
| Sources/JamulusProtocol/Extensions/String+Extensions.swift:16-17 | `Int(port)` traps when the text's `UInt` value exceeds `Int.max` | `"host:9223372036854775808"` | reject the port like any other unusable port text, and use the default | medium, not executed | HostPort.AsJamulusUrlAsWritten, HostPort.HugePortTraps | HostPort.AsJamulusUrl, HostPort.CorrectedAgrees |
| Sources/JamulusProtocol/MessageParsers.swift:59-88 | The server-list loops continue while 6 (detailed) or 5 (reduced) bytes remain. A record needs at least 10 or 6 bytes, so a short tail makes the record reader index past the payload. | a 7-byte payload for message 1006, or a 5-byte payload for message 1018 | continue only while a whole fixed part remains: 10 and 6 bytes | high, not executed | Parsers.ParseServerListWithDetailsFrom, Parsers.GuardsTooSmall, Catalog.Build | Parsers.ServerListWithDetailsGuarded, Parsers.ServerListGuarded, Parsers.GuardedAgrees |
| Sources/JamulusProtocol/Internal/JamulusProtocolInstance.swift:206-219 | Split-message reassembly is a case of the `.messageNeedingAck` branch, in the instance and in the actor (JamulusProtocolActor.swift:164-173). `needsAck` (JamulusMessage.swift:172-176) is false for the container's id 2001, so `parseData` classifies every container as `.messageNoAck`, whose branch has no container case. Containers are passed up unacked and never reassembled. | any one-part container frame, id 2001, whose data is a framed message needing an ack | reassemble a container on the no-ack path, without an ack of its own | medium, not executed | Receiving.ContainerNeverReassembled, Receiving.HandleReceive | Receiving.HandleReceiveIntended, Receiving.UnackedSinglePartReassembled |
