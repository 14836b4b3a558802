/**
 `ChannelInfo`: what a server tells its clients about one connected channel,
 the reader for one list entry and the writer of the client's own details.
 */
module ChannelInfos {
  import opened Wire
  import opened DataExt
  import opened Instruments
  import ApiConsts

  datatype ChannelInfo = ChannelInfo(
    clientId: byte,
    countryId: u16,
    instrument: Instrument,
    skillLevel: byte,
    name: Bytes,
    city: Bytes,
    muted: bool,
    volume: byte,
    gain: u16,
    pan: u16)

  /** The memberwise initialiser with its defaults: not muted, volume and
      gain 0, pan centred. */
  function NewChannelInfo(clientId: byte, countryId: u16, instrument: Instrument, skillLevel: byte,
                          name: Bytes, city: Bytes): (c: ChannelInfo)
    ensures !c.muted && c.volume == 0 && c.gain == 0 && c.pan == ApiConsts.PanCenter
  {
    ChannelInfo(clientId, countryId, instrument, skillLevel, name, city, false, 0, 0, ApiConsts.PanCenter)
  }

  /** `Instrument(rawValue:) ?? .none`. */
  function InstrumentOrNone(raw: nat): (x: Instrument)
    ensures raw < 45 ==> Raw(x) == raw
    ensures raw >= 45 ==> x == NoInstrument
  {
    match FromRaw(raw)
    case Some(x) => x
    case None => NoInstrument
  }

  /** `parseFromData(data:pos:clientId:)`: the channel id byte (replaced by
      the given id when there is one, but skipped either way), the country
      (LE16), the instrument (LE32, unknown values read as no instrument),
      the skill level, then the name and the city with two-byte lengths.
      Its `assert` of a buffer longer than nine bytes is not checked in an
      optimised build; the eight fixed bytes are indexed, so they must be
      present. */
  function ParseFromData(data: Bytes, pos: nat, clientId: Option<byte>): (r: Read<ChannelInfo>)
    requires pos + 8 <= |data|
    ensures pos + 8 <= r.next <= |data|
    ensures r.value.clientId == if clientId.Some? then clientId.value else data[pos]
    ensures r.value.countryId == Le(data[pos + 1..pos + 3])
    ensures r.value.instrument == InstrumentOrNone(Le(data[pos + 3..pos + 7]))
    ensures r.value.skillLevel == data[pos + 7]
    ensures var name := JamulusStringAt(data, pos + 8, 2);
            && r.value.name == name.value
            && r.value.city == JamulusStringAt(data, name.next, 2).value
            && r.next == JamulusStringAt(data, name.next, 2).next
    ensures !r.value.muted && r.value.volume == 0 && r.value.gain == 0
    ensures r.value.pan == ApiConsts.PanCenter
  {
    var id := if clientId.Some? then clientId.value else data[pos];
    var country := NumericalValueAt(data, pos + 1, 2);
    var instrument := NumericalValueAt(data, country.next, 4);
    var skill := data[instrument.next];
    var name := JamulusStringAt(data, instrument.next + 1, 2);
    var city := JamulusStringAt(data, name.next, 2);
    ToLeOfLe(data[pos + 1..pos + 3]);
    Read(NewChannelInfo(id, country.value, InstrumentOrNone(instrument.value), skill, name.value, city.value),
         city.next)
  }

  // ----- the wire form of a channel -----

  predicate Writable(c: ChannelInfo) {
    |c.name| < 0x1_0000 && |c.city| < 0x1_0000
  }

  /** The fixed part of a channel's details: country, instrument, skill. */
  function FixedInfo(c: ChannelInfo): (r: Bytes)
    ensures |r| == 7
  {
    ToLe(c.countryId, 2) + ToLe(Raw(c.instrument), 4) + [c.skillLevel]
  }

  /** A channel's details as a server lists them after the channel id:
      country (2 bytes), instrument (4), skill (1), then name and city with
      two-byte lengths. */
  function EncodeInfo(c: ChannelInfo): (r: Bytes)
    requires Writable(c)
    ensures |r| == 11 + |c.name| + |c.city|
  {
    FixedInfo(c) + Prefixed(c.name) + Prefixed(c.city)
  }

  /** One entry of a server's channel list: the channel id, then the details. */
  function EncodeListEntry(c: ChannelInfo): (r: Bytes)
    requires Writable(c)
    ensures |r| == 12 + |c.name| + |c.city|
  {
    [c.clientId] + EncodeInfo(c)
  }

  /** What the reader makes of a channel: the wire fields, the rest at their
      defaults. */
  function Received(c: ChannelInfo): ChannelInfo {
    NewChannelInfo(c.clientId, c.countryId, c.instrument, c.skillLevel, c.name, c.city)
  }

  /** The pieces of a list entry sit in `data` from offset `p` on. */
  predicate EntryAt(data: Bytes, p: nat, c: ChannelInfo) {
    && Writable(c)
    && p + 12 + |c.name| + |c.city| <= |data|
    && data[p] == c.clientId
    && data[p + 1..p + 8] == FixedInfo(c)
    && data[p + 8..p + 10 + |c.name|] == Prefixed(c.name)
    && data[p + 10 + |c.name|..p + 12 + |c.name| + |c.city|] == Prefixed(c.city)
  }

  /** Where the pieces of an encoded entry sit once it is embedded. */
  lemma EncodedEntryLayout(prefix: Bytes, c: ChannelInfo, rest: Bytes)
    requires Writable(c)
    ensures EntryAt(prefix + EncodeListEntry(c) + rest, |prefix|, c)
  {
    var data := prefix + EncodeListEntry(c) + rest;
    var f, n, t := FixedInfo(c), Prefixed(c.name), Prefixed(c.city);
    assert EncodeListEntry(c) == [c.clientId] + f + n + t;
    FourPieces(prefix, [c.clientId], f, n, t, rest);
    assert data[|prefix|] == data[|prefix|..|prefix| + 1][0];
  }

  /** The fixed bytes of an entry read back. */
  lemma FixedInfoInPlace(data: Bytes, p: nat, c: ChannelInfo)
    requires p + 8 <= |data| && data[p + 1..p + 8] == FixedInfo(c)
    ensures Le(data[p + 1..p + 3]) == c.countryId
    ensures Le(data[p + 3..p + 7]) == Raw(c.instrument)
    ensures data[p + 7] == c.skillLevel
  {
    var f := FixedInfo(c);
    assert f[0..2] == ToLe(c.countryId, 2);
    assert f[2..6] == ToLe(Raw(c.instrument), 4);
    SliceOfSlice(data, p + 1, p + 8, 0, 2);
    SliceOfSlice(data, p + 1, p + 8, 2, 6);
    assert data[p + 7] == data[p + 1..p + 8][6];
  }

  /** An entry laid out at `p` reads back as the channel, and the reader
      stops right after it unless the entry ends the buffer with an empty
      city. */
  lemma EntryInPlace(data: Bytes, p: nat, c: ChannelInfo, clientId: Option<byte>)
    requires EntryAt(data, p, c)
    ensures var r := ParseFromData(data, p, clientId);
            && r.value == Received(c).(clientId := if clientId.Some? then clientId.value else c.clientId)
            && (|c.city| > 0 || p + 12 + |c.name| + |c.city| < |data| ==>
                  r.next == p + 12 + |c.name| + |c.city|)
            && r.next + 2 >= p + 12 + |c.name| + |c.city|
  {
    EntryFieldsInPlace(data, p, c, clientId);
    EntryStringsInPlace(data, p, c, clientId);
  }

  lemma EntryFieldsInPlace(data: Bytes, p: nat, c: ChannelInfo, clientId: Option<byte>)
    requires p + 8 <= |data| && data[p] == c.clientId && data[p + 1..p + 8] == FixedInfo(c)
    ensures var v := ParseFromData(data, p, clientId).value;
            && v.clientId == (if clientId.Some? then clientId.value else c.clientId)
            && v.countryId == c.countryId && v.instrument == c.instrument && v.skillLevel == c.skillLevel
  {
    FixedInfoInPlace(data, p, c);
    FromRawOfRaw(c.instrument);
  }

  lemma EntryStringsInPlace(data: Bytes, p: nat, c: ChannelInfo, clientId: Option<byte>)
    requires Writable(c)
    requires p + 12 + |c.name| + |c.city| <= |data|
    requires data[p + 8..p + 10 + |c.name|] == Prefixed(c.name)
    requires data[p + 10 + |c.name|..p + 12 + |c.name| + |c.city|] == Prefixed(c.city)
    ensures var r := ParseFromData(data, p, clientId);
            && r.value.name == c.name && r.value.city == c.city
            && (|c.city| > 0 || p + 12 + |c.name| + |c.city| < |data| ==>
                  r.next == p + 12 + |c.name| + |c.city|)
            && r.next + 2 >= p + 12 + |c.name| + |c.city|
  {
    TwoPrefixedInPlace(data, p + 8, c.name, c.city);
  }

  /** Reading a written list entry gives the channel back, whatever precedes
      or follows it. */
  lemma ParseEncodedEntry(prefix: Bytes, c: ChannelInfo, rest: Bytes)
    requires Writable(c)
    ensures var data := prefix + EncodeListEntry(c) + rest;
            var r := ParseFromData(data, |prefix|, None);
            && r.value == Received(c)
            && (|c.city| > 0 || |rest| > 0 ==> r.next == |prefix| + |EncodeListEntry(c)|)
            && r.next + 2 >= |prefix| + |EncodeListEntry(c)|
  {
    EncodedEntryLayout(prefix, c, rest);
    EntryInPlace(prefix + EncodeListEntry(c) + rest, |prefix|, c, None);
  }
}
