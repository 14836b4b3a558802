/**
 `MessageBuilders.swift`: a second set of payload readers, one per message
 kind, with the same behaviour as `MessageParsers.swift` under `create…`
 names. They are written here the way the Swift writes them, with loops over
 a cursor and bit masks on the level bytes, and each is proved to build the
 same message as its counterpart in `Parsers`.
 */
module Builders {
  import opened Wire
  import opened DataExt
  import opened Messages
  import Parsers
  import ChannelInfos
  import ServerDetails
  import ApiConsts

  // ----- pings -----

  /** `createPing`. */
  method CreatePing(payload: Bytes) returns (m: Message)
    ensures m == Parsers.ParsePingFrom(payload)
  {
    if |payload| == 4 {
      var timeStamp := NumericalValueAt(payload, 0, 4);
      return Ping(timeStamp.value);
    }
    return Ping(0);
  }

  /** `createPingWithClientCount`. */
  method CreatePingWithClientCount(payload: Bytes) returns (m: Message)
    ensures m == Parsers.ParsePingAndClientCountFrom(payload)
  {
    if |payload| == 5 {
      var timeStamp := NumericalValueAt(payload, 0, 4);
      return PingPlusClientCount(payload[timeStamp.next], timeStamp.value);
    }
    return PingPlusClientCount(0, 0);
  }

  // ----- channel levels -----

  /** `byte & 0xF`. */
  function LowBits(x: bv8): bv8 {
    x & 0xF
  }

  /** `(byte & 0xF0) >> 4`. */
  function HighBits(x: bv8): bv8 {
    (x & 0xF0) >> 4
  }

  /** The low mask keeps the remainder by sixteen. */
  lemma LowBitsValue(x: bv8)
    ensures LowBits(x) as int == x as int % 16
  {
  }

  /** The high mask and shift keep the quotient by sixteen. */
  lemma HighBitsValue(x: bv8)
    ensures HighBits(x) as int == x as int / 16
  {
  }

  /** The loop body of `createChannelLevelList` on one byte: the low
      nibble, then the high nibble unless it is 0xF. The masks are taken as
      the remainder and quotient by sixteen they compute on every byte
      (LowBitsValue, HighBitsValue). */
  function ByteLevels(b: byte): (r: seq<byte>)
    ensures r == Parsers.Nibbles(b)
  {
    var first := b % 16;
    var second := b / 16;
    if second != 0xF then [first, second] else [first]
  }

  /** The levels of a longer payload: those of the front, then the nibbles
      of the last byte. */
  lemma {:induction false} LevelsAppend(front: Bytes, b: byte)
    ensures Parsers.ChannelLevels(front + [b]) == Parsers.ChannelLevels(front) + Parsers.Nibbles(b)
  {
    if front == [] {
      assert front + [b] == [b];
      assert [b][1..] == [];
    } else {
      assert (front + [b])[1..] == front[1..] + [b];
      LevelsAppend(front[1..], b);
    }
  }

  /** One more byte of the payload adds its nibbles to the levels. */
  lemma LevelsStep(payload: Bytes, i: nat)
    requires i < |payload|
    ensures Parsers.ChannelLevels(payload[..i + 1]) == Parsers.ChannelLevels(payload[..i]) + Parsers.Nibbles(payload[i])
  {
    assert payload[..i + 1] == payload[..i] + [payload[i]];
    LevelsAppend(payload[..i], payload[i]);
  }

  /** `createChannelLevelList`: for each byte the low nibble, then the high
      nibble unless it is 0xF. */
  method CreateChannelLevelList(payload: Bytes) returns (m: Message)
    ensures m == Parsers.ParseChannelLevelsFrom(payload)
  {
    var vals: seq<byte> := [];
    var i := 0;
    while i < |payload|
      invariant 0 <= i <= |payload|
      invariant vals == Parsers.ChannelLevels(payload[..i])
    {
      LevelsStep(payload, i);
      var pieces := ByteLevels(payload[i]);
      vals := vals + pieces;
      i := i + 1;
    }
    assert payload[..i] == payload;
    return ChannelLevelList(vals);
  }

  // ----- the client list -----

  /** The private `parseChannelInfos`: read entries while at least twelve
      bytes remain. */
  method ParseChannelInfos(payload: Bytes) returns (channels: seq<ChannelInfos.ChannelInfo>)
    ensures channels == Parsers.ChannelInfosFrom(payload, 0)
  {
    var pos := 0;
    channels := [];
    while |payload| - pos >= 12
      invariant pos <= |payload|
      invariant channels + Parsers.ChannelInfosFrom(payload, pos) == Parsers.ChannelInfosFrom(payload, 0)
      decreases |payload| - pos
    {
      var channelInfo := ChannelInfos.ParseFromData(payload, pos, None);
      Parsers.ChannelInfosStep(payload, pos);
      Regroup(channels, channelInfo.value, Parsers.ChannelInfosFrom(payload, channelInfo.next));
      channels := channels + [channelInfo.value];
      pos := channelInfo.next;
    }
  }

  /** `createClientList`. */
  method CreateClientList(payload: Bytes) returns (m: Message)
    ensures m == Parsers.ParseClientListFrom(payload)
  {
    var channels := ParseChannelInfos(payload);
    return ClientList(channels);
  }

  /** `createClientListNoAck`. */
  method CreateClientListNoAck(payload: Bytes) returns (m: Message)
    ensures m == Parsers.ParseClientListNoAckFrom(payload)
  {
    var channels := ParseChannelInfos(payload);
    return ClientListNoAck(channels);
  }

  // ----- the server lists -----

  /** The loop of `createServerListWithDetails` and
      `createDetailedServerList`: detailed records while at least `guard`
      bytes remain. */
  method ReadDetailedRecords(payload: Bytes, guard: nat, defaultHost: Bytes)
    returns (details: seq<ServerDetails.ServerDetail>)
    requires Parsers.DetailedSafe(payload, 0, guard)
    ensures details == Parsers.DetailedListFrom(payload, 0, guard, defaultHost)
  {
    var pos := 0;
    details := [];
    while |payload| - pos >= guard
      invariant pos <= |payload| && Parsers.DetailedSafe(payload, pos, guard)
      invariant details + Parsers.DetailedListFrom(payload, pos, guard, defaultHost)
                == Parsers.DetailedListFrom(payload, 0, guard, defaultHost)
      decreases |payload| - pos
    {
      var detail := ServerDetails.ParseFromData(payload, pos, defaultHost);
      Parsers.DetailedLoopStep(payload, pos, guard, defaultHost);
      Regroup(details, detail.value, Parsers.DetailedListFrom(payload, detail.next, guard, defaultHost));
      details := details + [detail.value];
      pos := detail.next;
    }
  }

  /** The loop of `createServerList`: reduced records while at least
      `guard` bytes remain. */
  method ReadReducedRecords(payload: Bytes, guard: nat, defaultHost: Bytes)
    returns (details: seq<ServerDetails.ServerDetail>)
    requires Parsers.ReducedSafe(payload, 0, guard)
    ensures details == Parsers.ReducedListFrom(payload, 0, guard, defaultHost)
  {
    var pos := 0;
    details := [];
    while |payload| - pos >= guard
      invariant pos <= |payload| && Parsers.ReducedSafe(payload, pos, guard)
      invariant details + Parsers.ReducedListFrom(payload, pos, guard, defaultHost)
                == Parsers.ReducedListFrom(payload, 0, guard, defaultHost)
      decreases |payload| - pos
    {
      var detail := ServerDetails.ParseReducedFromData(payload, pos, defaultHost);
      Parsers.ReducedLoopStep(payload, pos, guard, defaultHost);
      Regroup(details, detail.value, Parsers.ReducedListFrom(payload, detail.next, guard, defaultHost));
      details := details + [detail.value];
      pos := detail.next;
    }
  }

  /** `createServerListWithDetails`, with its guard of six bytes. */
  method CreateServerListWithDetails(payload: Bytes, defaultHost: Bytes) returns (m: Message)
    requires Parsers.DetailedSafe(payload, 0, 6)
    ensures m == Parsers.ParseServerListWithDetailsFrom(payload, defaultHost)
  {
    var details := ReadDetailedRecords(payload, 6, defaultHost);
    return ServerListWithDetails(details);
  }

  /** `createServerList`, with its guard of five bytes. */
  method CreateServerList(payload: Bytes, defaultHost: Bytes) returns (m: Message)
    requires Parsers.ReducedSafe(payload, 0, 5)
    ensures m == Parsers.ParseServerListFrom(payload, defaultHost)
  {
    var details := ReadReducedRecords(payload, 5, defaultHost);
    return ServerList(details);
  }

  /** `createDetailedServerList`, with its guard of sixteen bytes. */
  method CreateDetailedServerList(payload: Bytes, defaultHost: Bytes) returns (m: Message)
    ensures m == Parsers.ParseDetailedServerListFrom(payload, defaultHost)
  {
    Parsers.DetailedGuardSuffices(payload, 0, 16);
    var details := ReadDetailedRecords(payload, 16, defaultHost);
    return ServerListWithDetails(details);
  }

  // ----- fixed-layout payloads -----

  /** `createChatText`. */
  method CreateChatText(payload: Bytes) returns (m: Message)
    ensures m == Parsers.ParseChatTextFrom(payload)
  {
    var text := [];
    if |payload| > 2 {
      text := JamulusStringAt(payload, 0, 2).value;
    }
    return ChatText(text);
  }

  /** `createChannelPan`: the first three bytes. */
  method CreateChannelPan(payload: Bytes) returns (m: Message)
    requires |payload| >= 3
    ensures m == Parsers.ParseChannelPanFrom(payload)
  {
    var pan := NumericalValueAt(payload, 1, 2).value;
    return ChannelPan(payload[0], pan);
  }

  /** `createChannelGain`: the first three bytes. */
  method CreateChannelGain(payload: Bytes) returns (m: Message)
    requires |payload| >= 3
    ensures m == Parsers.ParseChannelGainFrom(payload)
  {
    var gain := NumericalValueAt(payload, 1, 2).value;
    return ChannelGain(payload[0], gain);
  }

  /** `createMuteChange`: the first two bytes. */
  method CreateMuteChange(payload: Bytes) returns (m: Message)
    requires |payload| >= 2
    ensures m == Parsers.ParseMuteChangeFrom(payload)
  {
    return MuteStateChange(payload[0], payload[1] > 0);
  }

  /** `createSetChannelInfo`: one channel record with the id forced to 0. */
  method CreateSetChannelInfo(payload: Bytes) returns (m: Message)
    requires |payload| >= 8
    ensures m == Parsers.ParseChannelInfoFrom(payload)
  {
    var info := ChannelInfos.ParseFromData(payload, 0, Some(0));
    return SendChannelInfo(info.value);
  }

  /** This file's own `parseVersionAndOs`. */
  method ParseVersionAndOs(payload: Bytes) returns (version: Bytes, os: ApiConsts.OsType)
    requires |payload| >= 1
    ensures (version, os) == Parsers.ParseVersionAndOs(payload)
  {
    var osRaw := payload[0];
    version := JamulusStringAt(payload, 1, 2).value;
    os := match ApiConsts.OsFromRaw(osRaw) case Some(o) => o case None => ApiConsts.Linux;
  }

  /** `createVersionAndOsOld`. */
  method CreateVersionAndOsOld(payload: Bytes) returns (m: Message)
    requires |payload| >= 1
    ensures m == Parsers.ParseVersionAndOsAckedFrom(payload)
  {
    var version, os := ParseVersionAndOs(payload);
    return VersionAndOsOld(version, os);
  }

  /** `createVersionAndOs`. */
  method CreateVersionAndOs(payload: Bytes) returns (m: Message)
    requires |payload| >= 1
    ensures m == Parsers.ParseVersionAndOsFrom(payload)
  {
    var version, os := ParseVersionAndOs(payload);
    return VersionAndOs(version, os);
  }

  /** `createRecorderState`. */
  method CreateRecorderState(payload: Bytes) returns (m: Message)
    ensures m == Parsers.ParseRecorderStateFrom(payload)
  {
    var state := ApiConsts.Unknown;
    if |payload| > 0 {
      var parsed := ApiConsts.RecorderFromRaw(payload[0]);
      if parsed.Some? {
        state := parsed.value;
      }
    }
    return RecorderState(state);
  }
}
