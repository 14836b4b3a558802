/**
 The payload parsers of `MessageParsers.swift`: one function per message
 kind that carries data, and the length-driven loops that read the client
 and server lists. Every parser receives the payload, the bytes after the
 seven-byte header.
 */
module Parsers {
  import opened Wire
  import opened DataExt
  import opened Messages
  import ChannelInfos
  import ServerDetails
  import ApiConsts

  // ----- pings -----

  /** `parsePingFrom`: the timestamp when the payload is exactly four bytes,
      otherwise the default timestamp, taken as 0 (the message case declares
      none). */
  function ParsePingFrom(payload: Bytes): (m: Message)
    ensures m.Ping?
    ensures |payload| == 4 ==> ToLe(m.timeStamp, 4) == payload
    ensures |payload| != 4 ==> m.timeStamp == 0
  {
    if |payload| == 4 then Ping(NumericalValueAt(payload, 0, 4).value) else Ping(0)
  }

  /** `parsePingAndClientCountFrom`: timestamp and client count when the
      payload is exactly five bytes; otherwise count 0 and the default
      timestamp, taken as 0. */
  function ParsePingAndClientCountFrom(payload: Bytes): (m: Message)
    ensures m.PingPlusClientCount?
    ensures |payload| == 5 ==> ToLe(m.timeStamp, 4) == payload[..4] && m.clientCount == payload[4]
    ensures |payload| != 5 ==> m.clientCount == 0 && m.timeStamp == 0
  {
    if |payload| == 5 then PingPlusClientCount(payload[4], NumericalValueAt(payload, 0, 4).value)
    else PingPlusClientCount(0, 0)
  }

  // ----- channel levels -----

  /** The levels one byte carries: the low nibble, then the high nibble
      unless it is 0xF, which marks an odd count. */
  function Nibbles(b: byte): seq<byte> {
    if b / 16 != 15 then [b % 16, b / 16] else [b % 16]
  }

  /** `parseChannelLevelsFrom`'s loop: the levels of every byte in turn.
      Each byte gives one or two levels, and a level is a nibble. */
  function ChannelLevels(payload: Bytes): (r: seq<byte>)
    ensures |payload| <= |r| <= 2 * |payload|
    ensures forall i :: 0 <= i < |r| ==> r[i] <= 15
  {
    if payload == [] then [] else Nibbles(payload[0]) + ChannelLevels(payload[1..])
  }

  /** `parseChannelLevelsFrom`. */
  function ParseChannelLevelsFrom(payload: Bytes): (m: Message)
    ensures m.ChannelLevelList?
    ensures |payload| <= |m.levels| <= 2 * |payload|
    ensures forall i :: 0 <= i < |m.levels| ==> m.levels[i] <= 15
  {
    ChannelLevelList(ChannelLevels(payload))
  }

  /** How a server packs levels: two to a byte, low nibble first, and 0xF in
      the high nibble of a last lone level. */
  function PackLevels(levels: seq<byte>): (r: Bytes)
    requires forall i :: 0 <= i < |levels| ==> levels[i] < 15
    ensures |r| == (|levels| + 1) / 2
  {
    if |levels| == 0 then []
    else if |levels| == 1 then [levels[0] + 0xF0]
    else [levels[0] + 16 * levels[1]] + PackLevels(levels[2..])
  }

  /** Unpacking packed levels gives them back. */
  lemma {:induction false} LevelsRoundTrip(levels: seq<byte>)
    requires forall i :: 0 <= i < |levels| ==> levels[i] < 15
    ensures ChannelLevels(PackLevels(levels)) == levels
  {
    if |levels| >= 2 {
      var packed := PackLevels(levels);
      assert packed[1..] == PackLevels(levels[2..]);
      LevelsRoundTrip(levels[2..]);
      assert levels == [levels[0], levels[1]] + levels[2..];
    }
  }

  // ----- the client list -----

  /** `parseChannelInfos`: read entries while at least twelve bytes remain;
      each entry moves the cursor on by at least eight bytes. */
  function ChannelInfosFrom(payload: Bytes, pos: nat): (r: seq<ChannelInfos.ChannelInfo>)
    requires pos <= |payload|
    decreases |payload| - pos
    ensures r == [] <==> |payload| - pos < 12
    ensures 8 * |r| <= |payload| - pos
    ensures forall i :: 0 <= i < |r| ==>
              !r[i].muted && r[i].volume == 0 && r[i].gain == 0 && r[i].pan == ApiConsts.PanCenter
  {
    if |payload| - pos >= 12 then
      var c := ChannelInfos.ParseFromData(payload, pos, None);
      [c.value] + ChannelInfosFrom(payload, c.next)
    else []
  }

  /** One turn of the client-list loop: the entry read at `pos` heads the
      list. */
  lemma ChannelInfosStep(payload: Bytes, pos: nat)
    requires pos <= |payload| && |payload| - pos >= 12
    ensures var c := ChannelInfos.ParseFromData(payload, pos, None);
            && c.next <= |payload|
            && ChannelInfosFrom(payload, pos) == [c.value] + ChannelInfosFrom(payload, c.next)
  {
  }

  /** `parseClientListFrom`. */
  function ParseClientListFrom(payload: Bytes): (m: Message)
    ensures m.ClientList? && m.channelInfo == ChannelInfosFrom(payload, 0)
  {
    ClientList(ChannelInfosFrom(payload, 0))
  }

  /** `parseClientListNoAckFrom`: the same list under the unacknowledged id. */
  function ParseClientListNoAckFrom(payload: Bytes): (m: Message)
    ensures m.ClientListNoAck? && m.channelInfo == ParseClientListFrom(payload).channelInfo
  {
    ClientListNoAck(ChannelInfosFrom(payload, 0))
  }

  /** Every channel's strings fit their two-byte lengths. */
  predicate AllWritable(cs: seq<ChannelInfos.ChannelInfo>) {
    cs == [] || (ChannelInfos.Writable(cs[0]) && AllWritable(cs[1..]))
  }

  /** A server's channel list: the entries back to back. */
  function EncodeChannelList(cs: seq<ChannelInfos.ChannelInfo>): Bytes
    requires AllWritable(cs)
  {
    if cs == [] then [] else ChannelInfos.EncodeListEntry(cs[0]) + EncodeChannelList(cs[1..])
  }

  /** Every channel as the reader sees it. */
  function ReceivedAll(cs: seq<ChannelInfos.ChannelInfo>): (r: seq<ChannelInfos.ChannelInfo>)
    ensures |r| == |cs|
  {
    if cs == [] then [] else [ChannelInfos.Received(cs[0])] + ReceivedAll(cs[1..])
  }

  /** A written channel list fills `data` from `p` to the end. */
  predicate ListAt(data: Bytes, p: nat, cs: seq<ChannelInfos.ChannelInfo>)
    requires AllWritable(cs)
  {
    p <= |data| && data[p..] == EncodeChannelList(cs)
  }

  /** The first entry of a list in place, and the rest of the list after it. */
  lemma ListAtStep(data: Bytes, p: nat, cs: seq<ChannelInfos.ChannelInfo>)
    requires AllWritable(cs)
    requires cs != [] && ListAt(data, p, cs)
    ensures ChannelInfos.EntryAt(data, p, cs[0])
    ensures p + 12 + |cs[0].name| + |cs[0].city| <= |data|
    ensures ListAt(data, p + 12 + |cs[0].name| + |cs[0].city|, cs[1..])
  {
    var entry := ChannelInfos.EncodeListEntry(cs[0]);
    var rest := EncodeChannelList(cs[1..]);
    SuffixSplits(data, p, entry, rest);
    ChannelInfos.EncodedEntryLayout(data[..p], cs[0], rest);
  }

  /** The rest of a list in place starts right after its first entry. */
  lemma ListTail(data: Bytes, p: nat, cs: seq<ChannelInfos.ChannelInfo>)
    requires AllWritable(cs)
    requires cs != [] && ListAt(data, p, cs)
    ensures p + 12 + |cs[0].name| + |cs[0].city| <= |data|
    ensures ListAt(data, p + 12 + |cs[0].name| + |cs[0].city|, cs[1..])
  {
    SuffixSplits(data, p, ChannelInfos.EncodeListEntry(cs[0]), EncodeChannelList(cs[1..]));
  }

  /** One entry in place: the loop reads it and carries on after it, or
      finds at most two bytes left. */
  lemma EntryStep(data: Bytes, p: nat, c: ChannelInfos.ChannelInfo) returns (next: nat)
    requires ChannelInfos.EntryAt(data, p, c)
    ensures next <= |data|
    ensures ChannelInfosFrom(data, p) == [ChannelInfos.Received(c)] + ChannelInfosFrom(data, next)
    ensures var end := p + 12 + |c.name| + |c.city|;
            (end < |data| ==> next == end) && next + 2 >= end
  {
    ChannelInfos.EntryInPlace(data, p, c, None);
    next := ChannelInfos.ParseFromData(data, p, None).next;
  }

  /** The first entry of a list in place is read, and the reader lands at
      the rest of the list or within two bytes of the end. */
  lemma ListStep(data: Bytes, p: nat, cs: seq<ChannelInfos.ChannelInfo>) returns (next: nat)
    requires AllWritable(cs)
    requires cs != [] && ListAt(data, p, cs)
    ensures next <= |data|
    ensures ChannelInfosFrom(data, p) == [ChannelInfos.Received(cs[0])] + ChannelInfosFrom(data, next)
    ensures var end := p + 12 + |cs[0].name| + |cs[0].city|;
            (end < |data| ==> next == end) && next + 2 >= end
  {
    ListAtStep(data, p, cs);
    next := EntryStep(data, p, cs[0]);
  }

  /** A list in place reads back entry by entry. */
  lemma {:induction false} EntriesInPlace(data: Bytes, p: nat, cs: seq<ChannelInfos.ChannelInfo>)
    requires AllWritable(cs)
    requires ListAt(data, p, cs)
    ensures ChannelInfosFrom(data, p) == ReceivedAll(cs)
    decreases |cs|, 1
  {
    if cs != [] {
      var next := ListStep(data, p, cs);
      TailInPlace(data, p, next, cs);
    }
  }

  /** Once the first entry of a list in place is read, the rest of the list
      reads back from wherever the reader landed. */
  lemma {:induction false} TailInPlace(data: Bytes, p: nat, next: nat, cs: seq<ChannelInfos.ChannelInfo>)
    requires AllWritable(cs)
    requires cs != [] && ListAt(data, p, cs)
    requires next <= |data|
    requires var end := p + 12 + |cs[0].name| + |cs[0].city|;
             (end < |data| ==> next == end) && next + 2 >= end
    ensures ChannelInfosFrom(data, next) == ReceivedAll(cs[1..])
    decreases |cs|, 0
  {
    ListTail(data, p, cs);
    RestInPlace(data, next, p + 12 + |cs[0].name| + |cs[0].city|, cs[1..]);
  }

  /** After an entry, the reader is either at the next entry or at most two
      bytes from the end of a list that is over. */
  lemma {:induction false} RestInPlace(data: Bytes, next: nat, end: nat, cs: seq<ChannelInfos.ChannelInfo>)
    requires AllWritable(cs)
    requires next <= |data| && ListAt(data, end, cs)
    requires (end < |data| ==> next == end) && next + 2 >= end
    ensures ChannelInfosFrom(data, next) == ReceivedAll(cs)
    decreases |cs|, 2
  {
    if cs == [] {
      assert |data| - next < 12;
    } else {
      EntriesInPlace(data, end, cs);
    }
  }

  /** A written channel list reads back entry by entry, whatever precedes it. */
  lemma ChannelListRoundTrip(prefix: Bytes, cs: seq<ChannelInfos.ChannelInfo>)
    requires AllWritable(cs)
    ensures ChannelInfosFrom(prefix + EncodeChannelList(cs), |prefix|) == ReceivedAll(cs)
  {
    assert (prefix + EncodeChannelList(cs))[|prefix|..] == EncodeChannelList(cs);
    EntriesInPlace(prefix + EncodeChannelList(cs), |prefix|, cs);
  }

  /** Reading a written client list gives every channel back. */
  lemma ClientListRoundTrip(cs: seq<ChannelInfos.ChannelInfo>)
    requires AllWritable(cs)
    ensures ParseClientListFrom(EncodeChannelList(cs)) == ClientList(ReceivedAll(cs))
  {
    ChannelListRoundTrip([], cs);
    assert [] + EncodeChannelList(cs) == EncodeChannelList(cs);
  }

  // ----- the server lists -----

  /** The detailed loop never starts a record it cannot finish: each time at
      least `guard` bytes remain, the ten fixed bytes of a record are there.
      The record reader's stopping point does not depend on the host. */
  predicate DetailedSafe(payload: Bytes, pos: nat, guard: nat)
    requires pos <= |payload|
    decreases |payload| - pos
  {
    |payload| - pos >= guard ==>
      pos + 10 <= |payload| && DetailedSafe(payload, ServerDetails.ParseFromData(payload, pos, []).next, guard)
  }

  /** The same for the reduced loop and its six fixed bytes. */
  predicate ReducedSafe(payload: Bytes, pos: nat, guard: nat)
    requires pos <= |payload|
    decreases |payload| - pos
  {
    |payload| - pos >= guard ==>
      pos + 6 <= |payload| && ReducedSafe(payload, ServerDetails.ParseReducedFromData(payload, pos, []).next, guard)
  }

  /** The detailed record reader stops at the same place whatever the host. */
  lemma DetailedNextIgnoresHost(payload: Bytes, pos: nat, host: Bytes)
    requires pos + 10 <= |payload|
    ensures ServerDetails.ParseFromData(payload, pos, host).next
            == ServerDetails.ParseFromData(payload, pos, []).next
  {
  }

  /** The reduced record reader stops at the same place whatever the host. */
  lemma ReducedNextIgnoresHost(payload: Bytes, pos: nat, host: Bytes)
    requires pos + 6 <= |payload|
    ensures ServerDetails.ParseReducedFromData(payload, pos, host).next
            == ServerDetails.ParseReducedFromData(payload, pos, []).next
  {
  }

  /** The detailed record loop: read records while at least `guard` bytes
      remain. */
  function DetailedListFrom(payload: Bytes, pos: nat, guard: nat, defaultHost: Bytes): (r: seq<ServerDetails.ServerDetail>)
    requires pos <= |payload| && DetailedSafe(payload, pos, guard)
    decreases |payload| - pos
    ensures r == [] <==> |payload| - pos < guard
    ensures 10 * |r| <= |payload| - pos
  {
    if |payload| - pos >= guard then
      var d := ServerDetails.ParseFromData(payload, pos, defaultHost);
      DetailedNextIgnoresHost(payload, pos, defaultHost);
      [d.value] + DetailedListFrom(payload, d.next, guard, defaultHost)
    else []
  }

  /** The reduced record loop: read records while at least `guard` bytes
      remain. */
  function ReducedListFrom(payload: Bytes, pos: nat, guard: nat, defaultHost: Bytes): (r: seq<ServerDetails.ServerDetail>)
    requires pos <= |payload| && ReducedSafe(payload, pos, guard)
    decreases |payload| - pos
    ensures r == [] <==> |payload| - pos < guard
    ensures 6 * |r| <= |payload| - pos
  {
    if |payload| - pos >= guard then
      var d := ServerDetails.ParseReducedFromData(payload, pos, defaultHost);
      ReducedNextIgnoresHost(payload, pos, defaultHost);
      [d.value] + ReducedListFrom(payload, d.next, guard, defaultHost)
    else []
  }

  /** A complete record put in front of complete records. */
  lemma Complete(d: ServerDetails.ServerDetail, rest: seq<ServerDetails.ServerDetail>)
    requires d.port != 0 && d.country.Some? && d.maxClients.Some?
    requires forall i :: 0 <= i < |rest| ==> rest[i].port != 0 && rest[i].country.Some? && rest[i].maxClients.Some?
    ensures var r := [d] + rest;
            forall i :: 0 <= i < |r| ==> r[i].port != 0 && r[i].country.Some? && r[i].maxClients.Some?
  {
  }

  /** A bare record put in front of bare records. */
  lemma Bare(d: ServerDetails.ServerDetail, rest: seq<ServerDetails.ServerDetail>)
    requires d.port != 0 && d.country.None? && d.maxClients.None?
    requires forall i :: 0 <= i < |rest| ==> rest[i].port != 0 && rest[i].country.None? && rest[i].maxClients.None?
    ensures var r := [d] + rest;
            forall i :: 0 <= i < |r| ==> r[i].port != 0 && r[i].country.None? && r[i].maxClients.None?
  {
  }

  /** Every detailed record read has a port other than zero, a country code
      and a client limit. */
  lemma {:induction false} DetailedRecordsComplete(payload: Bytes, pos: nat, guard: nat, defaultHost: Bytes)
    requires pos <= |payload| && DetailedSafe(payload, pos, guard)
    ensures var r := DetailedListFrom(payload, pos, guard, defaultHost);
            forall i :: 0 <= i < |r| ==> r[i].port != 0 && r[i].country.Some? && r[i].maxClients.Some?
    decreases |payload| - pos
  {
    if |payload| - pos >= guard {
      var d := ServerDetails.ParseFromData(payload, pos, defaultHost);
      DetailedLoopStep(payload, pos, guard, defaultHost);
      DetailedRecordsComplete(payload, d.next, guard, defaultHost);
      var rest := DetailedListFrom(payload, d.next, guard, defaultHost);
      Complete(d.value, rest);
    }
  }

  /** Every reduced record read has a port other than zero, and neither a
      country code nor a client limit. */
  lemma {:induction false} ReducedRecordsBare(payload: Bytes, pos: nat, guard: nat, defaultHost: Bytes)
    requires pos <= |payload| && ReducedSafe(payload, pos, guard)
    ensures var r := ReducedListFrom(payload, pos, guard, defaultHost);
            forall i :: 0 <= i < |r| ==> r[i].port != 0 && r[i].country.None? && r[i].maxClients.None?
    decreases |payload| - pos
  {
    if |payload| - pos >= guard {
      var d := ServerDetails.ParseReducedFromData(payload, pos, defaultHost);
      ReducedLoopStep(payload, pos, guard, defaultHost);
      ReducedRecordsBare(payload, d.next, guard, defaultHost);
      var rest := ReducedListFrom(payload, d.next, guard, defaultHost);
      Bare(d.value, rest);
    }
  }

  /** One turn of the detailed loop: the record read at `pos` heads the
      list, and the loop stays safe where the reader lands. */
  lemma DetailedLoopStep(payload: Bytes, pos: nat, guard: nat, defaultHost: Bytes)
    requires pos <= |payload| && DetailedSafe(payload, pos, guard)
    requires |payload| - pos >= guard
    ensures var d := ServerDetails.ParseFromData(payload, pos, defaultHost);
            && DetailedSafe(payload, d.next, guard)
            && DetailedListFrom(payload, pos, guard, defaultHost)
               == [d.value] + DetailedListFrom(payload, d.next, guard, defaultHost)
  {
    DetailedNextIgnoresHost(payload, pos, defaultHost);
  }

  /** One turn of the reduced loop. */
  lemma ReducedLoopStep(payload: Bytes, pos: nat, guard: nat, defaultHost: Bytes)
    requires pos <= |payload| && ReducedSafe(payload, pos, guard)
    requires |payload| - pos >= guard
    ensures var d := ServerDetails.ParseReducedFromData(payload, pos, defaultHost);
            && ReducedSafe(payload, d.next, guard)
            && ReducedListFrom(payload, pos, guard, defaultHost)
               == [d.value] + ReducedListFrom(payload, d.next, guard, defaultHost)
  {
    ReducedNextIgnoresHost(payload, pos, defaultHost);
  }

  /** A guard of at least a record's fixed size makes the detailed loop safe
      on every payload. */
  lemma {:induction false} DetailedGuardSuffices(payload: Bytes, pos: nat, guard: nat)
    requires pos <= |payload| && guard >= 10
    ensures DetailedSafe(payload, pos, guard)
    decreases |payload| - pos
  {
    if |payload| - pos >= guard {
      DetailedGuardSuffices(payload, ServerDetails.ParseFromData(payload, pos, []).next, guard);
    }
  }

  /** The same for the reduced loop with a guard of at least six. */
  lemma {:induction false} ReducedGuardSuffices(payload: Bytes, pos: nat, guard: nat)
    requires pos <= |payload| && guard >= 6
    ensures ReducedSafe(payload, pos, guard)
    decreases |payload| - pos
  {
    if |payload| - pos >= guard {
      ReducedGuardSuffices(payload, ServerDetails.ParseReducedFromData(payload, pos, []).next, guard);
    }
  }

  /** The guards the two list parsers use are too small: seven bytes pass
      the detailed loop's guard of six but hold no ten-byte record, and five
      bytes pass the reduced loop's guard of five but hold no six-byte one. */
  lemma GuardsTooSmall(seven: Bytes, five: Bytes)
    requires |seven| == 7 && |five| == 5
    ensures !DetailedSafe(seven, 0, 6)
    ensures !ReducedSafe(five, 0, 5)
  {
  }

  /** `parseServerListWithDetailsFrom`: detailed records under a guard of
      six bytes; the payload must not leave six to nine bytes at a record
      start. */
  function ParseServerListWithDetailsFrom(payload: Bytes, defaultHost: Bytes): (m: Message)
    requires DetailedSafe(payload, 0, 6)
    ensures m.ServerListWithDetails?
    ensures m.details == [] <==> |payload| < 6
    ensures 10 * |m.details| <= |payload|
  {
    ServerListWithDetails(DetailedListFrom(payload, 0, 6, defaultHost))
  }

  /** `parseServerListFrom`: reduced records under a guard of five bytes;
      the payload must not leave exactly five bytes at a record start. */
  function ParseServerListFrom(payload: Bytes, defaultHost: Bytes): (m: Message)
    requires ReducedSafe(payload, 0, 5)
    ensures m.ServerList?
    ensures m.details == [] <==> |payload| < 5
    ensures 6 * |m.details| <= |payload|
  {
    ServerList(ReducedListFrom(payload, 0, 5, defaultHost))
  }

  /** `parseDetailedServerListFrom`: detailed records under a guard of
      sixteen bytes, which no payload can make fail. */
  function ParseDetailedServerListFrom(payload: Bytes, defaultHost: Bytes): (m: Message)
    ensures m.ServerListWithDetails?
    ensures m.details == [] <==> |payload| < 16
    ensures 10 * |m.details| <= |payload|
  {
    DetailedGuardSuffices(payload, 0, 16);
    ServerListWithDetails(DetailedListFrom(payload, 0, 16, defaultHost))
  }

  /** `parseServerListWithDetailsFrom` with its guard raised to a record's
      ten fixed bytes: defined on every payload. */
  function ServerListWithDetailsGuarded(payload: Bytes, defaultHost: Bytes): (m: Message)
    ensures m.ServerListWithDetails?
    ensures m.details == [] <==> |payload| < 10
    ensures 10 * |m.details| <= |payload|
  {
    DetailedGuardSuffices(payload, 0, 10);
    ServerListWithDetails(DetailedListFrom(payload, 0, 10, defaultHost))
  }

  /** `parseServerListFrom` with its guard raised to a reduced record's six
      fixed bytes: defined on every payload. */
  function ServerListGuarded(payload: Bytes, defaultHost: Bytes): (m: Message)
    ensures m.ServerList?
    ensures m.details == [] <==> |payload| < 6
    ensures 6 * |m.details| <= |payload|
  {
    ReducedGuardSuffices(payload, 0, 6);
    ServerList(ReducedListFrom(payload, 0, 6, defaultHost))
  }

  /** Where the guard of six never lets a short record through, raising it
      to ten reads the same records. */
  lemma {:induction false} DetailedGuardsAgree(payload: Bytes, pos: nat, defaultHost: Bytes)
    requires pos <= |payload| && DetailedSafe(payload, pos, 6)
    ensures DetailedSafe(payload, pos, 10)
    ensures DetailedListFrom(payload, pos, 6, defaultHost) == DetailedListFrom(payload, pos, 10, defaultHost)
    decreases |payload| - pos
  {
    DetailedGuardSuffices(payload, pos, 10);
    if |payload| - pos >= 10 {
      var d := ServerDetails.ParseFromData(payload, pos, defaultHost);
      DetailedLoopStep(payload, pos, 6, defaultHost);
      DetailedLoopStep(payload, pos, 10, defaultHost);
      DetailedGuardsAgree(payload, d.next, defaultHost);
    }
  }

  /** Where the guard of five never lets a short record through, raising it
      to six reads the same records. */
  lemma {:induction false} ReducedGuardsAgree(payload: Bytes, pos: nat, defaultHost: Bytes)
    requires pos <= |payload| && ReducedSafe(payload, pos, 5)
    ensures ReducedSafe(payload, pos, 6)
    ensures ReducedListFrom(payload, pos, 5, defaultHost) == ReducedListFrom(payload, pos, 6, defaultHost)
    decreases |payload| - pos
  {
    ReducedGuardSuffices(payload, pos, 6);
    if |payload| - pos >= 6 {
      var d := ServerDetails.ParseReducedFromData(payload, pos, defaultHost);
      ReducedLoopStep(payload, pos, 5, defaultHost);
      ReducedLoopStep(payload, pos, 6, defaultHost);
      ReducedGuardsAgree(payload, d.next, defaultHost);
    }
  }

  /** The raised guards change nothing on the payloads the source can read:
      both server-list parsers agree with their guarded versions there. */
  lemma GuardedAgrees(payload: Bytes, defaultHost: Bytes)
    ensures DetailedSafe(payload, 0, 6) ==>
              ParseServerListWithDetailsFrom(payload, defaultHost) == ServerListWithDetailsGuarded(payload, defaultHost)
    ensures ReducedSafe(payload, 0, 5) ==>
              ParseServerListFrom(payload, defaultHost) == ServerListGuarded(payload, defaultHost)
  {
    if DetailedSafe(payload, 0, 6) { DetailedGuardsAgree(payload, 0, defaultHost); }
    if ReducedSafe(payload, 0, 5) { ReducedGuardsAgree(payload, 0, defaultHost); }
  }

  /** Every detailed record's address has four bytes and its strings fit
      their two-byte lengths. */
  predicate AllRecordsWritable(rs: seq<ServerDetails.ServerRecord>) {
    rs == [] || (ServerDetails.Writable(rs[0]) && AllRecordsWritable(rs[1..]))
  }

  /** A directory's detailed server list: the records back to back. */
  function EncodeRecords(rs: seq<ServerDetails.ServerRecord>): Bytes
    requires AllRecordsWritable(rs)
  {
    if rs == [] then [] else ServerDetails.EncodeRecord(rs[0]) + EncodeRecords(rs[1..])
  }

  /** Every detailed record as the reader should see it. */
  function ExpectedAll(rs: seq<ServerDetails.ServerRecord>, defaultHost: Bytes): (r: seq<ServerDetails.ServerDetail>)
    requires AllRecordsWritable(rs)
    ensures |r| == |rs|
  {
    if rs == [] then [] else [ServerDetails.Expected(rs[0], defaultHost)] + ExpectedAll(rs[1..], defaultHost)
  }

  /** A written detailed list fills `data` from `p` to the end. */
  predicate RecordsAt(data: Bytes, p: nat, rs: seq<ServerDetails.ServerRecord>)
    requires AllRecordsWritable(rs)
  {
    p <= |data| && data[p..] == EncodeRecords(rs)
  }

  /** The first record of a detailed list in place reads back, with either
      host, and the reader lands after it or within two bytes of the end. */
  lemma RecordStep(data: Bytes, p: nat, rs: seq<ServerDetails.ServerRecord>, defaultHost: Bytes)
    returns (next: nat)
    requires AllRecordsWritable(rs)
    requires rs != [] && RecordsAt(data, p, rs)
    ensures p + 10 <= |data|
    ensures next == ServerDetails.ParseFromData(data, p, []).next
    ensures next == ServerDetails.ParseFromData(data, p, defaultHost).next
    ensures ServerDetails.ParseFromData(data, p, defaultHost).value == ServerDetails.Expected(rs[0], defaultHost)
    ensures var end := p + |ServerDetails.EncodeRecord(rs[0])|;
            (end < |data| ==> next == end) && next + 2 >= end
  {
    var rest := EncodeRecords(rs[1..]);
    SuffixSplits(data, p, ServerDetails.EncodeRecord(rs[0]), rest);
    ServerDetails.ParseEncodedRecord(data[..p], rs[0], rest, defaultHost);
    DetailedNextIgnoresHost(data, p, defaultHost);
    next := ServerDetails.ParseFromData(data, p, []).next;
  }

  /** The rest of a detailed list in place starts right after its first
      record. */
  lemma RecordsTail(data: Bytes, p: nat, rs: seq<ServerDetails.ServerRecord>)
    requires AllRecordsWritable(rs)
    requires rs != [] && RecordsAt(data, p, rs)
    ensures p + |ServerDetails.EncodeRecord(rs[0])| <= |data|
    ensures RecordsAt(data, p + |ServerDetails.EncodeRecord(rs[0])|, rs[1..])
  {
    SuffixSplits(data, p, ServerDetails.EncodeRecord(rs[0]), EncodeRecords(rs[1..]));
  }

  /** A detailed list in place is safe under any guard from 3 to 16 and
      reads back record by record. */
  lemma {:induction false} DetailedInPlace(data: Bytes, p: nat, rs: seq<ServerDetails.ServerRecord>,
                                           guard: nat, defaultHost: Bytes)
    requires 3 <= guard <= 16
    requires AllRecordsWritable(rs)
    requires RecordsAt(data, p, rs)
    ensures DetailedSafe(data, p, guard)
    ensures DetailedListFrom(data, p, guard, defaultHost) == ExpectedAll(rs, defaultHost)
    decreases |rs|, 1
  {
    if rs != [] {
      var next := RecordStep(data, p, rs, defaultHost);
      DetailedTail(data, p, next, rs, guard, defaultHost);
    }
  }

  /** Once the first record is read, the rest of the detailed list reads
      back from wherever the reader landed. */
  lemma {:induction false} DetailedTail(data: Bytes, p: nat, next: nat, rs: seq<ServerDetails.ServerRecord>,
                                        guard: nat, defaultHost: Bytes)
    requires 3 <= guard <= 16
    requires AllRecordsWritable(rs)
    requires rs != [] && RecordsAt(data, p, rs)
    requires next <= |data|
    requires var end := p + |ServerDetails.EncodeRecord(rs[0])|;
             (end < |data| ==> next == end) && next + 2 >= end
    ensures DetailedSafe(data, next, guard)
    ensures DetailedListFrom(data, next, guard, defaultHost) == ExpectedAll(rs[1..], defaultHost)
    decreases |rs|, 0
  {
    RecordsTail(data, p, rs);
    DetailedRest(data, next, p + |ServerDetails.EncodeRecord(rs[0])|, rs[1..], guard, defaultHost);
  }

  /** After a record the reader is at the next one, or at most two bytes
      from the end of a list that is over. */
  lemma {:induction false} DetailedRest(data: Bytes, next: nat, end: nat, rs: seq<ServerDetails.ServerRecord>,
                                        guard: nat, defaultHost: Bytes)
    requires 3 <= guard <= 16
    requires AllRecordsWritable(rs)
    requires next <= |data| && RecordsAt(data, end, rs)
    requires (end < |data| ==> next == end) && next + 2 >= end
    ensures DetailedSafe(data, next, guard)
    ensures DetailedListFrom(data, next, guard, defaultHost) == ExpectedAll(rs, defaultHost)
    decreases |rs|, 2
  {
    if rs == [] {
      assert |data| - next < guard;
    } else {
      DetailedInPlace(data, end, rs, guard, defaultHost);
    }
  }

  /** A written detailed list is safe for any guard between 3 and 16 and
      reads back record by record, whatever precedes it. */
  lemma DetailedListRoundTrip(prefix: Bytes, rs: seq<ServerDetails.ServerRecord>, guard: nat, defaultHost: Bytes)
    requires 3 <= guard <= 16
    requires AllRecordsWritable(rs)
    ensures DetailedSafe(prefix + EncodeRecords(rs), |prefix|, guard)
    ensures DetailedListFrom(prefix + EncodeRecords(rs), |prefix|, guard, defaultHost) == ExpectedAll(rs, defaultHost)
  {
    assert (prefix + EncodeRecords(rs))[|prefix|..] == EncodeRecords(rs);
    DetailedInPlace(prefix + EncodeRecords(rs), |prefix|, rs, guard, defaultHost);
  }

  /** Every reduced record's address has four bytes and its name fits its
      one-byte length. */
  predicate AllReducedWritable(rs: seq<ServerDetails.ReducedRecord>) {
    rs == [] || (ServerDetails.ReducedWritable(rs[0]) && AllReducedWritable(rs[1..]))
  }

  /** A directory's reduced server list: the records back to back. */
  function EncodeReducedRecords(rs: seq<ServerDetails.ReducedRecord>): Bytes
    requires AllReducedWritable(rs)
  {
    if rs == [] then [] else ServerDetails.EncodeReduced(rs[0]) + EncodeReducedRecords(rs[1..])
  }

  /** Every reduced record as the reader should see it. */
  function ExpectedReducedAll(rs: seq<ServerDetails.ReducedRecord>, defaultHost: Bytes): (r: seq<ServerDetails.ServerDetail>)
    requires AllReducedWritable(rs)
    ensures |r| == |rs|
  {
    if rs == [] then [] else [ServerDetails.ExpectedReduced(rs[0], defaultHost)] + ExpectedReducedAll(rs[1..], defaultHost)
  }

  /** A written reduced list fills `data` from `p` to the end. */
  predicate ReducedAt(data: Bytes, p: nat, rs: seq<ServerDetails.ReducedRecord>)
    requires AllReducedWritable(rs)
  {
    p <= |data| && data[p..] == EncodeReducedRecords(rs)
  }

  /** The first record of a reduced list in place reads back, with either
      host, and the reader lands after it or within one byte of the end. */
  lemma ReducedStep(data: Bytes, p: nat, rs: seq<ServerDetails.ReducedRecord>, defaultHost: Bytes)
    returns (next: nat)
    requires AllReducedWritable(rs)
    requires rs != [] && ReducedAt(data, p, rs)
    ensures p + 6 <= |data|
    ensures next == ServerDetails.ParseReducedFromData(data, p, []).next
    ensures next == ServerDetails.ParseReducedFromData(data, p, defaultHost).next
    ensures ServerDetails.ParseReducedFromData(data, p, defaultHost).value
            == ServerDetails.ExpectedReduced(rs[0], defaultHost)
    ensures var end := p + |ServerDetails.EncodeReduced(rs[0])|;
            (end < |data| ==> next == end) && next + 1 >= end
  {
    var rest := EncodeReducedRecords(rs[1..]);
    SuffixSplits(data, p, ServerDetails.EncodeReduced(rs[0]), rest);
    ServerDetails.ParseEncodedReduced(data[..p], rs[0], rest, defaultHost);
    ReducedNextIgnoresHost(data, p, defaultHost);
    next := ServerDetails.ParseReducedFromData(data, p, []).next;
  }

  /** The rest of a reduced list in place starts right after its first
      record. */
  lemma ReducedTailAt(data: Bytes, p: nat, rs: seq<ServerDetails.ReducedRecord>)
    requires AllReducedWritable(rs)
    requires rs != [] && ReducedAt(data, p, rs)
    ensures p + |ServerDetails.EncodeReduced(rs[0])| <= |data|
    ensures ReducedAt(data, p + |ServerDetails.EncodeReduced(rs[0])|, rs[1..])
  {
    SuffixSplits(data, p, ServerDetails.EncodeReduced(rs[0]), EncodeReducedRecords(rs[1..]));
  }

  /** A reduced list in place is safe under any guard from 2 to 7 and reads
      back record by record. */
  lemma {:induction false} ReducedInPlace(data: Bytes, p: nat, rs: seq<ServerDetails.ReducedRecord>,
                                          guard: nat, defaultHost: Bytes)
    requires 2 <= guard <= 7
    requires AllReducedWritable(rs)
    requires ReducedAt(data, p, rs)
    ensures ReducedSafe(data, p, guard)
    ensures ReducedListFrom(data, p, guard, defaultHost) == ExpectedReducedAll(rs, defaultHost)
    decreases |rs|, 1
  {
    if rs != [] {
      var next := ReducedStep(data, p, rs, defaultHost);
      ReducedTail(data, p, next, rs, guard, defaultHost);
    }
  }

  /** Once the first record is read, the rest of the reduced list reads back
      from wherever the reader landed. */
  lemma {:induction false} ReducedTail(data: Bytes, p: nat, next: nat, rs: seq<ServerDetails.ReducedRecord>,
                                       guard: nat, defaultHost: Bytes)
    requires 2 <= guard <= 7
    requires AllReducedWritable(rs)
    requires rs != [] && ReducedAt(data, p, rs)
    requires next <= |data|
    requires var end := p + |ServerDetails.EncodeReduced(rs[0])|;
             (end < |data| ==> next == end) && next + 1 >= end
    ensures ReducedSafe(data, next, guard)
    ensures ReducedListFrom(data, next, guard, defaultHost) == ExpectedReducedAll(rs[1..], defaultHost)
    decreases |rs|, 0
  {
    ReducedTailAt(data, p, rs);
    ReducedRest(data, next, p + |ServerDetails.EncodeReduced(rs[0])|, rs[1..], guard, defaultHost);
  }

  /** After a reduced record the reader is at the next one, or one byte from
      the end of a list that is over. */
  lemma {:induction false} ReducedRest(data: Bytes, next: nat, end: nat, rs: seq<ServerDetails.ReducedRecord>,
                                       guard: nat, defaultHost: Bytes)
    requires 2 <= guard <= 7
    requires AllReducedWritable(rs)
    requires next <= |data| && ReducedAt(data, end, rs)
    requires (end < |data| ==> next == end) && next + 1 >= end
    ensures ReducedSafe(data, next, guard)
    ensures ReducedListFrom(data, next, guard, defaultHost) == ExpectedReducedAll(rs, defaultHost)
    decreases |rs|, 2
  {
    if rs == [] {
      assert |data| - next < guard;
    } else {
      ReducedInPlace(data, end, rs, guard, defaultHost);
    }
  }

  /** A written reduced list is safe for any guard between 2 and 7 and reads
      back record by record, whatever precedes it. */
  lemma ReducedListRoundTrip(prefix: Bytes, rs: seq<ServerDetails.ReducedRecord>, guard: nat, defaultHost: Bytes)
    requires 2 <= guard <= 7
    requires AllReducedWritable(rs)
    ensures ReducedSafe(prefix + EncodeReducedRecords(rs), |prefix|, guard)
    ensures ReducedListFrom(prefix + EncodeReducedRecords(rs), |prefix|, guard, defaultHost)
            == ExpectedReducedAll(rs, defaultHost)
  {
    assert (prefix + EncodeReducedRecords(rs))[|prefix|..] == EncodeReducedRecords(rs);
    ReducedInPlace(prefix + EncodeReducedRecords(rs), |prefix|, rs, guard, defaultHost);
  }

  // ----- fixed-layout payloads -----

  /** `parseChatTextFrom`: nothing for a payload of at most two bytes,
      otherwise the string with a two-byte length at the start. */
  function ParseChatTextFrom(payload: Bytes): (m: Message)
    ensures m.ChatText?
    ensures |payload| <= 2 ==> m.text == []
    ensures |payload| > 2 ==> m.text == JamulusStringAt(payload, 0, 2).value
  {
    if |payload| > 2 then ChatText(JamulusStringAt(payload, 0, 2).value) else ChatText([])
  }

  /** `parseChannelPanFrom`: the channel byte and a little-endian pan. Its
      `assert` of a three-byte payload is not checked in an optimised build,
      where bytes past the third are ignored and a shorter payload traps. */
  function ParseChannelPanFrom(payload: Bytes): (m: Message)
    requires |payload| >= 3
    ensures m.ChannelPan? && m.channel == payload[0] && ToLe(m.pan, 2) == payload[1..3]
  {
    ChannelPan(payload[0], NumericalValueAt(payload, 1, 2).value)
  }

  /** `parseChannelGainFrom`: the channel byte and a little-endian gain,
      from the first three bytes, as for the pan. */
  function ParseChannelGainFrom(payload: Bytes): (m: Message)
    requires |payload| >= 3
    ensures m.ChannelGain? && m.channel == payload[0] && ToLe(m.gain, 2) == payload[1..3]
  {
    ChannelGain(payload[0], NumericalValueAt(payload, 1, 2).value)
  }

  /** `parseMuteChangeFrom`: the channel byte, and muted exactly when the
      second byte is non-zero. Its `assert` of a two-byte payload is not
      checked in an optimised build; a shorter payload traps. */
  function ParseMuteChangeFrom(payload: Bytes): (m: Message)
    requires |payload| >= 2
    ensures m.MuteStateChange? && m.channel == payload[0]
    ensures m.muted <==> payload[1] != 0
  {
    MuteStateChange(payload[0], payload[1] > 0)
  }

  /** `parseChannelInfoFrom`: one channel record from the start, with the
      client id forced to 0. The record reader indexes its eight fixed
      bytes. */
  function ParseChannelInfoFrom(payload: Bytes): (m: Message)
    requires |payload| >= 8
    ensures m.SendChannelInfo? && m.info.clientId == 0
    ensures m.info.countryId == Le(payload[1..3]) && m.info.skillLevel == payload[7]
    ensures m.info.name == JamulusStringAt(payload, 8, 2).value
  {
    SendChannelInfo(ChannelInfos.ParseFromData(payload, 0, Some(0)).value)
  }

  /** The operating system a raw byte names; unknown values read as Linux. */
  function OsOrLinux(raw: byte): (os: ApiConsts.OsType)
    ensures raw <= 5 ==> ApiConsts.OsRaw(os) == raw
    ensures raw > 5 ==> os == ApiConsts.Linux
  {
    match ApiConsts.OsFromRaw(raw)
    case Some(os) => os
    case None => ApiConsts.Linux
  }

  /** `parseVersionAndOs`: the OS byte first, then the version string with a
      two-byte length. Reading byte 0 traps on an empty payload. */
  function ParseVersionAndOs(payload: Bytes): (r: (Bytes, ApiConsts.OsType))
    requires |payload| >= 1
    ensures payload[0] <= 5 ==> ApiConsts.OsRaw(r.1) == payload[0]
    ensures payload[0] > 5 ==> r.1 == ApiConsts.Linux
    ensures |payload| <= 3 ==> r.0 == []
    ensures |r.0| > 0 ==> 3 + |r.0| <= |payload| && Le(payload[1..3]) == |r.0| && r.0 == payload[3..3 + |r.0|]
  {
    (JamulusStringAt(payload, 1, 2).value, OsOrLinux(payload[0]))
  }

  /** A version message as a peer writes it, the OS byte and then the
      version with a two-byte length, reads back as that version and OS in
      both message forms, whatever follows it. */
  lemma VersionAndOsRoundTrip(os: ApiConsts.OsType, version: Bytes, rest: Bytes)
    requires |version| < 0x1_0000
    ensures var payload := AppendJamulusString([ApiConsts.OsRaw(os)], version, 2) + rest;
            && ParseVersionAndOs(payload) == (version, os)
            && ParseVersionAndOsAckedFrom(payload) == VersionAndOsOld(version, os)
            && ParseVersionAndOsFrom(payload) == VersionAndOs(version, os)
  {
    StringRoundTrip([ApiConsts.OsRaw(os)], version, 2, rest);
    ApiConsts.RawValuesRoundTrip();
  }

  /** `parseVersionAndOsAckedFrom`: the acknowledged, older form. */
  function ParseVersionAndOsAckedFrom(payload: Bytes): (m: Message)
    requires |payload| >= 1
    ensures m.VersionAndOsOld? && (m.version, m.os) == ParseVersionAndOs(payload)
  {
    var (version, os) := ParseVersionAndOs(payload);
    VersionAndOsOld(version, os)
  }

  /** `parseVersionAndOsFrom`: the unacknowledged form. */
  function ParseVersionAndOsFrom(payload: Bytes): (m: Message)
    requires |payload| >= 1
    ensures m.VersionAndOs? && (m.version, m.os) == ParseVersionAndOs(payload)
  {
    var (version, os) := ParseVersionAndOs(payload);
    VersionAndOs(version, os)
  }

  /** `parseRecorderStateFrom`: the state the first byte names, or unknown
      when the payload is empty or the value is not a state. */
  function ParseRecorderStateFrom(payload: Bytes): (m: Message)
    ensures m.RecorderState?
    ensures |payload| == 0 || payload[0] > 3 ==> m.state == ApiConsts.Unknown
    ensures |payload| > 0 && payload[0] <= 3 ==> ApiConsts.RecorderRaw(m.state) == payload[0]
  {
    if |payload| == 0 then RecorderState(ApiConsts.Unknown)
    else match ApiConsts.RecorderFromRaw(payload[0])
      case Some(s) => RecorderState(s)
      case None => RecorderState(ApiConsts.Unknown)
  }

  /** `parseSplitMessage`: the group id (LE16), the part count, the part
      index, then the fragment. Reading the header traps below four bytes. */
  function ParseSplitMessage(payload: Bytes): (m: Message)
    requires |payload| >= 4
    ensures m.SplitMessageContainer?
    ensures ToLe(m.splitId, 2) == payload[..2]
    ensures m.totalParts == payload[2] && m.part == payload[3]
    ensures [m.splitId % 256, m.splitId / 256, m.totalParts, m.part] + m.payload == payload
  {
    var id := NumericalValueAt(payload, 0, 2);
    assert payload[..2] == payload[0..2];
    SplitMessageContainer(id.value, payload[2], payload[3], payload[4..])
  }
}
