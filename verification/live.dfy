/**
 The Combine-based `JamulusProtocol.live(url:serverKind:queue:)`: its own
 sequence counter, which wraps after 254, its own copies of
 `messageToData` and `parseData`, which take the checksum from
 `JamulusMessage.crcFunc`, and the bookkeeping of its timers and sinks.
 The checksum function is a parameter here; `jamulusCrc` (`Codec.Crc`) is
 the one the copies agree with.
 */
module Live {
  import opened Wire
  import opened DataExt
  import opened Messages
  import Codec
  import Catalog
  import ApiConsts
  import opened Session

  // ----- the counter -----

  /** This file's `nextSequenceNumber(val:)`: add one, and start again from
      0 on reaching 255. Adding one to 255 would trap, but the counter never
      holds 255. */
  function LiveNextSequenceNumber(counter: byte): (next: byte)
    requires counter < 255
    ensures next < 255
    ensures next == (counter + 1) % 255
  {
    if counter + 1 == 255 then 0 else counter + 1
  }

  /** The counter after `n` calls. */
  function LiveAdvance(counter: byte, n: nat): (r: byte)
    requires counter < 255
    ensures r < 255
    decreases n
  {
    if n == 0 then counter else LiveNextSequenceNumber(LiveAdvance(counter, n - 1))
  }

  /** `n` calls add `n` modulo 255: the counter runs through 0 to 254, never
      returns 255, and comes back after exactly 255 calls, where the other
      copies' counter needs 256. */
  lemma {:induction false} LiveAdvanceAdds(counter: byte, n: nat)
    requires counter < 255
    ensures LiveAdvance(counter, n) == (counter + n) % 255
    ensures n % 255 == 0 <==> LiveAdvance(counter, n) == counter
    decreases n
  {
    if n > 0 {
      LiveAdvanceAdds(counter, n - 1);
      StepMod(counter + n - 1);
    }
    ModPeriod(counter, n);
  }

  lemma StepMod(a: nat)
    ensures (if a % 255 + 1 == 255 then 0 else a % 255 + 1) == (a + 1) % 255
  {
  }

  lemma ModPeriod(c: nat, n: nat)
    requires c < 255
    ensures (c + n) % 255 == c <==> n % 255 == 0
  {
    var r := n % 255;
    assert n == 255 * (n / 255) + r;
    assert (c + n) % 255 == (c + r) % 255;
    if r > 0 {
      if c + r < 255 {
        assert (c + r) % 255 == c + r;
      } else {
        assert (c + r) % 255 == c + r - 255;
      }
    }
  }

  /** The two counters part ways at 254. */
  lemma CountersDiffer()
    ensures LiveNextSequenceNumber(254) == 0 && Codec.NextSequenceNumber(254) == 255
  {
  }

  // ----- messageToData and parseData -----

  /** This file's `messageToData(message:nextSeq:)`, closed with the
      checksum `crcFunc` gives. */
  function LiveMessageToData(m: Message, nextSeq: byte, crcFunc: Bytes -> u16): (data: Bytes)
    requires Codec.Framable(m)
    ensures |data| == |Catalog.Payload(m)| + ApiConsts.PacketHeaderSize
    ensures data[0] == 0 && data[1] == 0 && data[4] == Codec.FrameSequence(m, nextSeq)
    ensures Le(data[2..4]) == MessageId(m) && Le(data[5..7]) == |Catalog.Payload(m)|
    ensures data[7..|data| - 2] == Catalog.Payload(m)
    ensures Le(data[|data| - 2..]) == crcFunc(data[..|data| - 2])
  {
    var payload := Catalog.Payload(m);
    var frame := Catalog.Header(MessageId(m), Codec.FrameSequence(m, nextSeq), |payload|) + payload;
    Codec.FrameLayout(MessageId(m), Codec.FrameSequence(m, nextSeq), payload, crcFunc(frame));
    frame + ToLe(crcFunc(frame), 2)
  }

  /** With `jamulusCrc` as `crcFunc`, this copy frames exactly as the
      others do. */
  lemma LiveFrameIsCodecFrame(m: Message, nextSeq: byte)
    requires Codec.Framable(m)
    ensures LiveMessageToData(m, nextSeq, Codec.Crc) == Codec.MessageToData(m, nextSeq)
  {
  }

  /** A framed datagram whose length field accounts for every byte and
      whose last two bytes are the `crcFunc` checksum of the rest. */
  predicate LiveIntact(data: Bytes, crcFunc: Bytes -> u16) {
    && Codec.LooksFramed(data)
    && |data| == NumericalValueAt(data, 5, 2).value + ApiConsts.PacketHeaderSize
    && NumericalValueAt(data, |data| - 2, 2).value == crcFunc(data[..|data| - 2])
  }

  /** What `deserialize` needs of an intact frame's body. */
  predicate LiveParsable(data: Bytes, crcFunc: Bytes -> u16) {
    LiveIntact(data, crcFunc) ==>
      Catalog.PayloadDefined(Catalog.FrameId(Codec.Body(data)), Catalog.FramePayload(Codec.Body(data)))
  }

  /** This file's `parseData(data:defaultHost:)`, checking the checksum
      with `crcFunc`: audio, an error, or the message sorted as ack, needing
      an ack, or neither. */
  function LiveParseData(data: Bytes, defaultHost: Bytes, crcFunc: Bytes -> u16): (r: Packet)
    requires LiveParsable(data, crcFunc)
    ensures r.Audio? <==> !Codec.LooksFramed(data)
    ensures r.Audio? ==> r.data == data
    ensures r.Error? <==>
              Codec.LooksFramed(data) && (!LiveIntact(data, crcFunc) || Catalog.Deserialize(Codec.Body(data), defaultHost).None?)
    ensures !r.Audio? && !r.Error? ==>
              && Catalog.Deserialize(Codec.Body(data), defaultHost).Some?
              && r == Codec.Expected(Catalog.Deserialize(Codec.Body(data), defaultHost).value, data[4])
  {
    if Codec.LooksFramed(data) then
      var length := NumericalValueAt(data, 5, 2).value;
      if |data| == length + ApiConsts.PacketHeaderSize then
        var packet := Codec.Body(data);
        var crc := NumericalValueAt(data, |packet|, 2).value;
        if crc == crcFunc(packet) then
          match Catalog.Deserialize(packet, defaultHost)
          case Some(message) =>
            if message.Ack? then AckMessage(message.ackType, message.sequenceNumber)
            else if NeedsAck(message) then MessageNeedingAck(message, data[4])
            else MessageNoAck(message)
          case None => Error(InvalidPacket(data))
        else Error(InvalidPacket(data))
      else Error(InvalidPacket(data))
    else Audio(data)
  }

  /** With `jamulusCrc` as `crcFunc`, this copy parses exactly as the
      others do. */
  lemma LiveParseIsCodecParse(data: Bytes, defaultHost: Bytes)
    requires Codec.Parsable(data)
    ensures LiveParsable(data, Codec.Crc)
    ensures LiveParseData(data, defaultHost, Codec.Crc) == Codec.ParseData(data, defaultHost)
  {
  }

  // ----- the session -----

  /** What the closures of `live` share: the connection kind, both
      counters, the messages waiting for an ack, and the ping times. */
  datatype LiveLink = LiveLink(
    kind: ConnectionKind,
    packetSequence: byte,
    audioSequence: byte,
    pending: Unacked,
    lastPingSent: nat,
    lastPingReceived: nat)

  /** Neither counter holds 255. */
  predicate Valid(link: LiveLink) {
    link.packetSequence < 255 && link.audioSequence < 255
  }

  /** A fresh session: counters and times at zero, nothing pending. */
  function LiveInitial(kind: ConnectionKind): (link: LiveLink)
    ensures Valid(link)
  {
    LiveLink(kind, 0, 0, map[], 0, 0)
  }

  /** A session after a call, a tick or a packet, and the datagrams sent. */
  datatype LiveSent = LiveSent(link: LiveLink, sends: seq<Outgoing>)

  /** The `send` closure: the counter moves on, a message needing an ack
      is recorded under the send time with the sequence byte it is framed
      with, and the frame goes out. */
  function LiveSend(link: LiveLink, message: Message, now: nat): (r: LiveSent)
    requires Valid(link) && Codec.Framable(message)
    ensures Valid(r.link)
    ensures r.link.packetSequence == LiveNextSequenceNumber(link.packetSequence)
    ensures r.sends == [Frame(message, r.link.packetSequence)] && AllSendable(r.sends)
    ensures NeedsAck(message) ==> r.link.pending == link.pending[now := Pending(r.link.packetSequence, message)]
    ensures !NeedsAck(message) ==> r.link.pending == link.pending
    ensures r.link.(packetSequence := link.packetSequence, pending := link.pending) == link
  {
    var next := link.(packetSequence := LiveNextSequenceNumber(link.packetSequence));
    var stored := if NeedsAck(message) then next.(pending := next.pending[now := Pending(next.packetSequence, message)]) else next;
    LiveSent(stored, [Frame(message, next.packetSequence)])
  }

  /** The `sendAudio` closure: the audio as given, or with the next audio
      sequence byte appended. */
  function LiveSendAudio(link: LiveLink, audio: Bytes, addSequenceNumber: bool): (r: LiveSent)
    requires Valid(link)
    ensures Valid(r.link)
    ensures !addSequenceNumber ==> r == LiveSent(link, [Datagram(audio)])
    ensures addSequenceNumber ==>
              && r.link == link.(audioSequence := LiveNextSequenceNumber(link.audioSequence))
              && r.sends == [Datagram(audio + [r.link.audioSequence])]
  {
    if addSequenceNumber then
      var next := link.(audioSequence := LiveNextSequenceNumber(link.audioSequence));
      LiveSent(next, [Datagram(audio + [next.audioSequence])])
    else LiveSent(link, [Datagram(audio)])
  }

  /** The sink of the received packets: an ack drops its pending entry; a
      message needing an ack is acked; a message with the ping id records
      the time. Every packet is then passed up as it is. */
  function LiveReceive(link: LiveLink, packet: Packet, now: nat): (r: LiveSent)
    requires Valid(link)
    ensures Valid(r.link) && r.link.kind == link.kind
    ensures packet.AckMessage? ==>
              r == LiveSent(link.(pending := RemoveAcked(link.pending, packet.ackType, packet.sequenceNumber)), [])
    ensures packet.MessageNeedingAck? ==>
              && r.link == link.(packetSequence := LiveNextSequenceNumber(link.packetSequence))
              && r.sends == [Frame(Ack(MessageId(packet.message), packet.sequence), r.link.packetSequence)]
    ensures packet.MessageNoAck? ==>
              r == LiveSent(link.(lastPingReceived := if packet.message.Ping? then now else link.lastPingReceived), [])
    ensures packet.Audio? || packet.Error? ==> r == LiveSent(link, [])
  {
    match packet
    case AckMessage(ackType, sequenceNumber) =>
      LiveSent(link.(pending := RemoveAcked(link.pending, ackType, sequenceNumber)), [])
    case MessageNeedingAck(message, sequence) =>
      var next := link.(packetSequence := LiveNextSequenceNumber(link.packetSequence));
      LiveSent(next, [Frame(Ack(MessageId(message), sequence), next.packetSequence)])
    case MessageNoAck(message) =>
      PingId(message);
      if MessageId(message) == 1001 then LiveSent(link.(lastPingReceived := now), [])
      else LiveSent(link, [])
    case Audio(_) => LiveSent(link, [])
    case Error(_) => LiveSent(link, [])
  }

  /** Id 1001 is the ping's, and only the ping's. */
  lemma PingId(m: Message)
    ensures MessageId(m) == 1001 <==> m.Ping?
  {
    MessageIdInjective(m, Ping(0));
    KindOfCase(m);
  }

  /** The retransmit timer: every entry older than one second is resent,
      oldest first, with its original sequence byte; nothing is ever
      dropped, however old. */
  function LiveRetransmit(pending: Unacked, now: nat): (sends: seq<Outgoing>)
    ensures var due := SortedKeys(set k | k in pending && Due(k, now));
            && |sends| == |due|
            && Increasing(due) && (forall k :: k in due <==> k in pending && Due(k, now))
            && forall i :: 0 <= i < |due| ==>
                 due[i] in pending && sends[i] == Frame(pending[due[i]].message, pending[due[i]].sequence)
  {
    Resend(SortedKeys(set k | k in pending && Due(k, now)), pending)
  }

  /** Until an entry is ten seconds old this timer resends exactly what the
      later generations' retransmit loop resends; after that it keeps
      resending what they drop. */
  lemma LiveRetransmitAgrees(pending: Unacked, now: nat)
    requires forall k :: k in pending ==> !Stale(k, now)
    ensures LiveRetransmit(pending, now) == Retransmit(pending, now).sends
    ensures Retransmit(pending, now).table == pending
  {
    var kept := map k | k in pending && !Stale(k, now) :: pending[k];
    assert kept == pending;
    var keys := SortedKeys(set k | k in pending && Due(k, now));
    PresentAll(keys, pending);
  }

  /** Keys that are all in the table are all kept, in order. */
  lemma {:induction false} PresentAll(keys: seq<nat>, table: Unacked)
    requires forall x :: x in keys ==> x in table
    ensures Present(keys, table) == keys
    decreases |keys|
  {
    if |keys| > 0 {
      assert forall x :: x in keys[1..] ==> x in keys;
      PresentAll(keys[1..], table);
      assert keys == [keys[0]] + keys[1..];
    }
  }

  // ----- the keep-alive timer -----

  /** One tick of the keep-alive timer, and the state it reports, if any. */
  datatype Tick = Tick(link: LiveLink, sends: seq<Outgoing>, report: Option<State>)

  /** The keep-alive timer as written: report disconnected unless a ping
      came back in the last fifteen seconds; otherwise a main-server link
      sends `ping()` and a listing link `pingPlusClientCount()`, both with
      the default time stamp (taken as 0: the message declares none), and a
      directory lookup nothing. */
  function LiveKeepAliveAsWritten(link: LiveLink, now: nat): (r: Tick)
    requires Valid(link)
    ensures Valid(r.link)
    ensures !(now < link.lastPingReceived + 15000) ==> r == Tick(link, [], Some(Disconnected(None)))
    ensures now < link.lastPingReceived + 15000 ==> r == Beat(link, now)
  {
    if !(now < link.lastPingReceived + 15000) then Tick(link, [], Some(Disconnected(None)))
    else Beat(link, now)
  }

  /** The keep-alive timer as evidently intended: a link that has never
      heard a ping is not timed out, as in the later generations' guard. */
  function LiveKeepAlive(link: LiveLink, now: nat): (r: Tick)
    requires Valid(link)
    ensures Valid(r.link)
    ensures link.lastPingReceived != 0 && !(now < link.lastPingReceived + 15000) ==>
              r == Tick(link, [], Some(Disconnected(None)))
    ensures link.lastPingReceived == 0 || now < link.lastPingReceived + 15000 ==> r == Beat(link, now)
  {
    if link.lastPingReceived != 0 && !(now < link.lastPingReceived + 15000) then Tick(link, [], Some(Disconnected(None)))
    else Beat(link, now)
  }

  /** The ping of one tick, by connection kind. */
  function Beat(link: LiveLink, now: nat): (r: Tick)
    requires Valid(link)
    ensures Valid(r.link) && r.report.None? && AllSendable(r.sends)
    ensures link.kind.DirectoryLookup? ==> r == Tick(link, [], None)
    ensures link.kind.MainServer? ==>
              r.sends == [Frame(Ping(0), r.link.packetSequence)]
    ensures link.kind.Listing? ==>
              r.sends == [Frame(PingPlusClientCount(0, 0), r.link.packetSequence)]
    ensures !link.kind.DirectoryLookup? ==>
              r.link == link.(packetSequence := LiveNextSequenceNumber(link.packetSequence), lastPingSent := now)
  {
    match link.kind
    case MainServer =>
      var next := link.(packetSequence := LiveNextSequenceNumber(link.packetSequence));
      Tick(next.(lastPingSent := now), [Frame(Ping(0), next.packetSequence)], None)
    case Listing =>
      var next := link.(packetSequence := LiveNextSequenceNumber(link.packetSequence));
      Tick(next.(lastPingSent := now), [Frame(PingPlusClientCount(0, 0), next.packetSequence)], None)
    case DirectoryLookup => Tick(link, [], None)
  }

  /** As written, a link that has never heard a ping is reported
      disconnected on every tick from fifteen seconds after the clock's
      origin on, and never sends the ping that would be answered: with
      wall-clock times, from the first tick. */
  lemma FreshLinkNeverPings(kind: ConnectionKind, now: nat)
    requires now >= 15000
    ensures LiveKeepAliveAsWritten(LiveInitial(kind), now) == Tick(LiveInitial(kind), [], Some(Disconnected(None)))
  {
  }

  /** As intended, a link that has never heard a ping keeps pinging; once a
      ping arrives, every tick in the fifteen seconds after it pings again
      without a report. */
  lemma PingKeepsAlive(link: LiveLink, ts: u32, heard: nat, now: nat)
    requires Valid(link) && !link.kind.DirectoryLookup?
    requires heard > 0 && now < heard + 15000
    ensures LiveKeepAlive(LiveInitial(link.kind), now).report.None?
    ensures LiveKeepAlive(LiveInitial(link.kind), now).sends != []
    ensures var after := LiveReceive(link, MessageNoAck(Ping(ts)), heard).link;
            && LiveKeepAlive(after, now).report.None?
            && LiveKeepAlive(after, now).sends != []
  {
  }

  /** An ack of a message just sent, with the sequence byte it went out
      with, leaves the pending table its old size, and as it was when no
      older entry answered the same ack. */
  lemma LiveSendThenAck(link: LiveLink, m: Message, now: nat)
    requires Valid(link) && Codec.Framable(m) && NeedsAck(m) && now !in link.pending
    ensures var s := LiveSend(link, m, now);
            var back := LiveReceive(s.link, AckMessage(MessageId(m), s.link.packetSequence), now);
            && |back.link.pending| == |link.pending|
            && (Answered(link.pending, MessageId(m), s.link.packetSequence) == {} ==> back.link.pending == link.pending)
  {
    var q := LiveNextSequenceNumber(link.packetSequence);
    AckAfterSend(link.pending, now, q, m);
    if Answered(link.pending, MessageId(m), q) == {} {
      AckRestoresTable(link.pending, now, q, m);
    }
  }
}
