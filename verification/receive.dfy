/**
 `handleReceive(packet:)` of the actor and of the protocol instance: what a
 parsed datagram does to the session before it is forwarded up, or
 consumed. The two differ only in how audio is treated while
 disconnecting, which `Role` selects.

 One packet is handled by `HandlePacket`; a split-message part that
 completes a message hands the message back, and `HandleReceive` parses it
 and handles it in the part's place, as the source's recursive call does.
 That reassembly sits in the branch for messages needing an ack, which a
 split-message container never is, so no datagram reaches it
 (`ContainerNeverReassembled`); `ReceiveIntended` places it where it
 evidently belongs.
 */
module Receiving {
  import opened Wire
  import opened Messages
  import Codec
  import Catalog
  import SplitMessages
  import opened Session

  /** Whose `handleReceive` runs: the actor answers audio heard while
      disconnecting itself, the instance leaves it to its disconnect task. */
  datatype Role = ActorRole | InstanceRole

  /** The session after a packet, the datagrams sent meanwhile, and the
      packet passed up, if any. */
  datatype Reaction = Reaction(link: Link, sends: seq<Outgoing>, forward: Option<Packet>)

  /** One packet's handling: settled, a runtime trap (an unsigned underflow
      or an array index out of range), or a completed split message still
      to be parsed and handled, after the datagrams sent so far. */
  datatype Step =
    | Settled(reaction: Reaction)
    | Trapped
    | Reassembled(link: Link, sends: seq<Outgoing>, message: Bytes)

  /** A packet handled, a runtime trap, or reassembly nested deeper than the
      model's `depth` bound. */
  datatype Handled = Handled(reaction: Reaction) | Trap | TooDeep

  /** What handling never changes: the connection kind and the task flags
      other than the disconnect task. */
  predicate Same(link: Link, after: Link) {
    && after.kind == link.kind
    && after.heartbeat == link.heartbeat
    && after.retransmitting == link.retransmitting
  }

  predicate StepKeeps(link: Link, s: Step) {
    && (s.Settled? ==> Same(link, s.reaction.link))
    && (s.Reassembled? ==> Same(link, s.link))
  }

  predicate Keeps(link: Link, r: Handled) {
    r.Handled? ==> Same(link, r.reaction.link)
  }

  /** `parseData(data:defaultHost:)` with the connection's remote host, or
      nothing where the parser traps: on a frame whose payload its field
      parser cannot read. */
  function Parser(host: Bytes): Bytes -> Option<Packet> {
    data => if Codec.Parsable(data) then Some(Codec.ParseData(data, host)) else None
  }

  /** The packet a datagram parses to, then its handling. */
  function Receive(role: Role, link: Link, data: Bytes, clock: Clock, host: Bytes, depth: nat): (r: Handled)
    ensures !Codec.Parsable(data) ==> r.Trap?
    ensures Codec.Parsable(data) ==> r == HandleReceive(role, link, Codec.ParseData(data, host), clock, Parser(host), depth)
    ensures Keeps(link, r)
  {
    match Parser(host)(data)
    case None => Trap
    case Some(packet) => HandleReceive(role, link, packet, clock, Parser(host), depth)
  }

  /** `handleReceive`: the packet's own step, and for a completed split
      message the handling of the packet `parse` makes of it, after the
      part's ack. */
  function HandleReceive(role: Role, link: Link, packet: Packet, clock: Clock, parse: Bytes -> Option<Packet>, depth: nat): (r: Handled)
    ensures Keeps(link, r)
    ensures HandlePacket(role, link, packet, clock).Settled? ==> r == Handled(HandlePacket(role, link, packet, clock).reaction)
    ensures HandlePacket(role, link, packet, clock).Trapped? ==> r.Trap?
    ensures r.TooDeep? ==> HandlePacket(role, link, packet, clock).Reassembled?
    ensures packet.MessageNeedingAck? && r.Handled? ==>
              |r.reaction.sends| > 0 && r.reaction.sends[0] == AckFrame(link, packet.message, packet.sequence)
    decreases depth
  {
    match HandlePacket(role, link, packet, clock)
    case Settled(reaction) => Handled(reaction)
    case Trapped => Trap
    case Reassembled(stored, sends, message) =>
      if depth == 0 then TooDeep
      else
        match parse(message)
        case None => Trap
        case Some(next) =>
          var inner := HandleReceive(role, stored, next, clock, parse, depth - 1);
          if inner.Handled? then Handled(Reaction(inner.reaction.link, sends + inner.reaction.sends, inner.reaction.forward))
          else inner
  }

  /** One packet: acks are matched against the pending table, messages
      needing an ack are acked, pings become round-trip times, audio while
      disconnecting is consumed; everything else is passed up unchanged. */
  function HandlePacket(role: Role, link: Link, packet: Packet, clock: Clock): (r: Step)
    ensures StepKeeps(link, r)
    ensures packet.AckMessage? ==>
              r == Settled(Reaction(link.(unacked := RemoveAcked(link.unacked, packet.ackType, packet.sequenceNumber)), [], Some(packet)))
    ensures packet.Error? ==> r == Settled(Reaction(link, [], Some(packet)))
    ensures r.Reassembled? ==> packet.MessageNeedingAck? && packet.message.SplitMessageContainer?
    ensures r.Trapped? ==> packet.MessageNoAck? || (packet.MessageNeedingAck? && packet.message.SplitMessageContainer?)
    ensures packet.MessageNeedingAck? && r.Settled? ==>
              |r.reaction.sends| > 0 && r.reaction.sends[0] == AckFrame(link, packet.message, packet.sequence)
    ensures packet.MessageNeedingAck? && r.Reassembled? ==> r.sends == [AckFrame(link, packet.message, packet.sequence)]
  {
    match packet
    case AckMessage(ackType, sequenceNumber) =>
      Settled(Reaction(link.(unacked := RemoveAcked(link.unacked, ackType, sequenceNumber)), [], Some(packet)))
    case MessageNeedingAck(message, sequence) => OnNeedingAck(link, packet)
    case MessageNoAck(message) => OnNoAck(link, packet, clock)
    case Audio(_) => Settled(OnAudio(role, link, packet, clock.now))
    case Error(_) => Settled(Reaction(link, [], Some(packet)))
  }

  /** The ack of a message: its id and the sequence byte it came with,
      framed with the next value of the sender's counter. */
  function AckFrame(link: Link, message: Message, sequence: byte): (o: Outgoing)
    ensures o.Frame?
    ensures o.message.Ack? && o.message.ackType == MessageId(message)
    ensures o.nextSeq == Codec.NextSequenceNumber(link.packetSequence)
  {
    Frame(Ack(MessageId(message), sequence), Codec.NextSequenceNumber(link.packetSequence))
  }

  /** The counter value an ack is framed with is ignored: the ack's header
      carries the acked sequence byte, and the peer parses the datagram back
      into the ack of its own message. */
  lemma AckEchoesSequence(link: Link, message: Message, sequence: byte, host: Bytes)
    ensures OnWire(AckFrame(link, message, sequence))[4] == sequence
    ensures Codec.Parsable(OnWire(AckFrame(link, message, sequence)))
    ensures Codec.ParseData(OnWire(AckFrame(link, message, sequence)), host) == AckMessage(MessageId(message), sequence)
  {
    var o := AckFrame(link, message, sequence);
    assert Catalog.RoundTrips(o.message);
    Codec.ParseMessageToData(o.message, o.nextSeq, host);
  }

  /** A message needing an ack: the ack goes out first; a client id
      connects (unless disconnecting, when the packet is consumed); a
      request for split-message support is answered and consumed; a split
      part is stored. */
  function OnNeedingAck(link: Link, packet: Packet): (r: Step)
    requires packet.MessageNeedingAck?
    ensures StepKeeps(link, r)
    ensures !packet.message.SplitMessageContainer? ==> r.Settled?
    ensures r.Settled? ==> |r.reaction.sends| > 0 && r.reaction.sends[0] == AckFrame(link, packet.message, packet.sequence)
    ensures r.Reassembled? ==> r.sends == [AckFrame(link, packet.message, packet.sequence)]
    ensures packet.message.ClientId? && link.state.Disconnecting? ==>
              r.reaction.forward.None? && r.reaction.link.state == Disconnecting
    ensures packet.message.ClientId? && !link.state.Disconnecting? ==>
              r.reaction.forward == Some(packet) && r.reaction.link.state == Connected(Some(packet.message.id))
    ensures packet.message.RequestSplitMessagesSupport? ==>
              && r.reaction.forward.None?
              && r.reaction.sends == [AckFrame(link, packet.message, packet.sequence),
                                      Frame(SplitMessagesSupport, Codec.Advance(link.packetSequence, 2))]
  {
    var ack := AckFrame(link, packet.message, packet.sequence);
    var acked := Advanced(link);
    var message := packet.message;
    if message.ClientId? then
      if acked.state.Disconnecting? then Settled(Reaction(acked, [ack], None))
      else Settled(Reaction(SetState(acked, Connected(Some(message.id))), [ack], Some(packet)))
    else if message.RequestSplitMessagesSupport? then
      var answered := Advanced(acked);
      Settled(Reaction(answered, [ack, Frame(SplitMessagesSupport, answered.packetSequence)], None))
    else if message.SplitMessageContainer? then
      OnSplitPart(acked, [ack], packet)
    else Settled(Reaction(acked, [ack], Some(packet)))
  }

  /** A split-message part is stored, after the datagrams `acks` already
      sent for it; while its message is incomplete the container is passed
      up, and once complete the message is handed back for parsing. A part
      outside the group's slots traps, as the array store does. */
  function OnSplitPart(link: Link, acks: seq<Outgoing>, packet: Packet): (r: Step)
    requires (packet.MessageNeedingAck? || packet.MessageNoAck?) && packet.message.SplitMessageContainer?
    ensures StepKeeps(link, r)
    ensures var m := packet.message;
            r.Trapped? <==> !SplitMessages.Fits(m.splitId, m.totalParts as nat, m.part as nat, link.splits)
    ensures r.Settled? ==> r.reaction.sends == acks && r.reaction.forward == Some(packet)
    ensures r.Reassembled? ==> r.sends == acks
    ensures !r.Trapped? ==>
              var m := packet.message;
              var out := SplitMessages.HandleSplitMessage(m.splitId, m.totalParts as nat, m.part as nat, m.payload, link.splits);
              && (r.Settled? <==> out.message.None?)
              && (r.Settled? ==> r.reaction.link == link.(splits := out.storage))
              && (r.Reassembled? ==> r.link == link.(splits := out.storage) && r.message == out.message.value)
  {
    var m := packet.message;
    var total := m.totalParts as nat;
    var part := m.part as nat;
    if !SplitMessages.Fits(m.splitId, total, part, link.splits) then Trapped
    else
      var out := SplitMessages.HandleSplitMessage(m.splitId, total, part, m.payload, link.splits);
      var stored := link.(splits := out.storage);
      if out.message.None? then Settled(Reaction(stored, acks, Some(packet)))
      else Reassembled(stored, acks, out.message.value)
  }

  /** `UInt32` subtraction, which traps below zero. */
  function Elapsed(now: u32, then_: u32): (r: Option<u32>)
    ensures r.Some? <==> then_ <= now
    ensures r.Some? ==> r.value + then_ == now
  {
    if then_ <= now then Some(now - then_) else None
  }

  /** A message needing no ack: a ping records when it arrived and is passed
      up as a `messageNeedingAck` with sequence 0 whose time stamp is the
      round trip; a ping with a client count is passed up the same way but
      records nothing. A time stamp ahead of the local clock traps. */
  function OnNoAck(link: Link, packet: Packet, clock: Clock): (r: Step)
    requires packet.MessageNoAck?
    ensures StepKeeps(link, r) && !r.Reassembled?
    ensures r.Settled? ==> r.reaction.sends == []
    ensures r.Trapped? <==>
              || (packet.message.Ping? && Elapsed(clock.timestamp, packet.message.timeStamp).None?)
              || (packet.message.PingPlusClientCount? && Elapsed(clock.timestamp, packet.message.timeStamp).None?)
    ensures r.Settled? && packet.message.Ping? ==>
              && r.reaction.link == link.(lastPingReceived := clock.now)
              && r.reaction.forward == Some(MessageNeedingAck(Ping(clock.timestamp - packet.message.timeStamp), 0))
    ensures r.Settled? && packet.message.PingPlusClientCount? ==>
              r.reaction.forward == Some(MessageNeedingAck(
                PingPlusClientCount(packet.message.clientCount, clock.timestamp - packet.message.timeStamp), 0))
    ensures r.Settled? && !packet.message.Ping? ==> r.reaction.link == link
    ensures !packet.message.Ping? && !packet.message.PingPlusClientCount? ==> r == Settled(Reaction(link, [], Some(packet)))
  {
    var message := packet.message;
    if message.Ping? then
      var roundtrip := Elapsed(clock.timestamp, message.timeStamp);
      if roundtrip.None? then Trapped
      else Settled(Reaction(link.(lastPingReceived := clock.now), [], Some(MessageNeedingAck(Ping(roundtrip.value), 0))))
    else if message.PingPlusClientCount? then
      var roundtrip := Elapsed(clock.timestamp, message.timeStamp);
      if roundtrip.None? then Trapped
      else Settled(Reaction(link, [], Some(MessageNeedingAck(PingPlusClientCount(message.clientCount, roundtrip.value), 0))))
    else Settled(Reaction(link, [], Some(packet)))
  }

  /** Audio: passed up unless disconnecting. While disconnecting the
      instance notes the time and starts its disconnect task if it never
      did; the actor, if the previous audio was under 200 ms ago, notes the
      time and sends `disconnect` again, and otherwise declares the link
      disconnected. Either way the audio is consumed. */
  function OnAudio(role: Role, link: Link, packet: Packet, now: nat): (r: Reaction)
    ensures Same(link, r.link) && r.link.unacked == link.unacked
    ensures !link.state.Disconnecting? <==> r.forward == Some(packet)
    ensures !link.state.Disconnecting? ==> r.link == link && r.sends == []
    ensures link.state.Disconnecting? && role.InstanceRole? ==>
              && r.link.lastAudio == now && r.sends == [] && r.link.state == Disconnecting
              && r.link.disconnectTask == (if link.disconnectTask.NotStarted? then Running else link.disconnectTask)
    ensures link.state.Disconnecting? && role.ActorRole? && now < link.lastAudio + 200 ==>
              && r.link.lastAudio == now && r.link.state == Disconnecting
              && r.sends == [Frame(Disconnect, Codec.NextSequenceNumber(link.packetSequence))]
    ensures link.state.Disconnecting? && role.ActorRole? && now >= link.lastAudio + 200 ==>
              r.link.state == Disconnected(None) && r.sends == []
  {
    if !link.state.Disconnecting? then Reaction(link, [], Some(packet))
    else
      match role
      case InstanceRole =>
        var noted := link.(lastAudio := now);
        var started := if noted.disconnectTask.NotStarted? then noted.(disconnectTask := Running) else noted;
        Reaction(started, [], None)
      case ActorRole =>
        if now < link.lastAudio + 200 then
          var next := Advanced(link.(lastAudio := now));
          Reaction(next, [Frame(Disconnect, next.packetSequence)], None)
        else Reaction(SetState(link, Disconnected(None)), [], None)
  }

  // ----- properties -----

  /** A message framed by the peer with sequence byte `s` is passed up as
      needing an ack with that byte, and the single datagram sent back is
      its ack. */
  lemma PeerMessageForwarded(role: Role, link: Link, m: Message, s: byte, clock: Clock, host: Bytes, depth: nat)
    requires Catalog.RoundTrips(m) && Codec.Framable(m) && NeedsAck(m)
    requires !m.ClientId? && !m.RequestSplitMessagesSupport? && !m.SplitMessageContainer?
    ensures Receive(role, link, Codec.MessageToData(m, s), clock, host, depth)
            == Handled(Reaction(Advanced(link), [AckFrame(link, m, s)], Some(MessageNeedingAck(m, s))))
  {
    var data := Codec.MessageToData(m, s);
    ParsesAsNeedingAck(m, s, host);
    assert Parser(host)(data) == Some(MessageNeedingAck(m, s));
    OrdinaryAcked(role, link, MessageNeedingAck(m, s), clock);
  }

  /** A message needing an ack with no handling of its own is acked and
      passed up. */
  lemma OrdinaryAcked(role: Role, link: Link, packet: Packet, clock: Clock)
    requires packet.MessageNeedingAck?
    requires !packet.message.ClientId? && !packet.message.RequestSplitMessagesSupport? && !packet.message.SplitMessageContainer?
    ensures HandlePacket(role, link, packet, clock)
            == Settled(Reaction(Advanced(link), [AckFrame(link, packet.message, packet.sequence)], Some(packet)))
  {
  }

  /** The frame of a message needing an ack parses back to it, with the
      sequence byte it was framed with. */
  lemma ParsesAsNeedingAck(m: Message, s: byte, host: Bytes)
    requires Catalog.RoundTrips(m) && Codec.Framable(m) && NeedsAck(m)
    ensures Codec.Parsable(Codec.MessageToData(m, s))
    ensures Codec.ParseData(Codec.MessageToData(m, s), host) == MessageNeedingAck(m, s)
  {
    Codec.ParseMessageToData(m, s, host);
    assert Codec.FrameSequence(m, s) == s;
  }

  /** A message needing no ack that is not a ping is passed up untouched and
      answered with nothing. */
  lemma PeerSignalForwarded(role: Role, link: Link, m: Message, s: byte, clock: Clock, host: Bytes, depth: nat)
    requires Catalog.RoundTrips(m) && Codec.Framable(m) && !NeedsAck(m) && !m.Ack?
    requires !m.Ping? && !m.PingPlusClientCount?
    ensures Receive(role, link, Codec.MessageToData(m, s), clock, host, depth)
            == Handled(Reaction(link, [], Some(MessageNoAck(m))))
  {
    Codec.ParseMessageToData(m, s, host);
  }

  /** A datagram that parses to a message needing an ack, sent in one
      split-message part under an id with no reassembly in progress, is
      acked as a part and then handled exactly as if it had arrived whole:
      acked again and passed up. The reassembly storage is left as it was.
      `ParsesAsNeedingAck` supplies such datagrams: the frame of any message
      that round-trips. */
  lemma SinglePartMessage(role: Role, link: Link, id: u16, q: byte, data: Bytes, m: Message, s: byte,
                          clock: Clock, parse: Bytes -> Option<Packet>, depth: nat)
    requires id !in link.splits
    requires parse(data) == Some(MessageNeedingAck(m, s))
    requires !m.ClientId? && !m.RequestSplitMessagesSupport? && !m.SplitMessageContainer?
    ensures var container := SplitMessageContainer(id, 1, 0, data);
            var acked := Advanced(link);
            HandleReceive(role, link, MessageNeedingAck(container, q), clock, parse, depth + 1)
            == Handled(Reaction(Advanced(acked), [AckFrame(link, container, q), AckFrame(acked, m, s)], Some(MessageNeedingAck(m, s))))
  {
    var container := SplitMessageContainer(id, 1, 0, data);
    var acked := Advanced(link);
    SplitMessages.SinglePartCompletes(id, data, acked.splits);
    assert acked.(splits := acked.splits) == acked;
    assert HandlePacket(role, link, MessageNeedingAck(container, q), clock)
           == Reassembled(acked, [AckFrame(link, container, q)], data);
  }

  // ----- the unreachable reassembly -----

  /** As written, reassembly sits under `.messageNeedingAck`, but a
      split-message container (id 2001) needs no ack. So no datagram ever
      reaches it: a container arrives as a message needing no ack and is
      passed up untouched, unacked and unstored. */
  lemma ContainerNeverReassembled(role: Role, link: Link, data: Bytes, clock: Clock, host: Bytes, depth: nat)
    requires Codec.Parsable(data)
    ensures !HandlePacket(role, link, Codec.ParseData(data, host), clock).Reassembled?
    ensures var p := Codec.ParseData(data, host);
            (p.MessageNeedingAck? || p.MessageNoAck?) && p.message.SplitMessageContainer? ==>
              && p.MessageNoAck?
              && Receive(role, link, data, clock, host, depth) == Handled(Reaction(link, [], Some(p)))
  {
    var p := Codec.ParseData(data, host);
    if p.MessageNeedingAck? {
      NeedsAckCases(p.message);
    } else if p.MessageNoAck? && p.message.SplitMessageContainer? {
      var step := HandlePacket(role, link, p, clock);
      assert step == OnNoAck(link, p, clock);
      assert step == Settled(Reaction(link, [], Some(p)));
      assert Receive(role, link, data, clock, host, depth) == HandleReceive(role, link, p, clock, Parser(host), depth);
    }
  }

  /** The evidently intended handling of one packet: a split-message part
      that arrives needing no ack is stored and reassembled as a part
      needing an ack would be, without an ack of its own. Every other packet
      is handled as `HandlePacket` handles it. */
  function HandlePacketIntended(role: Role, link: Link, packet: Packet, clock: Clock): (r: Step)
    ensures StepKeeps(link, r)
    ensures !(packet.MessageNoAck? && packet.message.SplitMessageContainer?) ==> r == HandlePacket(role, link, packet, clock)
    ensures packet.MessageNoAck? && packet.message.SplitMessageContainer? ==>
              var m := packet.message;
              && (r.Trapped? <==> !SplitMessages.Fits(m.splitId, m.totalParts as nat, m.part as nat, link.splits))
              && (r.Settled? ==> r.reaction.sends == [] && r.reaction.forward == Some(packet))
              && (r.Reassembled? ==> r.sends == [])
  {
    if packet.MessageNoAck? && packet.message.SplitMessageContainer? then OnSplitPart(link, [], packet)
    else HandlePacket(role, link, packet, clock)
  }

  /** `HandleReceive` with the intended handling of unacked parts. */
  function HandleReceiveIntended(role: Role, link: Link, packet: Packet, clock: Clock, parse: Bytes -> Option<Packet>, depth: nat): (r: Handled)
    ensures Keeps(link, r)
    ensures HandlePacketIntended(role, link, packet, clock).Settled? ==> r == Handled(HandlePacketIntended(role, link, packet, clock).reaction)
    ensures HandlePacketIntended(role, link, packet, clock).Trapped? ==> r.Trap?
    ensures r.TooDeep? ==> HandlePacketIntended(role, link, packet, clock).Reassembled?
    decreases depth
  {
    match HandlePacketIntended(role, link, packet, clock)
    case Settled(reaction) => Handled(reaction)
    case Trapped => Trap
    case Reassembled(stored, sends, message) =>
      if depth == 0 then TooDeep
      else
        match parse(message)
        case None => Trap
        case Some(next) =>
          var inner := HandleReceiveIntended(role, stored, next, clock, parse, depth - 1);
          if inner.Handled? then Handled(Reaction(inner.reaction.link, sends + inner.reaction.sends, inner.reaction.forward))
          else inner
  }

  /** `Receive` with the intended handling of unacked parts. */
  function ReceiveIntended(role: Role, link: Link, data: Bytes, clock: Clock, host: Bytes, depth: nat): (r: Handled)
    ensures !Codec.Parsable(data) ==> r.Trap?
    ensures Codec.Parsable(data) ==> r == HandleReceiveIntended(role, link, Codec.ParseData(data, host), clock, Parser(host), depth)
    ensures Keeps(link, r)
  {
    match Parser(host)(data)
    case None => Trap
    case Some(packet) => HandleReceiveIntended(role, link, packet, clock, Parser(host), depth)
  }

  /** With the intended handling, a message needing an ack that arrives in
      a one-part container (the form a container takes off the wire) is
      handled as if it had arrived whole: the container itself is not
      acked, the message is acked and passed up, and the reassembly
      storage is left as it was. As written, the same packet is passed up
      as it is and its message is lost. */
  lemma UnackedSinglePartReassembled(role: Role, link: Link, id: u16, data: Bytes, m: Message, s: byte,
                                     clock: Clock, parse: Bytes -> Option<Packet>, depth: nat)
    requires id !in link.splits
    requires parse(data) == Some(MessageNeedingAck(m, s))
    requires !m.ClientId? && !m.RequestSplitMessagesSupport? && !m.SplitMessageContainer?
    ensures var container := MessageNoAck(SplitMessageContainer(id, 1, 0, data));
            && HandleReceiveIntended(role, link, container, clock, parse, depth + 1)
               == Handled(Reaction(Advanced(link), [AckFrame(link, m, s)], Some(MessageNeedingAck(m, s))))
            && HandleReceive(role, link, container, clock, parse, depth + 1)
               == Handled(Reaction(link, [], Some(container)))
  {
    var container := MessageNoAck(SplitMessageContainer(id, 1, 0, data));
    SplitMessages.SinglePartCompletes(id, data, link.splits);
    assert link.(splits := link.splits) == link;
    assert HandlePacketIntended(role, link, container, clock) == Reassembled(link, [], data);
    OrdinaryAcked(role, link, MessageNeedingAck(m, s), clock);
    assert [] + [AckFrame(link, m, s)] == [AckFrame(link, m, s)];
  }

  // ----- serialisability -----

  /** Every datagram sent can be serialised, and a table of pending messages
      that can be resent stays so. */
  predicate Serialisable(link: Link, sends: seq<Outgoing>, after: Link) {
    && AllSendable(sends)
    && (TableSendable(link.unacked) ==> TableSendable(after.unacked))
  }

  /** Every frame one packet sends is an ack, a `splitMessagesSupport` or a
      `disconnect`, and the pending table only loses entries. */
  lemma PacketSerialisable(role: Role, link: Link, packet: Packet, clock: Clock)
    ensures var r := HandlePacket(role, link, packet, clock);
            && (r.Settled? ==> Serialisable(link, r.reaction.sends, r.reaction.link))
            && (r.Reassembled? ==> Serialisable(link, r.sends, r.link))
  {
    match packet
    case AckMessage(_, _) =>
    case MessageNeedingAck(_, _) => NeedingAckSerialisable(link, packet);
    case MessageNoAck(_) =>
    case Audio(_) => AudioSerialisable(role, link, packet, clock.now);
    case Error(_) =>
  }

  lemma NeedingAckSerialisable(link: Link, packet: Packet)
    requires packet.MessageNeedingAck?
    ensures var r := OnNeedingAck(link, packet);
            && (r.Settled? ==> Serialisable(link, r.reaction.sends, r.reaction.link))
            && (r.Reassembled? ==> Serialisable(link, r.sends, r.link))
  {
    if packet.message.RequestSplitMessagesSupport? {
      SplitSupportSerialisable(link, packet);
    } else if packet.message.SplitMessageContainer? {
      SplitPartSerialisable(link, packet);
    } else {
      AckOnlySerialisable(link, packet);
    }
  }

  /** The answer to `requestSplitMessagesSupport`: the ack and the
      announcement. */
  lemma SplitSupportSerialisable(link: Link, packet: Packet)
    requires packet.MessageNeedingAck? && packet.message.RequestSplitMessagesSupport?
    ensures var r := OnNeedingAck(link, packet);
            r.Settled? && Serialisable(link, r.reaction.sends, r.reaction.link)
  {
    AckSendable(link, packet.message, packet.sequence);
    assert Sendable(Frame(SplitMessagesSupport, Codec.Advance(link.packetSequence, 2)));
  }

  /** A split-message part: only its ack. */
  lemma SplitPartSerialisable(link: Link, packet: Packet)
    requires packet.MessageNeedingAck? && packet.message.SplitMessageContainer?
    ensures var r := OnNeedingAck(link, packet);
            && (r.Settled? ==> Serialisable(link, r.reaction.sends, r.reaction.link))
            && (r.Reassembled? ==> Serialisable(link, r.sends, r.link))
  {
    AckSendable(link, packet.message, packet.sequence);
  }

  /** Every other message needing an ack: only its ack. */
  lemma AckOnlySerialisable(link: Link, packet: Packet)
    requires packet.MessageNeedingAck?
    requires !packet.message.RequestSplitMessagesSupport? && !packet.message.SplitMessageContainer?
    ensures var r := OnNeedingAck(link, packet);
            r.Settled? && Serialisable(link, r.reaction.sends, r.reaction.link)
  {
    AckSendable(link, packet.message, packet.sequence);
    var ack := AckFrame(link, packet.message, packet.sequence);
    if !packet.message.ClientId? {
      assert OnNeedingAck(link, packet) == Settled(Reaction(Advanced(link), [ack], Some(packet)));
    }
  }

  lemma AckSendable(link: Link, message: Message, sequence: byte)
    ensures Sendable(AckFrame(link, message, sequence))
  {
  }

  lemma AudioSerialisable(role: Role, link: Link, packet: Packet, now: nat)
    ensures Serialisable(link, OnAudio(role, link, packet, now).sends, OnAudio(role, link, packet, now).link)
  {
    assert Sendable(Frame(Disconnect, Codec.NextSequenceNumber(link.packetSequence)));
  }

  /** Whatever the receive path sends can be serialised, including the
      acks of reassembled messages. */
  lemma {:induction false} HandledSerialisable(role: Role, link: Link, packet: Packet, clock: Clock, parse: Bytes -> Option<Packet>, depth: nat)
    ensures var r := HandleReceive(role, link, packet, clock, parse, depth);
            r.Handled? ==> Serialisable(link, r.reaction.sends, r.reaction.link)
    decreases depth, 1
  {
    PacketSerialisable(role, link, packet, clock);
    var step := HandlePacket(role, link, packet, clock);
    if step.Reassembled? && depth > 0 && parse(step.message).Some? {
      NestedSerialisable(role, link, packet, clock, parse, depth);
    }
  }

  /** The same for a completed split message: the part's ack followed by
      what handling the reassembled message sends. */
  lemma {:induction false} NestedSerialisable(role: Role, link: Link, packet: Packet, clock: Clock, parse: Bytes -> Option<Packet>, depth: nat)
    requires var step := HandlePacket(role, link, packet, clock);
             step.Reassembled? && depth > 0 && parse(step.message).Some?
    ensures var r := HandleReceive(role, link, packet, clock, parse, depth);
            r.Handled? ==> Serialisable(link, r.reaction.sends, r.reaction.link)
    decreases depth, 0
  {
    PacketSerialisable(role, link, packet, clock);
    var step := HandlePacket(role, link, packet, clock);
    var next := parse(step.message).value;
    HandledSerialisable(role, step.link, next, clock, parse, depth - 1);
    var inner := HandleReceive(role, step.link, next, clock, parse, depth - 1);
    if inner.Handled? {
      JoinSendable(step.sends, inner.reaction.sends);
    }
  }

  lemma JoinSendable(a: seq<Outgoing>, b: seq<Outgoing>)
    requires AllSendable(a) && AllSendable(b)
    ensures AllSendable(a + b)
  {
    forall i | 0 <= i < |a + b|
      ensures Sendable((a + b)[i])
    {
      if i >= |a| {
        assert (a + b)[i] == b[i - |a|];
      }
    }
  }
}
