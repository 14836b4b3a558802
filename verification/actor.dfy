/**
 The protocol actor (`JamulusProtocolActor`) as a session record driven one
 event at a time. Unlike the instance it opens its state stream once,
 ignores `send` and `sendAudio` while disconnecting, keeps its heartbeat
 and retransmit loops running through a disconnection, answers audio heard
 while disconnecting itself, and passes whole packets up.
 */
module ProtocolActor {
  import opened Wire
  import opened Messages
  import Codec
  import opened Session
  import Receiving

  /** The actor's session, and whether its state stream exists. */
  datatype Actor = Actor(link: Link, isOpen: bool)

  /** A fresh actor: nothing opened yet. */
  function Fresh(kind: ConnectionKind): Actor {
    Actor(Initial(kind), false)
  }

  /** `open()`: the first call creates the state stream; every later call
      returns that same stream and changes nothing. */
  function Open(a: Actor): (r: Actor)
    ensures r.isOpen
    ensures a.isOpen ==> r == a
    ensures !a.isOpen ==> r.link == a.link.(stream := StateStream([], None))
  {
    if a.isOpen then a else Actor(a.link.(stream := StateStream([], None)), true)
  }

  /** Opening twice is opening once. */
  lemma OpenIdempotent(a: Actor)
    ensures Open(Open(a)) == Open(a)
    ensures a.isOpen ==> Open(a).link.stream == a.link.stream
  {
  }

  /** The `send` closure: nothing at all while disconnecting; otherwise a
      disconnect message first enters the disconnecting state, restarts the
      audio clock and empties both tables (the loops keep running); then
      the counter moves on, a message needing an ack is recorded under the
      send time with the sequence byte it is framed with, and the frame goes
      out. The disconnecting guard comes before any framing, so only a send
      that gets past it needs a payload short enough for the frame's length
      field; a longer one traps. */
  function Send(link: Link, message: Message, now: nat): (r: Sent)
    requires !link.state.Disconnecting? ==> Codec.Framable(message)
    ensures link.state.Disconnecting? ==> r == Sent(link, [])
    ensures !link.state.Disconnecting? ==>
              && r.link.packetSequence == Codec.NextSequenceNumber(link.packetSequence)
              && r.sends == [Frame(message, r.link.packetSequence)]
              && r.link.heartbeat == link.heartbeat && r.link.retransmitting == link.retransmitting
    ensures AllSendable(r.sends)
    ensures !link.state.Disconnecting? && message.Disconnect? ==>
              && r.link.state == Disconnecting && r.link.lastAudio == now
              && r.link.unacked == map[] && r.link.splits == map[]
    ensures !link.state.Disconnecting? && !message.Disconnect? ==>
              r.link.(packetSequence := link.packetSequence, unacked := link.unacked) == link
    ensures !link.state.Disconnecting? && NeedsAck(message) ==>
              r.link.unacked == link.unacked[now := Pending(r.link.packetSequence, message)]
  {
    if link.state.Disconnecting? then Sent(link, [])
    else
      var base := if message.Disconnect? then
                    SetState(link, Disconnecting).(lastAudio := now, unacked := map[], splits := map[])
                  else link;
      var next := Advanced(base);
      var stored := if NeedsAck(message) then next.(unacked := next.unacked[now := Pending(next.packetSequence, message)]) else next;
      Sent(stored, [Frame(message, next.packetSequence)])
  }

  /** The `sendAudio` closure: nothing while disconnecting; otherwise the
      audio as given, or with the next audio sequence byte appended. */
  function SendAudio(link: Link, audio: Bytes, addSequenceNumber: bool): (r: Sent)
    ensures link.state.Disconnecting? ==> r == Sent(link, [])
    ensures !link.state.Disconnecting? && !addSequenceNumber ==> r == Sent(link, [Datagram(audio)])
    ensures !link.state.Disconnecting? && addSequenceNumber ==>
              && r.link == link.(audioSequence := Codec.NextSequenceNumber(link.audioSequence))
              && r.sends == [Datagram(audio + [r.link.audioSequence])]
  {
    if link.state.Disconnecting? then Sent(link, [])
    else if addSequenceNumber then
      var next := link.(audioSequence := Codec.NextSequenceNumber(link.audioSequence));
      Sent(next, [Datagram(audio + [next.audioSequence])])
    else Sent(link, [Datagram(audio)])
  }

  /** The actor after an event, the datagrams sent and the packets passed
      up. */
  datatype Outcome = Outcome(actor: Actor, sends: seq<Outgoing>, delivered: seq<Packet>)

  /** The actor's reaction to one event, or nothing where it traps (or a
      reassembled message nests deeper than `depth`). `parse` is the frame
      parser with the connection's remote host. Starting to receive starts
      the retransmit queue. The loop over connection states lives inside
      `open()`, so before it a connection state reaches nothing. The actor
      has no disconnect task. */
  function Step(a: Actor, e: Stamped, parse: Bytes -> Option<Packet>, depth: nat): (r: Option<Outcome>)
    ensures r.Some? ==> r.value.actor.link.kind == a.link.kind && |r.value.delivered| <= 1
    ensures r.Some? && !e.event.OpenStream? ==> r.value.actor.isOpen == a.isOpen
    ensures !a.isOpen && e.event.ConnectionChange? ==> r == Some(Outcome(a, [], []))
    ensures e.event.SendCall? ==> (r.Some? <==> a.link.state.Disconnecting? || Codec.Framable(e.event.message))
    ensures !e.event.SendCall? && !e.event.Incoming? ==> r.Some? && r.value.delivered == []
  {
    var now := e.clock.now;
    match e.event
    case OpenStream => Some(Outcome(Open(a), [], []))
    case ConnectionChange(change) =>
      if a.isOpen then Some(Outcome(a.(link := OnConnectionState(a.link, change)), [], []))
      else Some(Outcome(a, [], []))
    case ReceiveStart => Some(Outcome(a.(link := a.link.(retransmitting := true)), [], []))
    case SendCall(message) =>
      if a.link.state.Disconnecting? || Codec.Framable(message) then
        var s := Send(a.link, message, now);
        Some(Outcome(a.(link := s.link), s.sends, []))
      else None
    case AudioCall(audio, addSequenceNumber) =>
      var s := SendAudio(a.link, audio, addSequenceNumber);
      Some(Outcome(a.(link := s.link), s.sends, []))
    case Incoming(data) => Arrive(a, data, e.clock, parse, depth)
    case HeartbeatTurn =>
      var s := KeepAliveTick(a.link, e.clock);
      Some(Outcome(a.(link := s.link), s.sends, []))
    case RetransmitTurn =>
      var s := RetransmitTick(a.link, now);
      Some(Outcome(a.(link := s.link), s.sends, []))
    case DisconnectTurn => Some(Outcome(a, [], []))
  }

  /** A datagram: parsed, handled, and the packet passed up, if any. */
  function Arrive(a: Actor, data: Bytes, clock: Clock, parse: Bytes -> Option<Packet>, depth: nat): (r: Option<Outcome>)
    ensures r.Some? ==> r.value.actor.link.kind == a.link.kind && r.value.actor.isOpen == a.isOpen
    ensures r.Some? ==> |r.value.delivered| <= 1
    ensures parse(data).None? ==> r.None?
  {
    match parse(data)
    case None => None
    case Some(packet) =>
      var h := Receiving.HandleReceive(Receiving.ActorRole, a.link, packet, clock, parse, depth);
      if h.Handled? then
        var up := if h.reaction.forward.Some? then [h.reaction.forward.value] else [];
        Some(Outcome(a.(link := h.reaction.link), h.reaction.sends, up))
      else None
  }

  /** The actor after a run of events and the datagrams sent on the way,
      unless one of them trapped. */
  function Run(a: Actor, events: seq<Stamped>, parse: Bytes -> Option<Packet>, depth: nat): Option<Sent>
    decreases |events|
  {
    if |events| == 0 then Some(Sent(a.link, []))
    else
      match Step(a, events[0], parse, depth)
      case None => None
      case Some(o) =>
        match Run(o.actor, events[1..], parse, depth)
        case None => None
        case Some(rest) => Some(Sent(rest.link, o.sends + rest.sends))
  }

  // ----- properties -----

  /** A call to `send` or `sendAudio`. */
  predicate Call(e: Stamped) {
    e.event.SendCall? || e.event.AudioCall?
  }

  /** While disconnecting, the caller can send nothing more: any run of
      `send` and `sendAudio` calls completes, puts no datagram on the wire
      and leaves the session as it was, whatever the messages are. */
  lemma {:induction false} SilentWhileDisconnecting(a: Actor, events: seq<Stamped>, parse: Bytes -> Option<Packet>, depth: nat)
    requires a.link.state.Disconnecting?
    requires forall i :: 0 <= i < |events| ==> Call(events[i])
    ensures Run(a, events, parse, depth) == Some(Sent(a.link, []))
    decreases |events|
  {
    if |events| > 0 {
      assert Call(events[0]);
      var step := Step(a, events[0], parse, depth);
      assert step == Some(Outcome(a, [], []));
      assert forall i :: 0 <= i < |events[1..]| ==> Call(events[1..][i]) by {
        forall i | 0 <= i < |events[1..]| ensures Call(events[1..][i]) {
          assert events[1..][i] == events[i + 1];
        }
      }
      SilentWhileDisconnecting(a, events[1..], parse, depth);
      assert step.value.sends + [] == [];
    }
  }

  /** The actor's heartbeat survives a disconnect, so a peer that never
      answers with audio is let go once three seconds have passed: the
      first heartbeat turn after that declares the link disconnected without
      an error. */
  lemma DisconnectTimesOut(link: Link, sentAt: nat, clock: Clock)
    requires !link.state.Disconnecting? && link.heartbeat
    requires sentAt + 3000 < clock.now
    ensures var s := Send(link, Disconnect, sentAt);
            && s.sends == [Frame(Disconnect, Codec.NextSequenceNumber(link.packetSequence))]
            && KeepAliveTick(s.link, clock).link.state == Disconnected(None)
            && KeepAliveTick(s.link, clock).link.heartbeat
            && KeepAliveTick(s.link, clock).sends == []
  {
    var s := Send(link, Disconnect, sentAt);
    assert s.link.state == Disconnecting && s.link.lastAudio == sentAt && s.link.heartbeat;
  }

  /** The audio exchange while disconnecting: audio under 200 ms after the
      previous one is consumed and answered by another `disconnect`; audio
      later than that ends the session. */
  lemma AudioWhileDisconnecting(a: Actor, data: Bytes, clock: Clock, parse: Bytes -> Option<Packet>, depth: nat)
    requires a.link.state.Disconnecting?
    requires parse(data) == Some(Audio(data))
    ensures var o := Arrive(a, data, clock, parse, depth);
            && o.Some? && o.value.delivered == []
            && (clock.now < a.link.lastAudio + 200 ==>
                  && o.value.sends == [Frame(Disconnect, Codec.NextSequenceNumber(a.link.packetSequence))]
                  && o.value.actor.link.lastAudio == clock.now
                  && o.value.actor.link.state == Disconnecting)
            && (clock.now >= a.link.lastAudio + 200 ==>
                  o.value.sends == [] && o.value.actor.link.state == Disconnected(None))
  {
    assert Receiving.HandlePacket(Receiving.ActorRole, a.link, Audio(data), clock)
           == Receiving.Settled(Receiving.OnAudio(Receiving.ActorRole, a.link, Audio(data), clock.now));
  }
}
