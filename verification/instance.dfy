/**
 The protocol instance (`JamulusProtocolInstance`) as a session record
 driven one event at a time. Its `send` runs `disconnect()` for a
 disconnect message, which also cancels the heartbeat and the retransmit
 loop; audio heard while disconnecting starts a disconnect task that
 repeats `disconnect` until the audio stops. The receive loop hands
 messages to the caller's stream and audio to the caller's callback.
 */
module Instance {
  import opened Wire
  import opened Messages
  import Codec
  import opened Session
  import Receiving

  /** `disconnect()`: disconnecting, the audio clock restarted, both tables
      emptied, the heartbeat and the retransmit loop cancelled. */
  function StartDisconnect(link: Link, now: nat): (r: Link)
    ensures r.state == Disconnecting && r.stream == Publish(link.stream, Disconnecting)
    ensures r.lastAudio == now && r.unacked == map[] && r.splits == map[]
    ensures !r.heartbeat && !r.retransmitting
    ensures r.kind == link.kind && r.packetSequence == link.packetSequence && r.disconnectTask == link.disconnectTask
  {
    SetState(link, Disconnecting).(lastAudio := now, unacked := map[], splits := map[], heartbeat := false, retransmitting := false)
  }

  /** `send(_:)`: a disconnect first runs `disconnect()`; then the counter
      moves on, a message needing an ack is recorded under the send time
      with the sequence byte it is framed with, and the frame goes out. A
      payload too long for the frame's length field traps. */
  function Send(link: Link, message: Message, now: nat): (r: Sent)
    requires Codec.Framable(message)
    ensures r.link.packetSequence == Codec.NextSequenceNumber(link.packetSequence)
    ensures r.sends == [Frame(message, r.link.packetSequence)] && AllSendable(r.sends)
    ensures message.Disconnect? ==> r.link == StartDisconnect(link, now).(packetSequence := r.link.packetSequence)
    ensures !message.Disconnect? ==> r.link.(packetSequence := link.packetSequence, unacked := link.unacked) == link
    ensures NeedsAck(message) ==> r.link.unacked == link.unacked[now := Pending(r.link.packetSequence, message)]
    ensures !NeedsAck(message) && !message.Disconnect? ==> r.link.unacked == link.unacked
  {
    var base := if message.Disconnect? then StartDisconnect(link, now) else link;
    var next := Advanced(base);
    var stored := if NeedsAck(message) then next.(unacked := next.unacked[now := Pending(next.packetSequence, message)]) else next;
    Sent(stored, [Frame(message, next.packetSequence)])
  }

  /** `sendAudio(_:useSeqNumber:)`: the audio as given, or with the next
      audio sequence byte appended. */
  function SendAudio(link: Link, audio: Bytes, useSeqNumber: bool): (r: Sent)
    ensures |r.sends| == 1 && r.sends[0].Datagram?
    ensures !useSeqNumber ==> r == Sent(link, [Datagram(audio)])
    ensures useSeqNumber ==>
              && r.link == link.(audioSequence := Codec.NextSequenceNumber(link.audioSequence))
              && r.sends[0].data == audio + [r.link.audioSequence]
  {
    if useSeqNumber then
      var next := link.(audioSequence := Codec.NextSequenceNumber(link.audioSequence));
      Sent(next, [Datagram(audio + [next.audioSequence])])
    else Sent(link, [Datagram(audio)])
  }

  /** `n` sequenced audio sends, one after another. */
  function AudioRun(link: Link, audio: Bytes, n: nat): Sent
    decreases n
  {
    if n == 0 then Sent(link, [])
    else
      var before := AudioRun(link, audio, n - 1);
      var one := SendAudio(before.link, audio, true);
      Sent(one.link, before.sends + one.sends)
  }

  /** The audio sequence byte counts up by one per send, wrapping after 255,
      and nothing else in the session changes. */
  lemma {:induction false} AudioSequenceCounts(link: Link, audio: Bytes, n: nat)
    ensures |AudioRun(link, audio, n).sends| == n
    ensures forall i :: 0 <= i < n ==>
              AudioRun(link, audio, n).sends[i] == Datagram(audio + [(link.audioSequence + i + 1) % 0x100])
    ensures AudioRun(link, audio, n).link == link.(audioSequence := (link.audioSequence + n) % 0x100)
    decreases n
  {
    if n > 0 {
      AudioSequenceCounts(link, audio, n - 1);
      var before := AudioRun(link, audio, n - 1);
      var one := SendAudio(before.link, audio, true);
      assert one.sends == [Datagram(audio + [(link.audioSequence + n) % 0x100])];
      var all := before.sends + one.sends;
      forall i | 0 <= i < n
        ensures all[i] == Datagram(audio + [(link.audioSequence + i + 1) % 0x100])
      {
        if i < n - 1 {
          assert all[i] == before.sends[i];
        }
      }
    }
  }

  // ----- the disconnect task -----

  /** A turn of the disconnect task, if it is running: while the last audio
      is under 200 ms old, send `disconnect` again; otherwise declare the
      link disconnected and leave the loop. */
  function DisconnectTick(link: Link, now: nat): (r: Sent)
    ensures AllSendable(r.sends)
    ensures r.link.unacked == link.unacked && r.link.splits == link.splits
    ensures !link.disconnectTask.Running? ==> r == Sent(link, [])
    ensures link.disconnectTask.Running? && now < link.lastAudio + 200 ==>
              && r.link == Advanced(link)
              && r.sends == [Frame(Disconnect, r.link.packetSequence)]
    ensures link.disconnectTask.Running? && now >= link.lastAudio + 200 ==>
              && r.sends == [] && r.link.state == Disconnected(None) && r.link.disconnectTask == Ended
  {
    if !link.disconnectTask.Running? then Sent(link, [])
    else if now < link.lastAudio + 200 then
      var next := Advanced(link);
      Sent(next, [Frame(Disconnect, next.packetSequence)])
    else Sent(SetState(link, Disconnected(None)).(disconnectTask := Ended), [])
  }

  // ----- delivery -----

  /** Where the receive loop sends a packet `handleReceive` passed up. */
  datatype Delivery = Yield(message: Message) | Play(audio: Bytes) | Drop

  /** Messages, with or without an ack, go to the caller's stream and audio
      to its callback; acks and errors go no further. */
  function Delivered(packet: Packet): (d: Delivery)
    ensures d.Yield? <==> packet.MessageNeedingAck? || packet.MessageNoAck?
    ensures d.Play? <==> packet.Audio?
    ensures d.Yield? ==> d.message == packet.message
    ensures d.Play? ==> d.audio == packet.data
  {
    match packet
    case MessageNeedingAck(message, _) => Yield(message)
    case MessageNoAck(message) => Yield(message)
    case Audio(data) => Play(data)
    case AckMessage(_, _) => Drop
    case Error(_) => Drop
  }

  // ----- one event -----

  /** The session after an event, the datagrams sent and what reached the
      caller. */
  datatype Outcome = Outcome(link: Link, sends: seq<Outgoing>, delivered: seq<Delivery>)

  /** The instance's reaction to one event, or nothing where it traps (or a
      reassembled message nests deeper than `depth`), leaving aside the
      state stream's continuation. `parse` is the frame parser with the
      connection's remote host. Opening gives the state stream a new
      continuation; starting to receive starts the retransmit queue. */
  function React(link: Link, e: Stamped, parse: Bytes -> Option<Packet>, depth: nat): (r: Option<Outcome>)
    ensures r.Some? ==> r.value.link.kind == link.kind && |r.value.delivered| <= 1
    ensures e.event.SendCall? ==> (r.Some? <==> Codec.Framable(e.event.message))
    ensures !e.event.SendCall? && !e.event.Incoming? ==> r.Some? && r.value.delivered == []
  {
    var now := e.clock.now;
    match e.event
    case OpenStream => Some(Outcome(link.(stream := StateStream([], None)), [], []))
    case ConnectionChange(change) => Some(Outcome(OnConnectionState(link, change), [], []))
    case ReceiveStart => Some(Outcome(link.(retransmitting := true), [], []))
    case SendCall(message) =>
      if Codec.Framable(message) then
        var s := Send(link, message, now);
        Some(Outcome(s.link, s.sends, []))
      else None
    case AudioCall(audio, useSeqNumber) =>
      var s := SendAudio(link, audio, useSeqNumber);
      Some(Outcome(s.link, s.sends, []))
    case Incoming(data) => Arrive(link, data, e.clock, parse, depth)
    case HeartbeatTurn =>
      var s := KeepAliveTick(link, e.clock);
      Some(Outcome(s.link, s.sends, []))
    case RetransmitTurn =>
      var s := RetransmitTick(link, now);
      Some(Outcome(s.link, s.sends, []))
    case DisconnectTurn =>
      var s := DisconnectTick(link, now);
      Some(Outcome(s.link, s.sends, []))
  }

  // ----- the state stream's continuation -----

  /** The instance and whether `open()` has given the state stream its
      continuation. The continuation is an implicitly unwrapped optional,
      nil until the first `open()`. */
  datatype Protocol = Protocol(link: Link, isOpen: bool)

  /** A new instance: nothing opened yet. */
  function Fresh(kind: ConnectionKind): Protocol {
    Protocol(Initial(kind), false)
  }

  /** `open()`: a new, empty state stream with its continuation, whether or
      not one existed before. */
  function Open(p: Protocol): (r: Protocol)
    ensures r.isOpen && r.link.stream == StateStream([], None)
    ensures r.link.(stream := p.link.stream) == p.link
  {
    Protocol(p.link.(stream := StateStream([], None)), true)
  }

  /** Every assignment to `state` publishes it through the continuation,
      and publishing into a stream that has not finished always changes the
      stream; so a reaction assigned `state` when it changed the stream. */
  predicate Published(link: Link, o: Outcome) {
    o.link.stream != link.stream
  }

  /** Publishing into an unfinished stream leaves a mark on it. */
  lemma PublishMarks(stream: StateStream, s: State)
    requires stream.failure.None?
    ensures Publish(stream, s) != stream
  {
    if !(s.Disconnected? && s.error.Some?) {
      assert |Publish(stream, s).yielded| == |stream.yielded| + 1;
    }
  }

  /** One event for the whole instance: its reaction, except before the
      first `open()`. The loop over connection states lives inside `open()`,
      so until then a connection state reaches nothing; and an assignment to
      `state` unwraps the nil continuation and traps. */
  function Step(p: Protocol, e: Stamped, parse: Bytes -> Option<Packet>, depth: nat): (r: Option<Outcome>)
    ensures r.Some? ==> r.value.link.kind == p.link.kind && |r.value.delivered| <= 1
    ensures e.event.SendCall? && r.Some? ==> Codec.Framable(e.event.message)
    ensures p.isOpen || e.event.OpenStream? ==> r == React(p.link, e, parse, depth)
    ensures !p.isOpen && e.event.ConnectionChange? ==> r == Some(Outcome(p.link, [], []))
    ensures !p.isOpen && r.Some? ==> e.event.OpenStream? || r.value.link.stream == p.link.stream
  {
    if !p.isOpen && e.event.ConnectionChange? then Some(Outcome(p.link, [], []))
    else
      var o := React(p.link, e, parse, depth);
      if o.Some? && !p.isOpen && !e.event.OpenStream? && Published(p.link, o.value) then None
      else o
  }

  /** The instance after an event it survived. */
  function After(p: Protocol, e: Stamped, o: Outcome): Protocol {
    Protocol(o.link, p.isOpen || e.event.OpenStream?)
  }

  /** A datagram: parsed, handled, and what was passed up delivered. */
  function Arrive(link: Link, data: Bytes, clock: Clock, parse: Bytes -> Option<Packet>, depth: nat): (r: Option<Outcome>)
    ensures r.Some? ==> r.value.link.kind == link.kind && |r.value.delivered| <= 1
    ensures parse(data).None? ==> r.None?
  {
    match parse(data)
    case None => None
    case Some(packet) =>
      var h := Receiving.HandleReceive(Receiving.InstanceRole, link, packet, clock, parse, depth);
      if h.Handled? then
        var up := if h.reaction.forward.Some? then [Delivered(h.reaction.forward.value)] else [];
        Some(Outcome(h.reaction.link, h.reaction.sends, up))
      else None
  }

  /** The session after a run of events, unless one of them trapped. */
  function Run(p: Protocol, events: seq<Stamped>, parse: Bytes -> Option<Packet>, depth: nat): Option<Protocol>
    decreases |events|
  {
    if |events| == 0 then Some(p)
    else
      match Step(p, events[0], parse, depth)
      case None => None
      case Some(o) => Run(After(p, events[0], o), events[1..], parse, depth)
  }

  // ----- properties -----

  /** A message needing an ack, sent at a time with no pending entry and
      then acked by the peer with the sequence byte it went out with, leaves
      one entry fewer than it added: the pending table is back to its
      size, and back to itself when no older entry answered the same ack. */
  lemma SendThenAck(link: Link, m: Message, now: nat, clock: Clock)
    requires Codec.Framable(m) && NeedsAck(m) && now !in link.unacked
    ensures var s := Send(link, m, now);
            var back := Receiving.HandlePacket(Receiving.InstanceRole, s.link, AckMessage(MessageId(m), s.sends[0].nextSeq), clock);
            && back.Settled?
            && back.reaction.forward.Some? && Delivered(back.reaction.forward.value) == Drop
            && |back.reaction.link.unacked| == |link.unacked|
            && back.reaction.link.unacked.Keys <= link.unacked.Keys + {now}
            && (Answered(link.unacked, MessageId(m), s.sends[0].nextSeq) == {} ==> back.reaction.link.unacked == link.unacked)
  {
    var s := Send(link, m, now);
    var q := s.sends[0].nextSeq;
    assert s.link.unacked == link.unacked[now := Pending(q, m)];
    AckAfterSend(link.unacked, now, q, m);
    if Answered(link.unacked, MessageId(m), q) == {} {
      AckRestoresTable(link.unacked, now, q, m);
    }
  }

  /** Events that neither come from the connection nor carry a datagram. */
  predicate Quiet(e: Stamped) {
    !e.event.ConnectionChange? && !e.event.Incoming?
  }

  /** The instance cancels its heartbeat when it starts to disconnect, so
      the heartbeat's three-second rule never ends a disconnection: until
      audio arrives and starts the disconnect task, no call and no loop
      turn leaves the disconnecting state. */
  lemma {:induction false} DisconnectingNeedsAudio(p: Protocol, events: seq<Stamped>, parse: Bytes -> Option<Packet>, depth: nat)
    requires p.link.state.Disconnecting? && !p.link.heartbeat && p.link.disconnectTask.NotStarted?
    requires forall i :: 0 <= i < |events| ==> Quiet(events[i])
    ensures Run(p, events, parse, depth).Some? ==> Run(p, events, parse, depth).value.link.state.Disconnecting?
    decreases |events|
  {
    if |events| > 0 {
      var step := Step(p, events[0], parse, depth);
      assert Quiet(events[0]);
      if step.Some? {
        assert step == React(p.link, events[0], parse, depth);
        var next := After(p, events[0], step.value);
        assert next.link.state.Disconnecting? && !next.link.heartbeat && next.link.disconnectTask.NotStarted?;
        assert forall i :: 0 <= i < |events[1..]| ==> Quiet(events[1..][i]) by {
          forall i | 0 <= i < |events[1..]| ensures Quiet(events[1..][i]) {
            assert events[1..][i] == events[i + 1];
          }
        }
        DisconnectingNeedsAudio(next, events[1..], parse, depth);
      }
    }
  }

  /** The disconnect handshake: audio heard while disconnecting starts the
      disconnect task; its turns resend `disconnect` while that audio is
      fresh, and the first turn 200 ms or more after it ends the session. */
  lemma DisconnectHandshake(link: Link, data: Bytes, heard: Clock, later: nat, parse: Bytes -> Option<Packet>, depth: nat)
    requires link.state.Disconnecting? && link.disconnectTask.NotStarted?
    requires parse(data) == Some(Audio(data))
    ensures var o := React(link, Stamped(Incoming(data), heard), parse, depth);
            && o.Some? && o.value.delivered == [] && o.value.sends == []
            && o.value.link.disconnectTask.Running?
            && (later < heard.now + 200 ==>
                  DisconnectTick(o.value.link, later).sends == [Frame(Disconnect, Codec.NextSequenceNumber(link.packetSequence))])
            && (later >= heard.now + 200 ==>
                  DisconnectTick(o.value.link, later).link.state == Disconnected(None))
  {
    var h := Receiving.HandleReceive(Receiving.InstanceRole, link, Audio(data), heard, parse, depth);
    assert Receiving.HandlePacket(Receiving.InstanceRole, link, Audio(data), heard)
           == Receiving.Settled(Receiving.OnAudio(Receiving.InstanceRole, link, Audio(data), heard.now));
  }

  /** Before the first `open()`, `send(.disconnect)` traps, because
      `disconnect()` assigns `state`; once opened, the same call publishes
      the disconnecting state to the caller's stream. */
  lemma DisconnectBeforeOpenTraps(kind: ConnectionKind, clock: Clock, parse: Bytes -> Option<Packet>, depth: nat)
    ensures Step(Fresh(kind), Stamped(SendCall(Disconnect), clock), parse, depth).None?
    ensures var o := Step(Open(Fresh(kind)), Stamped(SendCall(Disconnect), clock), parse, depth);
            o.Some? && o.value.link.stream == StateStream([Disconnecting], None)
  {
    PublishMarks(StateStream([], None), Disconnecting);
  }

  /** Before the first `open()`, a client id from the server traps, because
      the receive path assigns the connected state. */
  lemma ClientIdBeforeOpenTraps(kind: ConnectionKind, data: Bytes, id: byte, sequence: byte, clock: Clock,
                                parse: Bytes -> Option<Packet>, depth: nat)
    requires parse(data) == Some(MessageNeedingAck(ClientId(id), sequence))
    ensures Step(Fresh(kind), Stamped(Incoming(data), clock), parse, depth).None?
  {
    PublishMarks(StateStream([], None), Connected(Some(id)));
  }
}
