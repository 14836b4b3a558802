/**
 What the session layers share: the table of messages waiting for their
 ack, the periodic retransmission, the state stream the caller watches,
 the session record of the actor and the instance, and their heartbeat.
 Time is an input: wall-clock milliseconds and the packet timestamp.
 */
module Session {
  import opened Wire
  import opened Messages
  import Codec
  import SplitMessages
  import ApiConsts

  /** The time of an event: wall-clock milliseconds, and the packet
      timestamp, milliseconds since the connection started as a `UInt32`. */
  datatype Clock = Clock(now: nat, timestamp: u32)

  /** A message waiting for its ack, with the sequence byte it was framed
      with. */
  datatype Pending = Pending(sequence: byte, message: Message)

  /** `unAckedMessages` / `ackRequiredPackets`: pending messages by the time
      they were sent. */
  type Unacked = map<nat, Pending>

  /** Something put on the wire: a framed message, whose bytes are
      `messageToData(message, nextSeq)`, or raw audio. */
  datatype Outgoing = Frame(message: Message, nextSeq: byte) | Datagram(data: Bytes)

  /** A frame `messageToData` can serialise. */
  predicate Sendable(o: Outgoing) {
    o.Frame? ==> Codec.Framable(o.message)
  }

  predicate AllSendable(sends: seq<Outgoing>) {
    forall i :: 0 <= i < |sends| ==> Sendable(sends[i])
  }

  predicate TableSendable(table: Unacked) {
    forall k :: k in table ==> Codec.Framable(table[k].message)
  }

  /** The bytes of an outgoing datagram. */
  function OnWire(o: Outgoing): (data: Bytes)
    requires Sendable(o)
    ensures o.Frame? ==> |data| >= ApiConsts.PacketHeaderSize
  {
    if o.Frame? then Codec.MessageToData(o.message, o.nextSeq) else o.data
  }

  // ----- sorted keys -----

  /** `m` is the smallest element of `s`. */
  predicate IsLeast(m: nat, s: set<nat>) {
    m in s && forall x :: x in s ==> m <= x
  }

  lemma LeastExists(s: set<nat>)
    requires s != {}
    ensures exists m :: IsLeast(m, s)
    decreases |s|
  {
    var y :| y in s;
    if s == {y} {
      assert IsLeast(y, s);
    } else {
      LeastExists(s - {y});
      var m :| IsLeast(m, s - {y});
      if y < m {
        Below(s, y, m, y);
      } else {
        Below(s, y, m, m);
      }
    }
  }

  lemma Below(s: set<nat>, y: nat, m: nat, least: nat)
    requires y in s && least == if y < m then y else m
    requires IsLeast(m, s - {y})
    ensures IsLeast(least, s)
  {
    forall x | x in s
      ensures least <= x
    {
      if x != y {
        assert x in s - {y};
      }
    }
  }

  /** The smallest element of a non-empty set of naturals. */
  function Least(s: set<nat>): (m: nat)
    requires s != {}
    ensures m in s && forall x :: x in s ==> m <= x
  {
    LeastExists(s);
    var m :| IsLeast(m, s);
    m
  }

  predicate Increasing(keys: seq<nat>) {
    forall i, j :: 0 <= i < j < |keys| ==> keys[i] < keys[j]
  }

  /** `keys.sorted()`: a set of times in ascending order. */
  function SortedKeys(s: set<nat>): (keys: seq<nat>)
    ensures Increasing(keys)
    ensures forall x :: x in keys <==> x in s
    ensures |keys| == |s|
    decreases |s|
  {
    if s == {} then []
    else
      var m := Least(s);
      var rest := SortedKeys(s - {m});
      assert forall x :: x in rest ==> m < x;
      [m] + rest
  }

  // ----- acks -----

  /** A pending entry that an ack of `ackType` with `sequence` answers. */
  predicate Answers(p: Pending, ackType: u16, sequence: byte) {
    MessageId(p.message) == ackType && p.sequence == sequence
  }

  function Answered(table: Unacked, ackType: u16, sequence: byte): set<nat> {
    set k | k in table && Answers(table[k], ackType, sequence)
  }

  /** `first(where:)` over the table, then removal of the key found: one
      entry the ack answers goes, and nothing else. Swift leaves open which
      entry `first` finds; the model takes the earliest. */
  function RemoveAcked(table: Unacked, ackType: u16, sequence: byte): (r: Unacked)
    ensures Answered(table, ackType, sequence) == {} ==> r == table
    ensures Answered(table, ackType, sequence) != {} ==>
              exists k :: k in table && Answers(table[k], ackType, sequence) && r == table - {k}
    ensures forall k :: k in table && !Answers(table[k], ackType, sequence) ==> k in r && r[k] == table[k]
    ensures forall k :: k in r ==> k in table && r[k] == table[k]
  {
    var found := Answered(table, ackType, sequence);
    if found == {} then table else table - {Least(found)}
  }

  /** A message stored at a fresh time and then acknowledged with its own id
      and sequence byte leaves a table of the original size. */
  lemma AckAfterSend(table: Unacked, now: nat, sequence: byte, m: Message)
    requires now !in table
    ensures |RemoveAcked(table[now := Pending(sequence, m)], MessageId(m), sequence)| == |table|
  {
    var stored := table[now := Pending(sequence, m)];
    var found := Answered(stored, MessageId(m), sequence);
    assert now in found;
    var k := Least(found);
    assert (stored - {k}).Keys == stored.Keys - {k};
    assert stored.Keys == table.Keys + {now};
  }

  /** With no older entry answering the same ack, the ack removes exactly
      the entry just stored. */
  lemma AckRestoresTable(table: Unacked, now: nat, sequence: byte, m: Message)
    requires now !in table && Answered(table, MessageId(m), sequence) == {}
    ensures RemoveAcked(table[now := Pending(sequence, m)], MessageId(m), sequence) == table
  {
    var stored := table[now := Pending(sequence, m)];
    assert Answered(stored, MessageId(m), sequence) == {now} by {
      assert now in Answered(stored, MessageId(m), sequence);
    }
    assert Least({now}) == now;
    assert stored - {now} == table;
  }

  // ----- retransmission -----

  /** Old enough to resend: sent more than `retransmitTimeout` ago. */
  predicate Due(key: nat, now: nat) {
    key + ApiConsts.RetransmitTimeoutMs < now
  }

  /** Old enough to give up on: sent more than ten seconds ago. */
  predicate Stale(key: nat, now: nat) {
    key + 10000 < now
  }

  /** The keys among `keys` still present in `table`, in the same order. */
  function Present(keys: seq<nat>, table: Unacked): (r: seq<nat>)
    ensures forall x :: x in r <==> x in keys && x in table
    ensures Increasing(keys) ==> Increasing(r)
    decreases |keys|
  {
    if |keys| == 0 then []
    else
      var rest := Present(keys[1..], table);
      assert forall x :: x in keys[1..] ==> x in keys;
      if keys[0] in table then
        if Increasing(keys) then
          TailAbove(keys, rest);
          Prepend(keys[0], rest);
          [keys[0]] + rest
        else [keys[0]] + rest
      else rest
  }

  lemma TailAbove(keys: seq<nat>, rest: seq<nat>)
    requires |keys| > 0 && Increasing(keys)
    requires forall x :: x in rest ==> x in keys[1..]
    ensures Increasing(keys[1..])
    ensures forall x :: x in rest ==> keys[0] < x
  {
    forall x | x in rest
      ensures keys[0] < x
    {
      var j :| 0 <= j < |keys[1..]| && keys[1..][j] == x;
      assert keys[j + 1] == x;
    }
  }

  lemma Prepend(m: nat, rest: seq<nat>)
    requires Increasing(rest) && forall x :: x in rest ==> m < x
    ensures Increasing([m] + rest)
  {
    var keys := [m] + rest;
    forall i, j | 0 <= i < j < |keys|
      ensures keys[i] < keys[j]
    {
      assert keys[j] == rest[j - 1];
      if i > 0 {
        assert keys[i] == rest[i - 1];
      } else {
        assert keys[j] in rest;
      }
    }
  }

  /** The frames that resend the entries at `keys`, with their original
      sequence bytes. */
  function Resend(keys: seq<nat>, table: Unacked): (sends: seq<Outgoing>)
    requires forall x :: x in keys ==> x in table
    ensures |sends| == |keys|
    ensures forall i :: 0 <= i < |keys| ==>
              sends[i] == Frame(table[keys[i]].message, table[keys[i]].sequence)
    decreases |keys|
  {
    if |keys| == 0 then []
    else
      assert forall x :: x in keys[1..] ==> x in keys;
      [Frame(table[keys[0]].message, table[keys[0]].sequence)] + Resend(keys[1..], table)
  }

  /** One retransmit tick: the table after stale entries are dropped, the
      keys resent in ascending order, and the frames sent. */
  datatype Retransmission = Retransmission(table: Unacked, resent: seq<nat>, sends: seq<Outgoing>)

  /** The retransmit loop body of the actor and the instance: entries older
      than ten seconds are dropped, entries older than one second are
      resent, oldest first, with the sequence byte they were first sent
      with, and stay in the table. */
  function Retransmit(table: Unacked, now: nat): (r: Retransmission)
    ensures forall k :: k in r.table <==> k in table && !Stale(k, now)
    ensures forall k :: k in r.table ==> r.table[k] == table[k]
    ensures Increasing(r.resent)
    ensures forall k :: k in r.resent <==> k in r.table && Due(k, now)
    ensures |r.sends| == |r.resent|
    ensures forall i :: 0 <= i < |r.resent| ==>
              r.sends[i] == Frame(table[r.resent[i]].message, table[r.resent[i]].sequence)
  {
    var packetKeys := SortedKeys(set k | k in table && Due(k, now));
    var kept := map k | k in table && !Stale(k, now) :: table[k];
    var resent := Present(packetKeys, kept);
    Retransmission(kept, resent, Resend(resent, kept))
  }

  /** Resent frames can be serialised again. */
  lemma RetransmitSendable(table: Unacked, now: nat)
    requires TableSendable(table)
    ensures TableSendable(Retransmit(table, now).table)
    ensures AllSendable(Retransmit(table, now).sends)
  {
    var r := Retransmit(table, now);
    forall i | 0 <= i < |r.sends|
      ensures Sendable(r.sends[i])
    {
      assert r.resent[i] in r.resent;
    }
  }

  // ----- the state stream -----

  /** The stream of states the caller of `open` iterates: the states
      yielded so far, and the error it was finished with, if any. */
  datatype StateStream = StateStream(yielded: seq<State>, failure: Option<JamulusError>)

  /** The `didSet` observer of `state`: a disconnection with an error
      finishes the stream with that error, every other state is yielded. A
      finished stream takes nothing more. */
  function Publish(stream: StateStream, s: State): (r: StateStream)
    ensures stream.failure.Some? ==> r == stream
    ensures stream.failure.None? && s.Disconnected? && s.error.Some? ==>
              r.yielded == stream.yielded && r.failure == s.error
    ensures stream.failure.None? && !(s.Disconnected? && s.error.Some?) ==>
              r.yielded == stream.yielded + [s] && r.failure.None?
  {
    if stream.failure.Some? then stream
    else if s.Disconnected? && s.error.Some? then StateStream(stream.yielded, s.error)
    else StateStream(stream.yielded + [s], None)
  }

  /** No yielded state is a disconnection with an error. */
  predicate Clean(stream: StateStream) {
    forall i :: 0 <= i < |stream.yielded| ==> !(stream.yielded[i].Disconnected? && stream.yielded[i].error.Some?)
  }

  /** An error never reaches the caller as a state: it ends the stream. */
  lemma PublishClean(stream: StateStream, s: State)
    requires Clean(stream)
    ensures Clean(Publish(stream, s))
  {
  }

  // ----- the session record -----

  /** The life of a background task: never started, looping, or left its
      loop (the task handle stays set). */
  datatype TaskState = NotStarted | Running | Ended

  /** What the actor and the instance keep between events: the connection
      kind, the state and its stream, both sequence counters, the pending
      and the partly reassembled messages, the times of the last ping sent,
      the last ping received and the last audio seen while disconnecting,
      and which background loops are alive (the disconnect task is the
      instance's alone). */
  datatype Link = Link(
    kind: ConnectionKind,
    state: State,
    stream: StateStream,
    packetSequence: byte,
    audioSequence: byte,
    unacked: Unacked,
    splits: SplitMessages.Storage,
    lastPingSent: nat,
    lastPingReceived: nat,
    lastAudio: nat,
    heartbeat: bool,
    retransmitting: bool,
    disconnectTask: TaskState)

  /** A fresh session: disconnected, counters and times at zero, nothing
      pending, no task started. */
  function Initial(kind: ConnectionKind): Link {
    Link(kind, Disconnected(None), StateStream([], None), 0, 0, map[], map[], 0, 0, 0, false, false, NotStarted)
  }

  /** Assigning `state`, with its observer. */
  function SetState(link: Link, s: State): (r: Link)
    ensures r.state == s && r.stream == Publish(link.stream, s)
    ensures r.(state := link.state, stream := link.stream) == link
  {
    link.(state := s, stream := Publish(link.stream, s))
  }

  /** `packetSequenceNext`: the stored counter moves on, and its new value
      is the sequence byte used. */
  function Advanced(link: Link): (r: Link)
    ensures r.packetSequence == Codec.NextSequenceNumber(link.packetSequence)
    ensures r.(packetSequence := link.packetSequence) == link
  {
    link.(packetSequence := Codec.NextSequenceNumber(link.packetSequence))
  }

  // ----- connection events -----

  /** What the UDP connection reports about itself. */
  datatype ConnectionEvent = Ready | Waiting | Failed | Cancelled | Other

  /** The `open` loop's reaction to one connection event: on ready the link
      is connecting, or at once connected without a client id when it is not
      a main-server link, and the heartbeat starts; waiting and failure
      disconnect with a network error; cancellation disconnects cleanly. */
  function OnConnectionState(link: Link, event: ConnectionEvent): (r: Link)
    ensures r.packetSequence == link.packetSequence && r.unacked == link.unacked && r.splits == link.splits
    ensures event.Ready? ==>
              && r.heartbeat
              && r.state == (if link.kind.MainServer? then Connecting else Connected(None))
              && (link.stream.failure.None? ==>
                    r.stream.yielded == link.stream.yielded + (if link.kind.MainServer? then [Connecting] else [Connecting, Connected(None)]))
    ensures (event.Waiting? || event.Failed?) ==>
              r.state == Disconnected(Some(NetworkError)) && r.stream.failure.Some?
    ensures event.Cancelled? ==> r.state == Disconnected(None)
    ensures event.Other? ==> r == link
  {
    match event
    case Ready =>
      var connecting := SetState(link, Connecting);
      var settled := if link.kind.MainServer? then connecting else SetState(connecting, Connected(None));
      settled.(heartbeat := true)
    case Waiting => SetState(link, Disconnected(Some(NetworkError)))
    case Failed => SetState(link, Disconnected(Some(NetworkError)))
    case Cancelled => SetState(link, Disconnected(None))
    case Other => link
  }

  /** Once the stream has finished with a network error, later events
      change the state but reach the caller no more. */
  lemma FailureEndsStream(link: Link, event: ConnectionEvent, later: ConnectionEvent)
    requires event.Failed? || event.Waiting?
    ensures OnConnectionState(OnConnectionState(link, event), later).stream == OnConnectionState(link, event).stream
  {
  }

  // ----- events -----

  /** What can happen to a session: the caller opens the state stream,
      starts receiving, sends a message or audio; the connection reports on
      itself or delivers a datagram; one of the background loops takes a
      turn. */
  datatype Event =
    | OpenStream
    | ConnectionChange(change: ConnectionEvent)
    | ReceiveStart
    | SendCall(message: Message)
    | AudioCall(audio: Bytes, useSeqNumber: bool)
    | Incoming(data: Bytes)
    | HeartbeatTurn
    | RetransmitTurn
    | DisconnectTurn

  /** An event and the time it happens at. */
  datatype Stamped = Stamped(event: Event, clock: Clock)

  // ----- the heartbeat -----

  /** The heartbeat's guard, as written: it gives up only when a ping was
      received, and received at least `connectionTimeout` after the last
      ping sent. */
  predicate TimedOut(link: Link) {
    !(link.lastPingReceived == 0 || link.lastPingReceived < link.lastPingSent + ApiConsts.ConnectionTimeoutMs)
  }

  /** One tick of the heartbeat, and whether the loop goes on. */
  datatype Beat = Beat(link: Link, sends: seq<Outgoing>, running: bool)

  /** The heartbeat loop body of the actor and the instance: while
      disconnecting, declare the link disconnected once audio has been
      silent for three seconds; otherwise stop with a timeout error when the
      guard fails, or else ping: a main-server link sends `ping`, a listing
      link `pingPlusClientCount` with count 0, and a directory lookup
      nothing. */
  function Heartbeat(link: Link, clock: Clock): (r: Beat)
    ensures r.link.unacked == link.unacked && r.link.splits == link.splits
    ensures AllSendable(r.sends)
    ensures link.state.Disconnecting? ==>
              && r.running && r.sends == []
              && r.link.state == (if link.lastAudio + 3000 < clock.now then Disconnected(None) else Disconnecting)
    ensures !link.state.Disconnecting? && TimedOut(link) ==>
              !r.running && r.sends == [] && r.link.state == Disconnected(Some(ConnectionTimedOut))
    ensures !link.state.Disconnecting? && !TimedOut(link) ==>
              && r.running && r.link.state == link.state
              && (link.kind.DirectoryLookup? <==> r.sends == [])
              && (link.kind.DirectoryLookup? ==> r.link == link)
              && (!link.kind.DirectoryLookup? ==>
                    && r.link.lastPingSent == clock.now
                    && r.link.packetSequence == Codec.NextSequenceNumber(link.packetSequence)
                    && |r.sends| == 1 && r.sends[0].Frame? && r.sends[0].nextSeq == r.link.packetSequence)
    ensures link.kind.MainServer? && r.sends != [] ==> r.sends[0].Frame? && r.sends[0].message == Ping(clock.timestamp)
    ensures link.kind.Listing? && r.sends != [] ==> r.sends[0].Frame? && r.sends[0].message == PingPlusClientCount(0, clock.timestamp)
  {
    if link.state.Disconnecting? then
      var next := if link.lastAudio + 3000 < clock.now then SetState(link, Disconnected(None)) else link;
      Beat(next, [], true)
    else if TimedOut(link) then
      Beat(SetState(link, Disconnected(Some(ConnectionTimedOut))), [], false)
    else
      match link.kind
      case MainServer =>
        var next := Advanced(link);
        Beat(next.(lastPingSent := clock.now), [Frame(Ping(clock.timestamp), next.packetSequence)], true)
      case Listing =>
        var next := Advanced(link);
        Beat(next.(lastPingSent := clock.now), [Frame(PingPlusClientCount(0, clock.timestamp), next.packetSequence)], true)
      case DirectoryLookup =>
        Beat(link, [], true)
  }

  /** The guard as written never fires for a peer that has never answered a
      ping: the heartbeat keeps pinging it forever. */
  lemma SilentPeerKeepsPinging(link: Link, clock: Clock)
    requires !link.state.Disconnecting? && link.lastPingReceived == 0
    ensures Heartbeat(link, clock).running
    ensures Heartbeat(link, clock).link.state == link.state
    ensures Heartbeat(link, clock).link.lastPingReceived == 0
  {
  }

  /** After a ping goes out, the guard passes until a later answer arrives
      at least `connectionTimeout` after it. */
  lemma PingResetsGuard(link: Link, clock: Clock)
    requires !link.state.Disconnecting? && !TimedOut(link) && !link.kind.DirectoryLookup?
    requires link.lastPingReceived < clock.now + ApiConsts.ConnectionTimeoutMs
    ensures !TimedOut(Heartbeat(link, clock).link)
  {
  }

  // ----- the background loops, one turn each -----

  /** A session after a call or a loop turn, and the datagrams sent. */
  datatype Sent = Sent(link: Link, sends: seq<Outgoing>)

  /** A turn of the heartbeat task, if it is alive; a beat that gives up
      ends the task. */
  function KeepAliveTick(link: Link, clock: Clock): (r: Sent)
    ensures AllSendable(r.sends)
    ensures r.link.unacked == link.unacked && r.link.splits == link.splits
    ensures !link.heartbeat ==> r == Sent(link, [])
  {
    if !link.heartbeat then Sent(link, [])
    else
      var beat := Heartbeat(link, clock);
      Sent(beat.link.(heartbeat := beat.running), beat.sends)
  }

  /** A turn of the retransmit queue, if it is running. */
  function RetransmitTick(link: Link, now: nat): (r: Sent)
    ensures !link.retransmitting ==> r == Sent(link, [])
    ensures link.retransmitting ==>
              var t := Retransmit(link.unacked, now);
              r == Sent(link.(unacked := t.table), t.sends)
  {
    if !link.retransmitting then Sent(link, [])
    else
      var t := Retransmit(link.unacked, now);
      Sent(link.(unacked := t.table), t.sends)
  }
}
