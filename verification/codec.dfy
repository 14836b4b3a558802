/**
 The framing layer: the checksum that closes every control frame, the
 one-byte sequence counter, `messageToData`, which frames a message, and
 `parseData`, which sorts a received datagram into audio, a control message
 or an error.
 */
module Codec {
  import opened Wire
  import opened DataExt
  import opened Messages
  import Catalog
  import ApiConsts

  // ----- the checksum -----

  /** Bit `i` of a byte, counted from the most significant end: the order in
      which the checksum consumes a byte. */
  function DataBit(b: byte, i: nat): bool
    requires i < 8
  {
    (b as bv8) & (1 << (7 - i)) != 0
  }

  /** One turn of the inner loop of `jamulusCrc`: shift, carry bit 16 round
      into bit 0, feed the data bit, and XOR in the polynomial 0x1020
      whenever the low bit is set. */
  function RegisterStep(register: bv32, bit: bool): bv32 {
    var shifted := register << 1;
    var carried := if shifted & 0x10000 != 0 then shifted | 1 else shifted;
    var fed := if bit then carried ^ 1 else carried;
    if fed & 1 != 0 then fed ^ 0x1020 else fed
  }

  /** The register after feeding bits `i` to 7 of `b`. */
  function ByteStep(register: bv32, b: byte, i: nat): bv32
    requires i <= 8
    decreases 8 - i
  {
    if i == 8 then register else ByteStep(RegisterStep(register, DataBit(b, i)), b, i + 1)
  }

  /** The register after feeding every byte of `data`, starting from all
      ones. */
  function Register(data: Bytes): bv32
    decreases |data|
  {
    if |data| == 0 then 0xFFFF_FFFF else ByteStep(Register(data[..|data| - 1]), data[|data| - 1], 0)
  }

  /** `jamulusCrc(for:)`: the low sixteen bits of the inverted register. */
  function Crc(data: Bytes): u16 {
    Finish(Register(data))
  }

  /** The last step of `jamulusCrc`: invert, keep the low sixteen bits. */
  function Finish(register: bv32): u16 {
    Invert(Low16(register))
  }

  /** A sixteen-bit register inverted, as a number. */
  function Invert(register: bv16): u16 {
    (!register) as int
  }

  /** `jamulusCrc(for:)` as the source writes it: a loop over the bytes,
      then the inversion. */
  method JamulusCrc(data: Bytes) returns (crc: u16)
    ensures crc == Crc(data)
    ensures crc == Ccitt(data)
  {
    var result: bv32 := !0;
    for n := 0 to |data|
      invariant result == Register(data[..n])
    {
      result := FeedByte(result, data[n]);
      assert data[..n + 1][..n] == data[..n];
    }
    assert data[..|data|] == data;
    crc := FinishRegister(result);
    CrcIsCcitt(data);
  }

  /** The inner loop of `jamulusCrc`: the eight bits of one byte, most
      significant first. */
  method FeedByte(register: bv32, b: byte) returns (result: bv32)
    ensures result == ByteStep(register, b, 0)
  {
    result := register;
    for i := 0 to 8
      invariant ByteStep(result, b, i) == ByteStep(register, b, 0)
    {
      result := RegisterStep(result, DataBit(b, i));
    }
  }

  /** The end of `jamulusCrc`: `~result`, then the low sixteen bits. */
  method FinishRegister(register: bv32) returns (crc: u16)
    ensures crc == Finish(register)
  {
    var result := !register;
    InvertLow(register);
    crc := Low16(result) as int;
  }

  /** The textbook most-significant-bit-first CRC-16 with generator
      polynomial 0x1021, on a sixteen-bit register: the reference the
      checksum is compared with. */
  function CcittStep(register: bv16, bit: bool): bv16 {
    var feedback := (register >> 15 == 1) != bit;
    if feedback then (register << 1) ^ 0x1021 else register << 1
  }

  function CcittByte(register: bv16, b: byte, i: nat): bv16
    requires i <= 8
    decreases 8 - i
  {
    if i == 8 then register else CcittByte(CcittStep(register, DataBit(b, i)), b, i + 1)
  }

  function CcittRegister(data: Bytes): bv16
    decreases |data|
  {
    if |data| == 0 then 0xFFFF else CcittByte(CcittRegister(data[..|data| - 1]), data[|data| - 1], 0)
  }

  /** CRC-16 with polynomial 0x1021, initial value 0xFFFF and the result
      inverted. */
  function Ccitt(data: Bytes): u16 {
    Invert(CcittRegister(data))
  }

  /** The low half of the thirty-two-bit register. */
  function Low16(x: bv32): bv16 {
    (x & 0xFFFF) as bv16
  }

  /** The register's upper half never feeds back: its low half follows the
      sixteen-bit reference step for step. */
  lemma StepAgrees(register: bv32, bit: bool)
    ensures Low16(RegisterStep(register, bit)) == CcittStep(Low16(register), bit)
  {
    StepFeedback(register, bit);
    LowShift(register);
    LowTop(register);
    LowFeedback(register << 1);
  }

  /** The step in one line: the polynomial 0x1021 goes in exactly when bit 15
      of the register differs from the data bit. */
  lemma StepFeedback(register: bv32, bit: bool)
    ensures RegisterStep(register, bit)
            == if (register & 0x8000 != 0) != bit then (register << 1) ^ 0x1021 else register << 1
  {
  }

  lemma LowShift(x: bv32)
    ensures Low16(x << 1) == Low16(x) << 1
  {
  }

  lemma LowTop(x: bv32)
    ensures Low16(x) >> 15 == 1 <==> x & 0x8000 != 0
  {
  }

  lemma LowFeedback(x: bv32)
    ensures Low16(x ^ 0x1021) == Low16(x) ^ 0x1021
  {
  }

  lemma {:induction false} ByteAgrees(register: bv32, b: byte, i: nat)
    requires i <= 8
    ensures Low16(ByteStep(register, b, i)) == CcittByte(Low16(register), b, i)
    decreases 8 - i
  {
    if i < 8 {
      StepAgrees(register, DataBit(b, i));
      ByteAgrees(RegisterStep(register, DataBit(b, i)), b, i + 1);
    }
  }

  lemma {:induction false} RegisterAgrees(data: Bytes)
    ensures Low16(Register(data)) == CcittRegister(data)
    decreases |data|
  {
    if |data| > 0 {
      RegisterAgrees(data[..|data| - 1]);
      ByteAgrees(Register(data[..|data| - 1]), data[|data| - 1], 0);
    }
  }

  /** The Jamulus checksum is the CRC-16 above: the thirty-two-bit register
      with its carry from bit 16 is a rotated sixteen-bit register. */
  lemma CrcIsCcitt(data: Bytes)
    ensures Crc(data) == Ccitt(data)
  {
    RegisterAgrees(data);
    FinishLow(Register(data), CcittRegister(data));
  }

  lemma FinishLow(register: bv32, low: bv16)
    requires Low16(register) == low
    ensures Finish(register) == Invert(low)
  {
  }

  /** Inverting then keeping the low half is keeping the low half then
      inverting. */
  lemma InvertLow(x: bv32)
    ensures Low16(!x) == !Low16(x)
  {
  }

  // ----- the sequence counter -----

  /** `nextSequenceNumber(val:)`: the counter moves on by one with the
      wrapping `&+`, and the new value is both stored and returned. */
  function NextSequenceNumber(counter: byte): (next: byte)
    ensures counter < 255 ==> next == counter + 1
    ensures counter == 255 ==> next == 0
  {
    (counter + 1) % 0x100
  }

  /** The counter after `n` calls. */
  function Advance(counter: byte, n: nat): byte
    decreases n
  {
    if n == 0 then counter else NextSequenceNumber(Advance(counter, n - 1))
  }

  /** `n` calls add `n` modulo 256. */
  lemma {:induction false} AdvanceAdds(counter: byte, n: nat)
    ensures Advance(counter, n) == (counter + n) % 0x100
    decreases n
  {
    if n > 0 {
      AdvanceAdds(counter, n - 1);
    }
  }

  /** The counter comes back to where it started exactly after a multiple
      of 256 calls. */
  lemma SequencePeriod(counter: byte, n: nat)
    ensures Advance(counter, n) == counter <==> n % 0x100 == 0
  {
    AdvanceAdds(counter, n);
  }

  // ----- messageToData -----

  /** The messages `messageToData` can frame: those `payload` can write whose
      payload length fits the `UInt16` length field. */
  predicate Framable(m: Message) {
    Catalog.Encodable(m) && |Catalog.Payload(m)| < 0x1_0000
  }

  /** The sequence byte of a frame: an ack's own sequence number, the next
      counter value for everything else. */
  function FrameSequence(m: Message, nextSeq: byte): (sequence: byte)
    ensures m.Ack? ==> sequence == m.sequenceNumber
    ensures !m.Ack? ==> sequence == nextSeq
  {
    match SequenceNumberOverride(m)
    case Some(override) => override
    case None => nextSeq
  }

  /** `messageToData(message:nextSeq:)`: the seven-byte header, the payload,
      and the checksum of both, little-endian. */
  function MessageToData(m: Message, nextSeq: byte): (data: Bytes)
    requires Framable(m)
    ensures |data| == |Catalog.Payload(m)| + ApiConsts.PacketHeaderSize
    ensures data[0] == 0 && data[1] == 0
    ensures Le(data[2..4]) == MessageId(m)
    ensures data[4] == (if m.Ack? then m.sequenceNumber else nextSeq)
    ensures Le(data[5..7]) == |Catalog.Payload(m)|
    ensures data[7..|data| - 2] == Catalog.Payload(m)
    ensures Le(data[|data| - 2..]) == Crc(data[..|data| - 2])
  {
    var payload := Catalog.Payload(m);
    var frame := Catalog.Header(MessageId(m), FrameSequence(m, nextSeq), |payload|) + payload;
    var data := frame + ToLe(Crc(frame), 2);
    FrameLayout(MessageId(m), FrameSequence(m, nextSeq), payload, Crc(frame));
    data
  }

  /** Where the fields of a frame sit. */
  lemma FrameLayout(id: u16, sequence: byte, payload: Bytes, crc: u16)
    requires |payload| < 0x1_0000
    ensures var frame := Catalog.Header(id, sequence, |payload|) + payload;
            var data := frame + ToLe(crc, 2);
            && data[0] == 0 && data[1] == 0 && data[4] == sequence
            && Le(data[2..4]) == id && Le(data[5..7]) == |payload|
            && data[7..|data| - 2] == payload
            && data[..|data| - 2] == frame
            && Le(data[|data| - 2..]) == crc
  {
    var frame := Catalog.Header(id, sequence, |payload|) + payload;
    var data := frame + ToLe(crc, 2);
    assert data[2..4] == ToLe(id, 2);
    assert data[5..7] == ToLe(|payload|, 2);
    assert data[..|data| - 2] == frame;
    assert data[|data| - 2..] == ToLe(crc, 2);
    assert frame[7..] == payload;
  }

  // ----- parseData -----

  /** A datagram that starts like a control frame: at least nine bytes and
      two zero bytes in front. Anything else is audio. */
  predicate LooksFramed(data: Bytes) {
    |data| >= ApiConsts.PacketHeaderSize && data[0] == 0 && data[1] == 0
  }

  /** A frame whose length field accounts for every byte and whose last two
      bytes are the checksum of the rest. */
  predicate Intact(data: Bytes) {
    && LooksFramed(data)
    && |data| == NumericalValueAt(data, 5, 2).value + ApiConsts.PacketHeaderSize
    && NumericalValueAt(data, |data| - 2, 2).value == Crc(data[..|data| - 2])
  }

  /** A frame without its checksum. */
  function Body(data: Bytes): (body: Bytes)
    requires |data| >= 2
    ensures |body| + 2 == |data|
  {
    data[..|data| - 2]
  }

  /** What `deserialize` needs of an intact frame's body: the payload demands
      of the message its id names. */
  predicate Parsable(data: Bytes) {
    Intact(data) ==> Catalog.PayloadDefined(Catalog.FrameId(Body(data)), Catalog.FramePayload(Body(data)))
  }

  /** `parseData(data:defaultHost:)`: audio unless the datagram looks like a
      frame; an error for a wrong length, a wrong checksum or an unknown id;
      otherwise the message, sorted by whether it is an ack, needs an ack,
      or neither. */
  function ParseData(data: Bytes, defaultHost: Bytes): (r: Packet)
    requires Parsable(data)
    ensures r.Audio? <==> !LooksFramed(data)
    ensures r.Audio? ==> r.data == data
    ensures r.Error? ==> r.error == InvalidPacket(data)
    ensures r.Error? <==> LooksFramed(data) && (!Intact(data) || Catalog.Deserialize(Body(data), defaultHost).None?)
    ensures r.AckMessage? ==>
              && Intact(data) && r.sequenceNumber == data[4]
              && Catalog.Deserialize(Body(data), defaultHost) == Some(Ack(r.ackType, r.sequenceNumber))
    ensures r.MessageNeedingAck? ==>
              && Intact(data) && r.sequence == data[4] && NeedsAck(r.message)
              && Catalog.Deserialize(Body(data), defaultHost) == Some(r.message)
    ensures r.MessageNoAck? ==>
              && Intact(data) && !NeedsAck(r.message) && !r.message.Ack?
              && Catalog.Deserialize(Body(data), defaultHost) == Some(r.message)
  {
    if LooksFramed(data) then
      var length := NumericalValueAt(data, 5, 2).value;
      if |data| == length + ApiConsts.PacketHeaderSize then
        var packet := Body(data);
        var crc := NumericalValueAt(data, |packet|, 2).value;
        if crc == Crc(packet) then
          match Catalog.Deserialize(packet, defaultHost)
          case Some(message) =>
            if message.Ack? then AckMessage(message.ackType, message.sequenceNumber)
            else if NeedsAck(message) then MessageNeedingAck(message, data[4])
            else MessageNoAck(message)
          case None => Error(InvalidPacket(data))
        else Error(InvalidPacket(data))
      else Error(InvalidPacket(data))
    else Audio(data)
  }

  /** The packet a frame of `m` with sequence byte `sequence` is read as. */
  function Expected(m: Message, sequence: byte): Packet {
    if m.Ack? then AckMessage(m.ackType, m.sequenceNumber)
    else if NeedsAck(m) then MessageNeedingAck(m, sequence)
    else MessageNoAck(m)
  }

  /** `parseData(messageToData(m, s))` reads `m` back, with the sequence
      byte it was framed with, for every message whose payload round trips. */
  lemma ParseMessageToData(m: Message, nextSeq: byte, defaultHost: Bytes)
    requires Framable(m) && Catalog.RoundTrips(m)
    ensures var data := MessageToData(m, nextSeq);
            && Intact(data) && Parsable(data)
            && ParseData(data, defaultHost) == Expected(m, FrameSequence(m, nextSeq))
  {
    var payload := Catalog.Payload(m);
    var sequence := FrameSequence(m, nextSeq);
    var data := MessageToData(m, nextSeq);
    FramedIntact(Catalog.Header(MessageId(m), sequence, |payload|) + payload, data);
    Catalog.DeserializePayload(m, sequence, |payload|, defaultHost);
    ParseIntact(data, defaultHost, m);
  }

  /** A frame closed by its own checksum, with a length field that counts its
      payload, is intact, and its body is the frame. */
  lemma FramedIntact(frame: Bytes, data: Bytes)
    requires |frame| >= 7 && frame[0] == 0 && frame[1] == 0
    requires Le(frame[5..7]) + 7 == |frame|
    requires |data| == |frame| + 2
    requires data[..|data| - 2] == frame
    requires Le(data[|data| - 2..]) == Crc(frame)
    ensures Intact(data) && Body(data) == frame
  {
    assert data[5..7] == frame[5..7];
    LeInjective(ToLe(NumericalValueAt(data, 5, 2).value, 2), data[5..7]);
  }

  /** An intact frame whose body deserialises to `m` is read as `m`. */
  lemma ParseIntact(data: Bytes, defaultHost: Bytes, m: Message)
    requires Intact(data) && Parsable(data)
    requires Catalog.Deserialize(Body(data), defaultHost) == Some(m)
    ensures ParseData(data, defaultHost) == Expected(m, data[4])
  {
  }
}
