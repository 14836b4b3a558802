/**
 `ServerDetail`: one entry of a directory's server list, and the two record
 readers that decode it from a list payload.
 */
module ServerDetails {
  import opened Wire
  import opened DataExt
  import ApiConsts

  datatype ServerDetail = ServerDetail(
    name: Bytes,
    ipAddress: Bytes,
    port: u16,
    maxClients: Option<int>,
    perm: bool,
    city: Option<Bytes>,
    country: Option<Bytes>,
    serverInternalName: Option<Bytes>,
    pingTimeMs: Option<int>,
    connectedClients: Option<int>)

  /** `id`: "address:port". For an address without a colon the two halves
      can be taken apart again. */
  function Id(d: ServerDetail): Bytes {
    Join([d.ipAddress, Decimal(d.port)], Colon)
  }

  /** Splitting an id at the colon gives back the address and the port. */
  lemma IdSplits(d: ServerDetail)
    requires Colon !in d.ipAddress
    ensures Split(Id(d), Colon) == [d.ipAddress, Decimal(d.port)]
  {
    SplitJoin([d.ipAddress, Decimal(d.port)], Colon);
  }

  /** Two servers whose addresses carry no colon share an id only when they
      share both address and port. */
  lemma IdIdentifiesServer(a: ServerDetail, b: ServerDetail)
    requires Colon !in a.ipAddress && Colon !in b.ipAddress
    ensures Id(a) == Id(b) <==> a.ipAddress == b.ipAddress && a.port == b.port
  {
    if Id(a) == Id(b) {
      IdSplits(a);
      IdSplits(b);
      assert Decimal(a.port) == Decimal(b.port);
      DecimalInjective(a.port, b.port);
    }
  }

  /** A port of 0 on the wire means the default Jamulus port. */
  function PortOrDefault(p: u16): (q: u16)
    ensures q != 0
    ensures p != 0 ==> q == p
  {
    if p == 0 then ApiConsts.DefaultPort else p
  }

  /** `parseFromData(data:pos:defaultHost:)`: address (4 bytes), port and
      country code (LE16 each), client limit and permanence flag (a byte
      each), then the name, internal name and city, each with a two-byte
      length. The country code becomes its canonical decimal text. Ten fixed
      bytes must be present; the strings read defensively. */
  function ParseFromData(data: Bytes, pos: nat, defaultHost: Bytes): (r: Read<ServerDetail>)
    requires pos + 10 <= |data|
    ensures pos + 10 <= r.next <= |data|
    ensures r.value.ipAddress == IPv4AddressAt(data, pos, defaultHost).value
    ensures r.value.port == PortOrDefault(Le(data[pos + 4..pos + 6]))
    ensures r.value.country.Some? && AllDigits(r.value.country.value)
    ensures DigitsValue(r.value.country.value) == Le(data[pos + 6..pos + 8])
    ensures r.value.country == Some(Decimal(Le(data[pos + 6..pos + 8])))
    ensures r.value.maxClients == Some(data[pos + 8] as int)
    ensures r.value.perm <==> data[pos + 9] == 1
    ensures var name := JamulusStringAt(data, pos + 10, 2);
            var internalName := JamulusStringAt(data, name.next, 2);
            && r.value.name == name.value
            && r.value.serverInternalName == Some(internalName.value)
            && r.value.city == Some(JamulusStringAt(data, internalName.next, 2).value)
            && r.next == JamulusStringAt(data, internalName.next, 2).next
    ensures r.value.pingTimeMs.None? && r.value.connectedClients.None?
  {
    var ip := IPv4AddressAt(data, pos, defaultHost);
    var port := NumericalValueAt(data, ip.next, 2);
    var country := NumericalValueAt(data, port.next, 2);
    var maxClients := data[country.next];
    var perm := data[country.next + 1] == 1;
    var name := JamulusStringAt(data, country.next + 2, 2);
    var internalName := JamulusStringAt(data, name.next, 2);
    var city := JamulusStringAt(data, internalName.next, 2);
    ToLeOfLe(data[pos + 4..pos + 6]);
    ToLeOfLe(data[pos + 6..pos + 8]);
    Read(ServerDetail(name.value, ip.value, PortOrDefault(port.value), Some(maxClients as int), perm,
                      Some(city.value), Some(Decimal(country.value)), Some(internalName.value),
                      None, None),
         city.next)
  }

  /** `parseReducedFromData(data:pos:defaultHost:)`: address, port and a name
      with a one-byte length; everything else is absent. */
  function ParseReducedFromData(data: Bytes, pos: nat, defaultHost: Bytes): (r: Read<ServerDetail>)
    requires pos + 6 <= |data|
    ensures pos + 6 <= r.next <= |data|
    ensures r.value.ipAddress == IPv4AddressAt(data, pos, defaultHost).value
    ensures r.value.port == PortOrDefault(Le(data[pos + 4..pos + 6]))
    ensures r.value.name == JamulusStringAt(data, pos + 6, 1).value
    ensures r.next == JamulusStringAt(data, pos + 6, 1).next
    ensures r.value.maxClients.None? && !r.value.perm && r.value.city.None?
    ensures r.value.country.None? && r.value.serverInternalName.None?
    ensures r.value.pingTimeMs.None? && r.value.connectedClients.None?
  {
    var ip := IPv4AddressAt(data, pos, defaultHost);
    var port := NumericalValueAt(data, ip.next, 2);
    var name := JamulusStringAt(data, port.next, 1);
    ToLeOfLe(data[pos + 4..pos + 6]);
    Read(ServerDetail(name.value, ip.value, PortOrDefault(port.value), None, false,
                      None, None, None, None, None),
         name.next)
  }

  // ----- the wire record, as a directory writes it -----

  /** The fields of a detailed server record as they travel. */
  datatype ServerRecord = ServerRecord(
    address: Bytes, port: u16, country: u16, maxClients: byte, perm: bool,
    name: Bytes, internalName: Bytes, city: Bytes)

  predicate Writable(rec: ServerRecord) {
    |rec.address| == 4 && |rec.name| < 0x1_0000 && |rec.internalName| < 0x1_0000 && |rec.city| < 0x1_0000
  }

  /** The bytes of a detailed record: the layout the reader expects. */
  function EncodeRecord(rec: ServerRecord): (r: Bytes)
    requires Writable(rec)
    ensures |r| == 16 + |rec.name| + |rec.internalName| + |rec.city|
  {
    FixedPart(rec) + Prefixed(rec.name) + Prefixed(rec.internalName) + Prefixed(rec.city)
  }

  /** The ten fixed bytes of a record. */
  function FixedPart(rec: ServerRecord): (r: Bytes)
    requires Writable(rec)
    ensures |r| == 10
  {
    rec.address + ToLe(rec.port, 2) + ToLe(rec.country, 2) + [rec.maxClients, if rec.perm then 1 else 0]
  }

  /** What the reader should make of a record: the address in dotted form or
      the default host, port 0 as the default port, the country in decimal. */
  function Expected(rec: ServerRecord, defaultHost: Bytes): ServerDetail
    requires |rec.address| == 4
  {
    var a := rec.address;
    ServerDetail(rec.name,
                 if a == [0, 0, 0, 0] then defaultHost else DottedQuad(a[3], a[2], a[1], a[0]),
                 PortOrDefault(rec.port), Some(rec.maxClients as int), rec.perm,
                 Some(rec.city), Some(Decimal(rec.country)), Some(rec.internalName), None, None)
  }

  /** Reading a written record gives its fields back, whatever precedes or
      follows it in the buffer, and stops right after it unless the record
      ends the buffer with an empty city, whose header is then left unread. */
  lemma ParseEncodedRecord(prefix: Bytes, rec: ServerRecord, rest: Bytes, defaultHost: Bytes)
    requires Writable(rec)
    ensures var data := prefix + EncodeRecord(rec) + rest;
            var r := ParseFromData(data, |prefix|, defaultHost);
            && r.value == Expected(rec, defaultHost)
            && (|rec.city| > 0 || |rest| > 0 ==> r.next == |prefix| + |EncodeRecord(rec)|)
            && r.next + 2 >= |prefix| + |EncodeRecord(rec)|
  {
    EncodedLayout(prefix, rec, rest);
    RecordInPlace(prefix + EncodeRecord(rec) + rest, |prefix|, rec, defaultHost);
  }

  /** Where the pieces of an encoded record sit once it is embedded. */
  lemma EncodedLayout(prefix: Bytes, rec: ServerRecord, rest: Bytes)
    requires Writable(rec)
    ensures RecordAt(prefix + EncodeRecord(rec) + rest, |prefix|, rec)
  {
    var f, n, i, c := FixedPart(rec), Prefixed(rec.name), Prefixed(rec.internalName), Prefixed(rec.city);
    assert EncodeRecord(rec) == f + n + i + c;
    assert |f| == 10 && |n| == 2 + |rec.name| && |i| == 2 + |rec.internalName| && |c| == 2 + |rec.city|;
    FourPieces(prefix, f, n, i, c, rest);
  }

  /** The pieces of a written record sit in `data` from offset `p` on. */
  predicate RecordAt(data: Bytes, p: nat, rec: ServerRecord) {
    && Writable(rec)
    && p + 16 + |rec.name| + |rec.internalName| + |rec.city| <= |data|
    && data[p..p + 10] == FixedPart(rec)
    && data[p + 10..p + 12 + |rec.name|] == Prefixed(rec.name)
    && data[p + 12 + |rec.name|..p + 14 + |rec.name| + |rec.internalName|] == Prefixed(rec.internalName)
    && data[p + 14 + |rec.name| + |rec.internalName|..p + 16 + |rec.name| + |rec.internalName| + |rec.city|]
       == Prefixed(rec.city)
  }

  /** A record laid out at offset `p` reads back as expected. */
  lemma RecordInPlace(data: Bytes, p: nat, rec: ServerRecord, defaultHost: Bytes)
    requires RecordAt(data, p, rec)
    ensures ParseFromData(data, p, defaultHost).value == Expected(rec, defaultHost)
    ensures var next := ParseFromData(data, p, defaultHost).next;
            var end := p + |EncodeRecord(rec)|;
            && (|rec.city| > 0 || end < |data| ==> next == end)
            && next + 2 >= end
  {
    RecordAddressInPlace(data, p, rec, defaultHost);
    RecordNumbersInPlace(data, p, rec, defaultHost);
    RecordStringsInPlace(data, p, rec, defaultHost);
  }

  lemma RecordAddressInPlace(data: Bytes, p: nat, rec: ServerRecord, defaultHost: Bytes)
    requires Writable(rec)
    requires p + 16 + |rec.name| + |rec.internalName| + |rec.city| <= |data|
    requires data[p..p + 10] == FixedPart(rec)
    ensures ParseFromData(data, p, defaultHost).value.ipAddress == Expected(rec, defaultHost).ipAddress
  {
    FixedFields(data, p, rec);
    DottedAddress(data, p, rec.address, defaultHost);
  }

  lemma RecordNumbersInPlace(data: Bytes, p: nat, rec: ServerRecord, defaultHost: Bytes)
    requires Writable(rec)
    requires p + 16 + |rec.name| + |rec.internalName| + |rec.city| <= |data|
    requires data[p..p + 10] == FixedPart(rec)
    ensures var d := ParseFromData(data, p, defaultHost).value;
            var e := Expected(rec, defaultHost);
            d.port == e.port && d.country == e.country && d.maxClients == e.maxClients && d.perm == e.perm
  {
    FixedFields(data, p, rec);
    var port := NumericalValueAt(data, p + 4, 2);
    assert port.value == rec.port by { assert ToLe(port.value, 2) == ToLe(rec.port, 2); }
    var country := NumericalValueAt(data, p + 6, 2);
    assert country.value == rec.country by { assert ToLe(country.value, 2) == ToLe(rec.country, 2); }
  }

  lemma RecordStringsInPlace(data: Bytes, p: nat, rec: ServerRecord, defaultHost: Bytes)
    requires Writable(rec)
    requires p + 16 + |rec.name| + |rec.internalName| + |rec.city| <= |data|
    requires data[p + 10..p + 12 + |rec.name|] == Prefixed(rec.name)
    requires data[p + 12 + |rec.name|..p + 14 + |rec.name| + |rec.internalName|]
             == Prefixed(rec.internalName)
    requires data[p + 14 + |rec.name| + |rec.internalName|..p + 16 + |rec.name| + |rec.internalName| + |rec.city|]
             == Prefixed(rec.city)
    ensures var d := ParseFromData(data, p, defaultHost).value;
            d.name == rec.name && d.serverInternalName == Some(rec.internalName) && d.city == Some(rec.city)
    ensures var next := ParseFromData(data, p, defaultHost).next;
            var end := p + 16 + |rec.name| + |rec.internalName| + |rec.city|;
            && (|rec.city| > 0 || end < |data| ==> next == end)
            && next + 2 >= end
  {
    StringsInPlace(data, p + 10, rec.name, rec.internalName, rec.city);
  }

  /** Three length-prefixed strings back to back read back one after the
      other. */
  lemma StringsInPlace(data: Bytes, a: nat, x: Bytes, y: Bytes, z: Bytes)
    requires |x| < 0x1_0000 && |y| < 0x1_0000 && |z| < 0x1_0000
    requires a + 6 + |x| + |y| + |z| <= |data|
    requires data[a..a + 2 + |x|] == Prefixed(x)
    requires data[a + 2 + |x|..a + 4 + |x| + |y|] == Prefixed(y)
    requires data[a + 4 + |x| + |y|..a + 6 + |x| + |y| + |z|] == Prefixed(z)
    ensures var first := JamulusStringAt(data, a, 2);
            var second := JamulusStringAt(data, first.next, 2);
            var third := JamulusStringAt(data, second.next, 2);
            var end := a + 6 + |x| + |y| + |z|;
            && first.value == x && second.value == y && third.value == z
            && (|z| > 0 || end < |data| ==> third.next == end)
            && third.next + 2 >= end
  {
    var o2 := a + 2 + |x|;
    var o3 := o2 + 2 + |y|;
    assert JamulusStringAt(data, a, 2) == Read(x, o2) by {
      PrefixedInPlace(data, a, x);
    }
    assert JamulusStringAt(data, o2, 2) == Read(y, o3) by {
      PrefixedInPlace(data, o2, y);
    }
    PrefixedInPlace(data, o3, z);
  }

  /** The fixed bytes sit at their offsets. */
  lemma FixedFields(data: Bytes, p: nat, rec: ServerRecord)
    requires Writable(rec)
    requires p + 10 <= |data| && data[p..p + 10] == FixedPart(rec)
    ensures data[p..p + 4] == rec.address
    ensures data[p + 4..p + 6] == ToLe(rec.port, 2)
    ensures data[p + 6..p + 8] == ToLe(rec.country, 2)
    ensures data[p + 8] == rec.maxClients
    ensures data[p + 9] == if rec.perm then 1 else 0
  {
    var f := FixedPart(rec);
    assert f[0..4] == rec.address;
    assert f[4..6] == ToLe(rec.port, 2);
    assert f[6..8] == ToLe(rec.country, 2);
    SliceOfSlice(data, p, p + 10, 0, 4);
    SliceOfSlice(data, p, p + 10, 4, 6);
    SliceOfSlice(data, p, p + 10, 6, 8);
    assert data[p + 8] == data[p..p + 10][8];
    assert data[p + 9] == data[p..p + 10][9];
  }

  /** The address field reads as the dotted quad of its bytes, or as the
      default host when all four are zero. */
  lemma DottedAddress(data: Bytes, p: nat, a: Bytes, defaultHost: Bytes)
    requires |a| == 4 && p + 4 <= |data| && data[p..p + 4] == a
    ensures IPv4AddressAt(data, p, defaultHost).value
            == if a == [0, 0, 0, 0] then defaultHost else DottedQuad(a[3], a[2], a[1], a[0])
  {
    assert data[p] == a[0] && data[p + 1] == a[1] && data[p + 2] == a[2] && data[p + 3] == a[3];
  }

  // ----- the reduced record -----

  /** The fields of a reduced record as they travel: address, port and a
      name behind a one-byte length. */
  datatype ReducedRecord = ReducedRecord(address: Bytes, port: u16, name: Bytes)

  predicate ReducedWritable(rec: ReducedRecord) {
    |rec.address| == 4 && |rec.name| < 0x100
  }

  /** The bytes of a reduced record: the layout the reduced reader expects. */
  function EncodeReduced(rec: ReducedRecord): (r: Bytes)
    requires ReducedWritable(rec)
    ensures |r| == 7 + |rec.name|
  {
    rec.address + ToLe(rec.port, 2) + [|rec.name|] + rec.name
  }

  /** What the reduced reader should make of a record. */
  function ExpectedReduced(rec: ReducedRecord, defaultHost: Bytes): ServerDetail
    requires |rec.address| == 4
  {
    var a := rec.address;
    ServerDetail(rec.name,
                 if a == [0, 0, 0, 0] then defaultHost else DottedQuad(a[3], a[2], a[1], a[0]),
                 PortOrDefault(rec.port), None, false, None, None, None, None, None)
  }

  /** Reading a written reduced record gives its fields back, and stops right
      after it unless the record ends the buffer with an empty name. */
  lemma ParseEncodedReduced(prefix: Bytes, rec: ReducedRecord, rest: Bytes, defaultHost: Bytes)
    requires ReducedWritable(rec)
    ensures var data := prefix + EncodeReduced(rec) + rest;
            var r := ParseReducedFromData(data, |prefix|, defaultHost);
            && r.value == ExpectedReduced(rec, defaultHost)
            && (|rec.name| > 0 || |rest| > 0 ==> r.next == |prefix| + |EncodeReduced(rec)|)
            && r.next + 1 >= |prefix| + |EncodeReduced(rec)|
  {
    var data := prefix + EncodeReduced(rec) + rest;
    var p := |prefix|;
    var port := ToLe(rec.port, 2);
    assert EncodeReduced(rec) == rec.address + port + [|rec.name|] + rec.name;
    FourPieces(prefix, rec.address, port, [|rec.name|], rec.name, rest);
    DottedAddress(data, p, rec.address, defaultHost);
    assert data[p + 6] == data[p + 6..p + 7][0];
    ToLeOfLe(data[p + 4..p + 6]);
  }
}
