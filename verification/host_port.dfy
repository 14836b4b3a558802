/**
 `String.asJamulusUrl`: a server address typed as `host` or `host:port`
 becomes the host and port of a URL. The text is split at every ':'; the
 first component is the host and must not be empty; the second, when it
 reads as an unsigned integer, is the port, otherwise the default port
 22124 is used; components after the second are ignored.

 The text is its UTF-8 bytes, as everywhere in the model: a ':' byte never
 occurs inside a multi-byte character, so splitting the bytes gives the
 components of the text.
 */
module HostPort {
  import opened Wire
  import ApiConsts
  import ServerDetails

  /** The largest `UInt` and the largest `Int` on a 64-bit platform. */
  const UIntMax: nat := 0x1_0000_0000_0000_0000 - 1
  const IntMax: nat := 0x7FFF_FFFF_FFFF_FFFF

  const Plus: byte := 43
  const Minus: byte := 45

  // ----- UInt(_: String) -----

  /** Swift's `UInt(text)`: an optional '+' or '-', then one or more ASCII
      digits, whose value must fit in 64 bits; after '-' only zero fits. */
  function ParseUInt(text: Bytes): (r: Option<nat>)
    ensures r.Some? ==> r.value <= UIntMax
    ensures r.Some? ==> |text| > 0 && (IsDigit(text[0]) || text[0] == Plus || text[0] == Minus)
    ensures |text| == 0 || text == [Plus] || text == [Minus] ==> r.None?
    ensures |text| > 0 && AllDigits(text) ==>
              && (r.Some? <==> DigitsValue(text) <= UIntMax)
              && (r.Some? ==> r.value == DigitsValue(text))
  {
    var signed := |text| > 0 && (text[0] == Plus || text[0] == Minus);
    var digits := if signed then text[1..] else text;
    if |digits| == 0 || !AllDigits(digits) then None
    else if text[0] == Minus then (if DigitsValue(digits) == 0 then Some(0) else None)
    else if DigitsValue(digits) <= UIntMax then Some(DigitsValue(digits))
    else None
  }

  /** Every number a `UInt` holds survives the round trip through its
      decimal text. */
  lemma ParseDecimal(n: nat)
    requires n <= UIntMax
    ensures ParseUInt(Decimal(n)) == Some(n)
  {
    assert Decimal(n)[0] != Minus by { assert IsDigit(Decimal(n)[0]); }
  }

  /** A digit string has no colon in it. */
  lemma NoColonInDigits(s: Bytes)
    requires AllDigits(s)
    ensures Colon !in s
  {
    forall i | 0 <= i < |s| ensures s[i] != Colon {
      assert IsDigit(s[i]);
    }
  }

  // ----- asJamulusUrl -----

  /** What `asJamulusUrl` gives: no URL, a URL's host and port, or a trap. */
  datatype Address = NoUrl | Endpoint(host: Bytes, port: nat) | Trap

  /** The port the second component gives, before it is converted to an
      `Int`: its unsigned value if it has one, the default port otherwise. */
  function PortOf(vals: seq<Bytes>): (p: nat)
    ensures p <= UIntMax
    ensures |vals| <= 1 ==> p == ApiConsts.DefaultPort
    ensures |vals| > 1 && ParseUInt(vals[1]).Some? ==> p == ParseUInt(vals[1]).value
    ensures |vals| > 1 && ParseUInt(vals[1]).None? ==> p == ApiConsts.DefaultPort
  {
    if |vals| > 1 && ParseUInt(vals[1]).Some? then ParseUInt(vals[1]).value
    else ApiConsts.DefaultPort
  }

  /** `asJamulusUrl` as written: `Int(port)` traps when the unsigned value
      does not fit a signed 64-bit integer. */
  function AsJamulusUrlAsWritten(text: Bytes): (r: Address)
    ensures r.NoUrl? <==> |text| == 0 || text[0] == Colon
  {
    SplitFirst(text, Colon);
    var vals := Split(text, Colon);
    if |vals| == 0 || |vals[0]| == 0 then NoUrl
    else
      var port := PortOf(vals);
      if port > IntMax then Trap else Endpoint(vals[0], port)
  }

  /** A port text one past the largest `Int` makes the as-written version
      trap instead of returning an address. */
  lemma HugePortTraps(host: Bytes)
    requires |host| > 0 && Colon !in host
    ensures AsJamulusUrlAsWritten(Join([host, Decimal(IntMax + 1)], Colon)) == Trap
  {
    ParseDecimal(IntMax + 1);
    NoColonInDigits(Decimal(IntMax + 1));
    SplitJoin([host, Decimal(IntMax + 1)], Colon);
  }

  /** `asJamulusUrl` with a port too large for an `Int` treated like one
      that does not parse: the default port. Empty host text gives no URL;
      otherwise the host is everything before the first colon. */
  function AsJamulusUrl(text: Bytes): (r: Address)
    ensures !r.Trap?
    ensures r.NoUrl? <==> |text| == 0 || text[0] == Colon
    ensures r.Endpoint? ==>
              && |r.host| > 0 && r.host <= text && Colon !in r.host
              && (|r.host| < |text| ==> text[|r.host|] == Colon)
              && r.port <= IntMax
    ensures r.Endpoint? && Colon !in text ==> r == Endpoint(text, ApiConsts.DefaultPort)
  {
    SplitFirst(text, Colon);
    var vals := Split(text, Colon);
    if |vals| == 0 || |vals[0]| == 0 then NoUrl
    else
      var port := PortOf(vals);
      Endpoint(vals[0], if port > IntMax then ApiConsts.DefaultPort else port)
  }

  /** The two versions agree on every text the as-written one does not
      trap on; where it traps, the corrected one falls back to the default
      port. */
  lemma CorrectedAgrees(text: Bytes)
    ensures !AsJamulusUrlAsWritten(text).Trap? ==> AsJamulusUrl(text) == AsJamulusUrlAsWritten(text)
    ensures AsJamulusUrlAsWritten(text).Trap? ==>
              AsJamulusUrl(text).Endpoint? && AsJamulusUrl(text).port == ApiConsts.DefaultPort
  {
  }

  /** Components with no colon in them. */
  predicate Plain(parts: seq<Bytes>) {
    forall i :: 0 <= i < |parts| ==> Colon !in parts[i]
  }

  /** `host:port` (and anything after a further colon) reads back as that
      host and port, for every port an `Int` holds. */
  lemma FormatParses(host: Bytes, port: nat, extra: seq<Bytes>)
    requires |host| > 0 && Colon !in host && port <= IntMax
    requires Plain(extra)
    ensures AsJamulusUrl(Join([host, Decimal(port)] + extra, Colon)) == Endpoint(host, port)
  {
    ParseDecimal(port);
    NoColonInDigits(Decimal(port));
    var parts := [host, Decimal(port)] + extra;
    forall i | 0 <= i < |parts| ensures Colon !in parts[i] {
      if i >= 2 { assert parts[i] == extra[i - 2]; }
    }
    SplitJoin(parts, Colon);
  }

  /** A second component that is not an unsigned number leaves the default
      port in place, and so does a bare host. */
  lemma BadPortDefaults(host: Bytes, portText: Bytes, extra: seq<Bytes>)
    requires |host| > 0 && Colon !in host && Colon !in portText
    requires ParseUInt(portText).None?
    requires Plain(extra)
    ensures AsJamulusUrl(Join([host, portText] + extra, Colon)) == Endpoint(host, ApiConsts.DefaultPort)
    ensures AsJamulusUrl(host) == Endpoint(host, ApiConsts.DefaultPort)
  {
    var parts := [host, portText] + extra;
    forall i | 0 <= i < |parts| ensures Colon !in parts[i] {
      if i >= 2 { assert parts[i] == extra[i - 2]; }
    }
    SplitJoin(parts, Colon);
  }

  /** A server's `id` ("address:port") leads back to the server's address
      and port. */
  lemma ServerIdParses(d: ServerDetails.ServerDetail)
    requires |d.ipAddress| > 0 && Colon !in d.ipAddress
    ensures AsJamulusUrl(ServerDetails.Id(d)) == Endpoint(d.ipAddress, d.port)
  {
    FormatParses(d.ipAddress, d.port, []);
    assert [d.ipAddress, Decimal(d.port)] + [] == [d.ipAddress, Decimal(d.port)];
  }
}
