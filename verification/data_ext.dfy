/**
 The cursor readers and writers of the `Data` extension: little-endian
 integers, length-prefixed strings and IPv4 addresses. A reader takes the
 buffer and an index and returns the value with the advanced index, which is
 what the Swift `inout Int` parameter carries back.
 */
module DataExt {
  import opened Wire

  /** A value read from a buffer and the index just after it. */
  datatype Read<T> = Read(value: T, next: nat)

  // ----- numericalValueAt -----

  /** `numericalValueAt` for an unsigned integer `width` bytes wide (1 for
      UInt8, 2 for UInt16, 4 for UInt32): reads the bytes in host order, which
      is little-endian, and moves past them. Reading past the end traps. */
  function NumericalValueAt(data: Bytes, index: nat, width: nat): (r: Read<nat>)
    requires index + width <= |data|
    ensures r.next == index + width
    ensures r.value < Pow256(width)
    ensures ToLe(r.value, width) == data[index..index + width]
  {
    ToLeOfLe(data[index..index + width]);
    Read(Le(data[index..index + width]), index + width)
  }

  /** A one-byte read is the byte itself. */
  lemma ByteValueAt(data: Bytes, index: nat)
    requires index < |data|
    ensures NumericalValueAt(data, index, 1).value == data[index]
  {
    var s := data[index..index + 1];
    assert s[1..] == [];
  }

  // ----- append<T> for integers -----

  /** The generic `append<T>` applied to an unsigned integer of `width` bytes:
      its in-memory bytes, least significant first. */
  function AppendUInt(d: Bytes, v: nat, width: nat): (r: Bytes)
    requires v < Pow256(width)
    ensures |r| == |d| + width
    ensures r[..|d|] == d
    ensures NumericalValueAt(r, |d|, width).value == v
  {
    var r := d + ToLe(v, width);
    assert r[|d|..|d| + width] == ToLe(v, width);
    r
  }

  // ----- jamulusStringAt / appendJamulusString -----

  /** `jamulusStringAt(index:lengthSize:)`: a UTF-8 string behind a one- or
      two-byte little-endian length. When the buffer does not extend past the
      header the index stays put; an empty or overlong string yields "" with
      the index just past the header; any other header width reads a length
      of 0 without consuming anything. */
  function JamulusStringAt(data: Bytes, index: nat, lengthSize: nat): (r: Read<Bytes>)
    ensures index <= r.next
    ensures index <= |data| ==> r.next <= |data|
    ensures index + lengthSize >= |data| ==> r == Read([], index)
    ensures |r.value| > 0 ==>
              && (lengthSize == 1 || lengthSize == 2)
              && r.next == index + lengthSize + |r.value| <= |data|
              && Le(data[index..index + lengthSize]) == |r.value|
              && r.value == data[index + lengthSize..r.next]
    ensures |r.value| == 0 && index + lengthSize < |data| ==>
              r.next == index + (if lengthSize <= 2 then lengthSize else 0)
  {
    if index + lengthSize >= |data| then Read([], index)
    else
      var header :=
        if lengthSize == 1 then Read(data[index], index + 1)
        else if lengthSize == 2 then NumericalValueAt(data, index, 2)
        else Read(0, index);
      if header.value == 0 then Read([], header.next)
      else if header.next + header.value > |data| then Read([], header.next)
      else
        ByteValueAt(data, index);
        Read(data[header.next..header.next + header.value], header.next + header.value)
  }

  /** The header width `appendJamulusString` writes: one byte when asked for
      one, two otherwise. */
  function HeaderWidth(lengthSize: nat): (w: nat)
    ensures w == 1 || w == 2
  {
    if lengthSize == 1 then 1 else 2
  }

  /** `appendJamulusString`: the byte count, then the UTF-8 bytes. The
      conversion to UInt8 or UInt16 traps on a longer string. */
  function AppendJamulusString(d: Bytes, s: Bytes, lengthSize: nat): (r: Bytes)
    requires |s| < Pow256(HeaderWidth(lengthSize))
    ensures |r| == |d| + HeaderWidth(lengthSize) + |s|
    ensures r[..|d|] == d
    ensures r[|d| + HeaderWidth(lengthSize)..] == s
    ensures Le(r[|d|..|d| + HeaderWidth(lengthSize)]) == |s|
  {
    var h := HeaderWidth(lengthSize);
    var withHeader := AppendUInt(d, |s|, h);
    var r := withHeader + s;
    assert r[|d|..|d| + h] == withHeader[|d|..|d| + h];
    assert withHeader[|d|..|d| + h] == ToLe(|s|, h);
    r
  }

  /** Reading back a written string. Whatever follows the string, it comes
      back whole and the index lands just after it; the one exception is an
      empty string at the very end of the buffer, which the reader does not
      consume because the buffer ends with its header. */
  lemma StringRoundTrip(d: Bytes, s: Bytes, lengthSize: nat, rest: Bytes)
    requires lengthSize == 1 || lengthSize == 2
    requires |s| < Pow256(lengthSize)
    ensures var data := AppendJamulusString(d, s, lengthSize) + rest;
            var r := JamulusStringAt(data, |d|, lengthSize);
            if |s| + |rest| > 0 then r == Read(s, |d| + lengthSize + |s|)
            else r == Read([], |d|)
  {
    var data := AppendJamulusString(d, s, lengthSize) + rest;
    var w := AppendJamulusString(d, s, lengthSize);
    assert data[|d|..|d| + lengthSize] == w[|d|..|d| + lengthSize];
    assert data[|d| + lengthSize..|d| + lengthSize + |s|] == w[|d| + lengthSize..];
    if lengthSize == 1 {
      ByteValueAt(data, |d|);
      assert [data[|d|]] == data[|d|..|d| + 1];
    }
  }

  /** A string found in place: its two-byte length followed by its bytes.
      It reads back whole, and the index moves past it unless it is an empty
      string that ends the buffer. */
  lemma StringInPlace(data: Bytes, i: nat, s: Bytes)
    requires |s| < 0x1_0000
    requires i + 2 + |s| <= |data|
    requires data[i..i + 2] == ToLe(|s|, 2)
    requires data[i + 2..i + 2 + |s|] == s
    ensures JamulusStringAt(data, i, 2).value == s
    ensures |s| > 0 || i + 2 < |data| ==> JamulusStringAt(data, i, 2).next == i + 2 + |s|
  {
  }

  /** A string with its two-byte length in front. */
  function Prefixed(s: Bytes): (r: Bytes)
    requires |s| < 0x1_0000
    ensures |r| == 2 + |s|
  {
    ToLe(|s|, 2) + s
  }

  /** Two prefixed strings back to back at `i` read back one after the
      other; the second is consumed unless it is empty and ends the data. */
  lemma TwoPrefixedInPlace(data: Bytes, i: nat, a: Bytes, b: Bytes)
    requires |a| < 0x1_0000 && |b| < 0x1_0000
    requires i + 4 + |a| + |b| <= |data|
    requires data[i..i + 2 + |a|] == Prefixed(a)
    requires data[i + 2 + |a|..i + 4 + |a| + |b|] == Prefixed(b)
    ensures var first := JamulusStringAt(data, i, 2);
            var second := JamulusStringAt(data, first.next, 2);
            && first.value == a && second.value == b
            && (|b| > 0 || i + 4 + |a| + |b| < |data| ==> second.next == i + 4 + |a| + |b|)
            && second.next + 2 >= i + 4 + |a| + |b|
  {
    var j := i + 2 + |a|;
    assert JamulusStringAt(data, i, 2) == Read(a, j) by { PrefixedInPlace(data, i, a); }
    PrefixedInPlace(data, j, b);
  }

  /** The prefixed string is what `appendJamulusString` writes into an
      empty buffer with a two-byte header. */
  lemma PrefixedIsAppended(s: Bytes)
    requires |s| < 0x1_0000
    ensures Prefixed(s) == AppendJamulusString([], s, 2)
  {
  }

  /** A prefixed string found at offset `i` reads back. */
  lemma PrefixedInPlace(data: Bytes, i: nat, s: Bytes)
    requires |s| < 0x1_0000
    requires i + 2 + |s| <= |data| && data[i..i + 2 + |s|] == Prefixed(s)
    ensures JamulusStringAt(data, i, 2).value == s
    ensures |s| > 0 || i + 2 < |data| ==> JamulusStringAt(data, i, 2).next == i + 2 + |s|
  {
    SliceOfSlice(data, i, i + 2 + |s|, 0, 2);
    SliceOfSlice(data, i, i + 2 + |s|, 2, 2 + |s|);
    StringInPlace(data, i, s);
  }

  // ----- iPv4AddressAt -----

  /** Four bytes in dotted decimal: "a.b.c.d". */
  function DottedQuad(a: byte, b: byte, c: byte, d: byte): Bytes {
    Join([Decimal(a), Decimal(b), Decimal(c), Decimal(d)], Dot)
  }

  /** `iPv4AddressAt(index:defaultHost:)`: four bytes, printed most
      significant (last) byte first; an all-zero address means the host the
      packet came from. */
  function IPv4AddressAt(data: Bytes, index: nat, defaultHost: Bytes): (r: Read<Bytes>)
    requires index + 4 <= |data|
    ensures r.next == index + 4
    ensures data[index..index + 4] == [0, 0, 0, 0] ==> r.value == defaultHost
    ensures data[index..index + 4] != [0, 0, 0, 0] ==>
              r.value == DottedQuad(data[index + 3], data[index + 2], data[index + 1], data[index])
  {
    if data[index] == 0 && data[index + 1] == 0 && data[index + 2] == 0 && data[index + 3] == 0 then
      assert data[index..index + 4] == [0, 0, 0, 0];
      Read(defaultHost, index + 4)
    else
      Read(DottedQuad(data[index + 3], data[index + 2], data[index + 1], data[index]), index + 4)
  }

  /** A printed address splits at its dots into four decimal numbers, which
      are the address bytes from last to first. */
  lemma IPv4AddressParts(data: Bytes, index: nat, defaultHost: Bytes)
    requires index + 4 <= |data|
    requires data[index..index + 4] != [0, 0, 0, 0]
    ensures var parts := Split(IPv4AddressAt(data, index, defaultHost).value, Dot);
            && |parts| == 4
            && forall k :: 0 <= k < 4 ==>
                 AllDigits(parts[k]) && DigitsValue(parts[k]) == data[index + 3 - k]
  {
    DottedQuadSplits(data[index + 3], data[index + 2], data[index + 1], data[index]);
  }

  /** A digit is never the separator. */
  lemma DigitsHaveNoDot(s: Bytes)
    requires AllDigits(s)
    ensures Dot !in s
  {
  }

  /** Splitting a dotted quad at the dots recovers the four numbers. */
  lemma DottedQuadSplits(a: byte, b: byte, c: byte, d: byte)
    ensures Split(DottedQuad(a, b, c, d), Dot) == [Decimal(a), Decimal(b), Decimal(c), Decimal(d)]
  {
    var parts := [Decimal(a), Decimal(b), Decimal(c), Decimal(d)];
    forall i | 0 <= i < |parts| ensures Dot !in parts[i] {
      DigitsHaveNoDot(parts[i]);
    }
    SplitJoin(parts, Dot);
  }
}
