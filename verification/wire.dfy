/**
 Byte-level vocabulary shared by the whole model: fixed-width unsigned
 integers, byte strings, little-endian packing, decimal rendering and
 splitting on a separator byte.

 Swift `Data` is a byte sequence here, and so is Swift `String`: every string
 the protocol carries travels as UTF-8, so the model keeps its bytes.
 */
module Wire {

  type byte = x: int | 0 <= x < 0x100
  type u16 = x: int | 0 <= x < 0x1_0000
  type u32 = x: int | 0 <= x < 0x1_0000_0000
  type u64 = x: int | 0 <= x < 0x1_0000_0000_0000_0000
  type Bytes = seq<byte>

  /** Swift optionals. */
  datatype Option<+T> = None | Some(value: T)

  /** 256 to the power n: the number of values n bytes can hold. */
  function Pow256(n: nat): (p: nat)
    ensures p >= 1
  {
    if n == 0 then 1 else 256 * Pow256(n - 1)
  }

  /** The unsigned value of a little-endian byte string. */
  function Le(s: Bytes): (v: nat)
    ensures v < Pow256(|s|)
    decreases |s|
  {
    if |s| == 0 then 0
    else
      var rest := Le(s[1..]);
      assert s[0] + 256 * rest <= 255 + 256 * (Pow256(|s| - 1) - 1);
      s[0] + 256 * rest
  }

  /** The `w` little-endian bytes of `v`: what `Data.append<T>` writes for an
      unsigned integer of width `w` on a little-endian host. */
  function ToLe(v: nat, w: nat): (r: Bytes)
    requires v < Pow256(w)
    ensures |r| == w
    ensures Le(r) == v
    decreases w
  {
    if w == 0 then []
    else
      var rest := ToLe(v / 256, w - 1);
      assert ([v % 256] + rest)[1..] == rest;
      [v % 256] + rest
  }

  /** Reading then writing back is the identity: `Le` loses nothing. */
  lemma {:induction false} ToLeOfLe(s: Bytes)
    ensures ToLe(Le(s), |s|) == s
    decreases |s|
  {
    if |s| > 0 {
      ToLeOfLe(s[1..]);
      assert Le(s) / 256 == Le(s[1..]);
      assert Le(s) % 256 == s[0];
    }
  }

  /** Two byte strings of one width with the same value are equal. */
  lemma LeInjective(a: Bytes, b: Bytes)
    requires |a| == |b|
    requires Le(a) == Le(b)
    ensures a == b
  {
    ToLeOfLe(a);
    ToLeOfLe(b);
  }

  /** ASCII '.' and ':'. */
  const Dot: byte := 46
  const Colon: byte := 58

  /** The middle piece of a three-part concatenation, cut out again. */
  lemma MiddleSlice<T>(x: seq<T>, y: seq<T>, z: seq<T>)
    ensures (x + y + z)[|x|..|x| + |y|] == y
  {
    var s := x + y + z;
    assert forall k :: 0 <= k < |y| ==> s[|x|..|x| + |y|][k] == y[k];
  }

  /** Slicing within the left operand of a concatenation. */
  lemma SliceOfAppend<T>(s: seq<T>, t: seq<T>, a: nat, b: nat)
    requires a <= b <= |s|
    ensures (s + t)[a..b] == s[a..b]
  {
  }

  /** The right operand of a concatenation, cut out again. */
  lemma TailOfAppend<T>(s: seq<T>, t: seq<T>)
    ensures (s + t)[|s|..|s| + |t|] == t
  {
  }

  /** A suffix that is known to be `a + b` splits the whole sequence at
      both seams. */
  lemma SuffixSplits<T>(s: seq<T>, p: nat, a: seq<T>, b: seq<T>)
    requires p <= |s| && s[p..] == a + b
    ensures p + |a| <= |s|
    ensures s == s[..p] + a + b
    ensures s[p + |a|..] == b
  {
    assert s == s[..p] + s[p..];
    assert s[p + |a|..] == s[p..][|a|..];
  }

  /** Moving one element from the front of the rest onto the end of the
      part already collected leaves the whole unchanged. */
  lemma Regroup<T>(done: seq<T>, x: T, rest: seq<T>)
    ensures done + [x] + rest == done + ([x] + rest)
  {
  }

  /** A slice of a slice is a slice. */
  lemma SliceOfSlice<T>(s: seq<T>, a: nat, b: nat, c: nat, d: nat)
    requires a <= b <= |s| && c <= d <= b - a
    ensures s[a..b][c..d] == s[a + c..a + d]
  {
    forall k | 0 <= k < d - c
      ensures s[a..b][c..d][k] == s[a + c..a + d][k]
    {
    }
  }

  /** Four consecutive pieces between a prefix and a suffix, cut out again. */
  lemma FourPieces<T>(prefix: seq<T>, a: seq<T>, b: seq<T>, c: seq<T>, d: seq<T>, rest: seq<T>)
    ensures var s := prefix + (a + b + c + d) + rest;
            var o1 := |prefix| + |a|;
            var o2 := o1 + |b|;
            var o3 := o2 + |c|;
            && s[|prefix|..o1] == a && s[o1..o2] == b && s[o2..o3] == c && s[o3..o3 + |d|] == d
  {
    var s := prefix + (a + b + c + d) + rest;
    assert s == (prefix + a) + b + (c + d + rest);
    MiddleSlice(prefix, a, b + c + d + rest);
    MiddleSlice(prefix + a, b, c + d + rest);
    assert s == (prefix + a + b) + c + (d + rest);
    MiddleSlice(prefix + a + b, c, d + rest);
    assert s == (prefix + a + b + c) + d + rest;
    MiddleSlice(prefix + a + b + c, d, rest);
  }

  // ----- decimal rendering (Swift string interpolation of an integer) -----

  predicate IsDigit(b: byte) {
    48 <= b <= 57
  }

  predicate AllDigits(s: Bytes) {
    forall i :: 0 <= i < |s| ==> IsDigit(s[i])
  }

  /** The value of a string of ASCII decimal digits. */
  function DigitsValue(s: Bytes): nat
    requires AllDigits(s)
    decreases |s|
  {
    if |s| == 0 then 0 else 10 * DigitsValue(s[..|s| - 1]) + (s[|s| - 1] - 48)
  }

  /** `"\(n)"`: the decimal rendering of a natural number, without leading
      zeros, as ASCII bytes. */
  function Decimal(n: nat): (r: Bytes)
    ensures |r| >= 1
    ensures AllDigits(r)
    ensures DigitsValue(r) == n
    ensures r[0] == 48 ==> n == 0
    decreases n
  {
    if n < 10 then [48 + n]
    else
      var prefix := Decimal(n / 10);
      var r := prefix + [48 + n % 10];
      assert r[..|r| - 1] == prefix;
      r
  }

  /** Distinct numbers render differently. */
  lemma DecimalInjective(m: nat, n: nat)
    requires Decimal(m) == Decimal(n)
    ensures m == n
  {
  }

  // ----- splitting on a separator (Swift `components(separatedBy:)`) -----

  /** `parts` joined back together with `sep` between neighbours. */
  function Join(parts: seq<Bytes>, sep: byte): Bytes
    requires |parts| >= 1
    decreases |parts|
  {
    if |parts| == 1 then parts[0] else parts[0] + [sep] + Join(parts[1..], sep)
  }

  /** Splits `s` at every occurrence of `sep`; an empty input gives one empty
      component, as Swift does. */
  function Split(s: Bytes, sep: byte): (parts: seq<Bytes>)
    ensures |parts| >= 1
    ensures Join(parts, sep) == s
    ensures forall i :: 0 <= i < |parts| ==> sep !in parts[i]
    decreases |s|
  {
    if |s| == 0 then [[]]
    else
      var rest := Split(s[1..], sep);
      if s[0] == sep then
        var parts := [[]] + rest;
        assert parts[1..] == rest;
        assert s == [sep] + s[1..];
        parts
      else
        var parts := [[s[0]] + rest[0]] + rest[1..];
        JoinHead(rest, sep, s[0]);
        assert s == [s[0]] + s[1..];
        parts
  }

  /** Prepending a byte to the first component prepends it to the join. */
  lemma JoinHead(parts: seq<Bytes>, sep: byte, b: byte)
    requires |parts| >= 1
    ensures Join([[b] + parts[0]] + parts[1..], sep) == [b] + Join(parts, sep)
  {
    var q := [[b] + parts[0]] + parts[1..];
    if |parts| > 1 {
      assert q[1..] == parts[1..];
    }
  }

  /** Splitting the join of separator-free components gives them back. */
  lemma {:induction false} SplitJoin(parts: seq<Bytes>, sep: byte)
    requires |parts| >= 1
    requires forall i :: 0 <= i < |parts| ==> sep !in parts[i]
    ensures Split(Join(parts, sep), sep) == parts
    decreases |Join(parts, sep)|
  {
    var s := Join(parts, sep);
    if |parts[0]| > 0 {
      var b := parts[0][0];
      var tail := [parts[0][1..]] + parts[1..];
      assert parts[0] == [b] + parts[0][1..];
      assert tail[1..] == parts[1..];
      JoinHead(tail, sep, b);
      assert [[b] + tail[0]] + tail[1..] == parts;
      assert s == [b] + Join(tail, sep);
      assert s[1..] == Join(tail, sep);
      assert b != sep by { assert b == parts[0][0]; }
      SplitJoin(tail, sep);
    } else if |parts| == 1 {
      assert s == [];
    } else {
      assert s == [sep] + Join(parts[1..], sep);
      assert s[1..] == Join(parts[1..], sep);
      SplitJoin(parts[1..], sep);
      assert [[]] + parts[1..] == parts;
    }
  }

  /** The first component is the input up to its first separator. */
  lemma {:induction false} SplitHead(s: Bytes, sep: byte)
    ensures Split(s, sep)[0] <= s
    ensures |Split(s, sep)[0]| < |s| ==> s[|Split(s, sep)[0]|] == sep
    decreases |s|
  {
    if |s| > 0 && s[0] != sep {
      var rest := Split(s[1..], sep);
      SplitHead(s[1..], sep);
      assert Split(s, sep)[0] == [s[0]] + rest[0];
      assert s == [s[0]] + s[1..];
    }
  }

  /** The first component is the input up to its first separator, and the
      whole input when there is none. */
  lemma SplitFirst(s: Bytes, sep: byte)
    ensures Split(s, sep)[0] <= s
    ensures |Split(s, sep)[0]| < |s| ==> s[|Split(s, sep)[0]|] == sep
    ensures sep !in s <==> Split(s, sep) == [s]
  {
    SplitHead(s, sep);
    if sep !in s {
      assert Join([s], sep) == s;
      SplitJoin([s], sep);
    }
  }
}
