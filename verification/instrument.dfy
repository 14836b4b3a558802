/**
 The instrument catalogue of a channel: raw values, display names, icons and
 the alphabetical listing.
 */
module Instruments {
  import opened Wire

  datatype Instrument =
    | NoInstrument
    | Drums
    | Djembe
    | ElectricGuitar
    | AcousticGuitar
    | BassGuitar
    | Keyboard
    | Synth
    | GrandPiano
    | Accordian
    | Vocals
    | Microphone
    | Harmonica
    | Trumpet
    | Trombone
    | FrenchHorn
    | Tuba
    | Sax
    | Clarinet
    | Flute
    | Violin
    | Cello
    | DoubleBass
    | Recorder
    | Streamer
    | Listener
    | GuitarAndVocals
    | KeyboardAndVocals
    | Bodhran
    | Bassoon
    | Oboe
    | Harp
    | Viola
    | Congas
    | Bongo
    | BassVocals
    | TenorVocals
    | AltoVocals
    | SopranoVocals
    | Banjo
    | Mandolin
    | Ukelele
    | BassUkelele
    | BaritoneVocals
    | LeadVocals

  /** The cases whose raw values run from `lo` up to 44, in order. */
  function CasesFrom(lo: nat): (r: seq<Instrument>)
    requires lo <= 45
    ensures |r| == 45 - lo
    ensures forall k :: 0 <= k < |r| ==> Raw(r[k]) == lo + k
    decreases 45 - lo
  {
    if lo == 45 then [] else [FromRaw(lo).value] + CasesFrom(lo + 1)
  }

  /** Every case, in declaration order: `Instrument.allCases`. */
  const AllCases: seq<Instrument> := CasesFrom(0)

  /** The raw value: the position in declaration order. */
  function Raw(x: Instrument): u32 {
    match x
    case NoInstrument => 0
    case Drums => 1
    case Djembe => 2
    case ElectricGuitar => 3
    case AcousticGuitar => 4
    case BassGuitar => 5
    case Keyboard => 6
    case Synth => 7
    case GrandPiano => 8
    case Accordian => 9
    case Vocals => 10
    case Microphone => 11
    case Harmonica => 12
    case Trumpet => 13
    case Trombone => 14
    case FrenchHorn => 15
    case Tuba => 16
    case Sax => 17
    case Clarinet => 18
    case Flute => 19
    case Violin => 20
    case Cello => 21
    case DoubleBass => 22
    case Recorder => 23
    case Streamer => 24
    case Listener => 25
    case GuitarAndVocals => 26
    case KeyboardAndVocals => 27
    case Bodhran => 28
    case Bassoon => 29
    case Oboe => 30
    case Harp => 31
    case Viola => 32
    case Congas => 33
    case Bongo => 34
    case BassVocals => 35
    case TenorVocals => 36
    case AltoVocals => 37
    case SopranoVocals => 38
    case Banjo => 39
    case Mandolin => 40
    case Ukelele => 41
    case BassUkelele => 42
    case BaritoneVocals => 43
    case LeadVocals => 44
  }

  /** `name`: the display name. */
  function Name(x: Instrument): string {
    match x
    case NoInstrument => "None"
    case Drums => "Drums"
    case Djembe => "Djembe"
    case ElectricGuitar => "Electric Guitar"
    case AcousticGuitar => "Acoustic Guitar"
    case BassGuitar => "Bass Guitar"
    case Keyboard => "Keyboard"
    case Synth => "Synth"
    case GrandPiano => "Grand Piano"
    case Accordian => "Accordian"
    case Vocals => "Vocals"
    case Microphone => "Mic"
    case Harmonica => "Harmonica"
    case Trumpet => "Trumpet"
    case Trombone => "Trombone"
    case FrenchHorn => "French Horn"
    case Tuba => "Tuba"
    case Sax => "Saxophone"
    case Clarinet => "Clarinet"
    case Flute => "Flute"
    case Violin => "Violin"
    case Cello => "Cello"
    case DoubleBass => "Double Bass"
    case Recorder => "Recorder"
    case Streamer => "Streamer"
    case Listener => "Listener"
    case GuitarAndVocals => "Guitar / Vocals"
    case KeyboardAndVocals => "Keyboard / Vocals"
    case Bodhran => "Bodhran"
    case Bassoon => "Bassoon"
    case Oboe => "Oboe"
    case Harp => "Harp"
    case Viola => "Viola"
    case Congas => "Congas"
    case Bongo => "Bongo"
    case BassVocals => "Vocals (Bass)"
    case TenorVocals => "Vocals (Tenor)"
    case AltoVocals => "Vocals (Alto)"
    case SopranoVocals => "Vocals (Soprano)"
    case Banjo => "Banjo"
    case Mandolin => "Mandolin"
    case Ukelele => "Ukelele"
    case BassUkelele => "Bass Ukelele"
    case BaritoneVocals => "Vocals (Baritone)"
    case LeadVocals => "Lead Vocals"
  }


  /** `Instrument(rawValue:)`: raw values 0 to 44 name the cases in
      declaration order; anything else fails. */
  function FromRaw(raw: nat): (r: Option<Instrument>)
    ensures r.Some? <==> raw < 45
    ensures r.Some? ==> Raw(r.value) == raw
  {
    if raw >= 45 then None
    else if raw < 12 then Some(CaseFrom0(raw))
    else if raw < 23 then Some(CaseFrom12(raw))
    else if raw < 34 then Some(CaseFrom23(raw))
    else Some(CaseFrom34(raw))
  }

  // The table behind `FromRaw`, in four slices to keep each proof small.

  function CaseFrom0(raw: nat): (x: Instrument)
    requires 0 <= raw < 12
    ensures Raw(x) == raw
  {
    if raw == 0 then NoInstrument
    else if raw == 1 then Drums
    else if raw == 2 then Djembe
    else if raw == 3 then ElectricGuitar
    else if raw == 4 then AcousticGuitar
    else if raw == 5 then BassGuitar
    else if raw == 6 then Keyboard
    else if raw == 7 then Synth
    else if raw == 8 then GrandPiano
    else if raw == 9 then Accordian
    else if raw == 10 then Vocals
    else Microphone
  }

  function CaseFrom12(raw: nat): (x: Instrument)
    requires 12 <= raw < 23
    ensures Raw(x) == raw
  {
    if raw == 12 then Harmonica
    else if raw == 13 then Trumpet
    else if raw == 14 then Trombone
    else if raw == 15 then FrenchHorn
    else if raw == 16 then Tuba
    else if raw == 17 then Sax
    else if raw == 18 then Clarinet
    else if raw == 19 then Flute
    else if raw == 20 then Violin
    else if raw == 21 then Cello
    else DoubleBass
  }

  function CaseFrom23(raw: nat): (x: Instrument)
    requires 23 <= raw < 34
    ensures Raw(x) == raw
  {
    if raw == 23 then Recorder
    else if raw == 24 then Streamer
    else if raw == 25 then Listener
    else if raw == 26 then GuitarAndVocals
    else if raw == 27 then KeyboardAndVocals
    else if raw == 28 then Bodhran
    else if raw == 29 then Bassoon
    else if raw == 30 then Oboe
    else if raw == 31 then Harp
    else if raw == 32 then Viola
    else Congas
  }

  function CaseFrom34(raw: nat): (x: Instrument)
    requires 34 <= raw < 45
    ensures Raw(x) == raw
  {
    if raw == 34 then Bongo
    else if raw == 35 then BassVocals
    else if raw == 36 then TenorVocals
    else if raw == 37 then AltoVocals
    else if raw == 38 then SopranoVocals
    else if raw == 39 then Banjo
    else if raw == 40 then Mandolin
    else if raw == 41 then Ukelele
    else if raw == 42 then BassUkelele
    else if raw == 43 then BaritoneVocals
    else LeadVocals
  }

  /** Distinct cases have distinct raw values. */
  lemma RawInjective(x: Instrument, y: Instrument)
    requires Raw(x) == Raw(y)
    ensures x == y
  {
    assert FromRaw(Raw(x)) == Some(x) by { FromRawOfRaw(x); }
    assert FromRaw(Raw(y)) == Some(y) by { FromRawOfRaw(y); }
  }

  /** Reading back the raw value of a case gives the case. */
  lemma FromRawOfRaw(x: Instrument)
    ensures FromRaw(Raw(x)) == Some(x)
  {
    match x
    case NoInstrument =>
    case Drums =>
    case Djembe =>
    case ElectricGuitar =>
    case AcousticGuitar =>
    case BassGuitar =>
    case Keyboard =>
    case Synth =>
    case GrandPiano =>
    case Accordian =>
    case Vocals =>
    case Microphone =>
    case Harmonica =>
    case Trumpet =>
    case Trombone =>
    case FrenchHorn =>
    case Tuba =>
    case Sax =>
    case Clarinet =>
    case Flute =>
    case Violin =>
    case Cello =>
    case DoubleBass =>
    case Recorder =>
    case Streamer =>
    case Listener =>
    case GuitarAndVocals =>
    case KeyboardAndVocals =>
    case Bodhran =>
    case Bassoon =>
    case Oboe =>
    case Harp =>
    case Viola =>
    case Congas =>
    case Bongo =>
    case BassVocals =>
    case TenorVocals =>
    case AltoVocals =>
    case SopranoVocals =>
    case Banjo =>
    case Mandolin =>
    case Ukelele =>
    case BassUkelele =>
    case BaritoneVocals =>
    case LeadVocals =>
  }

  /** Every case is listed in `allCases`, at its raw value. */
  lemma PositionOfRaw(x: Instrument)
    ensures Raw(x) < 45 && AllCases[Raw(x)] == x
  {
    RawInjective(AllCases[Raw(x)], x);
  }

  /** `id`: the raw value as an Int, so distinct instruments have distinct ids. */
  function Id(x: Instrument): (id: int)
    ensures 0 <= id < 45
    ensures FromRaw(id) == Some(x)
  {
    FromRawOfRaw(x);
    Raw(x)
  }

  /** `description` is the display name. */
  function Description(x: Instrument): (d: string)
    ensures d == Name(x)
  {
    Name(x)
  }

  predicate IsVocals(x: Instrument) {
    x in {Vocals, BaritoneVocals, BassVocals, TenorVocals, AltoVocals, SopranoVocals, LeadVocals}
  }

  /** Instruments the icon switch does not list: they fall to `default`. */
  predicate HasNoIcon(x: Instrument) {
    x in {NoInstrument, Harmonica, Trombone, FrenchHorn, Tuba, Clarinet, Flute,
          Bodhran, Bassoon, Oboe, Harp, Mandolin, Ukelele, BassUkelele}
  }

  /** `icon`: a pictogram per instrument; every vocal part shares the studio
      microphone and the unlisted ones have none. */
  function Icon(x: Instrument): (icon: string)
    ensures IsVocals(x) ==> icon == "\U{1F399}"
    ensures HasNoIcon(x) <==> icon == ""
  {
    if IsVocals(x) then "\U{1F399}"
    else
      match x
    case Drums => "\U{1F941}"
    case Djembe => "\U{1FA98}"
    case ElectricGuitar => "\U{1F3B8}"
    case AcousticGuitar => "\U{1F3B8}"
    case BassGuitar => "\U{1F3B8}"
    case Keyboard => "\U{1F3B9}"
    case Synth => "\U{1F3B9}"
    case GrandPiano => "\U{1F3B9}"
    case Accordian => "\U{1FA97}"
    case Microphone => "\U{1F3A4}"
    case Trumpet => "\U{1F3BA}"
    case Sax => "\U{1F3B7}"
    case Violin => "\U{1F3BB}"
    case Cello => "\U{1F3BB}"
    case DoubleBass => "\U{1F3BB}"
    case Recorder => "\U{23FA}"
    case Streamer => "\U{1F50A}"
    case Listener => "\U{1F3A7}"
    case GuitarAndVocals => "\U{1F3B8}\U{1F399}"
    case KeyboardAndVocals => "\U{1F3B9}\U{1F399}"
    case Viola => "\U{1F3BB}"
    case Congas => "\U{1FA98}"
    case Bongo => "\U{1FA98}"
    case Banjo => "\U{1FA95}"
      case _ => ""
  }

  // ----- alphabetical order of display names (Swift `String <`) -----

  /** Lexicographic order on code points; on the ASCII display names this is
      Swift's `String` comparison. */
  predicate Less(a: string, b: string)
    decreases |a|
  {
    |b| > 0 && (|a| == 0 || a[0] < b[0] || (a[0] == b[0] && Less(a[1..], b[1..])))
  }

  lemma {:induction false} LessIrreflexive(a: string)
    ensures !Less(a, a)
    decreases |a|
  {
    if |a| > 0 { LessIrreflexive(a[1..]); }
  }

  lemma {:induction false} LessTransitive(a: string, b: string, c: string)
    requires Less(a, b) && Less(b, c)
    ensures Less(a, c)
    decreases |a|
  {
    if |a| > 0 && a[0] == b[0] && b[0] == c[0] {
      LessTransitive(a[1..], b[1..], c[1..]);
    }
  }

  lemma {:induction false} LessTotal(a: string, b: string)
    ensures Less(a, b) || a == b || Less(b, a)
    decreases |a|
  {
    if |a| > 0 && |b| > 0 && a[0] == b[0] {
      LessTotal(a[1..], b[1..]);
      if a[1..] == b[1..] {
        assert a == [a[0]] + a[1..] && b == [b[0]] + b[1..];
      }
    }
  }

  /** `a` sorts no later than `b`. */
  predicate NameLeq(a: Instrument, b: Instrument) {
    !Less(Name(b), Name(a))
  }

  lemma NameLeqTransitive(a: Instrument, b: Instrument, c: Instrument)
    requires NameLeq(a, b) && NameLeq(b, c)
    ensures NameLeq(a, c)
  {
    LessTotal(Name(a), Name(b));
    LessTotal(Name(b), Name(c));
    if Less(Name(c), Name(a)) {
      if Less(Name(a), Name(b)) { LessTransitive(Name(c), Name(a), Name(b)); }
      if Less(Name(b), Name(c)) { LessTransitive(Name(b), Name(c), Name(a)); }
    }
  }

  predicate SortedByName(s: seq<Instrument>) {
    forall i, j :: 0 <= i < j < |s| ==> NameLeq(s[i], s[j])
  }

  /** Places `x` before the first entry of `s` that does not sort before it. */
  function Insert(x: Instrument, s: seq<Instrument>): (r: seq<Instrument>)
    ensures multiset(r) == multiset(s) + multiset{x}
    decreases |s|
  {
    if |s| == 0 then [x]
    else if Less(Name(s[0]), Name(x)) then
      assert s == [s[0]] + s[1..];
      [s[0]] + Insert(x, s[1..])
    else [x] + s
  }

  /** Every entry of `r` sorts no earlier than `y`. */
  predicate AllAtLeast(y: Instrument, r: seq<Instrument>) {
    forall j :: 0 <= j < |r| ==> NameLeq(y, r[j])
  }

  lemma SortedCons(y: Instrument, r: seq<Instrument>)
    requires SortedByName(r) && AllAtLeast(y, r)
    ensures SortedByName([y] + r)
  {
    var q := [y] + r;
    assert q[0] == y;
    assert forall k :: 0 < k < |q| ==> q[k] == r[k - 1];
    forall i, j | 0 <= i < j < |q| ensures NameLeq(q[i], q[j]) {
      if i > 0 { assert NameLeq(r[i - 1], r[j - 1]); }
      else { assert NameLeq(y, r[j - 1]); }
    }
  }

  /** The tail of a sorted sequence is sorted and sorts no earlier than its
      head. */
  lemma SortedTail(s: seq<Instrument>)
    requires |s| > 0 && SortedByName(s)
    ensures SortedByName(s[1..]) && AllAtLeast(s[0], s[1..])
  {
    forall i, j | 0 <= i < j < |s[1..]| ensures NameLeq(s[1..][i], s[1..][j]) {
      assert s[1..][i] == s[i + 1] && s[1..][j] == s[j + 1];
    }
    forall j | 0 <= j < |s[1..]| ensures NameLeq(s[0], s[1..][j]) {
      assert s[1..][j] == s[j + 1];
    }
  }

  /** A lower bound of `x` and of every entry of `s` bounds the insertion of
      `x` into `s`. */
  lemma {:induction false} AtLeastInsert(y: Instrument, x: Instrument, s: seq<Instrument>)
    requires NameLeq(y, x) && AllAtLeast(y, s)
    ensures AllAtLeast(y, Insert(x, s))
    decreases |s|
  {
    if |s| > 0 {
      if Less(Name(s[0]), Name(x)) {
        assert AllAtLeast(y, s[1..]) by {
          forall j | 0 <= j < |s[1..]| ensures NameLeq(y, s[1..][j]) { assert s[1..][j] == s[j + 1]; }
        }
        AtLeastInsert(y, x, s[1..]);
        AtLeastCons(y, s[0], Insert(x, s[1..]));
      } else {
        AtLeastCons(y, x, s);
      }
    }
  }

  /** A bound of `a` and of every entry of `r` bounds `[a] + r`. */
  lemma AtLeastCons(y: Instrument, a: Instrument, r: seq<Instrument>)
    requires NameLeq(y, a) && AllAtLeast(y, r)
    ensures AllAtLeast(y, [a] + r)
  {
    forall j | 0 <= j < |[a] + r| ensures NameLeq(y, ([a] + r)[j]) {
      if j > 0 { assert ([a] + r)[j] == r[j - 1]; }
    }
  }

  /** Two names never sort before each other. */
  lemma LessAsymmetric(a: string, b: string)
    requires Less(a, b)
    ensures !Less(b, a)
  {
    if Less(b, a) {
      LessTransitive(a, b, a);
      LessIrreflexive(a);
    }
  }

  lemma {:induction false} InsertSorted(x: Instrument, s: seq<Instrument>)
    requires SortedByName(s)
    ensures SortedByName(Insert(x, s))
    decreases |s|
  {
    if |s| == 0 {
    } else if Less(Name(s[0]), Name(x)) {
      SortedTail(s);
      InsertSorted(x, s[1..]);
      LessAsymmetric(Name(s[0]), Name(x));
      AtLeastInsert(s[0], x, s[1..]);
      SortedCons(s[0], Insert(x, s[1..]));
    } else {
      forall j | 0 <= j < |s| ensures NameLeq(x, s[j]) {
        if j > 0 { NameLeqTransitive(x, s[0], s[j]); }
      }
      SortedCons(x, s);
    }
  }

  /** Insertion sort by display name. */
  function SortByName(s: seq<Instrument>): (r: seq<Instrument>)
    ensures multiset(r) == multiset(s)
    decreases |s|
  {
    if |s| == 0 then []
    else
      assert s == [s[0]] + s[1..];
      Insert(s[0], SortByName(s[1..]))
  }

  lemma {:induction false} SortByNameSorted(s: seq<Instrument>)
    ensures SortedByName(SortByName(s))
    decreases |s|
  {
    if |s| > 0 {
      SortByNameSorted(s[1..]);
      InsertSorted(s[0], SortByName(s[1..]));
    }
  }

  /** `alphabetized`: every instrument exactly once, ordered by display name. */
  function Alphabetized(): (r: seq<Instrument>)
    ensures SortedByName(r)
    ensures multiset(r) == multiset(AllCases)
    ensures forall x :: x in r
  {
    SortByNameSorted(AllCases);
    var r := SortByName(AllCases);
    forall x ensures x in r {
      PositionOfRaw(x);
      assert x in multiset(AllCases);
      assert x in multiset(r);
    }
    r
  }
}
