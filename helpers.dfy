/**
 * The debugging printers of helpers.hpp, over the uniform layout of
 * constants.hpp: a chord is a 64-bit word whose low `BITS` bits hold
 * `INTERVALS` fields of `OCTAVES` bits each, interval 0 in the most
 * significant field, bit `k` of a field standing for octave `k`.
 * `print_bits_octal` writes the fields as octal digits; `print_chord`
 * writes the offset `octave * INTERVALS + interval` of every set bit.
 */
module Helpers {
  import opened Bits
  import opened Layout

  const INTERVALS: nat := 12
  const OCTAVES: nat := 3
  /** `1 << OCTAVES` */
  const BASE: nat := 8
  /** `INTERVALS * OCTAVES` */
  const BITS: nat := 36
  /** `1UL << BITS`: one past the largest chord. */
  const MAX: nat := 0x10_0000_0000

  lemma ConstantsAgree()
    ensures BASE == Pow2(OCTAVES) && BITS == INTERVALS * OCTAVES && MAX == Pow2(BITS)
  {
    Pow2Constants();
    assert Pow2(3) == 8;
  }

  function Fields(): seq<nat>
  {
    seq(12, n => 3)
  }

  /** Every interval owns `OCTAVES` bits. */
  const LAYOUT: seq<nat> := Fields()

  lemma LayoutWidth()
    ensures |LAYOUT| == INTERVALS && Sum(LAYOUT) == BITS
  {
    SumUniform(LAYOUT, 3);
  }

  /** Interval `i`'s field starts `(INTERVALS - i - 1) * OCTAVES` bits up. */
  lemma UniformShift(i: nat, shift: nat)
    requires i < INTERVALS && shift == (INTERVALS - i - 1) * OCTAVES
    ensures Shift(LAYOUT, i) == shift
  {
    SumUniform(LAYOUT[i + 1..], 3);
  }

  // ---------------------------------------------------------------------------
  // print_bits_octal

  /** `print_bits_octal`: digit `i` is `b >> ((INTERVALS - i - 1) * OCTAVES) & (BASE - 1)`. */
  method OctalDigits(b: nat) returns (ds: seq<nat>)
    ensures ds == Unpack(b, LAYOUT)
  {
    ds := [];
    for i := 0 to INTERVALS
      invariant ds == Unpack(b, LAYOUT)[..i]
    {
      var shift := (INTERVALS - i - 1) * OCTAVES;
      UniformShift(i, shift);
      UnpackAt(b, LAYOUT, i);
      ds := ds + [Low(Shr(b, shift), OCTAVES)];
    }
    assert Unpack(b, LAYOUT)[..INTERVALS] == Unpack(b, LAYOUT);
  }

  /** A digit sequence read in base `BASE`, most significant digit first. */
  function OctalValue(ds: seq<nat>): nat
  {
    if ds == [] then 0 else BASE * OctalValue(ds[..|ds| - 1]) + ds[|ds| - 1]
  }

  /** Packing fields of `OCTAVES` bits is reading the digits in base `BASE`. */
  lemma {:induction false} PackIsOctal(ds: seq<nat>, ws: seq<nat>)
    requires |ds| == |ws| && forall j :: 0 <= j < |ws| ==> ws[j] == OCTAVES
    ensures Pack(ds, ws) == OctalValue(ds)
  {
    if ds != [] {
      var n := |ds| - 1;
      var p := Pack(ds[..n], ws[..n]);
      PackIsOctal(ds[..n], ws[..n]);
      ShlMul(p, ws[n]);
      assert Pow2(3) == 8;
      assert Shl(p, ws[n]) == BASE * p;
    }
  }

  /**
   * The digits `print_bits_octal` writes are octal digits, and for a chord
   * below `MAX` they are its base-8 numeral, twelve digits wide.
   */
  lemma OctalDigitsMeaning(b: nat)
    ensures |Unpack(b, LAYOUT)| == INTERVALS
    ensures forall i :: 0 <= i < INTERVALS ==> Unpack(b, LAYOUT)[i] < BASE
    ensures b < MAX ==> OctalValue(Unpack(b, LAYOUT)) == b
  {
    UnpackFits(b, LAYOUT);
    assert Pow2(OCTAVES) == BASE;
    PackUnpack(b, LAYOUT);
    LayoutWidth();
    PackIsOctal(Unpack(b, LAYOUT), LAYOUT);
    if b < MAX {
      Pow2Constants();
      LowOfSmall(b, BITS);
    }
  }

  /** Twelve octal digits come back from the chord they spell. */
  lemma OctalRoundTrip(ds: seq<nat>)
    requires |ds| == INTERVALS && forall i :: 0 <= i < INTERVALS ==> ds[i] < BASE
    ensures Unpack(OctalValue(ds), LAYOUT) == ds
  {
    assert Pow2(OCTAVES) == BASE;
    assert Fits(ds, LAYOUT);
    PackIsOctal(ds, LAYOUT);
    UnpackPack(ds, LAYOUT);
  }

  // ---------------------------------------------------------------------------
  // print_chord

  /** `print_chord`: octave by octave, interval by interval, the offset of every set bit. */
  method ChordNotes(c: nat) returns (r: seq<nat>)
    ensures r == SoundingBelow(LAYOUT, c, BITS)
  {
    r := [];
    for octave := 0 to OCTAVES
      invariant r == SoundingBelow(LAYOUT, c, octave * INTERVALS)
    {
      var base := octave * INTERVALS;
      r := OctaveNotes(c, octave, base, r);
      NextOctave(octave, base);
    }
  }

  lemma NextOctave(octave: nat, base: nat)
    requires base == octave * INTERVALS
    ensures base + INTERVALS == (octave + 1) * INTERVALS
  {
  }

  /** One pass of the outer loop of `print_chord`; `base` is `octave * INTERVALS`, hoisted. */
  method OctaveNotes(c: nat, octave: nat, base: nat, r0: seq<nat>) returns (r: seq<nat>)
    requires octave < OCTAVES && base == octave * INTERVALS
    requires r0 == SoundingBelow(LAYOUT, c, base)
    ensures r == SoundingBelow(LAYOUT, c, base + INTERVALS)
  {
    r := r0;
    ghost var listed := base;
    for interval := 0 to INTERVALS
      invariant listed == base + interval
      invariant r == SoundingBelow(LAYOUT, c, listed)
    {
      var shift := (INTERVALS - interval - 1) * OCTAVES;
      var note := base + interval;
      NoteStep(c, octave, interval, shift, listed, r);
      if Shr(c, shift + octave) % 2 == 1 {
        r := r + [note];
      }
      listed := listed + 1;
    }
  }

  /** One interval of the inner loop: the note is written exactly when its bit is set. */
  lemma NoteStep(c: nat, octave: nat, interval: nat, shift: nat, note: nat, r: seq<nat>)
    requires octave < OCTAVES && interval < INTERVALS
    requires shift == (INTERVALS - interval - 1) * OCTAVES && note == octave * INTERVALS + interval
    requires r == SoundingBelow(LAYOUT, c, note)
    ensures Shr(c, shift + octave) % 2 == 1 ==> SoundingBelow(LAYOUT, c, note + 1) == r + [note]
    ensures Shr(c, shift + octave) % 2 != 1 ==> SoundingBelow(LAYOUT, c, note + 1) == r
  {
    SoundsUniform(c, octave, interval, shift, note);
    SoundingNext(LAYOUT, c, note, r, Shr(c, shift + octave) % 2 == 1);
  }

  /** Note `octave * INTERVALS + interval` sounds exactly when bit `shift + octave` is set. */
  lemma SoundsUniform(c: nat, octave: nat, interval: nat, shift: nat, note: nat)
    requires octave < OCTAVES && interval < INTERVALS
    requires shift == (INTERVALS - interval - 1) * OCTAVES && note == octave * INTERVALS + interval
    ensures Sounds(LAYOUT, c, note) <==> Shr(c, shift + octave) % 2 == 1
  {
    assert |LAYOUT| == INTERVALS && LAYOUT[interval] == OCTAVES;
    assert note % INTERVALS == interval && note / INTERVALS == octave;
    UniformShift(interval, shift);
  }

  /**
   * The offsets `print_chord` writes: exactly the `o` below `BITS` whose bit
   * `(INTERVALS - o % INTERVALS - 1) * OCTAVES + o / INTERVALS` is set, in
   * increasing order, so each at most once.
   */
  lemma ChordNotesMeaning(c: nat)
    ensures forall o: nat :: o in SoundingBelow(LAYOUT, c, BITS) <==>
      o < BITS && Bit(c, (INTERVALS - o % INTERVALS - 1) * OCTAVES + o / INTERVALS) == 1
    ensures Increasing(SoundingBelow(LAYOUT, c, BITS))
  {
    SoundingBelowMembers(LAYOUT, c, BITS);
    SoundingBelowIncreasing(LAYOUT, c, BITS);
    forall o: nat | o < BITS
      ensures Sounds(LAYOUT, c, o) <==> Bit(c, (INTERVALS - o % INTERVALS - 1) * OCTAVES + o / INTERVALS) == 1
    {
      UniformShift(o % INTERVALS, (INTERVALS - o % INTERVALS - 1) * OCTAVES);
    }
  }

  /** Each written offset is the octave bit of the matching octal digit. */
  lemma NotesAreDigitBits(c: nat, o: nat)
    requires o < BITS
    ensures o in SoundingBelow(LAYOUT, c, BITS) <==> Bit(Unpack(c, LAYOUT)[o % INTERVALS], o / INTERVALS) == 1
  {
    SoundingBelowMembers(LAYOUT, c, BITS);
    SoundsInField(LAYOUT, c, o);
  }

  /** Both printers look only at the low `BITS` bits of the 64-bit word. */
  lemma HighBitsIgnored(b: nat, d: nat)
    requires Low(b, BITS) == Low(d, BITS)
    ensures Unpack(b, LAYOUT) == Unpack(d, LAYOUT)
    ensures SoundingBelow(LAYOUT, b, BITS) == SoundingBelow(LAYOUT, d, BITS)
  {
    LayoutWidth();
    UnpackOfLow(b, LAYOUT);
    UnpackOfLow(d, LAYOUT);
    SameFieldsSameNotes(LAYOUT, b, d, BITS);
  }
}
