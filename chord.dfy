/**
 * The 32-bit chord encoding of chord.hpp: twelve interval fields, three bits
 * for intervals 0 to 7 and two bits for intervals 8 to 11, interval 0 in the
 * most significant field. `from_string` packs a 12-digit string into the
 * fields; the printers decode the fields as digits, as bit groups and as
 * semitone offsets.
 */
module Chord {
  import opened Outcomes
  import opened Bits
  import opened Layout

  const INTERVALS: nat := 12
  /** Width of interval `i`'s field. */
  function Width(i: int): nat
  {
    if i < 8 then 3 else 2
  }

  function Widths(): seq<nat>
  {
    seq(12, n => Width(n))
  }

  /** `BITS_PER_INTERVAL`: `{3, 3, 3, 3, 3, 3, 3, 3, 2, 2, 2, 2}` */
  const BITS_PER_INTERVAL: seq<nat> := Widths()
  const BITS: nat := 32
  /** `2^BITS`: every chord is below it. */
  const LIMIT: nat := 0x1_0000_0000

  /** `from_string` throws unless it gets exactly one character per interval. */
  datatype ChordError = WrongLength(size: nat)

  lemma LayoutFacts()
    ensures |BITS_PER_INTERVAL| == INTERVALS
    ensures Sum(BITS_PER_INTERVAL) == BITS
  {
    var ws := BITS_PER_INTERVAL;
    assert ws == ws[..8] + ws[8..];
    SumUniform(ws[..8], 3);
    SumUniform(ws[8..], 2);
    SumAppend(ws[..8], ws[8..]);
  }

  /** Intervals 0 to 7 have three bits, intervals 8 to 11 two. */
  lemma WidthAt(i: nat)
    requires i < INTERVALS
    ensures BITS_PER_INTERVAL[i] == if i < 8 then 3 else 2
  {
  }

  /** `*std::max_element(...)` of the widths: the number of octaves `print_intervals` visits. */
  const MAX_WIDTH: nat := 3

  lemma WidestField(i: nat)
    requires i < INTERVALS
    ensures BITS_PER_INTERVAL[i] <= MAX_WIDTH && BITS_PER_INTERVAL[0] == MAX_WIDTH
  {
    WidthAt(i);
  }

  /** Total width of fields `0` to `i - 1`. */
  function FieldEnd(i: nat): nat
  {
    if i <= 8 then 3 * i else 24 + 2 * (i - 8)
  }

  lemma {:induction false} SumBefore(i: nat)
    requires i <= INTERVALS
    ensures Sum(BITS_PER_INTERVAL[..i]) == FieldEnd(i)
  {
    if i > 0 {
      SumBefore(i - 1);
      assert BITS_PER_INTERVAL[..i][..i - 1] == BITS_PER_INTERVAL[..i - 1];
      WidthAt(i - 1);
    }
  }

  /** Field `i` starts where `BITS` minus the widths of fields 0 to `i` says. */
  lemma ShiftAt(i: nat)
    requires i < INTERVALS
    ensures FieldEnd(i + 1) == FieldEnd(i) + BITS_PER_INTERVAL[i]
    ensures Shift(BITS_PER_INTERVAL, i) == BITS - FieldEnd(i + 1)
  {
    SumAround(BITS_PER_INTERVAL, i);
    SumBefore(i + 1);
    SumBefore(INTERVALS);
    assert BITS_PER_INTERVAL[..INTERVALS] == BITS_PER_INTERVAL;
    WidthAt(i);
  }

  // ---------------------------------------------------------------------------
  // from_string

  /** `in[i] - '0'` as an `int`, converted to `uint32` by `out |= n`. */
  function DigitBits(ch: char): nat
  {
    (ch as int - '0' as int) % 0x1_0000_0000
  }

  /** The accumulator after the first `k` characters: shifted left by the field width in 32 bits, then OR-ed with the digit. */
  function Accumulate(s: string, k: nat): (r: nat)
    requires k <= |s| && k <= INTERVALS
    ensures r < LIMIT
  {
    if k == 0 then 0
    else
      var shifted := Low(Shl(Accumulate(s, k - 1), BITS_PER_INTERVAL[k - 1]), BITS);
      LowBound(Shl(Accumulate(s, k - 1), BITS_PER_INTERVAL[k - 1]), BITS);
      Pow2Constants();
      BitOrBound(shifted, DigitBits(s[k - 1]), BITS);
      BitOr(shifted, DigitBits(s[k - 1]))
  }

  /** Every character is a digit that fits in its interval's field. */
  predicate InRange(s: string)
  {
    |s| == INTERVALS &&
    forall i :: 0 <= i < INTERVALS ==> 0 <= s[i] as int - '0' as int < Pow2(BITS_PER_INTERVAL[i])
  }

  /** The digits of an in-range string. */
  function DigitsOf(s: string): (ds: seq<nat>)
    ensures |ds| == |s|
  {
    seq(|s|, i requires 0 <= i < |s| => DigitBits(s[i]))
  }

  method FromString(s: string) returns (r: Result<nat, ChordError>)
    ensures r.Err? <==> |s| != INTERVALS
    ensures r.Err? ==> r.error == WrongLength(|s|)
    ensures r.Ok? ==> r.value == Accumulate(s, INTERVALS) && r.value < LIMIT
    ensures r.Ok? && InRange(s) ==> r.value == Pack(DigitsOf(s), BITS_PER_INTERVAL)
  {
    if |s| != INTERVALS {
      return Err(WrongLength(|s|));
    }
    var out: nat := 0;
    for i := 0 to INTERVALS
      invariant out == Accumulate(s, i)
    {
      var bits := BITS_PER_INTERVAL[i];
      out := Low(Shl(out, bits), BITS);
      var n := s[i] as int - '0' as int;
      out := BitOr(out, n % 0x1_0000_0000);
    }
    if InRange(s) {
      PackedDigits(s);
    }
    return Ok(out);
  }

  /** One step of the loop on a digit that fits: the truncation and the OR are a plain shift and add. */
  lemma PackStep(p: nat, w: nat, d: nat, total: nat, next: nat)
    requires p < Pow2(total) && d < Pow2(w) && next == total + w <= BITS
    ensures BitOr(Low(Shl(p, w), BITS), d) == Shl(p, w) + d
    ensures Shl(p, w) + d < Pow2(next)
  {
    var q := Pow2(w);
    var x := Shl(p, w);
    ShlMul(p, w);
    assert x == p * q;
    assert (p + 1) * q == p * q + q;
    MulMonotone(p + 1, Pow2(total), q);
    Pow2Add(total, w);
    assert x + d < Pow2(total + w);
    Pow2Monotone(total + w, BITS);
    LowOfSmall(x, BITS);
    BitOrShifted(p, w, d);
  }

  /** An in-range character's digit is its numeric value, at most seven. */
  lemma DigitAt(s: string, i: nat)
    requires InRange(s) && i < INTERVALS
    ensures DigitsOf(s)[i] == DigitBits(s[i]) == s[i] as int - '0' as int < Pow2(BITS_PER_INTERVAL[i]) <= 8
  {
    WidthAt(i);
    Pow2Monotone(BITS_PER_INTERVAL[i], 3);
    assert Pow2(3) == 8;
  }

  /** The packed value of a prefix is the shorter prefix shifted past the next field, plus that field's digit. */
  lemma PackPrefix(ds: seq<nat>, ws: seq<nat>, k: nat)
    requires 0 < k <= |ds| == |ws|
    ensures Pack(ds[..k], ws[..k]) == Shl(Pack(ds[..k - 1], ws[..k - 1]), ws[k - 1]) + ds[k - 1]
  {
    assert ds[..k][..k - 1] == ds[..k - 1] && ws[..k][..k - 1] == ws[..k - 1];
  }

  /** One character of the loop: the accumulator after `k` characters in terms of the one before. */
  lemma AccumulateStep(s: string, j: nat, k: nat)
    requires k == j + 1 && k <= |s| && k <= INTERVALS
    ensures Accumulate(s, k) == BitOr(Low(Shl(Accumulate(s, j), BITS_PER_INTERVAL[j]), BITS), DigitBits(s[j]))
  {
  }

  /** A step of the loop on an in-range digit adds the digit below the shifted accumulator. */
  lemma AccumulateFits(s: string, k: nat)
    requires InRange(s) && 0 < k <= INTERVALS
    requires Accumulate(s, k - 1) < Pow2(FieldEnd(k - 1))
    ensures Accumulate(s, k) == Shl(Accumulate(s, k - 1), BITS_PER_INTERVAL[k - 1]) + DigitsOf(s)[k - 1]
    ensures Accumulate(s, k) < Pow2(FieldEnd(k))
  {
    var p, w, d := Accumulate(s, k - 1), BITS_PER_INTERVAL[k - 1], DigitBits(s[k - 1]);
    ShiftAt(k - 1);
    DigitAt(s, k - 1);
    AccumulateStep(s, k - 1, k);
    PackStep(p, w, d, FieldEnd(k - 1), FieldEnd(k));
  }

  /** For in-range digits the accumulator is the packed digits of the prefix, which fit in its fields. */
  lemma {:induction false} AccumulatePacks(s: string, k: nat)
    requires InRange(s) && k <= INTERVALS
    ensures Accumulate(s, k) == Pack(DigitsOf(s)[..k], BITS_PER_INTERVAL[..k])
    ensures Accumulate(s, k) < Pow2(FieldEnd(k))
  {
    if k > 0 {
      AccumulatePacks(s, k - 1);
      PackPrefix(DigitsOf(s), BITS_PER_INTERVAL, k);
      AccumulateFits(s, k);
    }
  }

  /** `from_string` of in-range digits is the sum of each digit shifted past the fields after it. */
  lemma PackedDigits(s: string)
    requires InRange(s)
    ensures Fits(DigitsOf(s), BITS_PER_INTERVAL)
    ensures Accumulate(s, INTERVALS) == Pack(DigitsOf(s), BITS_PER_INTERVAL)
  {
    AccumulatePacks(s, INTERVALS);
    var ds := DigitsOf(s);
    assert ds[..INTERVALS] == ds && BITS_PER_INTERVAL[..INTERVALS] == BITS_PER_INTERVAL;
    assert Accumulate(s, INTERVALS) == Pack(ds, BITS_PER_INTERVAL);
    forall i | 0 <= i < INTERVALS
      ensures ds[i] < Pow2(BITS_PER_INTERVAL[i])
    {
      DigitAt(s, i);
    }
  }

  /** Leading zeros contribute nothing. */
  lemma {:induction false} ZeroPrefix(s: string, k: nat)
    requires k <= |s| && k <= INTERVALS
    requires forall i :: 0 <= i < k ==> s[i] == '0'
    ensures Accumulate(s, k) == 0
  {
    if k > 0 {
      ZeroPrefix(s, k - 1);
      AccumulateStep(s, k - 1, k);
      ShlZero(BITS_PER_INTERVAL[k - 1]);
      LowOfSmall(0, BITS);
      BitOrZero(0);
    }
  }

  /** A digit read into an empty accumulator is the accumulator's new value. */
  lemma FirstDigit(w: nat, d: nat)
    ensures BitOr(Low(Shl(0, w), BITS), d) == d
  {
    ShlZero(w);
    LowOfSmall(0, BITS);
    BitOrZeroLeft(d);
  }

  /** The last digit 4 overflows the two bits of interval 11. */
  lemma LastDigitFour(s: string)
    requires |s| == INTERVALS && s[11] == '4'
    requires forall i :: 0 <= i < 11 ==> s[i] == '0'
    ensures !InRange(s) && Accumulate(s, INTERVALS) == 4
  {
    var w, d := BITS_PER_INTERVAL[11], DigitBits(s[11]);
    assert d == 4;
    ZeroPrefix(s, 11);
    AccumulateStep(s, 11, 12);
    assert Accumulate(s, 12) == BitOr(Low(Shl(0, w), BITS), d);
    FirstDigit(w, d);
    assert Accumulate(s, 12) == 4;
    WidthAt(11);
    assert Pow2(2) == 4;
  }

  /** The digit 1 in interval 10 is the same value. */
  lemma TenthDigitOne(t: string)
    requires |t| == INTERVALS && t[10] == '1' && t[11] == '0'
    requires forall i :: 0 <= i < 10 ==> t[i] == '0'
    ensures InRange(t) && Accumulate(t, INTERVALS) == 4
  {
    TenthDigitValue(t);
    forall i | 0 <= i < INTERVALS
      ensures t[i] == '0' || t[i] == '1'
    {
      if i < 10 {
        assert t[i] == '0';
      }
    }
    InRangeOfSmall(t);
  }

  lemma TenthDigitValue(t: string)
    requires |t| == INTERVALS && t[10] == '1' && t[11] == '0'
    requires forall i :: 0 <= i < 10 ==> t[i] == '0'
    ensures Accumulate(t, INTERVALS) == 4
  {
    var ws := BITS_PER_INTERVAL;
    var d1, d0 := DigitBits(t[10]), DigitBits(t[11]);
    assert d1 == 1 && d0 == 0;
    ZeroPrefix(t, 10);
    AccumulateStep(t, 10, 11);
    assert Accumulate(t, 11) == BitOr(Low(Shl(0, ws[10]), BITS), d1);
    FirstDigit(ws[10], d1);
    assert Accumulate(t, 11) == 1;
    AccumulateStep(t, 11, 12);
    assert Accumulate(t, 12) == BitOr(Low(Shl(1, ws[11]), BITS), d0);
    WidthAt(11);
    assert Shl(1, ws[11]) == 4 by {
      ShlMul(1, 2);
      assert Pow2(2) == 4;
    }
    assert Low(4, BITS) == 4 by {
      Pow2Constants();
      LowOfSmall(4, BITS);
    }
    BitOrZero(4);
    assert Accumulate(t, 12) == 4;
  }

  /** A string of 0s and 1s is in range: every field has at least one bit. */
  lemma InRangeOfSmall(t: string)
    requires |t| == INTERVALS && forall i :: 0 <= i < INTERVALS ==> t[i] == '0' || t[i] == '1'
    ensures InRange(t)
  {
    forall i | 0 <= i < INTERVALS
      ensures 0 <= t[i] as int - '0' as int < Pow2(BITS_PER_INTERVAL[i])
    {
      WidthAt(i);
      assert Pow2(1) == 2;
      Pow2Monotone(1, BITS_PER_INTERVAL[i]);
    }
  }

  /**
   * There is no range check: the digit 4 does not fit the two bits of
   * interval 11 and spills into interval 10, so "000000000004" encodes the
   * same chord as "000000000010".
   */
  lemma DigitSpills(s: string, t: string)
    requires |s| == |t| == INTERVALS
    requires forall i :: 0 <= i < 11 ==> s[i] == '0'
    requires forall i :: 0 <= i < 10 ==> t[i] == '0'
    requires s[11] == '4' && t[10] == '1' && t[11] == '0'
    ensures !InRange(s) && InRange(t)
    ensures Accumulate(s, INTERVALS) == Accumulate(t, INTERVALS) == 4
  {
    LastDigitFour(s);
    TenthDigitOne(t);
  }

  // ---------------------------------------------------------------------------
  // print_mixed

  /** `print_mixed`: field `i` is `(c >> shift) & ((1 << bits) - 1)` with `shift` counting down from 32. */
  method Mixed(c: nat) returns (ds: seq<nat>)
    ensures ds == Unpack(c, BITS_PER_INTERVAL)
  {
    var ws := BITS_PER_INTERVAL;
    ds := [];
    var shift: int := BITS;
    for i := 0 to INTERVALS
      invariant shift == BITS - FieldEnd(i)
      invariant ds == Unpack(c, ws)[..i]
    {
      var bits := ws[i];
      ShiftAt(i);
      shift := shift - bits;
      UnpackAt(c, ws, i);
      ds := ds + [Low(Shr(c, shift), bits)];
    }
    assert Unpack(c, ws)[..INTERVALS] == Unpack(c, ws);
  }

  /** The digit string `print_mixed` writes. */
  function MixedText(c: nat): string
  {
    var ds := Unpack(c, BITS_PER_INTERVAL);
    FieldDigitBounds(c);
    seq(INTERVALS, i requires 0 <= i < INTERVALS => NumeralOf(ds[i]))
  }

  /** Every field is at most three bits wide, so its digit is one octal numeral. */
  lemma FieldDigitBounds(c: nat)
    ensures forall i :: 0 <= i < INTERVALS ==> Unpack(c, BITS_PER_INTERVAL)[i] < 8
  {
    UnpackFits(c, BITS_PER_INTERVAL);
    forall i | 0 <= i < INTERVALS
      ensures Unpack(c, BITS_PER_INTERVAL)[i] < 8
    {
      WidthAt(i);
      Pow2Monotone(BITS_PER_INTERVAL[i], 3);
    }
  }

  function NumeralOf(d: nat): char
    requires d < 8
  {
    ('0' as int + d) as char
  }

  /** Decoding with `print_mixed` gives back the digits passed to `from_string`. */
  lemma MixedOfFromString(s: string)
    requires InRange(s)
    ensures Unpack(Accumulate(s, INTERVALS), BITS_PER_INTERVAL) == DigitsOf(s)
  {
    PackedDigits(s);
    UnpackPack(DigitsOf(s), BITS_PER_INTERVAL);
  }

  /** Every 32-bit chord is recovered from its fields. */
  lemma FieldsRecoverChord(c: nat)
    requires c < LIMIT
    ensures Pack(Unpack(c, BITS_PER_INTERVAL), BITS_PER_INTERVAL) == c
  {
    PackUnpack(c, BITS_PER_INTERVAL);
    LayoutFacts();
    Pow2Constants();
    LowOfSmall(c, BITS);
  }

  /** Reading back what `print_mixed` writes with `from_string` gives every 32-bit chord back. */
  lemma FromStringOfMixed(c: nat)
    requires c < LIMIT
    ensures InRange(MixedText(c)) && Accumulate(MixedText(c), INTERVALS) == c
  {
    var ws := BITS_PER_INTERVAL;
    var s := MixedText(c);
    var ds := Unpack(c, ws);
    UnpackFits(c, ws);
    forall i | 0 <= i < INTERVALS
      ensures s[i] as int - '0' as int == ds[i]
    {
    }
    assert DigitsOf(s) == ds;
    PackedDigits(s);
    FieldsRecoverChord(c);
  }

  // ---------------------------------------------------------------------------
  // print_binary

  /** The `w` low bits of `x`, most significant first. */
  function BitsOf(x: nat, w: nat): (r: seq<nat>)
    ensures |r| == w
  {
    if w == 0 then [] else BitsOf(x / 2, w - 1) + [x % 2]
  }

  /** A bit string read as a binary number, most significant bit first. */
  function Value(bs: seq<nat>): nat
  {
    if bs == [] then 0 else 2 * Value(bs[..|bs| - 1]) + bs[|bs| - 1]
  }

  lemma {:induction false} ValueOfBits(x: nat, w: nat)
    ensures Value(BitsOf(x, w)) == Low(x, w)
  {
    if w > 0 {
      ValueOfBits(x / 2, w - 1);
      assert BitsOf(x, w)[..w - 1] == BitsOf(x / 2, w - 1);
    }
  }

  lemma {:induction false} BitsOfAt(x: nat, w: nat, j: nat)
    requires j < w
    ensures BitsOf(x, w)[j] == Bit(x, w - 1 - j)
  {
    if j < w - 1 {
      BitsOfAt(x / 2, w - 1, j);
      assert Shr(x, w - 1 - j) == Shr(x / 2, w - 2 - j);
    }
  }

  /** `print_binary`: bit `i` of `c` for `i` from 31 down, one group per field. */
  method Binary(c: nat) returns (groups: seq<seq<nat>>)
    ensures |groups| == INTERVALS
    ensures forall k :: 0 <= k < INTERVALS ==>
      groups[k] == BitsOf(Shr(c, Shift(BITS_PER_INTERVAL, k)), BITS_PER_INTERVAL[k])
  {
    var ws := BITS_PER_INTERVAL;
    groups := [];
    var i: int := BITS - 1;
    for k := 0 to INTERVALS
      invariant i == BITS - 1 - FieldEnd(k)
      invariant |groups| == k
      invariant forall q :: 0 <= q < k ==> groups[q] == BitsOf(Shr(c, Shift(ws, q)), ws[q])
    {
      ShiftAt(k);
      var group;
      group, i := Group(c, i, ws[k]);
      groups := groups + [group];
    }
  }

  /** The inner loop of `print_binary`: `bits` bits of `c` from position `i` down. */
  method Group(c: nat, i: nat, bits: nat) returns (group: seq<nat>, next: int)
    requires bits <= i + 1
    ensures next == i - bits
    ensures group == BitsOf(Shr(c, i + 1 - bits), bits)
  {
    group := [];
    next := i;
    for j := 0 to bits
      invariant next == i - j
      invariant |group| == j
      invariant forall q :: 0 <= q < j ==> group[q] == Bit(c, i - q)
    {
      group := group + [Shr(c, next) % 2];
      next := next - 1;
    }
    var lo := i + 1 - bits;
    forall q | 0 <= q < bits
      ensures group[q] == BitsOf(Shr(c, lo), bits)[q]
    {
      BitsOfAt(Shr(c, lo), bits, q);
      BitOfShr(c, lo, bits - 1 - q);
    }
  }

  /** Each group `print_binary` writes, read in binary, is the digit `print_mixed` writes for that field. */
  lemma BinaryAgreesWithMixed(c: nat, k: nat)
    requires k < INTERVALS
    ensures Value(BitsOf(Shr(c, Shift(BITS_PER_INTERVAL, k)), BITS_PER_INTERVAL[k])) == Unpack(c, BITS_PER_INTERVAL)[k]
  {
    LayoutFacts();
    ValueOfBits(Shr(c, Shift(BITS_PER_INTERVAL, k)), BITS_PER_INTERVAL[k]);
    UnpackAt(c, BITS_PER_INTERVAL, k);
  }

  // ---------------------------------------------------------------------------
  // print_intervals

  /**
   * `print_intervals`: octave by octave, interval by interval until the first
   * field too narrow for that octave, the offset `octave * 12 + interval` of
   * every set bit.
   */
  method Intervals(c: nat) returns (r: seq<nat>)
    ensures r == SoundingBelow(BITS_PER_INTERVAL, c, 36)
  {
    r := [];
    for octave := 0 to MAX_WIDTH
      invariant r == SoundingBelow(BITS_PER_INTERVAL, c, INTERVALS * octave)
    {
      r := OctaveIntervals(c, octave, r);
      NextOctave(octave);
    }
  }

  lemma NextOctave(octave: nat)
    ensures INTERVALS * octave + INTERVALS == INTERVALS * (octave + 1)
  {
  }

  /** One pass of the outer loop of `print_intervals`. */
  method OctaveIntervals(c: nat, octave: nat, r0: seq<nat>) returns (r: seq<nat>)
    requires r0 == SoundingBelow(BITS_PER_INTERVAL, c, INTERVALS * octave)
    ensures r == SoundingBelow(BITS_PER_INTERVAL, c, INTERVALS * octave + INTERVALS)
  {
    var ws := BITS_PER_INTERVAL;
    r := r0;
    var shift: int := BITS;
    var interval := 0;
    ghost var listed := INTERVALS * octave;
    while interval < INTERVALS
      invariant 0 <= interval <= INTERVALS
      invariant shift == BITS - FieldEnd(interval)
      invariant listed == INTERVALS * octave + interval
      invariant r == SoundingBelow(ws, c, listed)
    {
      if ws[interval] <= octave {
        NarrowFieldsSilent(c, octave, interval, listed);
        return;
      }
      shift, r := IntervalNote(c, octave, interval, shift, listed, r);
      interval := interval + 1;
      listed := listed + 1;
    }
  }

  /** One interval of the inner loop of `print_intervals`, past the `break` test. */
  method IntervalNote(c: nat, octave: nat, interval: nat, shift0: int, ghost listed: nat, r0: seq<nat>)
    returns (shift: int, r: seq<nat>)
    requires interval < INTERVALS && octave < BITS_PER_INTERVAL[interval]
    requires shift0 == BITS - FieldEnd(interval) && listed == INTERVALS * octave + interval
    requires r0 == SoundingBelow(BITS_PER_INTERVAL, c, listed)
    ensures shift == BITS - FieldEnd(interval + 1)
    ensures r == SoundingBelow(BITS_PER_INTERVAL, c, listed + 1)
  {
    var note := INTERVALS * octave + interval;
    ShiftAt(interval);
    shift := shift0 - BITS_PER_INTERVAL[interval];
    var bit := Shr(c, shift + octave) % 2;
    ListStep(c, octave, interval, listed, shift, r0, bit);
    r := r0;
    if bit == 1 {
      r := r + [note];
    }
  }

  /** Where the bit of note `o` sits, in the terms `print_intervals` computes it. */
  lemma SoundsAt(c: nat, octave: nat, interval: nat, o: nat, pos: nat)
    requires interval < INTERVALS && o == INTERVALS * octave + interval
    requires pos == BITS - FieldEnd(interval + 1) + octave
    ensures Sounds(BITS_PER_INTERVAL, c, o) <==> octave < BITS_PER_INTERVAL[interval] && Bit(c, pos) == 1
  {
    assert o % INTERVALS == interval && o / INTERVALS == octave;
    ShiftAt(interval);
  }

  /** One interval of the inner loop of `print_intervals`: the note is listed exactly when its bit is set. */
  lemma ListStep(c: nat, octave: nat, interval: nat, note: nat, shift: nat, r: seq<nat>, bit: nat)
    requires interval < INTERVALS && octave < BITS_PER_INTERVAL[interval]
    requires note == INTERVALS * octave + interval && shift == BITS - FieldEnd(interval + 1)
    requires r == SoundingBelow(BITS_PER_INTERVAL, c, note) && bit == Shr(c, shift + octave) % 2
    ensures bit == 1 ==> SoundingBelow(BITS_PER_INTERVAL, c, note + 1) == r + [note]
    ensures bit != 1 ==> SoundingBelow(BITS_PER_INTERVAL, c, note + 1) == r
  {
    SoundsAt(c, octave, interval, note, shift + octave);
    SoundingNext(BITS_PER_INTERVAL, c, note, r, bit == 1);
  }

  /** Past the first field narrower than the octave, no interval of that octave sounds. */
  lemma NarrowFieldsSilent(c: nat, octave: nat, interval: nat, n: nat)
    requires interval < INTERVALS && BITS_PER_INTERVAL[interval] <= octave
    requires n == INTERVALS * octave + interval
    ensures SoundingBelow(BITS_PER_INTERVAL, c, INTERVALS * octave + INTERVALS) == SoundingBelow(BITS_PER_INTERVAL, c, n)
  {
    var ws := BITS_PER_INTERVAL;
    LayoutFacts();
    var m := INTERVALS * octave + INTERVALS;
    forall o: nat | n <= o < m
      ensures ws[o % |ws|] <= o / |ws|
    {
      assert o % 12 == o - 12 * octave && o / 12 == octave;
      WidthAt(o % 12);
      WidthAt(interval);
    }
    SoundingBeyond(ws, c, n, m);
  }

  /**
   * The offsets `print_intervals` reports: exactly the notes whose octave bit
   * is set in their interval's field (octaves 0 to 2 for intervals 0 to 7,
   * 0 and 1 for intervals 8 to 11), in increasing order.
   */
  lemma IntervalsMeaning(c: nat)
    ensures forall o: nat :: o in SoundingBelow(BITS_PER_INTERVAL, c, 36) <==>
      o < 36 && o / 12 < BITS_PER_INTERVAL[o % 12] && Bit(Unpack(c, BITS_PER_INTERVAL)[o % 12], o / 12) == 1
    ensures Increasing(SoundingBelow(BITS_PER_INTERVAL, c, 36))
  {
    LayoutFacts();
    SoundingBelowMembers(BITS_PER_INTERVAL, c, 36);
    SoundingBelowIncreasing(BITS_PER_INTERVAL, c, 36);
    forall o: nat
      ensures Sounds(BITS_PER_INTERVAL, c, o) <==>
        o / 12 < BITS_PER_INTERVAL[o % 12] && Bit(Unpack(c, BITS_PER_INTERVAL)[o % 12], o / 12) == 1
    {
      SoundsInField(BITS_PER_INTERVAL, c, o);
    }
  }
}
