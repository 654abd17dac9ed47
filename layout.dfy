/**
 * Chord bit layouts: interval `i` of a chord owns a field of `ws[i]` bits,
 * interval 0 the most significant, and bit `k` of a field says whether the
 * interval sounds in octave `k`. The decoders list the sounding notes as
 * semitone offsets `octave * |ws| + interval`, octave by octave.
 */
module Layout {
  import opened Bits

  /** Where field `i` starts: the total width of the fields after it. */
  function Shift(ws: seq<nat>, i: nat): nat
    requires i < |ws|
  {
    Sum(ws[i + 1..])
  }

  /** Note `o` (octave `o / |ws|`, interval `o % |ws|`) is set in `c`. */
  predicate Sounds(ws: seq<nat>, c: nat, o: nat)
    requires |ws| > 0
  {
    var iv, oct := o % |ws|, o / |ws|;
    oct < ws[iv] && Bit(c, Shift(ws, iv) + oct) == 1
  }

  /** The sounding notes below `n`, in increasing order. */
  function SoundingBelow(ws: seq<nat>, c: nat, n: nat): seq<nat>
    requires |ws| > 0
  {
    if n == 0 then [] else SoundingBelow(ws, c, n - 1) + (if Sounds(ws, c, n - 1) then [n - 1] else [])
  }

  predicate Increasing(s: seq<nat>)
  {
    forall i, j :: 0 <= i < j < |s| ==> s[i] < s[j]
  }

  // ---------------------------------------------------------------------------
  // Widths

  lemma {:induction false} SumAppend(a: seq<nat>, b: seq<nat>)
    ensures Sum(a + b) == Sum(a) + Sum(b)
    decreases |b|
  {
    if b == [] {
      assert a + b == a;
    } else {
      var n := |b| - 1;
      assert (a + b)[..|a + b| - 1] == a + b[..n];
      assert (a + b)[|a + b| - 1] == b[n];
      SumAppend(a, b[..n]);
    }
  }

  /** The fields before `i`, field `i` and the fields after it make up the whole width. */
  lemma SumAround(ws: seq<nat>, i: nat)
    requires i < |ws|
    ensures Sum(ws[..i + 1]) == Sum(ws[..i]) + ws[i]
    ensures Sum(ws) == Sum(ws[..i + 1]) + Shift(ws, i)
  {
    assert ws[..i + 1][..i] == ws[..i];
    assert ws == ws[..i + 1] + ws[i + 1..];
    SumAppend(ws[..i + 1], ws[i + 1..]);
  }

  /** Fields of one width `w`. */
  lemma {:induction false} SumUniform(ws: seq<nat>, w: nat)
    requires forall i :: 0 <= i < |ws| ==> ws[i] == w
    ensures Sum(ws) == w * |ws|
    decreases |ws|
  {
    if ws != [] {
      SumUniform(ws[..|ws| - 1], w);
    }
  }

  // ---------------------------------------------------------------------------
  // The decoded notes

  lemma {:induction false} SoundingBelowMembers(ws: seq<nat>, c: nat, n: nat)
    requires |ws| > 0
    ensures forall o: nat :: o in SoundingBelow(ws, c, n) <==> o < n && Sounds(ws, c, o)
    ensures forall i :: 0 <= i < |SoundingBelow(ws, c, n)| ==> SoundingBelow(ws, c, n)[i] < n
  {
    if n > 0 {
      var r := SoundingBelow(ws, c, n - 1);
      var extra: seq<nat> := if Sounds(ws, c, n - 1) then [n - 1] else [];
      SoundingBelowMembers(ws, c, n - 1);
      assert SoundingBelow(ws, c, n) == r + extra;
      forall o: nat
        ensures o in r + extra <==> o < n && Sounds(ws, c, o)
      {
        assert o in r + extra <==> o in r || o in extra;
      }
      forall i | 0 <= i < |r + extra|
        ensures (r + extra)[i] < n
      {
        if i < |r| {
          assert (r + extra)[i] == r[i];
        }
      }
    }
  }

  lemma {:induction false} SoundingBelowIncreasing(ws: seq<nat>, c: nat, n: nat)
    requires |ws| > 0
    ensures Increasing(SoundingBelow(ws, c, n))
  {
    if n > 0 {
      SoundingBelowIncreasing(ws, c, n - 1);
      SoundingBelowMembers(ws, c, n - 1);
    }
  }

  /** A note whose octave no field reaches never sounds, so listing further up adds nothing. */
  lemma {:induction false} SoundingBeyond(ws: seq<nat>, c: nat, n: nat, m: nat)
    requires |ws| > 0 && n <= m
    requires forall o: nat :: n <= o < m ==> ws[o % |ws|] <= o / |ws|
    ensures SoundingBelow(ws, c, m) == SoundingBelow(ws, c, n)
    decreases m - n
  {
    if n < m {
      SoundingBeyond(ws, c, n, m - 1);
    }
  }

  /** Listing one note further appends it exactly when it sounds. */
  lemma SoundingNext(ws: seq<nat>, c: nat, n: nat, r: seq<nat>, sounds: bool)
    requires |ws| > 0 && r == SoundingBelow(ws, c, n) && sounds == Sounds(ws, c, n)
    ensures sounds ==> SoundingBelow(ws, c, n + 1) == r + [n]
    ensures !sounds ==> SoundingBelow(ws, c, n + 1) == r
  {
  }

  lemma BitOfShr(x: nat, a: nat, b: nat)
    ensures Bit(Shr(x, a), b) == Bit(x, a + b)
  {
    ShrShr(x, a, b);
  }

  /** A note sounds exactly when its octave's bit is set in its interval's field, as the field decoder reads it. */
  lemma SoundsInField(ws: seq<nat>, c: nat, o: nat)
    requires |ws| > 0
    ensures Sounds(ws, c, o) <==>
      o / |ws| < ws[o % |ws|] && Bit(Unpack(c, ws)[o % |ws|], o / |ws|) == 1
  {
    var iv, oct := o % |ws|, o / |ws|;
    UnpackAt(c, ws, iv);
    if oct < ws[iv] {
      BitOfLow(Shr(c, Shift(ws, iv)), ws[iv], oct);
      BitOfShr(c, Shift(ws, iv), oct);
    }
  }

  /** Two values with the same fields sound the same notes. */
  lemma {:induction false} SameFieldsSameNotes(ws: seq<nat>, c: nat, d: nat, n: nat)
    requires |ws| > 0 && Unpack(c, ws) == Unpack(d, ws)
    ensures SoundingBelow(ws, c, n) == SoundingBelow(ws, d, n)
  {
    if n > 0 {
      SameFieldsSameNotes(ws, c, d, n - 1);
      SoundsInField(ws, c, n - 1);
      SoundsInField(ws, d, n - 1);
    }
  }

  /** Bits above the total width of the fields reach no field. */
  lemma UnpackOfLow(c: nat, ws: seq<nat>)
    ensures Unpack(Low(c, Sum(ws)), ws) == Unpack(c, ws)
  {
    PackUnpack(c, ws);
    UnpackFits(c, ws);
    UnpackPack(Unpack(c, ws), ws);
  }
}
