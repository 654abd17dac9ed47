/**
 * The guitar fingering search of finger.hpp and inspect.hpp. Six strings,
 * string 0 the low E; a fingering gives each string a fret, or -1 for a
 * string not played. The search puts the remaining notes, one at a time, on
 * every free string where the note has a legal fret, recursing on a copy of
 * the fingering, and keeps the lowest score. Both files run the same search:
 * finger.hpp reads note `k` as `root + notes[k]` and accepts frets from 0 to
 * `HIGHEST_FRET`; inspect.hpp reads absolute notes and accepts every fret
 * from 0 up. A `Board` records which of the two is meant.
 */
module Fingering {
  const STRINGS: nat := 6
  /** Offsets of the open strings from C1. */
  const OFFSETS: seq<int> := [-8, -3, 2, 7, 11, 16]
  const HIGHEST_FRET: int := 24
  const UNPLAYED: int := -1
  const EMPTY_FING: seq<int> := [-1, -1, -1, -1, -1, -1]

  /** `INT32_MAX`: the score of a search that found nothing. */
  const WORST: int := 0x7FFF_FFFF
  const STRETCH: int := 10
  const OPEN_STRING: int := -1
  const REGISTER: int := 1

  /** Where note `k` sits (`root + notes[k]`) and whether frets above `HIGHEST_FRET` are refused. */
  datatype Board = Board(root: int, bounded: bool)

  /** finger.hpp's chord: a root and the notes above it. */
  datatype RootedChord = RootedChord(root: int, notes: seq<int>)

  /** finger.hpp: relative notes, frets 0 to `HIGHEST_FRET`. */
  function FretBoard(root: int): Board
  {
    Board(root, true)
  }

  /** inspect.hpp: absolute notes, no highest fret. */
  const OPEN_BOARD: Board := Board(0, false)

  /** The fret that plays note `k` on string `s`. */
  function Fret(b: Board, notes: seq<int>, k: nat, s: nat): int
    requires k < |notes| && s < STRINGS
  {
    b.root + notes[k] - OFFSETS[s]
  }

  predicate Legal(b: Board, fret: int)
  {
    0 <= fret && (b.bounded ==> fret <= HIGHEST_FRET)
  }

  function Abs(x: int): nat
  {
    if x < 0 then -x else x
  }

  // ---------------------------------------------------------------------------
  // calc_score

  /** What one entry adds to the score, given the entry of string 0. */
  function EntryScore(fret: int, first: int): int
  {
    if fret == 0 then OPEN_STRING else Abs(fret - first) * STRETCH + fret * REGISTER
  }

  function ScoreFrom(f: seq<int>, first: int): int
  {
    if f == [] then 0 else ScoreFrom(f[..|f| - 1], first) + EntryScore(f[|f| - 1], first)
  }

  /** The score of a fingering: lower is better. */
  function Score(f: seq<int>): int
    requires |f| > 0
  {
    ScoreFrom(f, f[0])
  }

  /** `calc_score` */
  method CalcScore(fing: seq<int>) returns (score: int)
    requires |fing| == STRINGS
    ensures score == Score(fing)
  {
    var first := fing[0];
    score := 0;
    for i := 0 to |fing|
      invariant score == ScoreFrom(fing[..i], first)
    {
      assert fing[..i + 1][..i] == fing[..i];
      var fret := fing[i];
      if fret == 0 {
        score := score + OPEN_STRING;
        continue;
      }
      score := score + Abs(fret - first) * STRETCH;
      score := score + fret * REGISTER;
    }
    assert fing[..|fing|] == fing;
  }

  /** Each entry of a fingering whose frets lie in `-1..HIGHEST_FRET` adds between -1 and 274. */
  lemma {:induction false} ScoreFromRange(f: seq<int>, first: int)
    requires -1 <= first <= HIGHEST_FRET
    requires forall i :: 0 <= i < |f| ==> -1 <= f[i] <= HIGHEST_FRET
    ensures -|f| <= ScoreFrom(f, first) <= 274 * |f|
  {
    if f != [] {
      ScoreFromRange(f[..|f| - 1], first);
    }
  }

  /**
   * A fingering on the 24-fret board scores between -6 (every string open or
   * unplayed) and 1644, so never as badly as `WORST`.
   */
  lemma ScoreRange(f: seq<int>)
    requires |f| == STRINGS && forall i :: 0 <= i < STRINGS ==> -1 <= f[i] <= HIGHEST_FRET
    ensures -6 <= Score(f) <= 1644 < WORST
  {
    ScoreFromRange(f, f[0]);
  }

  /** Entries that are all alike add up to their number times one entry's score. */
  lemma {:induction false} UniformScore(f: seq<int>, v: int, first: int)
    requires forall i :: 0 <= i < |f| ==> f[i] == v
    ensures ScoreFrom(f, first) == |f| * EntryScore(v, first)
  {
    if f != [] {
      UniformScore(f[..|f| - 1], v, first);
    }
  }

  /**
   * An unplayed string is scored as a fret of -1: the empty fingering
   * scores -6, as six open strings do, and an unplayed string beside a
   * string 0 at fret 5 costs 59.
   */
  lemma UnplayedScore()
    ensures Score(EMPTY_FING) == -6 == Score([0, 0, 0, 0, 0, 0])
    ensures EntryScore(UNPLAYED, 5) == 59
  {
    UniformScore(EMPTY_FING, UNPLAYED, UNPLAYED);
    UniformScore([0, 0, 0, 0, 0, 0], 0, 0);
  }

  // ---------------------------------------------------------------------------
  // finger

  /** The strings that hold a fret. */
  function Taken(f: seq<int>): nat
  {
    if f == [] then 0 else Taken(f[..|f| - 1]) + if f[|f| - 1] != UNPLAYED then 1 else 0
  }

  /**
   * The search of `finger` from note `start` on, with `taken` strings
   * counted as used: a pair of the best score and its fingering.
   */
  function Search(b: Board, notes: seq<int>, start: nat, fing: seq<int>, taken: int): (r: (int, seq<int>))
    requires start <= |notes| && |fing| == STRINGS
    ensures |r.1| == STRINGS
    decreases |notes| - start, STRINGS + 1
  {
    if start == |notes| || taken == STRINGS then
      if start < |notes| then (WORST, fing) else (Score(fing), fing)
    else
      Best(b, notes, start, fing, taken, STRINGS)
  }

  /** The loop of `finger` over strings `0..k`: the first of the lowest scores below `WORST`. */
  function Best(b: Board, notes: seq<int>, start: nat, fing: seq<int>, taken: int, k: nat): (r: (int, seq<int>))
    requires start < |notes| && |fing| == STRINGS && k <= STRINGS
    ensures |r.1| == STRINGS
    decreases |notes| - start, k
  {
    if k == 0 then (WORST, EMPTY_FING)
    else
      var prev := Best(b, notes, start, fing, taken, k - 1);
      var s := k - 1;
      var fret := Fret(b, notes, start, s);
      if fing[s] != UNPLAYED || !Legal(b, fret) then prev
      else
        var cand := Search(b, notes, start + 1, fing[s := fret], taken + 1);
        if cand.0 < prev.0 then cand else prev
  }

  /** `finger`: a recursive search that loops over the strings. */
  method Finger(b: Board, notes: seq<int>, start: nat, fing: seq<int>, taken: int) returns (score: int, best: seq<int>)
    requires start <= |notes| && |fing| == STRINGS
    ensures (score, best) == Search(b, notes, start, fing, taken)
    ensures start < |notes| && taken == STRINGS ==> score == WORST && best == fing
    decreases |notes| - start
  {
    if start == |notes| || taken == STRINGS {
      if start < |notes| {
        return WORST, fing;
      }
      score := CalcScore(fing);
      best := fing;
      return;
    }
    score, best := WORST, EMPTY_FING;
    var note := b.root + notes[start];
    for s := 0 to STRINGS
      invariant (score, best) == Best(b, notes, start, fing, taken, s)
    {
      if fing[s] != UNPLAYED {
        continue;
      }
      var fret := note - OFFSETS[s];
      if !Legal(b, fret) {
        continue;
      }
      var f := fing[s := fret];
      var candScore, candFing := Finger(b, notes, start + 1, f, taken + 1);
      if candScore < score {
        score, best := candScore, candFing;
      }
    }
  }

  /** finger.hpp's `finger` on a chord. */
  method FingerChord(chord: RootedChord, start: nat, fing: seq<int>, taken: int) returns (score: int, best: seq<int>)
    requires start <= |chord.notes| && |fing| == STRINGS
    ensures (score, best) == Search(FretBoard(chord.root), chord.notes, start, fing, taken)
  {
    score, best := Finger(FretBoard(chord.root), chord.notes, start, fing, taken);
  }

  /** inspect.hpp's `finger` on absolute notes. */
  method FingerNotes(notes: seq<int>, start: nat, fing: seq<int>, taken: int) returns (score: int, best: seq<int>)
    requires start <= |notes| && |fing| == STRINGS
    ensures (score, best) == Search(OPEN_BOARD, notes, start, fing, taken)
  {
    score, best := Finger(OPEN_BOARD, notes, start, fing, taken);
  }
  // ---------------------------------------------------------------------------
  // Complete assignments

  predicate Distinct(strs: seq<nat>)
  {
    forall i, j :: 0 <= i < j < |strs| ==> strs[i] != strs[j]
  }

  /**
   * `strs[i]` is the string for note `start + i`: every remaining note gets
   * a string of its own that `fing` leaves unplayed, at a legal fret.
   */
  predicate Placement(b: Board, notes: seq<int>, start: nat, fing: seq<int>, strs: seq<nat>)
    requires start <= |notes| && |fing| == STRINGS
  {
    && start + |strs| == |notes|
    && Distinct(strs)
    && forall i :: 0 <= i < |strs| ==>
         strs[i] < STRINGS && fing[strs[i]] == UNPLAYED && Legal(b, Fret(b, notes, start + i, strs[i]))
  }

  /** The fingering that puts note `start + i` on string `strs[i]`. */
  function Place(b: Board, notes: seq<int>, start: nat, fing: seq<int>, strs: seq<nat>): (r: seq<int>)
    requires start + |strs| <= |notes| && |fing| == STRINGS
    requires forall i :: 0 <= i < |strs| ==> strs[i] < STRINGS
    ensures |r| == STRINGS
    decreases |strs|
  {
    if strs == [] then fing
    else Place(b, notes, start + 1, fing[strs[0] := Fret(b, notes, start, strs[0])], strs[1..])
  }

  /** The rest of a placement places the remaining notes on the fingering with the first one put down. */
  lemma PlacementTail(b: Board, notes: seq<int>, start: nat, fing: seq<int>, strs: seq<nat>)
    requires start <= |notes| && |fing| == STRINGS
    requires Placement(b, notes, start, fing, strs) && strs != []
    ensures Placement(b, notes, start + 1, fing[strs[0] := Fret(b, notes, start, strs[0])], strs[1..])
  {
    var f := fing[strs[0] := Fret(b, notes, start, strs[0])];
    forall i | 0 <= i < |strs| - 1
      ensures strs[1..][i] < STRINGS && f[strs[1..][i]] == UNPLAYED
      ensures Legal(b, Fret(b, notes, start + 1 + i, strs[1..][i]))
    {
      assert strs[1..][i] == strs[i + 1] != strs[0];
    }
  }

  /** A note put on a free string in front of a placement of the rest. */
  lemma PlacementCons(b: Board, notes: seq<int>, start: nat, fing: seq<int>, s: nat, rest: seq<nat>)
    requires start < |notes| && |fing| == STRINGS && s < STRINGS
    requires fing[s] == UNPLAYED && Legal(b, Fret(b, notes, start, s))
    requires Placement(b, notes, start + 1, fing[s := Fret(b, notes, start, s)], rest)
    ensures Placement(b, notes, start, fing, [s] + rest)
    ensures Place(b, notes, start, fing, [s] + rest) == Place(b, notes, start + 1, fing[s := Fret(b, notes, start, s)], rest)
  {
    var strs := [s] + rest;
    assert strs[1..] == rest;
    forall i | 0 <= i < |rest|
      ensures rest[i] != s
    {
    }
    forall i | 0 <= i < |strs|
      ensures strs[i] < STRINGS && fing[strs[i]] == UNPLAYED && Legal(b, Fret(b, notes, start + i, strs[i]))
    {
      if i > 0 {
        assert strs[i] == rest[i - 1];
      }
    }
  }

  /**
   * A placement leaves every other string as it was and puts each note's
   * fret on its string.
   */
  lemma {:induction false} PlaceEntries(b: Board, notes: seq<int>, start: nat, fing: seq<int>, strs: seq<nat>)
    requires start <= |notes| && |fing| == STRINGS
    requires Placement(b, notes, start, fing, strs)
    ensures forall t :: 0 <= t < STRINGS && t !in strs ==> Place(b, notes, start, fing, strs)[t] == fing[t]
    ensures forall i :: 0 <= i < |strs| ==> Place(b, notes, start, fing, strs)[strs[i]] == Fret(b, notes, start + i, strs[i])
    decreases |strs|
  {
    if strs != [] {
      var s, rest := strs[0], strs[1..];
      var f := fing[s := Fret(b, notes, start, s)];
      PlacementTail(b, notes, start, fing, strs);
      PlaceEntries(b, notes, start + 1, f, rest);
      assert s !in rest by {
        forall i | 0 <= i < |rest|
          ensures rest[i] != s
        {
          assert rest[i] == strs[i + 1];
        }
      }
      forall i | 0 <= i < |strs|
        ensures Place(b, notes, start, fing, strs)[strs[i]] == Fret(b, notes, start + i, strs[i])
      {
        if i > 0 {
          assert strs[i] == rest[i - 1];
        }
      }
    }
  }

  // ---------------------------------------------------------------------------
  // Counting strings

  lemma {:induction false} TakenFree(f: seq<int>, s: nat)
    requires s < |f| && f[s] == UNPLAYED
    ensures Taken(f) < |f|
  {
    TakenAtMost(f[..|f| - 1]);
    if s < |f| - 1 {
      TakenFree(f[..|f| - 1], s);
    }
  }

  lemma {:induction false} TakenAtMost(f: seq<int>)
    ensures Taken(f) <= |f|
  {
    if f != [] {
      TakenAtMost(f[..|f| - 1]);
    }
  }

  /** Putting a fret on a free string takes one more string. */
  lemma {:induction false} TakenUpdate(f: seq<int>, s: nat, v: int)
    requires s < |f| && f[s] == UNPLAYED && v != UNPLAYED
    ensures Taken(f[s := v]) == Taken(f) + 1
  {
    var n := |f| - 1;
    if s == n {
      assert f[s := v][..n] == f[..n];
    } else {
      assert f[s := v][..n] == f[..n][s := v];
      TakenUpdate(f[..n], s, v);
    }
  }

  /** A fingering that plays no string takes none. */
  lemma {:induction false} UnplayedTakesNothing(f: seq<int>)
    requires forall i :: 0 <= i < |f| ==> f[i] == UNPLAYED
    ensures Taken(f) == 0
  {
    if f != [] {
      UnplayedTakesNothing(f[..|f| - 1]);
    }
  }

  /** Each placed note takes a string of its own. */
  lemma {:induction false} PlaceTakes(b: Board, notes: seq<int>, start: nat, fing: seq<int>, strs: seq<nat>)
    requires start <= |notes| && |fing| == STRINGS
    requires Placement(b, notes, start, fing, strs)
    ensures Taken(Place(b, notes, start, fing, strs)) == Taken(fing) + |strs|
    decreases |strs|
  {
    if strs != [] {
      var fret := Fret(b, notes, start, strs[0]);
      TakenUpdate(fing, strs[0], fret);
      PlacementTail(b, notes, start, fing, strs);
      PlaceTakes(b, notes, start + 1, fing[strs[0] := fret], strs[1..]);
    }
  }

  // ---------------------------------------------------------------------------
  // What the search returns

  /** The loop's best score never exceeds `WORST`, and stays at `WORST` only with `EMPTY_FING`. */
  lemma {:induction false} BestWorst(b: Board, notes: seq<int>, start: nat, fing: seq<int>, taken: int, k: nat)
    requires start < |notes| && |fing| == STRINGS && k <= STRINGS
    ensures Best(b, notes, start, fing, taken, k).0 <= WORST
    ensures Best(b, notes, start, fing, taken, k).0 == WORST ==> Best(b, notes, start, fing, taken, k).1 == EMPTY_FING
  {
    if k > 0 {
      BestWorst(b, notes, start, fing, taken, k - 1);
    }
  }

  /** The loop's best score is at most the score of every string it tried. */
  lemma {:induction false} BestBelow(b: Board, notes: seq<int>, start: nat, fing: seq<int>, taken: int, k: nat, s: nat)
    requires start < |notes| && |fing| == STRINGS && s < k <= STRINGS
    requires fing[s] == UNPLAYED && Legal(b, Fret(b, notes, start, s))
    ensures Best(b, notes, start, fing, taken, k).0 <= Search(b, notes, start + 1, fing[s := Fret(b, notes, start, s)], taken + 1).0
  {
    if s < k - 1 {
      BestBelow(b, notes, start, fing, taken, k - 1, s);
    }
  }

  /** A score below `WORST` from the loop belongs to a placement, as its score. */
  lemma {:induction false} BestFound(b: Board, notes: seq<int>, start: nat, fing: seq<int>, taken: int, k: nat) returns (strs: seq<nat>)
    requires start < |notes| && |fing| == STRINGS && k <= STRINGS
    requires Best(b, notes, start, fing, taken, k).0 < WORST
    ensures Placement(b, notes, start, fing, strs)
    ensures Place(b, notes, start, fing, strs) == Best(b, notes, start, fing, taken, k).1
    ensures Best(b, notes, start, fing, taken, k).0 == Score(Best(b, notes, start, fing, taken, k).1)
    decreases |notes| - start, k
  {
    var s := k - 1;
    var fret := Fret(b, notes, start, s);
    var prev := Best(b, notes, start, fing, taken, k - 1);
    if fing[s] != UNPLAYED || !Legal(b, fret) {
      strs := BestFound(b, notes, start, fing, taken, k - 1);
    } else {
      var cand := Search(b, notes, start + 1, fing[s := fret], taken + 1);
      if cand.0 < prev.0 {
        var rest := SearchFound(b, notes, start + 1, fing[s := fret], taken + 1);
        PlacementCons(b, notes, start, fing, s, rest);
        strs := [s] + rest;
      } else {
        strs := BestFound(b, notes, start, fing, taken, k - 1);
      }
    }
  }

  /**
   * Validity: a score below `WORST` is the score of the fingering returned
   * with it, and that fingering places the remaining notes on distinct free
   * strings at legal frets.
   */
  lemma {:induction false} SearchFound(b: Board, notes: seq<int>, start: nat, fing: seq<int>, taken: int) returns (strs: seq<nat>)
    requires start <= |notes| && |fing| == STRINGS
    requires Search(b, notes, start, fing, taken).0 < WORST
    ensures Placement(b, notes, start, fing, strs)
    ensures Place(b, notes, start, fing, strs) == Search(b, notes, start, fing, taken).1
    ensures Search(b, notes, start, fing, taken).0 == Score(Search(b, notes, start, fing, taken).1)
    decreases |notes| - start, STRINGS + 1
  {
    if start == |notes| || taken == STRINGS {
      strs := [];
    } else {
      strs := BestFound(b, notes, start, fing, taken, STRINGS);
    }
  }

  /**
   * A found fingering keeps every fret `fing` already had and plays exactly
   * one more string per remaining note.
   */
  lemma SearchKeeps(b: Board, notes: seq<int>, start: nat, fing: seq<int>, taken: int)
    requires start <= |notes| && |fing| == STRINGS
    requires Search(b, notes, start, fing, taken).0 < WORST
    ensures forall t :: 0 <= t < STRINGS && fing[t] != UNPLAYED ==> Search(b, notes, start, fing, taken).1[t] == fing[t]
    ensures Taken(Search(b, notes, start, fing, taken).1) == Taken(fing) + (|notes| - start)
  {
    var strs := SearchFound(b, notes, start, fing, taken);
    PlaceEntries(b, notes, start, fing, strs);
    PlaceTakes(b, notes, start, fing, strs);
    forall t | 0 <= t < STRINGS && fing[t] != UNPLAYED
      ensures t !in strs
    {
    }
  }

  /**
   * Optimality: when `taken` counts the strings `fing` uses, no placement of
   * the remaining notes scores below the search's result.
   */
  lemma {:induction false} SearchOptimal(b: Board, notes: seq<int>, start: nat, fing: seq<int>, taken: int, strs: seq<nat>)
    requires start <= |notes| && |fing| == STRINGS
    requires taken == Taken(fing) && Placement(b, notes, start, fing, strs)
    ensures Search(b, notes, start, fing, taken).0 <= Score(Place(b, notes, start, fing, strs))
    decreases |notes| - start
  {
    if start < |notes| {
      var s := strs[0];
      var fret := Fret(b, notes, start, s);
      TakenFree(fing, s);
      TakenUpdate(fing, s, fret);
      PlacementTail(b, notes, start, fing, strs);
      SearchOptimal(b, notes, start + 1, fing[s := fret], taken + 1, strs[1..]);
      BestBelow(b, notes, start, fing, taken, STRINGS, s);
    }
  }

  /**
   * With notes left and strings to spare, the search scores at most `WORST`,
   * and scores `WORST` exactly when it returns `EMPTY_FING`.
   */
  lemma SearchWorst(b: Board, notes: seq<int>, start: nat, fing: seq<int>, taken: int)
    requires start < |notes| && |fing| == STRINGS && taken != STRINGS
    ensures Search(b, notes, start, fing, taken).0 <= WORST
    ensures Search(b, notes, start, fing, taken).0 == WORST <==> Search(b, notes, start, fing, taken).1 == EMPTY_FING
  {
    BestWorst(b, notes, start, fing, taken, STRINGS);
    if Search(b, notes, start, fing, taken).0 < WORST {
      var strs := SearchFound(b, notes, start, fing, taken);
      PlaceEntries(b, notes, start, fing, strs);
      assert Search(b, notes, start, fing, taken).1[strs[0]] != UNPLAYED;
    }
  }

  /** A note that fits on no free string ends the search with `WORST` and `EMPTY_FING`. */
  lemma NoLegalString(b: Board, notes: seq<int>, start: nat, fing: seq<int>, taken: int)
    requires start < |notes| && |fing| == STRINGS && taken != STRINGS
    requires forall s :: 0 <= s < STRINGS && fing[s] == UNPLAYED ==> !Legal(b, Fret(b, notes, start, s))
    ensures Search(b, notes, start, fing, taken) == (WORST, EMPTY_FING)
  {
    SearchWorst(b, notes, start, fing, taken);
    if Search(b, notes, start, fing, taken).0 < WORST {
      var strs := SearchFound(b, notes, start, fing, taken);
      assert false;
    }
  }

  /**
   * More notes than free strings: the search scores `WORST` with
   * `EMPTY_FING`, never a partial fingering.
   */
  lemma TooManyNotes(b: Board, notes: seq<int>, start: nat, fing: seq<int>, taken: int)
    requires start < |notes| && |fing| == STRINGS && taken != STRINGS
    requires |notes| - start > STRINGS - Taken(fing)
    ensures Search(b, notes, start, fing, taken) == (WORST, EMPTY_FING)
  {
    SearchWorst(b, notes, start, fing, taken);
    if Search(b, notes, start, fing, taken).0 < WORST {
      var strs := SearchFound(b, notes, start, fing, taken);
      PlaceTakes(b, notes, start, fing, strs);
      TakenAtMost(Place(b, notes, start, fing, strs));
      assert false;
    }
  }

  /** A chord of seven or more notes is unplayable from the empty fingering. */
  lemma Unplayable(b: Board, notes: seq<int>)
    requires |notes| > STRINGS
    ensures Search(b, notes, 0, EMPTY_FING, 0) == (WORST, EMPTY_FING)
  {
    TooManyNotes(b, notes, 0, EMPTY_FING, 0);
  }

  /** The loop keeps the first string whose score is the lowest. */
  lemma {:induction false} BestChoice(b: Board, notes: seq<int>, start: nat, fing: seq<int>, taken: int, k: nat) returns (s: nat)
    requires start < |notes| && |fing| == STRINGS && k <= STRINGS
    requires Best(b, notes, start, fing, taken, k).0 < WORST
    ensures s < k && fing[s] == UNPLAYED && Legal(b, Fret(b, notes, start, s))
    ensures Search(b, notes, start + 1, fing[s := Fret(b, notes, start, s)], taken + 1) == Best(b, notes, start, fing, taken, k)
    ensures forall t :: 0 <= t < s && fing[t] == UNPLAYED && Legal(b, Fret(b, notes, start, t)) ==>
      Search(b, notes, start + 1, fing[t := Fret(b, notes, start, t)], taken + 1).0 > Best(b, notes, start, fing, taken, k).0
  {
    var last := k - 1;
    var fret := Fret(b, notes, start, last);
    var prev := Best(b, notes, start, fing, taken, k - 1);
    if fing[last] == UNPLAYED && Legal(b, fret) && Search(b, notes, start + 1, fing[last := fret], taken + 1).0 < prev.0 {
      s := last;
      forall t | 0 <= t < s && fing[t] == UNPLAYED && Legal(b, Fret(b, notes, start, t))
        ensures Search(b, notes, start + 1, fing[t := Fret(b, notes, start, t)], taken + 1).0 > Best(b, notes, start, fing, taken, k).0
      {
        BestBelow(b, notes, start, fing, taken, k - 1, t);
      }
    } else {
      s := BestChoice(b, notes, start, fing, taken, k - 1);
    }
  }

  /**
   * Tie-break: the search's result is what it found on string `s`; every
   * string it tried scored at least as much, and every earlier one more,
   * since only a strictly lower score replaces the best so far.
   */
  lemma SearchChoice(b: Board, notes: seq<int>, start: nat, fing: seq<int>, taken: int) returns (s: nat)
    requires start < |notes| && |fing| == STRINGS && taken != STRINGS
    requires Search(b, notes, start, fing, taken).0 < WORST
    ensures s < STRINGS && fing[s] == UNPLAYED && Legal(b, Fret(b, notes, start, s))
    ensures Search(b, notes, start + 1, fing[s := Fret(b, notes, start, s)], taken + 1) == Search(b, notes, start, fing, taken)
    ensures forall t :: 0 <= t < STRINGS && fing[t] == UNPLAYED && Legal(b, Fret(b, notes, start, t)) ==>
      Search(b, notes, start + 1, fing[t := Fret(b, notes, start, t)], taken + 1).0 >= Search(b, notes, start, fing, taken).0
    ensures forall t :: 0 <= t < s && fing[t] == UNPLAYED && Legal(b, Fret(b, notes, start, t)) ==>
      Search(b, notes, start + 1, fing[t := Fret(b, notes, start, t)], taken + 1).0 > Search(b, notes, start, fing, taken).0
  {
    s := BestChoice(b, notes, start, fing, taken, STRINGS);
    forall t | 0 <= t < STRINGS && fing[t] == UNPLAYED && Legal(b, Fret(b, notes, start, t))
      ensures Search(b, notes, start + 1, fing[t := Fret(b, notes, start, t)], taken + 1).0 >= Search(b, notes, start, fing, taken).0
    {
      BestBelow(b, notes, start, fing, taken, STRINGS, t);
    }
  }

  /** On the 24-fret board every fingering scores below `WORST`, so a placement is always found. */
  lemma BoundedFound(b: Board, notes: seq<int>, start: nat, fing: seq<int>, taken: int, strs: seq<nat>)
    requires b.bounded && start <= |notes| && |fing| == STRINGS && taken == Taken(fing)
    requires forall t :: 0 <= t < STRINGS ==> UNPLAYED <= fing[t] <= HIGHEST_FRET
    requires Placement(b, notes, start, fing, strs)
    ensures Search(b, notes, start, fing, taken).0 < WORST
  {
    var g := Place(b, notes, start, fing, strs);
    SearchOptimal(b, notes, start, fing, taken, strs);
    PlaceEntries(b, notes, start, fing, strs);
    forall t | 0 <= t < STRINGS
      ensures UNPLAYED <= g[t] <= HIGHEST_FRET
    {
      if t in strs {
        var i :| 0 <= i < |strs| && strs[i] == t;
      }
    }
    ScoreRange(g);
  }

  /**
   * finger.hpp's search from the empty fingering: it finds a fingering
   * exactly when the chord can be placed, and then returns a placement of
   * lowest score together with that score.
   */
  lemma ChordFingering(chord: RootedChord)
    ensures var r := Search(FretBoard(chord.root), chord.notes, 0, EMPTY_FING, 0);
      && (r.0 < WORST <==> exists strs :: Placement(FretBoard(chord.root), chord.notes, 0, EMPTY_FING, strs))
      && (r.0 < WORST ==> r.0 == Score(r.1))
      && forall strs :: Placement(FretBoard(chord.root), chord.notes, 0, EMPTY_FING, strs) ==>
           r.0 <= Score(Place(FretBoard(chord.root), chord.notes, 0, EMPTY_FING, strs))
  {
    var b := FretBoard(chord.root);
    var r := Search(b, chord.notes, 0, EMPTY_FING, 0);
    UnplayedTakesNothing(EMPTY_FING);
    if r.0 < WORST {
      var strs := SearchFound(b, chord.notes, 0, EMPTY_FING, 0);
    }
    forall strs | Placement(b, chord.notes, 0, EMPTY_FING, strs)
      ensures r.0 < WORST && r.0 <= Score(Place(b, chord.notes, 0, EMPTY_FING, strs))
    {
      SearchOptimal(b, chord.notes, 0, EMPTY_FING, 0, strs);
      BoundedFound(b, chord.notes, 0, EMPTY_FING, 0, strs);
    }
  }

  /**
   * inspect.hpp's search from the empty fingering: a score below `WORST`
   * comes with a placement of that score, and no placement scores lower.
   */
  lemma NotesFingering(notes: seq<int>)
    ensures var r := Search(OPEN_BOARD, notes, 0, EMPTY_FING, 0);
      && (r.0 < WORST ==> r.0 == Score(r.1) && exists strs :: Placement(OPEN_BOARD, notes, 0, EMPTY_FING, strs) && Place(OPEN_BOARD, notes, 0, EMPTY_FING, strs) == r.1)
      && forall strs :: Placement(OPEN_BOARD, notes, 0, EMPTY_FING, strs) ==>
           r.0 <= Score(Place(OPEN_BOARD, notes, 0, EMPTY_FING, strs))
  {
    var r := Search(OPEN_BOARD, notes, 0, EMPTY_FING, 0);
    UnplayedTakesNothing(EMPTY_FING);
    if r.0 < WORST {
      var strs := SearchFound(OPEN_BOARD, notes, 0, EMPTY_FING, 0);
    }
    forall strs | Placement(OPEN_BOARD, notes, 0, EMPTY_FING, strs)
      ensures r.0 <= Score(Place(OPEN_BOARD, notes, 0, EMPTY_FING, strs))
    {
      SearchOptimal(OPEN_BOARD, notes, 0, EMPTY_FING, 0, strs);
    }
  }
}
