/**
 * Rule evaluation over 64-bit chord encodings (generator.hpp): a condition is
 * a mask test, a rule is a list of conditions with a truth table indexed by
 * their results (condition 0 in the most significant bit), and `CheckRange`
 * scans an arithmetic progression of encodings into a caller-owned buffer.
 */
module Generator {
  import opened Bits
  import opened Outcomes

  /** Capacity of the caller's result buffer. */
  const BUFSIZE: nat := 65536

  const U64_LIMIT: nat := 0x1_0000_0000_0000_0000

  type U64 = x: nat | x < 0x1_0000_0000_0000_0000

  datatype RangeError = TooManyCandidates

  datatype Condition = Condition(mask: U64) {
    /** `(c & mask) > 0` */
    predicate Check(c: U64)
    {
      BitAnd(c, mask) != 0
    }
  }

  /** The index of the table entry the conditions select: `idx = idx << 1 | check`, condition by condition. */
  function Index(cs: seq<Condition>, c: U64): (r: nat)
    ensures r < Pow2(|cs|)
  {
    if cs == [] then 0
    else 2 * Index(cs[..|cs| - 1], c) + (if cs[|cs| - 1].Check(c) then 1 else 0)
  }

  /** The `i`-th candidate of the scan: `start`, advanced `i` times by `step` (see `CandidateClosedForm`). */
  function Candidate(start: nat, i: nat, step: nat): nat
  {
    if i == 0 then start else Candidate(start, i - 1, step) + step
  }

  /** The last candidate a scan of `count` visits does not pass 2^64 (the scan's `j += step` never wraps). */
  predicate NoWrap(start: nat, count: nat, step: nat)
  {
    count == 0 || Candidate(start, count - 1, step) < U64_LIMIT
  }

  datatype Rule = Rule(conditions: seq<Condition>, table: seq<bool>) {

    /** One table entry per combination of condition results. */
    predicate Valid()
    {
      |table| == Pow2(|conditions|)
    }

    predicate Eval(c: U64)
      requires Valid()
    {
      table[Index(conditions, c)]
    }

    /** The matches among the first `count` candidates, in scan order. */
    function Matches(start: nat, count: nat, step: nat): seq<nat>
      requires Valid()
      requires NoWrap(start, count, step)
    {
      if count == 0 then []
      else
        var j := Candidate(start, count - 1, step);
        assert NoWrap(start, count - 1, step) by { NoWrapPrefix(start, count - 1, count, step); }
        Matches(start, count - 1, step) + (if Eval(j) then [j] else [])
    }

    /** `Rule::check`: fold the condition results into an index and look it up. */
    method Check(c: U64) returns (b: bool)
      requires Valid()
      ensures b == Eval(c)
    {
      var idx: nat := 0;
      for k := 0 to |conditions|
        invariant idx == Index(conditions[..k], c)
      {
        assert conditions[..k + 1][..k] == conditions[..k];
        idx := 2 * idx + (if conditions[k].Check(c) then 1 else 0);
      }
      assert conditions[..|conditions|] == conditions;
      b := table[idx];
    }

    /**
     * `Rule::check_range`: test `count` candidates `start, start + step, ...`
     * and write the matching ones to `out`, returning how many were written.
     * Fails without writing when `count` exceeds the buffer. One, two and
     * three conditions take unrolled loops; any other number the general loop.
     */
    method CheckRange(start: U64, count: U64, step: U64, out: array<U64>) returns (r: Result<nat, RangeError>)
      requires Valid()
      requires out.Length == BUFSIZE
      requires count <= BUFSIZE ==> NoWrap(start, count, step)
      modifies out
      ensures count > BUFSIZE ==> r == Err(TooManyCandidates) && out[..] == old(out[..])
      ensures count <= BUFSIZE ==> r.Ok? && r.value <= count
      ensures r.Ok? ==> out[..r.value] == Matches(start, count, step)
      ensures r.Ok? ==> forall p :: r.value <= p < out.Length ==> out[p] == old(out[p])
    {
      if count > BUFSIZE {
        return Err(TooManyCandidates);
      }
      var valid;
      if |conditions| == 1 {
        valid := ScanOne(start, count, step, out);
      } else if |conditions| == 2 {
        valid := ScanTwo(start, count, step, out);
      } else if |conditions| == 3 {
        valid := ScanThree(start, count, step, out);
      } else {
        valid := ScanGeneral(start, count, step, out);
      }
      return Ok(valid);
    }

    /** The loop for one condition: `table[(j & mask0) > 0]`. */
    method ScanOne(start: U64, count: U64, step: U64, out: array<U64>) returns (valid: nat)
      requires Valid() && |conditions| == 1
      requires out.Length == BUFSIZE && count <= BUFSIZE && NoWrap(start, count, step)
      modifies out
      ensures valid <= count && out[..valid] == Matches(start, count, step)
      ensures forall p :: valid <= p < out.Length ==> out[p] == old(out[p])
    {
      valid := 0;
      var i, j := 0, start as nat;
      while i < count
        invariant i <= count && j == Candidate(start, i, step) && valid <= i && NoWrap(start, i, step)
        invariant out[..valid] == Matches(start, i, step)
        invariant forall p :: valid <= p < out.Length ==> out[p] == old(out[p])
      {
        MatchesNext(this, start, i, count, step);
        ghost var before := out[..valid];
        UnrolledIndex(conditions, j);
        var b0 := if conditions[0].Check(j) then 1 else 0;
        if table[b0] {
          out[valid] := j;
          assert out[..valid + 1] == before + [j];
          valid := valid + 1;
        }
        i, j := i + 1, j + step;
      }
    }

    /** The loop for two conditions: `table[c0 * 2 + c1]`. */
    method ScanTwo(start: U64, count: U64, step: U64, out: array<U64>) returns (valid: nat)
      requires Valid() && |conditions| == 2
      requires out.Length == BUFSIZE && count <= BUFSIZE && NoWrap(start, count, step)
      modifies out
      ensures valid <= count && out[..valid] == Matches(start, count, step)
      ensures forall p :: valid <= p < out.Length ==> out[p] == old(out[p])
    {
      valid := 0;
      var i, j := 0, start as nat;
      while i < count
        invariant i <= count && j == Candidate(start, i, step) && valid <= i && NoWrap(start, i, step)
        invariant out[..valid] == Matches(start, i, step)
        invariant forall p :: valid <= p < out.Length ==> out[p] == old(out[p])
      {
        MatchesNext(this, start, i, count, step);
        ghost var before := out[..valid];
        UnrolledIndex(conditions, j);
        var b0 := if conditions[0].Check(j) then 1 else 0;
        var b1 := if conditions[1].Check(j) then 1 else 0;
        if table[b0 * 2 + b1] {
          out[valid] := j;
          assert out[..valid + 1] == before + [j];
          valid := valid + 1;
        }
        i, j := i + 1, j + step;
      }
    }

    /** The loop for three conditions: `table[c0 * 4 + c1 * 2 + c2]`. */
    method ScanThree(start: U64, count: U64, step: U64, out: array<U64>) returns (valid: nat)
      requires Valid() && |conditions| == 3
      requires out.Length == BUFSIZE && count <= BUFSIZE && NoWrap(start, count, step)
      modifies out
      ensures valid <= count && out[..valid] == Matches(start, count, step)
      ensures forall p :: valid <= p < out.Length ==> out[p] == old(out[p])
    {
      valid := 0;
      var i, j := 0, start as nat;
      while i < count
        invariant i <= count && j == Candidate(start, i, step) && valid <= i && NoWrap(start, i, step)
        invariant out[..valid] == Matches(start, i, step)
        invariant forall p :: valid <= p < out.Length ==> out[p] == old(out[p])
      {
        MatchesNext(this, start, i, count, step);
        ghost var before := out[..valid];
        UnrolledIndex(conditions, j);
        var b0 := if conditions[0].Check(j) then 1 else 0;
        var b1 := if conditions[1].Check(j) then 1 else 0;
        var b2 := if conditions[2].Check(j) then 1 else 0;
        if table[b0 * 4 + b1 * 2 + b2] {
          out[valid] := j;
          assert out[..valid + 1] == before + [j];
          valid := valid + 1;
        }
        i, j := i + 1, j + step;
      }
    }

    /** The general, slow loop: the fold of `Check`, inlined. */
    method ScanGeneral(start: U64, count: U64, step: U64, out: array<U64>) returns (valid: nat)
      requires Valid()
      requires out.Length == BUFSIZE && count <= BUFSIZE && NoWrap(start, count, step)
      modifies out
      ensures valid <= count && out[..valid] == Matches(start, count, step)
      ensures forall p :: valid <= p < out.Length ==> out[p] == old(out[p])
    {
      valid := 0;
      var n := |conditions|;
      var i, j := 0, start as nat;
      while i < count
        invariant i <= count && j == Candidate(start, i, step) && valid <= i && NoWrap(start, i, step)
        invariant out[..valid] == Matches(start, i, step)
        invariant forall p :: valid <= p < out.Length ==> out[p] == old(out[p])
      {
        MatchesNext(this, start, i, count, step);
        ghost var before := out[..valid];
        var tableIdx: nat := 0;
        for k := 0 to n
          invariant tableIdx == Index(conditions[..k], j)
        {
          assert conditions[..k + 1][..k] == conditions[..k];
          tableIdx := 2 * tableIdx + (if conditions[k].Check(j) then 1 else 0);
        }
        assert conditions[..n] == conditions;
        if table[tableIdx] {
          out[valid] := j;
          assert out[..valid + 1] == before + [j];
          valid := valid + 1;
        }
        i, j := i + 1, j + step;
      }
    }
  }

  // ---------------------------------------------------------------------------
  // Lemmas

  /** The `i`-th candidate is `start + i * step`. */
  lemma {:induction false} CandidateClosedForm(start: nat, i: nat, step: nat)
    ensures Candidate(start, i, step) == start + i * step
  {
    if i > 0 {
      CandidateClosedForm(start, i - 1, step);
      assert (i - 1) * step + step == i * step;
    }
  }

  lemma {:induction false} CandidateMonotone(start: nat, i: int, k: nat, step: nat)
    requires 0 <= i <= k
    ensures Candidate(start, i, step) <= Candidate(start, k, step)
  {
    if i < k {
      CandidateMonotone(start, i, k - 1, step);
    }
  }

  lemma CandidateNext(start: nat, i: nat, step: nat)
    ensures Candidate(start, i + 1, step) == Candidate(start, i, step) + step
  {
  }

  lemma NoWrapPrefix(start: nat, k: nat, count: nat, step: nat)
    requires k <= count && NoWrap(start, count, step)
    ensures NoWrap(start, k, step)
  {
    if k > 0 {
      CandidateMonotone(start, k - 1, count - 1, step);
    }
  }

  /** Every candidate the scan tests is below 2^64. */
  lemma CandidateBound(start: nat, i: nat, count: nat, step: nat)
    requires i < count && NoWrap(start, count, step)
    ensures Candidate(start, i, step) < U64_LIMIT
  {
    CandidateMonotone(start, i, count - 1, step);
  }

  /** A condition holds exactly when the encoding and the mask share a set bit (among the 64). */
  lemma CheckIffCommonBit(cond: Condition, c: U64)
    ensures cond.Check(c) <==> exists k: nat :: k < 64 && Bit(c, k) == 1 && Bit(cond.mask, k) == 1
  {
    BitAndNonZero(c, cond.mask);
    if cond.Check(c) {
      var k: nat :| Bit(c, k) == 1 && Bit(cond.mask, k) == 1;
      if k >= 64 {
        Pow2Constants();
        Pow2Monotone(64, k);
        ShrOfSmall(c, k);
        BitOfZero(0);
        assert false;
      }
    }
  }

  /** Condition `k` of the list decides bit `|cs| - 1 - k` of the index: condition 0 is the most significant. */
  lemma {:induction false} IndexBit(cs: seq<Condition>, c: U64, k: nat)
    requires k < |cs|
    ensures Bit(Index(cs, c), |cs| - 1 - k) == if cs[k].Check(c) then 1 else 0
  {
    var n := |cs| - 1;
    var init := cs[..n];
    if k == n {
    } else {
      IndexBit(init, c, k);
      assert init[k] == cs[k];
      var idx := Index(cs, c);
      assert idx / 2 == Index(init, c);
      assert Bit(idx, n - k) == Bit(idx / 2, n - k - 1);
    }
  }

  /** The index is determined by the condition results: equal results give equal indices. */
  lemma {:induction false} IndexDeterminedByChecks(cs: seq<Condition>, c: U64, d: U64)
    requires forall k :: 0 <= k < |cs| ==> (cs[k].Check(c) <==> cs[k].Check(d))
    ensures Index(cs, c) == Index(cs, d)
  {
    if cs != [] {
      IndexDeterminedByChecks(cs[..|cs| - 1], c, d);
    }
  }

  /** The unrolled index expressions of the 1-, 2- and 3-condition loops are the general fold. */
  lemma UnrolledIndex(cs: seq<Condition>, c: U64)
    requires 1 <= |cs| <= 3
    ensures |cs| == 1 ==> Index(cs, c) == (if cs[0].Check(c) then 1 else 0)
    ensures |cs| == 2 ==>
      Index(cs, c) == (if cs[0].Check(c) then 1 else 0) * 2 + (if cs[1].Check(c) then 1 else 0)
    ensures |cs| == 3 ==>
      Index(cs, c) == (if cs[0].Check(c) then 1 else 0) * 4 + (if cs[1].Check(c) then 1 else 0) * 2
                      + (if cs[2].Check(c) then 1 else 0)
  {
    assert cs[..1][..0] == [];
    if |cs| >= 2 {
      assert cs[..2][..1] == cs[..1];
    }
    if |cs| == 3 {
      assert cs[..3] == cs;
    }
  }

  /** One step of the scan: candidate `i` is in range, and the matches grow by it exactly when the rule holds on it. */
  lemma MatchesNext(r: Rule, start: nat, i: nat, count: nat, step: nat)
    requires r.Valid() && i < count && NoWrap(start, count, step)
    ensures Candidate(start, i, step) < U64_LIMIT && NoWrap(start, i + 1, step) && NoWrap(start, i, step)
    ensures Candidate(start, i + 1, step) == Candidate(start, i, step) + step
    ensures r.Matches(start, i + 1, step) ==
      r.Matches(start, i, step) + (if r.Eval(Candidate(start, i, step)) then [Candidate(start, i, step)] else [])
  {
    CandidateBound(start, i, count, step);
    NoWrapPrefix(start, i + 1, count, step);
    NoWrapPrefix(start, i, count, step);
    CandidateNext(start, i, step);
  }

  /** The scan never records more matches than candidates. */
  lemma {:induction false} MatchesLength(r: Rule, start: nat, count: nat, step: nat)
    requires r.Valid() && NoWrap(start, count, step)
    ensures |r.Matches(start, count, step)| <= count
  {
    if count > 0 {
      NoWrapPrefix(start, count - 1, count, step);
      MatchesLength(r, start, count - 1, step);
    }
  }

  /** A value is recorded exactly when it is a tested candidate on which the rule holds. */
  lemma {:induction false} MatchesMembers(r: Rule, start: nat, count: nat, step: nat, x: nat)
    requires r.Valid() && NoWrap(start, count, step)
    ensures x in r.Matches(start, count, step) <==>
      exists i: nat :: i < count && x == Candidate(start, i, step) && x < U64_LIMIT && r.Eval(x)
  {
    if count > 0 {
      NoWrapPrefix(start, count - 1, count, step);
      MatchesMembers(r, start, count - 1, step, x);
      var j := Candidate(start, count - 1, step);
      var prev := r.Matches(start, count - 1, step);
      assert r.Matches(start, count, step) == prev + (if r.Eval(j) then [j] else []);
      if x in r.Matches(start, count, step) {
        if x in prev {
          var i: nat :| i < count - 1 && x == Candidate(start, i, step) && x < U64_LIMIT && r.Eval(x);
          assert i < count;
        } else {
          assert x == j && r.Eval(j);
          assert count - 1 < count && x == Candidate(start, count - 1, step);
        }
        assert exists i: nat :: i < count && x == Candidate(start, i, step) && x < U64_LIMIT && r.Eval(x);
      }
      if exists i: nat :: i < count && x == Candidate(start, i, step) && x < U64_LIMIT && r.Eval(x) {
        var i: nat :| i < count && x == Candidate(start, i, step) && x < U64_LIMIT && r.Eval(x);
        if i < count - 1 {
          assert exists i': nat :: i' < count - 1 && x == Candidate(start, i', step) && x < U64_LIMIT && r.Eval(x);
          assert x in prev;
        } else {
          assert x == j && r.Eval(j);
          assert r.Matches(start, count, step) == prev + [j];
        }
        assert x in r.Matches(start, count, step);
      }
    }
  }

  /** Every recorded value lies between the first and the last candidate. */
  lemma {:induction false} MatchesRange(r: Rule, start: nat, count: nat, step: nat)
    requires r.Valid() && NoWrap(start, count, step) && count > 0
    ensures forall x :: x in r.Matches(start, count, step) ==> start <= x <= Candidate(start, count - 1, step)
  {
    NoWrapPrefix(start, count - 1, count, step);
    CandidateMonotone(start, 0, count - 1, step);
    if count > 1 {
      CandidateMonotone(start, count - 2, count - 1, step);
      MatchesRange(r, start, count - 1, step);
    }
  }

  /** With a positive step the recorded matches are strictly ascending. */
  lemma {:induction false} MatchesAscending(r: Rule, start: nat, count: nat, step: nat)
    requires r.Valid() && NoWrap(start, count, step) && step >= 1
    ensures forall p, q :: 0 <= p < q < |r.Matches(start, count, step)| ==>
      r.Matches(start, count, step)[p] < r.Matches(start, count, step)[q]
  {
    if count > 1 {
      NoWrapPrefix(start, count - 1, count, step);
      MatchesAscending(r, start, count - 1, step);
      MatchesRange(r, start, count - 1, step);
      var prev := r.Matches(start, count - 1, step);
      var all := r.Matches(start, count, step);
      assert Candidate(start, count - 2, step) < Candidate(start, count - 1, step);
      forall p, q | 0 <= p < q < |all| ensures all[p] < all[q] {
        if q < |prev| {
          assert all[p] == prev[p] && all[q] == prev[q];
        } else {
          assert all[p] == prev[p];
          assert prev[p] in prev;
        }
      }
    }
  }
}
