/**
 * Unsigned bit arithmetic on `nat`, shared by the chord encodings, the rule
 * evaluator and the truth-table builders.
 *
 * `Shr(x, k)` is `x >> k`, `Low(x, k)` is `x & ((1 << k) - 1)` and `Shl(x, k)`
 * is `x << k` before any truncation to a machine width (callers truncate with
 * `Low` where the source's type does). General `&` and `|` are `BitAnd` and
 * `BitOr`. All of them are defined one bit at a time.
 */
module Bits {

  function Pow2(k: nat): (r: nat)
    ensures r >= 1
  {
    if k == 0 then 1 else 2 * Pow2(k - 1)
  }

  /** `x >> k` */
  function Shr(x: nat, k: nat): nat
  {
    if k == 0 then x else Shr(x / 2, k - 1)
  }

  /** `x << k`, unbounded */
  function Shl(x: nat, k: nat): nat
  {
    if k == 0 then x else 2 * Shl(x, k - 1)
  }

  /** `x & ((1 << k) - 1)`: the low `k` bits of `x` */
  function Low(x: nat, k: nat): nat
  {
    if k == 0 then 0 else 2 * Low(x / 2, k - 1) + x % 2
  }

  /** `(x >> k) & 1` */
  function Bit(x: nat, k: nat): nat
  {
    Shr(x, k) % 2
  }

  /** `a & b` */
  function BitAnd(a: nat, b: nat): nat
    decreases a
  {
    if a == 0 || b == 0 then 0 else 2 * BitAnd(a / 2, b / 2) + (a % 2) * (b % 2)
  }

  /** `a | b` */
  function BitOr(a: nat, b: nat): nat
    decreases a + b
  {
    if a == 0 && b == 0 then 0
    else 2 * BitOr(a / 2, b / 2) + (if a % 2 == 1 || b % 2 == 1 then 1 else 0)
  }

  /** The value of the source's `log2` loop: halve while above 1, counting the halvings. */
  function FloorLog2(n: nat): nat
  {
    if n <= 1 then 0 else 1 + FloorLog2(n / 2)
  }

  // ---------------------------------------------------------------------------
  // Shifts and masks

  lemma {:induction false} Pow2Add(a: nat, b: nat)
    ensures Pow2(a + b) == Pow2(a) * Pow2(b)
  {
    if b > 0 {
      Pow2Add(a, b - 1);
      assert Pow2(a + b) == 2 * Pow2(a + b - 1);
      assert Pow2(b) == 2 * Pow2(b - 1);
    }
  }

  /** The powers of two behind the machine widths (32- and 64-bit Chord types, the 36-bit chord space). */
  lemma Pow2Constants()
    ensures Pow2(4) == 16 && Pow2(8) == 256
    ensures Pow2(32) == 0x1_0000_0000 && Pow2(36) == 0x10_0000_0000
    ensures Pow2(64) == 0x1_0000_0000_0000_0000
  {
    assert Pow2(2) == 4;
    Pow2Add(2, 2);
    Pow2Add(4, 4);
    Pow2Add(8, 8);
    assert Pow2(16) == 0x1_0000;
    Pow2Add(16, 16);
    assert Pow2(32) == 0x1_0000_0000;
    Pow2Add(32, 32);
    Pow2Add(32, 4);
  }

  lemma {:induction false} Pow2Monotone(a: nat, b: nat)
    requires a <= b
    ensures Pow2(a) <= Pow2(b)
  {
    if a < b {
      Pow2Monotone(a, b - 1);
    }
  }

  lemma {:induction false} LowBound(x: nat, k: nat)
    ensures Low(x, k) < Pow2(k)
  {
    if k > 0 {
      LowBound(x / 2, k - 1);
    }
  }

  lemma {:induction false} LowOfSmall(x: nat, k: nat)
    requires x < Pow2(k)
    ensures Low(x, k) == x
  {
    if k > 0 {
      LowOfSmall(x / 2, k - 1);
    }
  }

  lemma {:induction false} ShrOfSmall(x: nat, k: nat)
    requires x < Pow2(k)
    ensures Shr(x, k) == 0
  {
    if k > 0 {
      ShrOfSmall(x / 2, k - 1);
    }
  }

  lemma {:induction false} ShlAdd(a: nat, b: nat, k: nat)
    ensures Shl(a, k) + Shl(b, k) == Shl(a + b, k)
  {
    if k > 0 {
      ShlAdd(a, b, k - 1);
    }
  }

  lemma {:induction false} ShlOne(k: nat)
    ensures Shl(1, k) == Pow2(k)
  {
    if k > 0 {
      ShlOne(k - 1);
    }
  }

  lemma {:induction false} ShlPow2(a: nat, k: nat)
    ensures Shl(Pow2(a), k) == Pow2(a + k)
  {
    if k > 0 {
      ShlPow2(a, k - 1);
    }
  }

  /** `x << k` is multiplication by `2^k`. */
  lemma {:induction false} ShlMul(a: nat, k: nat)
    ensures Shl(a, k) == a * Pow2(k)
  {
    if k > 0 {
      ShlMul(a, k - 1);
      assert 2 * (a * Pow2(k - 1)) == a * (2 * Pow2(k - 1));
    }
  }

  lemma {:induction false} ShlMonotone(a: nat, b: nat, k: nat)
    requires a <= b
    ensures Shl(a, k) <= Shl(b, k)
  {
    if k > 0 {
      ShlMonotone(a, b, k - 1);
    }
  }

  lemma {:induction false} ShlShl(a: nat, i: nat, j: nat)
    ensures Shl(Shl(a, i), j) == Shl(a, i + j)
  {
    if j > 0 {
      ShlShl(a, i, j - 1);
    }
  }

  /** Every value is its high part shifted back up plus its low part. */
  lemma {:induction false} SplitAt(x: nat, k: nat)
    ensures x == Shl(Shr(x, k), k) + Low(x, k)
  {
    if k > 0 {
      SplitAt(x / 2, k - 1);
      ShlAdd(Shr(x / 2, k - 1), 0, 0);
    }
  }

  /** Shifting a value up by `k` and adding something below `2^k`: both parts can be read back. */
  lemma {:induction false} ShrLowOfShl(a: nat, b: nat, k: nat)
    requires b < Pow2(k)
    ensures Shr(Shl(a, k) + b, k) == a && Low(Shl(a, k) + b, k) == b
  {
    if k > 0 {
      var x := Shl(a, k) + b;
      assert x / 2 == Shl(a, k - 1) + b / 2;
      ShrLowOfShl(a, b / 2, k - 1);
    }
  }

  lemma {:induction false} ShrShr(x: nat, a: nat, b: nat)
    ensures Shr(Shr(x, a), b) == Shr(x, a + b)
  {
    if a > 0 {
      ShrShr(x / 2, a - 1, b);
    }
  }

  lemma {:induction false} ShrLess(x: nat, a: nat, b: nat)
    requires x < Pow2(a + b)
    ensures Shr(x, b) < Pow2(a)
  {
    SplitAt(x, b);
    if Shr(x, b) >= Pow2(a) {
      ShlMonotone(Pow2(a), Shr(x, b), b);
      ShlPow2(a, b);
    }
  }

  /** An index below `m * 2^n` has its high part, above bit `n`, below `m`. */
  lemma ShrBelow(x: nat, n: nat, m: nat)
    requires x < m * Pow2(n)
    ensures Shr(x, n) < m
  {
    SplitAt(x, n);
    ShlMul(Shr(x, n), n);
    if Shr(x, n) >= m {
      MulMonotone(m, Shr(x, n), Pow2(n));
    }
  }

  lemma MulMonotone(a: nat, b: nat, c: nat)
    requires a <= b
    ensures a * c <= b * c
  {
  }

  /** The low `a + b` bits are the low `a` bits plus the next `b` bits shifted up by `a`. */
  lemma {:induction false} LowSplit(x: nat, a: nat, b: nat)
    ensures Low(x, a + b) == Shl(Low(Shr(x, a), b), a) + Low(x, a)
  {
    if a > 0 {
      LowSplit(x / 2, a - 1, b);
    }
  }

  lemma {:induction false} LowLow(x: nat, a: nat, b: nat)
    requires a <= b
    ensures Low(Low(x, b), a) == Low(x, a)
  {
    if a > 0 {
      LowLow(x / 2, a - 1, b - 1);
    }
  }

  /** Bits below `n` do not see what lies above `n`. */
  lemma {:induction false} BitOfLow(x: nat, n: nat, k: nat)
    requires k < n
    ensures Bit(Low(x, n), k) == Bit(x, k)
  {
    if k > 0 {
      BitOfLow(x / 2, n - 1, k - 1);
    }
  }

  /** Two values with the same low `n` bits have the same low part. */
  lemma {:induction false} SameLowBits(x: nat, y: nat, n: nat)
    requires forall k: nat :: k < n ==> Bit(x, k) == Bit(y, k)
    ensures Low(x, n) == Low(y, n)
  {
    if n > 0 {
      assert Bit(x, 0) == Bit(y, 0);
      forall k: nat | k < n - 1 ensures Bit(x / 2, k) == Bit(y / 2, k) {
        assert Bit(x, k + 1) == Bit(y, k + 1);
      }
      SameLowBits(x / 2, y / 2, n - 1);
    }
  }

  // ---------------------------------------------------------------------------
  // Bitwise AND and OR

  lemma {:induction false} BitOfZero(k: nat)
    ensures Bit(0, k) == 0
  {
    if k > 0 {
      BitOfZero(k - 1);
    }
  }

  /** `a & b` is non-zero exactly when some bit is set in both `a` and `b`. */
  lemma {:induction false} BitAndNonZero(a: nat, b: nat)
    ensures BitAnd(a, b) != 0 <==> exists k: nat :: Bit(a, k) == 1 && Bit(b, k) == 1
    decreases a
  {
    if a == 0 || b == 0 {
      forall k: nat ensures Bit(a, k) == 0 || Bit(b, k) == 0 {
        BitOfZero(k);
      }
    } else {
      BitAndNonZero(a / 2, b / 2);
      if a % 2 == 1 && b % 2 == 1 {
        assert Bit(a, 0) == 1 && Bit(b, 0) == 1;
      } else {
        if BitAnd(a, b) != 0 {
          var k: nat :| Bit(a / 2, k) == 1 && Bit(b / 2, k) == 1;
          assert Bit(a, k + 1) == 1 && Bit(b, k + 1) == 1;
        }
        if exists k: nat :: Bit(a, k) == 1 && Bit(b, k) == 1 {
          var k: nat :| Bit(a, k) == 1 && Bit(b, k) == 1;
          assert k != 0;
          assert Bit(a / 2, k - 1) == 1 && Bit(b / 2, k - 1) == 1;
        }
      }
    }
  }

  lemma {:induction false} BitOrZero(a: nat)
    ensures BitOr(a, 0) == a
    decreases a
  {
    if a != 0 {
      BitOrZero(a / 2);
    }
  }

  lemma {:induction false} ShlZero(k: nat)
    ensures Shl(0, k) == 0
  {
    if k > 0 {
      ShlZero(k - 1);
    }
  }

  lemma {:induction false} BitOrZeroLeft(b: nat)
    ensures BitOr(0, b) == b
    decreases b
  {
    if b != 0 {
      BitOrZeroLeft(b / 2);
    }
  }

  /** OR-ing a value below `2^k` into a value shifted up by `k` is addition: the parts do not overlap. */
  lemma {:induction false} BitOrShifted(a: nat, k: nat, b: nat)
    requires b < Pow2(k)
    ensures BitOr(Shl(a, k), b) == Shl(a, k) + b
  {
    if k == 0 {
      BitOrZero(a);
    } else {
      BitOrShifted(a, k - 1, b / 2);
    }
  }

  /** OR does not leave the common width of its operands. */
  lemma {:induction false} BitOrBound(a: nat, b: nat, k: nat)
    requires a < Pow2(k) && b < Pow2(k)
    ensures BitOr(a, b) < Pow2(k)
    decreases a + b
  {
    if a != 0 || b != 0 {
      BitOrBound(a / 2, b / 2, k - 1);
    }
  }

  // ---------------------------------------------------------------------------
  // Floor of the base-2 logarithm

  /** `FloorLog2(n)` is the position of the highest set bit of `n`. */
  lemma {:induction false} FloorLog2Bounds(n: nat)
    requires n >= 1
    ensures Pow2(FloorLog2(n)) <= n < Pow2(FloorLog2(n) + 1)
  {
    if n > 1 {
      FloorLog2Bounds(n / 2);
    }
  }

  /** The bounds of `FloorLog2Bounds` pin the exponent down. */
  lemma FloorLog2Unique(n: nat, r: nat)
    requires Pow2(r) <= n < Pow2(r + 1)
    ensures r == FloorLog2(n)
  {
    FloorLog2Bounds(n);
    var f := FloorLog2(n);
    if r < f {
      Pow2Monotone(r + 1, f);
    } else if r > f {
      Pow2Monotone(f + 1, r);
    }
  }

  lemma FloorLog2OfPow2(k: nat)
    ensures FloorLog2(Pow2(k)) == k
  {
    FloorLog2Unique(Pow2(k), k);
  }

  /** The source's `log2`: `while (n > 1) { r++; n >>= 1; }`. Zero and one both give 0. */
  method Log2(n: nat) returns (r: nat)
    ensures n >= 1 ==> Pow2(r) <= n < Pow2(r + 1)
    ensures n <= 1 ==> r == 0
    ensures r == FloorLog2(n)
  {
    r := 0;
    var m := n;
    while m > 1
      invariant r + FloorLog2(m) == FloorLog2(n)
      invariant n >= 1 ==> m >= 1
      invariant n <= 1 ==> r == 0
    {
      r := r + 1;
      m := m / 2;
    }
    if n >= 1 {
      FloorLog2Bounds(n);
    }
  }

  // ---------------------------------------------------------------------------
  // Fixed-width fields, most significant field first

  /** Total width of a field layout. */
  function Sum(ws: seq<nat>): nat
  {
    if ws == [] then 0 else Sum(ws[..|ws| - 1]) + ws[|ws| - 1]
  }

  /** Every digit fits in its field. */
  predicate Fits(ds: seq<nat>, ws: seq<nat>)
  {
    |ds| == |ws| && forall i :: 0 <= i < |ds| ==> ds[i] < Pow2(ws[i])
  }

  /** Shift the accumulator up by each field's width and add that field's digit, first field first. */
  function Pack(ds: seq<nat>, ws: seq<nat>): nat
    requires |ds| == |ws|
  {
    if ds == [] then 0
    else Shl(Pack(ds[..|ds| - 1], ws[..|ws| - 1]), ws[|ws| - 1]) + ds[|ds| - 1]
  }

  /** Split a value into fields, peeling the last (least significant) field off first. */
  function Unpack(c: nat, ws: seq<nat>): (ds: seq<nat>)
    ensures |ds| == |ws|
    decreases |ws|
  {
    if ws == [] then []
    else Unpack(Shr(c, ws[|ws| - 1]), ws[..|ws| - 1]) + [Low(c, ws[|ws| - 1])]
  }

  lemma {:induction false} PackBound(ds: seq<nat>, ws: seq<nat>)
    requires Fits(ds, ws)
    ensures Pack(ds, ws) < Pow2(Sum(ws))
  {
    if ds != [] {
      var n := |ds| - 1;
      assert Fits(ds[..n], ws[..n]);
      PackBound(ds[..n], ws[..n]);
      var p := Pack(ds[..n], ws[..n]);
      var s := Sum(ws[..n]);
      // p + 1 <= 2^s, so (p << w) + d < ((p + 1) << w) <= 2^s << w == 2^(s + w)
      ShlAdd(p, 1, ws[n]);
      ShlOne(ws[n]);
      ShlMonotone(p + 1, Pow2(s), ws[n]);
      ShlPow2(s, ws[n]);
    }
  }

  lemma {:induction false} UnpackFits(c: nat, ws: seq<nat>)
    ensures Fits(Unpack(c, ws), ws)
    decreases |ws|
  {
    if ws != [] {
      var n := |ws| - 1;
      UnpackFits(Shr(c, ws[n]), ws[..n]);
      LowBound(c, ws[n]);
    }
  }

  /** Unpacking what was packed gives the digits back. */
  lemma {:induction false} UnpackPack(ds: seq<nat>, ws: seq<nat>)
    requires Fits(ds, ws)
    ensures Unpack(Pack(ds, ws), ws) == ds
  {
    if ds != [] {
      var n := |ds| - 1;
      var w := ws[n];
      var p := Pack(ds[..n], ws[..n]);
      var c := Pack(ds, ws);
      assert c == Shl(p, w) + ds[n];
      assert Fits(ds[..n], ws[..n]);
      ShrLowOfShl(p, ds[n], w);
      UnpackPack(ds[..n], ws[..n]);
      assert Unpack(c, ws) == Unpack(p, ws[..n]) + [ds[n]];
      assert ds == ds[..n] + [ds[n]];
    }
  }

  /** Packing the fields of any value gives back its low `Sum(ws)` bits. */
  lemma {:induction false} PackUnpack(c: nat, ws: seq<nat>)
    ensures Pack(Unpack(c, ws), ws) == Low(c, Sum(ws))
    decreases |ws|
  {
    if ws != [] {
      var n := |ws| - 1;
      var ds := Unpack(c, ws);
      var w := ws[n];
      assert ds[..n] == Unpack(Shr(c, w), ws[..n]);
      PackUnpack(Shr(c, w), ws[..n]);
      LowSplit(c, w, Sum(ws[..n]));
    }
  }

  /** Packing is injective on digits that fit. */
  lemma PackInjective(ds: seq<nat>, es: seq<nat>, ws: seq<nat>)
    requires Fits(ds, ws) && Fits(es, ws) && Pack(ds, ws) == Pack(es, ws)
    ensures ds == es
  {
    UnpackPack(ds, ws);
    UnpackPack(es, ws);
  }

  /**
   * Field `i` of `c` is `(c >> s) & ((1 << w) - 1)` where `w` is its width and
   * `s` the total width of the fields after it: the formula the source's decoders use.
   */
  lemma {:induction false} UnpackAt(c: nat, ws: seq<nat>, i: nat)
    requires i < |ws|
    ensures Unpack(c, ws)[i] == Low(Shr(c, Sum(ws[i + 1..])), ws[i])
    decreases |ws|
  {
    var n := |ws| - 1;
    if i == n {
      assert ws[i + 1..] == [];
    } else {
      var w := ws[n];
      UnpackAt(Shr(c, w), ws[..n], i);
      assert ws[..n][i + 1..] == ws[i + 1..n];
      assert ws[i + 1..][..|ws[i + 1..]| - 1] == ws[i + 1..n];
      assert Sum(ws[i + 1..]) == w + Sum(ws[i + 1..n]);
      ShrShr(c, w, Sum(ws[i + 1..n]));
    }
  }
}
