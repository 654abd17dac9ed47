/**
 * Truth tables shared by the two expression-tree models (expression.hpp and
 * table-gen.hpp). A table over `n` variables has `2^n` entries; entry `i`
 * belongs to the assignment `Row(i, n)`, in which variable 0 (printed `A`) is
 * the most significant bit of `i`.
 */
module TruthTables {
  import opened Bits

  /** The table of a single variable: false, then true. */
  const VariableTable: seq<bool> := [false, true]

  /** The assignment row `i` stands for, variable 0 first: the `n` low bits of `i`, most significant first. */
  function Row(i: nat, n: nat): (r: seq<bool>)
    ensures |r| == n
  {
    if n == 0 then [] else Row(i / 2, n - 1) + [i % 2 == 1]
  }

  /** `&&` or `||`. */
  function Combine(isAnd: bool, x: bool, y: bool): bool
  {
    if isAnd then x && y else x || y
  }

  /** The table with every entry flipped. */
  function Negate(t: seq<bool>): (r: seq<bool>)
    ensures |r| == |t|
  {
    seq(|t|, i requires 0 <= i < |t| => !t[i])
  }

  /** Whether the length of a table is a power of two, as every table built here is. */
  predicate PowerLength(t: seq<bool>)
  {
    |t| == Pow2(FloorLog2(|t|))
  }

  /** Entry `i` of the product: the left table is read at `i >> n`, the right one at `i & (2^n - 1)`. */
  function Entry(isAnd: bool, ta: seq<bool>, tb: seq<bool>, n: nat, i: nat): bool
    requires |tb| == Pow2(n) && i < |ta| * |tb|
  {
    ShrBelow(i, n, |ta|);
    LowBound(i, n);
    Combine(isAnd, ta[Shr(i, n)], tb[Low(i, n)])
  }

  /** The table of `a op b` from the tables of `a` and `b`. */
  function Product(isAnd: bool, ta: seq<bool>, tb: seq<bool>): (r: seq<bool>)
    requires PowerLength(tb)
    ensures |r| == |ta| * |tb|
  {
    var n := FloorLog2(|tb|);
    seq(|ta| * |tb|, i requires 0 <= i < |ta| * |tb| => Entry(isAnd, ta, tb, n, i))
  }

  // ---------------------------------------------------------------------------
  // Lemmas

  /** Variable `v` of row `i` is bit `n - 1 - v` of `i`, as the table printer labels it. */
  lemma {:induction false} RowAt(i: nat, n: nat, v: nat)
    requires v < n
    ensures Row(i, n)[v] == (Bit(i, n - 1 - v) == 1)
  {
    if v < n - 1 {
      RowAt(i / 2, n - 1, v);
      assert Bit(i, n - 1 - v) == Bit(i / 2, n - 2 - v);
    }
  }

  /** The row of the high part, then the row of the low part. */
  lemma {:induction false} RowSplit(i: nat, a: nat, b: nat)
    ensures Row(i, a + b) == Row(Shr(i, b), a) + Row(Low(i, b), b)
  {
    if b > 0 {
      RowSplit(i / 2, a, b - 1);
      var lo := Low(i, b);
      assert lo / 2 == Low(i / 2, b - 1) && lo % 2 == i % 2;
      assert Row(lo, b) == Row(Low(i / 2, b - 1), b - 1) + [i % 2 == 1];
    }
  }

  /** Distinct rows of one table are distinct assignments. */
  lemma {:induction false} RowInjective(i: nat, j: nat, n: nat)
    requires i < Pow2(n) && j < Pow2(n) && Row(i, n) == Row(j, n)
    ensures i == j
  {
    if n > 0 {
      assert i % 2 == j % 2 by {
        assert Row(i, n)[n - 1] == Row(j, n)[n - 1];
      }
      assert Row(i / 2, n - 1) == Row(i, n)[..n - 1] == Row(j, n)[..n - 1] == Row(j / 2, n - 1);
      RowInjective(i / 2, j / 2, n - 1);
    }
  }

  lemma NegateTwice(t: seq<bool>)
    ensures Negate(Negate(t)) == t
  {
  }

  lemma VariableTableLength()
    ensures PowerLength(VariableTable) && |VariableTable| == Pow2(1)
  {
    assert FloorLog2(2) == 1;
  }

  lemma PowerLengthOf(t: seq<bool>, k: nat)
    requires |t| == Pow2(k)
    ensures PowerLength(t) && FloorLog2(|t|) == k
  {
    FloorLog2OfPow2(k);
  }

  /**
   * Entry `u * |tb| + l` of the product combines entry `u` of the left table
   * with entry `l` of the right one: the left operand owns the high index bits.
   */
  /** Entry `i` of a product whose right table has `2^n` entries: the high bits index the left table, the low bits the right. */
  lemma ProductAt(isAnd: bool, ta: seq<bool>, tb: seq<bool>, n: nat, i: nat)
    requires |tb| == Pow2(n) && i < |ta| * |tb|
    ensures PowerLength(tb) && Shr(i, n) < |ta| && Low(i, n) < |tb|
    ensures Product(isAnd, ta, tb)[i] == Combine(isAnd, ta[Shr(i, n)], tb[Low(i, n)])
  {
    PowerLengthOf(tb, n);
    ShrBelow(i, n, |ta|);
    LowBound(i, n);
    assert Product(isAnd, ta, tb)[i] == Entry(isAnd, ta, tb, n, i);
  }

  /** The shape of a product table `t`: `M * N` entries, entry `u * N + l` combining `ta[u]` and `tb[l]`. */
  lemma ProductShape(isAnd: bool, ta: seq<bool>, tb: seq<bool>, t: seq<bool>, u: nat, l: nat)
    requires PowerLength(tb) && t == Product(isAnd, ta, tb)
    ensures |t| == |ta| * |tb|
    ensures u < |ta| && l < |tb| ==> u * |tb| + l < |t|
    ensures u < |ta| && l < |tb| ==> t[u * |tb| + l] == Combine(isAnd, ta[u], tb[l])
  {
    if u < |ta| && l < |tb| {
      ProductBlocks(isAnd, ta, tb, u, l);
    }
  }

  lemma ProductBlocks(isAnd: bool, ta: seq<bool>, tb: seq<bool>, u: nat, l: nat)
    requires PowerLength(tb) && u < |ta| && l < |tb|
    ensures u * |tb| + l < |ta| * |tb|
    ensures Product(isAnd, ta, tb)[u * |tb| + l] == Combine(isAnd, ta[u], tb[l])
  {
    var n := FloorLog2(|tb|);
    var i := u * |tb| + l;
    MulMonotone(u + 1, |ta|, |tb|);
    assert i < |ta| * |tb|;
    ShlMul(u, n);
    ShrLowOfShl(u, l, n);
    assert Shr(i, n) == u && Low(i, n) == l;
    assert Product(isAnd, ta, tb)[i] == Entry(isAnd, ta, tb, n, i);
  }
}
