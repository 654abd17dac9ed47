/**
 * Expression trees with named variables and their truth tables
 * (expression.hpp). A leaf contributes one variable; the table of a tree has
 * one entry per assignment of its leaves, the leftmost leaf being the most
 * significant index bit. Tables of more than 64 entries are refused.
 */
module Expression {
  import opened Bits
  import opened Outcomes
  import opened TruthTables

  datatype UnaryOp = Not
  datatype BinaryOp = And | Or

  datatype Expr =
    | BaseExpr(name: string)
    | UnaryExpr(uop: UnaryOp, a: Expr)
    | BinaryExpr(bop: BinaryOp, a: Expr, b: Expr)

  /** The largest table a binary node may build. */
  const MAX_ENTRIES: nat := 64

  datatype TableError = TooLarge

  /** The number of leaves: every leaf is its own variable, even when two leaves share a name. */
  function Leaves(e: Expr): (r: nat)
    ensures r >= 1
  {
    match e
    case BaseExpr(_) => 1
    case UnaryExpr(_, a) => Leaves(a)
    case BinaryExpr(_, a, b) => Leaves(a) + Leaves(b)
  }

  /** The value of the tree when its leaves, left to right, take the values `env`. */
  function Eval(e: Expr, env: seq<bool>): bool
    requires |env| == Leaves(e)
  {
    match e
    case BaseExpr(_) => env[0]
    case UnaryExpr(Not, a) => !Eval(a, env)
    case BinaryExpr(op, a, b) =>
      var k := Leaves(a);
      Combine(op == And, Eval(a, env[..k]), Eval(b, env[k..]))
  }

  /** The table `gen_table` returns, or the error it throws. */
  function Table(e: Expr): (r: Result<seq<bool>, TableError>)
    ensures r.Ok? ==> |r.value| == Pow2(Leaves(e))
  {
    match e
    case BaseExpr(_) =>
      VariableTableLength();
      Ok(VariableTable)
    case UnaryExpr(Not, a) =>
      var ra := Table(a);
      if ra.Err? then ra else Ok(Negate(ra.value))
    case BinaryExpr(op, a, b) =>
      var ra := Table(a);
      var rb := Table(b);
      if ra.Err? then ra
      else if rb.Err? then rb
      else if |ra.value| * |rb.value| > MAX_ENTRIES then Err(TooLarge)
      else
        PowerLengthOf(rb.value, Leaves(b));
        Pow2Add(Leaves(a), Leaves(b));
        Ok(Product(op == And, ra.value, rb.value))
  }

  /**
   * `gen_table`: a leaf gives `[0, 1]`; `!` negates the operand's table in
   * place; `&&` and `||` fill a fresh table of `M * N` entries by index.
   */
  method GenTable(e: Expr) returns (r: Result<seq<bool>, TableError>)
    ensures r == Table(e)
  {
    match e
    case BaseExpr(_) =>
      return Ok([false, true]);
    case UnaryExpr(op, a) =>
      var sub := GenTable(a);
      if sub.Err? {
        return sub;
      }
      var t := sub.value;
      var table := new bool[|t|](i requires 0 <= i < |t| => t[i]);
      for k := 0 to table.Length
        invariant forall p :: 0 <= p < k ==> table[p] == !t[p]
        invariant forall p :: k <= p < table.Length ==> table[p] == t[p]
      {
        table[k] := !table[k];
      }
      assert table[..] == Negate(t);
      return Ok(table[..]);
    case BinaryExpr(op, a, b) =>
      var ra := GenTable(a);
      var rb := GenTable(b);
      if ra.Err? {
        return ra;
      }
      if rb.Err? {
        return rb;
      }
      var ta, tb := ra.value, rb.value;
      BinaryOfParts(op, a, b, ta, tb);
      var m, nb := |ta|, |tb|;
      var n := Log2(nb);
      var out := new bool[m * nb];
      if m * nb > MAX_ENTRIES {
        return Err(TooLarge);
      }
      FillProduct(op == And, ta, tb, n, out);
      return Ok(out[..]);
  }

  // ---------------------------------------------------------------------------
  // Lemmas

  /** The loop of a binary node: entry `i` combines `ta[i >> n]` and `tb[i & (2^n - 1)]`. */
  method FillProduct(isAnd: bool, ta: seq<bool>, tb: seq<bool>, n: nat, out: array<bool>)
    requires |tb| == Pow2(n) && out.Length == |ta| * |tb|
    modifies out
    ensures PowerLength(tb) && out[..] == Product(isAnd, ta, tb)
  {
    PowerLengthOf(tb, n);
    for i := 0 to out.Length
      invariant forall p :: 0 <= p < i ==> out[p] == Entry(isAnd, ta, tb, n, p)
    {
      var upper := Shr(i, n);
      var lower := Low(i, n);
      ShrBelow(i, n, |ta|);
      LowBound(i, n);
      if isAnd {
        out[i] := ta[upper] && tb[lower];
      } else {
        out[i] := ta[upper] || tb[lower];
      }
    }
    assert out[..] == Product(isAnd, ta, tb);
  }

  /** A binary node's table from its operands' tables: their product, unless it exceeds 64 entries. */
  lemma BinaryOfParts(op: BinaryOp, a: Expr, b: Expr, ta: seq<bool>, tb: seq<bool>)
    requires Table(a) == Ok(ta) && Table(b) == Ok(tb)
    ensures |tb| == Pow2(FloorLog2(|tb|)) && |ta| * |tb| >= 1
    ensures |ta| * |tb| <= MAX_ENTRIES ==> Table(BinaryExpr(op, a, b)) == Ok(Product(op == And, ta, tb))
    ensures |ta| * |tb| > MAX_ENTRIES ==> Table(BinaryExpr(op, a, b)) == Err(TooLarge)
  {
    PowerLengthOf(tb, Leaves(b));
    MulMonotone(1, |ta|, |tb|);
  }

  /** A binary node that has a table takes it from both operands' tables. */
  lemma BinaryParts(op: BinaryOp, a: Expr, b: Expr)
    requires Table(BinaryExpr(op, a, b)).Ok?
    ensures Table(a).Ok? && Table(b).Ok?
    ensures PowerLength(Table(b).value) && FloorLog2(|Table(b).value|) == Leaves(b)
    ensures Table(BinaryExpr(op, a, b)).value == Product(op == And, Table(a).value, Table(b).value)
  {
    PowerLengthOf(Table(b).value, Leaves(b));
  }

  /** A tree's table exists exactly when the tree has at most six leaves (64 entries). */
  lemma {:induction false} TableOkIff(e: Expr)
    ensures Table(e).Ok? <==> Leaves(e) <= 6
  {
    match e
    case BaseExpr(_) =>
    case UnaryExpr(Not, a) =>
      TableOkIff(a);
    case BinaryExpr(op, a, b) =>
      TableOkIff(a);
      TableOkIff(b);
      var la, lb := Leaves(a), Leaves(b);
      Pow2Add(la, lb);
      assert Pow2(6) == 64 && Pow2(7) == 128;
      if la + lb <= 6 {
        Pow2Monotone(la + lb, 6);
      } else {
        Pow2Monotone(7, la + lb);
      }
  }

  /** Entry `i` of the table is the value of the tree under assignment `Row(i, Leaves(e))`. */
  lemma {:induction false} TableMeaning(e: Expr, i: nat)
    requires Table(e).Ok? && i < |Table(e).value|
    ensures Table(e).value[i] == Eval(e, Row(i, Leaves(e)))
    decreases e, 1
  {
    match e
    case BaseExpr(_) =>
      assert Row(i, 1) == [i % 2 == 1];
    case UnaryExpr(Not, a) =>
      TableMeaning(a, i);
    case BinaryExpr(op, a, b) =>
      BinaryMeaning(op, a, b, i);
  }

  /** The binary case of `TableMeaning`: the high index bits assign the left operand's leaves. */
  lemma {:induction false} BinaryMeaning(op: BinaryOp, a: Expr, b: Expr, i: nat)
    requires Table(BinaryExpr(op, a, b)).Ok? && i < |Table(BinaryExpr(op, a, b)).value|
    ensures Table(BinaryExpr(op, a, b)).value[i] == Eval(BinaryExpr(op, a, b), Row(i, Leaves(a) + Leaves(b)))
    decreases BinaryExpr(op, a, b), 0
  {
    BinaryEntry(op, a, b, i);
    var lb := Leaves(b);
    TableMeaning(a, Shr(i, lb));
    TableMeaning(b, Low(i, lb));
    BinaryEval(op, a, b, i);
  }

  /** Entry `i` of a binary table combines the left table at the high bits with the right one at the low bits. */
  lemma BinaryEntry(op: BinaryOp, a: Expr, b: Expr, i: nat)
    requires Table(BinaryExpr(op, a, b)).Ok? && i < |Table(BinaryExpr(op, a, b)).value|
    ensures Table(a).Ok? && Table(b).Ok?
    ensures Shr(i, Leaves(b)) < |Table(a).value| && Low(i, Leaves(b)) < |Table(b).value|
    ensures Table(BinaryExpr(op, a, b)).value[i] ==
      Combine(op == And, Table(a).value[Shr(i, Leaves(b))], Table(b).value[Low(i, Leaves(b))])
  {
    BinaryParts(op, a, b);
    ProductAt(op == And, Table(a).value, Table(b).value, Leaves(b), i);
  }

  /** Under row `i`, the left operand reads the high bits and the right operand the low bits. */
  lemma BinaryEval(op: BinaryOp, a: Expr, b: Expr, i: nat)
    ensures Eval(BinaryExpr(op, a, b), Row(i, Leaves(a) + Leaves(b))) ==
      Combine(op == And, Eval(a, Row(Shr(i, Leaves(b)), Leaves(a))), Eval(b, Row(Low(i, Leaves(b)), Leaves(b))))
  {
    var la, lb := Leaves(a), Leaves(b);
    var row := Row(i, la + lb);
    RowSplit(i, la, lb);
    assert row[..la] == Row(Shr(i, lb), la) && row[la..] == Row(Low(i, lb), lb);
  }

  /** A leaf's table is `[false, true]`. */
  lemma BaseTable(name: string)
    ensures Table(BaseExpr(name)) == Ok([false, true])
  {
  }

  /** `!` keeps the length and flips every entry. */
  lemma NotTable(a: Expr)
    requires Table(a).Ok?
    ensures Table(UnaryExpr(Not, a)).Ok?
    ensures |Table(UnaryExpr(Not, a)).value| == |Table(a).value|
    ensures forall i :: 0 <= i < |Table(a).value| ==> Table(UnaryExpr(Not, a)).value[i] == !Table(a).value[i]
  {
  }

  /** Double negation restores the table, including its errors. */
  lemma DoubleNegation(a: Expr)
    ensures Table(UnaryExpr(Not, UnaryExpr(Not, a))) == Table(a)
  {
    if Table(a).Ok? {
      NegateTwice(Table(a).value);
    }
  }

  /** A binary node's table has `M * N` entries, and entry `u * N + l` combines entry `u` of the left with entry `l` of the right. */
  lemma BinaryTable(op: BinaryOp, a: Expr, b: Expr, u: nat, l: nat)
    requires Table(BinaryExpr(op, a, b)).Ok?
    ensures Table(a).Ok? && Table(b).Ok?
    ensures |Table(BinaryExpr(op, a, b)).value| == |Table(a).value| * |Table(b).value|
    ensures u < |Table(a).value| && l < |Table(b).value| ==>
      u * |Table(b).value| + l < |Table(BinaryExpr(op, a, b)).value|
    ensures u < |Table(a).value| && l < |Table(b).value| ==>
      Table(BinaryExpr(op, a, b)).value[u * |Table(b).value| + l] ==
      Combine(op == And, Table(a).value[u], Table(b).value[l])
  {
    BinaryParts(op, a, b);
    ProductShape(op == And, Table(a).value, Table(b).value, Table(BinaryExpr(op, a, b)).value, u, l);
  }
}
