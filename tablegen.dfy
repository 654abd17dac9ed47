/**
 * The older truth-table builder (table-gen.hpp): every node is a binary
 * operator whose missing (null) children stand for fresh variables. Only
 * `And` and `Or` nodes have a table; `OpenParen` and `Not`, which share the
 * operator enumeration because the parser stacks them, are errors, both when
 * building the table and when printing the tree.
 */
module TableGen {
  import opened Bits
  import opened Outcomes
  import opened TruthTables

  datatype Op = And | Or | OpenParen | Not

  /** A node: an operator and two child pointers. */
  datatype Expr = Expr(op: Op, a: Child, b: Child)

  /** A child pointer; `Null` is a leaf. */
  datatype Child = Null | Sub(node: Expr)

  datatype TableError = BadOperator

  predicate IsBinary(op: Op)
  {
    op == And || op == Or
  }

  /** Every node of the tree is an `And` or an `Or`. */
  predicate AllBinary(e: Expr)
  {
    IsBinary(e.op) && ChildAllBinary(e.a) && ChildAllBinary(e.b)
  }

  predicate ChildAllBinary(c: Child)
  {
    c.Null? || AllBinary(c.node)
  }

  /** The number of null children: the variables of the table. */
  function Leaves(e: Expr): nat
  {
    ChildLeaves(e.a) + ChildLeaves(e.b)
  }

  function ChildLeaves(c: Child): nat
  {
    match c
    case Null => 1
    case Sub(x) => Leaves(x)
  }

  /** The value of the tree when its leaves, left to right, take the values `env`. */
  function Eval(e: Expr, env: seq<bool>): bool
    requires |env| == Leaves(e)
  {
    var k := ChildLeaves(e.a);
    Combine(e.op == And, ChildEval(e.a, env[..k]), ChildEval(e.b, env[k..]))
  }

  function ChildEval(c: Child, env: seq<bool>): bool
    requires |env| == ChildLeaves(c)
  {
    match c
    case Null => env[0]
    case Sub(x) => Eval(x, env)
  }

  /** The table `Expr::gen_table` returns, or the error it throws. */
  function Table(e: Expr): (r: Result<seq<bool>, TableError>)
    ensures r.Ok? ==> |r.value| == Pow2(Leaves(e))
  {
    var ra := ChildTable(e.a);
    var rb := ChildTable(e.b);
    if ra.Err? then ra
    else if rb.Err? then rb
    else if !IsBinary(e.op) then Err(BadOperator)
    else
      var la, lb := ChildLeaves(e.a), ChildLeaves(e.b);
      PowerLengthOf(rb.value, lb);
      Pow2Add(la, lb);
      Ok(Product(e.op == And, ra.value, rb.value))
  }

  /** A null child's table is that of one variable. */
  function ChildTable(c: Child): (r: Result<seq<bool>, TableError>)
    ensures r.Ok? ==> |r.value| == Pow2(ChildLeaves(c))
  {
    match c
    case Null =>
      VariableTableLength();
      Ok(VariableTable)
    case Sub(x) => Table(x)
  }

  /** `Expr::gen_table`: the children's tables (`[0, 1]` for a null child), then the product filled by index. */
  method GenTable(e: Expr) returns (r: Result<seq<bool>, TableError>)
    ensures r == Table(e)
    decreases e, 1
  {
    var ra := GenChildTable(e.a);
    var rb := GenChildTable(e.b);
    if ra.Err? {
      return ra;
    }
    if rb.Err? {
      return rb;
    }
    var ta, tb := ra.value, rb.value;
    NodeTable(e, ta, tb);
    var m, nb := |ta|, |tb|;
    var n := Log2(nb);
    var out := new bool[m * nb];
    var ok := FillEntries(e.op, ta, tb, n, out);
    if !ok {
      return Err(BadOperator);
    }
    return Ok(out[..]);
  }

  /** A node's table from its children's tables: their product, or the error for a non-binary operator. */
  lemma NodeTable(e: Expr, ta: seq<bool>, tb: seq<bool>)
    requires ChildTable(e.a) == Ok(ta) && ChildTable(e.b) == Ok(tb)
    ensures |tb| == Pow2(FloorLog2(|tb|)) && |ta| * |tb| >= 1
    ensures IsBinary(e.op) ==> Table(e) == Ok(Product(e.op == And, ta, tb))
    ensures !IsBinary(e.op) ==> Table(e) == Err(BadOperator)
  {
    PowerLengthOf(tb, ChildLeaves(e.b));
    MulMonotone(1, |ta|, |tb|);
  }

  /**
   * The index loop of `gen_table`: entry `i` combines `ta[i >> n]` and
   * `tb[i & (2^n - 1)]`; any operator but `&&` and `||` throws on the first entry.
   */
  method FillEntries(op: Op, ta: seq<bool>, tb: seq<bool>, n: nat, out: array<bool>) returns (ok: bool)
    requires |tb| == Pow2(n) && out.Length == |ta| * |tb| && out.Length >= 1
    modifies out
    ensures PowerLength(tb)
    ensures ok <==> IsBinary(op)
    ensures ok ==> out[..] == Product(op == And, ta, tb)
  {
    PowerLengthOf(tb, n);
    var isAnd := op == And;
    for i := 0 to out.Length
      invariant forall p :: 0 <= p < i ==> out[p] == Entry(isAnd, ta, tb, n, p)
      invariant i > 0 ==> IsBinary(op)
    {
      var upper := Shr(i, n);
      var lower := Low(i, n);
      ShrBelow(i, n, |ta|);
      LowBound(i, n);
      if op == And {
        out[i] := ta[upper] && tb[lower];
      } else if op == Or {
        out[i] := ta[upper] || tb[lower];
      } else {
        return false;
      }
    }
    assert out[..] == Product(isAnd, ta, tb);
    return true;
  }

  method GenChildTable(c: Child) returns (r: Result<seq<bool>, TableError>)
    ensures r == ChildTable(c)
    decreases c, 0
  {
    match c
    case Null =>
      return Ok([false, true]);
    case Sub(x) =>
      r := GenTable(x);
  }

  /**
   * `Expr::print`: prints the tree, fully parenthesised, naming the leaves
   * `next_v`, `next_v + 1`, ... from left to right, and returns how many
   * leaves it named. An operator other than `And` or `Or` is an error once
   * the left operand is printed.
   */
  method Print(e: Expr, nextV: int) returns (r: Result<int, TableError>)
    ensures r.Ok? <==> AllBinary(e)
    ensures r.Ok? ==> r.value == Leaves(e)
  {
    var initialV := nextV;
    var v := nextV;
    match e.a {
      case Sub(x) =>
        var ra := Print(x, v);
        if ra.Err? {
          return ra;
        }
        v := v + ra.value;
      case Null =>
        v := v + 1;
    }
    if !IsBinary(e.op) {
      return Err(BadOperator);
    }
    match e.b {
      case Sub(x) =>
        var rb := Print(x, v);
        if rb.Err? {
          return rb;
        }
        v := v + rb.value;
      case Null =>
        v := v + 1;
    }
    return Ok(v - initialV);
  }

  // ---------------------------------------------------------------------------
  // Lemmas

  /** A node that has a table takes it from both children's tables. */
  lemma NodeParts(e: Expr)
    requires Table(e).Ok?
    ensures ChildTable(e.a).Ok? && ChildTable(e.b).Ok? && IsBinary(e.op)
    ensures PowerLength(ChildTable(e.b).value) && FloorLog2(|ChildTable(e.b).value|) == ChildLeaves(e.b)
    ensures Table(e).value == Product(e.op == And, ChildTable(e.a).value, ChildTable(e.b).value)
  {
    PowerLengthOf(ChildTable(e.b).value, ChildLeaves(e.b));
  }

  /** A tree has a table exactly when all its operators are `And` or `Or`; it then has `2^leaves` entries. */
  lemma {:induction false} TableOkIff(e: Expr)
    ensures Table(e).Ok? <==> AllBinary(e)
    ensures Table(e).Ok? ==> FloorLog2(|Table(e).value|) == Leaves(e)
    decreases e, 1
  {
    ChildTableOkIff(e.a);
    ChildTableOkIff(e.b);
    if Table(e).Ok? {
      FloorLog2OfPow2(Leaves(e));
    }
  }

  lemma {:induction false} ChildTableOkIff(c: Child)
    ensures ChildTable(c).Ok? <==> ChildAllBinary(c)
    decreases c, 0
  {
    if c.Sub? {
      TableOkIff(c.node);
    }
  }

  /** `print`'s leaf count is `log2` of the length of `gen_table()`'s result, and both fail on the same trees. */
  lemma PrintCountIsTableWidth(e: Expr)
    ensures Table(e).Ok? <==> AllBinary(e)
    ensures AllBinary(e) ==> Leaves(e) == FloorLog2(|Table(e).value|)
  {
    TableOkIff(e);
  }

  /** Entry `i` of the table is the value of the tree under assignment `Row(i, Leaves(e))`. */
  lemma {:induction false} TableMeaning(e: Expr, i: nat)
    requires Table(e).Ok? && i < |Table(e).value|
    ensures Table(e).value[i] == Eval(e, Row(i, Leaves(e)))
    decreases e, 1
  {
    NodeEntry(e, i);
    var lb := ChildLeaves(e.b);
    ChildMeaning(e.a, Shr(i, lb));
    ChildMeaning(e.b, Low(i, lb));
    NodeEval(e, i);
  }

  /** Entry `i` of a node's table combines the left table at the high bits with the right one at the low bits. */
  lemma NodeEntry(e: Expr, i: nat)
    requires Table(e).Ok? && i < |Table(e).value|
    ensures ChildTable(e.a).Ok? && ChildTable(e.b).Ok?
    ensures Shr(i, ChildLeaves(e.b)) < |ChildTable(e.a).value| && Low(i, ChildLeaves(e.b)) < |ChildTable(e.b).value|
    ensures Table(e).value[i] == Combine(e.op == And, ChildTable(e.a).value[Shr(i, ChildLeaves(e.b))],
                                         ChildTable(e.b).value[Low(i, ChildLeaves(e.b))])
  {
    NodeParts(e);
    ProductAt(e.op == And, ChildTable(e.a).value, ChildTable(e.b).value, ChildLeaves(e.b), i);
  }

  /** Under row `i`, the left child reads the high bits and the right child the low bits. */
  lemma NodeEval(e: Expr, i: nat)
    ensures Eval(e, Row(i, Leaves(e))) ==
      Combine(e.op == And, ChildEval(e.a, Row(Shr(i, ChildLeaves(e.b)), ChildLeaves(e.a))),
                           ChildEval(e.b, Row(Low(i, ChildLeaves(e.b)), ChildLeaves(e.b))))
  {
    var la, lb := ChildLeaves(e.a), ChildLeaves(e.b);
    var row := Row(i, la + lb);
    RowSplit(i, la, lb);
    assert row[..la] == Row(Shr(i, lb), la) && row[la..] == Row(Low(i, lb), lb);
  }

  lemma {:induction false} ChildMeaning(c: Child, i: nat)
    requires ChildTable(c).Ok? && i < |ChildTable(c).value|
    ensures ChildTable(c).value[i] == ChildEval(c, Row(i, ChildLeaves(c)))
    decreases c, 0
  {
    match c
    case Null =>
      assert Row(i, 1) == [i % 2 == 1];
    case Sub(x) =>
      TableMeaning(x, i);
  }

  /** The tree built by the table-gen driver, `(((A || B) && C) || D)`. */
  const DriverTree: Expr := Expr(Or, Sub(Expr(And, Sub(Expr(Or, Null, Null)), Null)), Null)

  /** Its table has 16 entries: four variables. */
  lemma DriverTable()
    ensures Table(DriverTree).Ok? && |Table(DriverTree).value| == 16
  {
    TableOkIff(DriverTree);
    assert Leaves(DriverTree) == 4;
  }
}
