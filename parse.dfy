/**
 * The infix parser of parse.hpp: whitespace-separated tokens are put in
 * postfix order by the shunting-yard loop of module ShuntingYard, reading and
 * inserting into the global precedence table, and a postfix token list is
 * folded into an expression tree of module Expression.
 */
module Parse {
  import opened Outcomes
  import opened ShuntingYard
  import opened Expression

  const NOT: Token := "!"
  const AND: Token := "&&"
  const OR: Token := "||"

  /** The table `PRECEDENCE` starts with. */
  const PRECEDENCE: map<Token, int> := map[OR := 20, AND := 50, NOT := 100]

  /** The operator tokens of `UNARY_OPS` and `BINARY_OPS`. */
  const OPERATOR_TOKENS: set<Token> := {OR, AND, NOT}

  /** The loop as written: a token is an operator when it is a key of `PRECEDENCE` at that moment. */
  const AsWritten: Config := Config(true, OPERATOR_TOKENS)

  /** The loop as intended: a token is an operator when it is one of the operator tokens. */
  const Corrected: Config := Config(false, OPERATOR_TOKENS)

  /**
   * The namespace's mutable state: the precedence table, which lookups with
   * `operator[]` extend.
   */
  class Parser {
    var precedence: map<Token, int>

    constructor()
      ensures precedence == PRECEDENCE
    {
      precedence := PRECEDENCE;
    }

    /** `convert_to_postfix` as written; the table keeps the keys its lookups inserted. */
    method ConvertToPostfix(input: string) returns (r: Result<seq<Token>, ParseError>)
      modifies this
      ensures var c := Convert(AsWritten, Words(input), old(precedence));
        && (r.Ok? <==> c.Ok?)
        && (c.Ok? ==> r.value == c.value.0 && precedence == c.value.1)
    {
      var c := ShuntingYard.ConvertToPostfix(AsWritten, Words(input), precedence);
      match c
      case Err(e) =>
        r := Err(e);
      case Ok((out, prec)) =>
        precedence := prec;
        r := Ok(out);
    }

    /** The conversion with operators recognised by the fixed list of operator tokens. */
    method FixedConvertToPostfix(input: string) returns (r: Result<seq<Token>, ParseError>)
      modifies this
      ensures var c := Convert(Corrected, Words(input), old(precedence));
        && (r.Ok? <==> c.Ok?)
        && (c.Ok? ==> r.value == c.value.0 && precedence == c.value.1)
    {
      var c := ShuntingYard.ConvertToPostfix(Corrected, Words(input), precedence);
      match c
      case Err(e) =>
        r := Err(e);
      case Ok((out, prec)) =>
        precedence := prec;
        r := Ok(out);
    }
  }

  // ---------------------------------------------------------------------------
  // From postfix tokens to a tree

  /** `out.back()` on an empty stack, or a final stack that is not a single tree. */
  datatype BuildError = StackUnderflow | NotOneItem(count: nat)

  function BinaryOpOf(t: Token): BinaryOp
  {
    if t == AND then And else Or
  }

  function TokenOf(op: BinaryOp): Token
  {
    if op == And then AND else OR
  }

  /** One iteration of `tokens_to_expr`'s loop over the stack of trees. */
  function Apply(stack: seq<Expr>, t: Token): Result<seq<Expr>, BuildError>
  {
    if t == NOT then
      if |stack| < 1 then Err(StackUnderflow)
      else Ok(stack[..|stack| - 1] + [UnaryExpr(Not, stack[|stack| - 1])])
    else if t == AND || t == OR then
      if |stack| < 2 then Err(StackUnderflow)
      else Ok(stack[..|stack| - 2] + [BinaryExpr(BinaryOpOf(t), stack[|stack| - 2], stack[|stack| - 1])])
    else Ok(stack + [BaseExpr(t)])
  }

  function Rebuild(stack: seq<Expr>, ts: seq<Token>): Result<seq<Expr>, BuildError>
    decreases |ts|
  {
    if ts == [] then Ok(stack)
    else
      match Apply(stack, ts[0])
      case Err(e) => Err(e)
      case Ok(s) => Rebuild(s, ts[1..])
  }

  /** `tokens_to_expr`: the single tree the tokens leave on the stack. */
  function Build(ts: seq<Token>): Result<Expr, BuildError>
  {
    match Rebuild([], ts)
    case Err(e) => Err(e)
    case Ok(s) => if |s| == 1 then Ok(s[0]) else Err(NotOneItem(|s|))
  }

  /** `tokens_to_expr`: a loop over the tokens with a stack of trees. */
  method TokensToExpr(tokens: seq<Token>) returns (r: Result<Expr, BuildError>)
    ensures r == Build(tokens)
  {
    var out: seq<Expr> := [];
    for i := 0 to |tokens|
      invariant Rebuild(out, tokens[i..]) == Rebuild([], tokens)
    {
      var token := tokens[i];
      ghost var before := out;
      assert tokens[i..][0] == token && tokens[i..][1..] == tokens[i + 1..];
      if token == NOT {
        if |out| == 0 {
          return Err(StackUnderflow);
        }
        var a := out[|out| - 1];
        out := out[..|out| - 1];
        out := out + [UnaryExpr(Not, a)];
      } else if token == AND || token == OR {
        var op := BinaryOpOf(token);
        if |out| == 0 {
          return Err(StackUnderflow);
        }
        var b := out[|out| - 1];
        out := out[..|out| - 1];
        if |out| == 0 {
          return Err(StackUnderflow);
        }
        var a := out[|out| - 1];
        out := out[..|out| - 1];
        assert out == before[..|before| - 2];
        out := out + [BinaryExpr(op, a, b)];
      } else {
        out := out + [BaseExpr(token)];
      }
      assert Apply(before, token) == Ok(out);
    }
    assert tokens[|tokens|..] == [];
    if |out| != 1 {
      return Err(NotOneItem(|out|));
    }
    return Ok(out[0]);
  }

  // ---------------------------------------------------------------------------
  // Trees as tokens

  /** The tree as a term over the operator tokens. */
  function ToTerm(e: Expr): Term
  {
    match e
    case BaseExpr(n) => Atom(n)
    case UnaryExpr(_, a) => Prefix(NOT, ToTerm(a))
    case BinaryExpr(op, a, b) => Term.Infix(TokenOf(op), ToTerm(a), ToTerm(b))
  }

  /** The tree in postfix order. */
  function Postfix(e: Expr): seq<Token>
  {
    PostfixOf(ToTerm(e))
  }

  /** The tree with every operator application parenthesised, one token per operator, operand and parenthesis. */
  function InfixTokens(e: Expr): seq<Token>
  {
    Parenthesized(ToTerm(e))
  }

  /** Every leaf name is a single word that is no operator and no parenthesis. */
  predicate Printable(e: Expr)
  {
    match e
    case BaseExpr(n) => IsWord(n) && IsOperand(Corrected, n)
    case UnaryExpr(_, a) => Printable(a)
    case BinaryExpr(_, a, b) => Printable(a) && Printable(b)
  }

  /** Every leaf name is a token `tokens_to_expr` reads as an operand. */
  predicate Named(e: Expr)
  {
    match e
    case BaseExpr(n) => n !in OPERATOR_TOKENS
    case UnaryExpr(_, a) => Named(a)
    case BinaryExpr(_, a, b) => Named(a) && Named(b)
  }

  /** The postfix tokens of a stack of trees, bottom first. */
  function Flatten(stack: seq<Expr>): seq<Token>
  {
    if stack == [] then [] else Flatten(stack[..|stack| - 1]) + Postfix(stack[|stack| - 1])
  }

  predicate AllNamed(stack: seq<Expr>)
  {
    forall i :: 0 <= i < |stack| ==> Named(stack[i])
  }

  // ---------------------------------------------------------------------------
  // Lemmas

  lemma {:induction false} RebuildPostfix(stack: seq<Expr>, e: Expr, rest: seq<Token>)
    requires Named(e)
    ensures Rebuild(stack, Postfix(e) + rest) == Rebuild(stack + [e], rest)
    decreases e
  {
    match e
    case BaseExpr(n) =>
      assert ([n] + rest)[0] == n && ([n] + rest)[1..] == rest;
    case UnaryExpr(op, a) =>
      assert e == UnaryExpr(Not, a);
      assert (stack + [a])[..|stack|] == stack;
      assert Apply(stack + [a], NOT) == Ok(stack + [e]);
      assert Postfix(e) == Postfix(a) + [NOT];
      assert Postfix(e) + rest == Postfix(a) + ([NOT] + rest);
      RebuildPostfix(stack, a, [NOT] + rest);
      assert ([NOT] + rest)[1..] == rest;
      assert (stack + [a])[..|stack + [a]| - 1] == stack;
    case BinaryExpr(op, a, b) =>
      var t := TokenOf(op);
      assert Postfix(e) == Postfix(a) + Postfix(b) + [t];
      assert Postfix(e) + rest == Postfix(a) + (Postfix(b) + ([t] + rest));
      RebuildPostfix(stack, a, Postfix(b) + ([t] + rest));
      RebuildPostfix(stack + [a], b, [t] + rest);
      assert ([t] + rest)[1..] == rest;
      assert (stack + [a] + [b])[..|stack + [a] + [b]| - 2] == stack;
      assert BinaryOpOf(t) == op;
  }

  /** `tokens_to_expr` inverts the postfix rendering. */
  lemma BuildPostfix(e: Expr)
    requires Named(e)
    ensures Build(Postfix(e)) == Ok(e)
  {
    RebuildPostfix([], e, []);
    assert Postfix(e) + [] == Postfix(e);
  }

  lemma FlattenPush(stack: seq<Expr>, e: Expr)
    ensures Flatten(stack + [e]) == Flatten(stack) + Postfix(e)
  {
    assert (stack + [e])[..|stack + [e]| - 1] == stack;
  }

  lemma FlattenUnary(rest: seq<Expr>, a: Expr)
    ensures Flatten(rest + [UnaryExpr(Not, a)]) == Flatten(rest) + Postfix(a) + [NOT]
  {
    FlattenPush(rest, UnaryExpr(Not, a));
    var f, pa := Flatten(rest), Postfix(a);
    assert Postfix(UnaryExpr(Not, a)) == pa + [NOT];
    assert f + (pa + [NOT]) == f + pa + [NOT];
  }

  lemma ApplyUnary(stack: seq<Expr>)
    requires |stack| >= 1
    ensures Flatten(Apply(stack, NOT).value) == Flatten(stack) + [NOT]
  {
    var n := |stack|;
    var rest, a := stack[..n - 1], stack[n - 1];
    assert Apply(stack, NOT).value == rest + [UnaryExpr(Not, a)];
    assert Flatten(stack) == Flatten(rest) + Postfix(a);
    FlattenUnary(rest, a);
  }

  /** The postfix tokens of a stack whose top two trees are `a` and `b`. */
  lemma FlattenTopTwo(stack: seq<Expr>)
    requires |stack| >= 2
    ensures Flatten(stack) == Flatten(stack[..|stack| - 2]) + Postfix(stack[|stack| - 2]) + Postfix(stack[|stack| - 1])
  {
    var n := |stack|;
    assert stack[..n - 1][..n - 2] == stack[..n - 2];
    assert stack[..n - 1][n - 2] == stack[n - 2];
  }

  lemma ApplyKeepsNamed(stack: seq<Expr>, t: Token)
    requires AllNamed(stack) && Apply(stack, t).Ok?
    ensures AllNamed(Apply(stack, t).value)
  {
    var s := Apply(stack, t).value;
    var n := |stack|;
    if t == AND || t == OR {
      assert Named(stack[n - 2]) && Named(stack[n - 1]);
      assert forall i :: 0 <= i < n - 2 ==> s[i] == stack[i];
    } else if t == NOT {
      assert Named(stack[n - 1]);
      assert forall i :: 0 <= i < n - 1 ==> s[i] == stack[i];
    } else {
      assert forall i :: 0 <= i < n ==> s[i] == stack[i];
    }
  }

  lemma FlattenBinary(rest: seq<Expr>, a: Expr, b: Expr, t: Token)
    requires t == AND || t == OR
    ensures Flatten(rest + [BinaryExpr(BinaryOpOf(t), a, b)]) == Flatten(rest) + Postfix(a) + Postfix(b) + [t]
  {
    var e := BinaryExpr(BinaryOpOf(t), a, b);
    FlattenPush(rest, e);
    assert TokenOf(BinaryOpOf(t)) == t;
    var f, pa, pb := Flatten(rest), Postfix(a), Postfix(b);
    assert Postfix(e) == pa + pb + [t];
    assert f + (pa + pb + [t]) == f + pa + pb + [t];
  }

  lemma ApplyBinary(stack: seq<Expr>, t: Token)
    requires |stack| >= 2 && (t == AND || t == OR)
    ensures Flatten(Apply(stack, t).value) == Flatten(stack) + [t]
  {
    var n := |stack|;
    var rest, a, b := stack[..n - 2], stack[n - 2], stack[n - 1];
    assert Apply(stack, t).value == rest + [BinaryExpr(BinaryOpOf(t), a, b)];
    FlattenTopTwo(stack);
    FlattenBinary(rest, a, b, t);
  }

  lemma ApplyFlattens(stack: seq<Expr>, t: Token)
    requires AllNamed(stack) && Apply(stack, t).Ok?
    ensures AllNamed(Apply(stack, t).value) && Flatten(Apply(stack, t).value) == Flatten(stack) + [t]
  {
    ApplyKeepsNamed(stack, t);
    if t == NOT {
      ApplyUnary(stack);
    } else if t == AND || t == OR {
      ApplyBinary(stack, t);
    } else {
      FlattenPush(stack, BaseExpr(t));
    }
  }

  lemma {:induction false} RebuildFlattens(stack: seq<Expr>, ts: seq<Token>)
    requires AllNamed(stack)
    ensures Rebuild(stack, ts).Ok? ==>
      AllNamed(Rebuild(stack, ts).value) && Flatten(Rebuild(stack, ts).value) == Flatten(stack) + ts
    decreases |ts|
  {
    if ts == [] {
      assert Flatten(stack) + ts == Flatten(stack);
    } else if Apply(stack, ts[0]).Ok? {
      var s := Apply(stack, ts[0]).value;
      ApplyFlattens(stack, ts[0]);
      RebuildFlattens(s, ts[1..]);
      assert Flatten(stack) + [ts[0]] + ts[1..] == Flatten(stack) + ts;
    }
  }

  /** What `tokens_to_expr` accepts is exactly the postfix renderings of trees. */
  lemma BuildIff(ts: seq<Token>, e: Expr)
    ensures Build(ts) == Ok(e) <==> Named(e) && ts == Postfix(e)
  {
    if Build(ts) == Ok(e) {
      RebuildFlattens([], ts);
      var s := Rebuild([], ts).value;
      assert s == [] + [e];
      FlattenPush([], e);
      assert [] + ts == ts;
      assert Named(s[0]);
    }
    if Named(e) && ts == Postfix(e) {
      BuildPostfix(e);
    }
  }

  lemma {:induction false} PrintableTerm(e: Expr)
    requires Printable(e)
    ensures Named(e) && TermOver(Corrected, ToTerm(e))
    ensures forall i :: 0 <= i < |InfixTokens(e)| ==> IsWord(InfixTokens(e)[i])
  {
    match e
    case BaseExpr(n) =>
    case UnaryExpr(_, a) =>
      PrintableTerm(a);
      assert InfixTokens(e) == [OPEN, NOT] + InfixTokens(a) + [CLOSE];
    case BinaryExpr(op, a, b) =>
      PrintableTerm(a);
      PrintableTerm(b);
      assert InfixTokens(e) == [OPEN] + InfixTokens(a) + [TokenOf(op)] + InfixTokens(b) + [CLOSE];
  }

  /**
   * The corrected conversion of a fully parenthesised tree, with any table
   * that reads like the initial one, yields the tree's postfix rendering,
   * and `tokens_to_expr` then yields the tree.
   */
  lemma PipelineRoundTrip(e: Expr, prec: map<Token, int>)
    requires Printable(e) && SameReadings(prec, PRECEDENCE)
    ensures Convert(Corrected, Words(Join(InfixTokens(e))), prec).Ok?
    ensures Convert(Corrected, Words(Join(InfixTokens(e))), prec).value.0 == Postfix(e)
    ensures Build(Postfix(e)) == Ok(e)
  {
    PrintableTerm(e);
    WordsOfJoin(InfixTokens(e));
    var ts := InfixTokens(e);
    var full := PRECEDENCE[OPEN := 0];
    CompletedTable(prec);
    ConvertParenthesized(Corrected, ToTerm(e), full);
    ListedIgnoresInsertions(Corrected, [], [], prec, full, ts);
    BuildPostfix(e);
  }

  /** Inserting `(` with 0 changes no reading, and it completes the table. */
  lemma CompletedTable(prec: map<Token, int>)
    requires SameReadings(prec, PRECEDENCE)
    ensures SameReadings(prec, PRECEDENCE[OPEN := 0]) && Complete(Corrected, PRECEDENCE[OPEN := 0])
  {
    var full := PRECEDENCE[OPEN := 0];
    forall k ensures Get(prec, k) == Get(full, k) {
      assert Get(prec, k) == Get(PRECEDENCE, k);
    }
  }

  /** The three operators with their initial precedences, and no `)`. */
  predicate TableShape(p: map<Token, int>)
  {
    OR in p && AND in p && NOT in p && p[OR] == 20 && p[AND] == 50 && p[NOT] == 100 && CLOSE !in p
  }

  /** A token the as-written loop reads as an operand under the table `p`. */
  predicate Plain(p: map<Token, int>, x: Token)
  {
    x !in p && x != OPEN && x != CLOSE
  }

  lemma InitialTable(x: Token)
    ensures TableShape(PRECEDENCE) && OPEN !in PRECEDENCE
    ensures IsOperand(Corrected, x) ==> Plain(PRECEDENCE, x) && Plain(PRECEDENCE[OPEN := 0], x)
  {
  }

  /** `(!(!a))`, the tree of the finding, over any operand name. */
  function Sample(a: Token): Expr
  {
    UnaryExpr(Not, UnaryExpr(Not, BaseExpr(a)))
  }

  function SampleTokens(a: Token): seq<Token>
  {
    [OPEN, NOT, OPEN, NOT, a, CLOSE, CLOSE]
  }

  lemma SampleRendering(a: Token)
    ensures InfixTokens(Sample(a)) == SampleTokens(a)
    ensures Postfix(Sample(a)) == [a, NOT, NOT]
  {
    var e := Sample(a);
    assert ToTerm(BaseExpr(a)) == Atom(a);
    assert ToTerm(e.a) == Prefix(NOT, Atom(a));
    assert ToTerm(e) == Prefix(NOT, Prefix(NOT, Atom(a)));
    assert Parenthesized(Prefix(NOT, Atom(a))) == [OPEN, NOT] + [a] + [CLOSE];
    assert PostfixOf(Prefix(NOT, Atom(a))) == [a] + [NOT];
  }

  /** Up to the second `(`: `!` right above `(` inserts `(` into the table, and the next `(` pops that `!`. */
  lemma MisorderFirstPart(p: map<Token, int>, a: Token)
    requires TableShape(p) && OPEN !in p
    ensures var ts := SampleTokens(a);
      Run(AsWritten, State([], [], p), ts[0..]) == Run(AsWritten, State([OPEN, OPEN], [NOT], p[OPEN := 0]), ts[3..])
  {
    var ts, cf, q := SampleTokens(a), AsWritten, p[OPEN := 0];
    var none: seq<Token> := [];
    var o1 := none + [OPEN];
    RunOpenAt(cf, State(none, none, p), ts, 0);
    PopHigherBelowOpen(none, none, p, NOT);
    assert Touch(Touch(p, OPEN), NOT) == q;
    RunOperatorAt(cf, State(o1, none, p), ts, 1, State(o1, none, q));
    PopHigherPops(o1, NOT, none, q, OPEN);
    PopHigherBelowOpen(none, none + [NOT], q, OPEN);
    assert Touch(Touch(q, OPEN), OPEN) == q;
    RunOperatorAt(cf, State(o1 + [NOT], none, q), ts, 2, State(o1, none + [NOT], q));
    assert o1 + [OPEN] == [OPEN, OPEN] && none + [NOT] == [NOT];
  }

  /** The rest: the inner `(! a)` comes out as `a !` after the `!` already written. */
  lemma MisorderSecondPart(p: map<Token, int>, a: Token)
    requires TableShape(p) && Plain(p, a)
    ensures var ts := SampleTokens(a);
      Run(AsWritten, State([OPEN, OPEN], [NOT], p[OPEN := 0]), ts[3..]) ==
      Run(AsWritten, State([], [NOT, a, NOT], p[OPEN := 0]), ts[7..])
  {
    var ts, cf, q := SampleTokens(a), AsWritten, p[OPEN := 0];
    var none: seq<Token> := [];
    var o1 := none + [OPEN];
    var o2 := o1 + [OPEN];
    var y1: seq<Token> := [NOT];
    assert o2 == [OPEN, OPEN];
    PopHigherBelowOpen(o1, y1, q, NOT);
    assert Touch(Touch(q, OPEN), NOT) == q;
    RunOperatorAt(cf, State(o2, y1, q), ts, 3, State(o2, y1, q));
    RunOperandAt(cf, State(o2 + [NOT], y1, q), ts, 4);
    PopToOpenPops(o2, NOT, y1 + [a], q);
    PopToOpenStops(o1, y1 + [a] + [NOT], q);
    RunCloseAt(cf, State(o2 + [NOT], y1 + [a], q), ts, 5, State(o1, y1 + [a] + [NOT], q));
    PopToOpenStops(none, y1 + [a] + [NOT], q);
    RunCloseAt(cf, State(o1, y1 + [a] + [NOT], q), ts, 6, State(none, y1 + [a] + [NOT], q));
    assert y1 + [a] + [NOT] == [NOT, a, NOT];
  }

  /**
   * As written, an operator stacked right above `(` inserts `(` into the
   * table; from then on `(` counts as an operator and pops what is pending.
   * The parenthesised rendering of a double negation comes out as `! a !`,
   * which does not build a tree.
   */
  lemma AsWrittenMisorders(a: Token)
    requires IsOperand(Corrected, a)
    ensures Convert(AsWritten, InfixTokens(Sample(a)), PRECEDENCE) == Ok(([NOT, a, NOT], PRECEDENCE[OPEN := 0]))
    ensures Build([NOT, a, NOT]) == Err(StackUnderflow)
  {
    SampleRendering(a);
    InitialTable(a);
    MisorderFirstPart(PRECEDENCE, a);
    MisorderSecondPart(PRECEDENCE, a);
    var out: seq<Token> := [NOT, a, NOT];
    var none: seq<Token> := [];
    assert Flush(State(none, out, PRECEDENCE[OPEN := 0])) == out by {
      assert Reverse(none) == none && out + none == out;
    }
    RunTraced(AsWritten, SampleTokens(a), PRECEDENCE, State(none, out, PRECEDENCE[OPEN := 0]), out);
    assert out[0] == NOT;
  }

  /**
   * Once `(` is in the table, later calls misorder even input whose
   * parentheses follow an operator: `a && ( b || c )` comes out as `a && b c ||`.
   */
  lemma LaterCallMisorders(p: map<Token, int>, a: Token, b: Token, c: Token)
    requires TableShape(p) && OPEN in p && p[OPEN] == 0 && Plain(p, a) && Plain(p, b) && Plain(p, c)
    ensures Convert(AsWritten, [a, AND, OPEN, b, OR, c, CLOSE], p) == Ok(([a, AND, b, c, OR], p))
    ensures Build([a, AND, b, c, OR]) == Err(StackUnderflow)
  {
    var ts := [a, AND, OPEN, b, OR, c, CLOSE];
    var none: seq<Token> := [];
    LaterCallFirstPart(p, a, b, c);
    LaterCallSecondPart(p, a, b, c);
    assert Flush(State(none, [a, AND, b, c, OR], p)) == [a, AND, b, c, OR] by {
      assert Reverse(none) == none;
    }
    RunTraced(AsWritten, ts, p, State(none, [a, AND, b, c, OR], p), [a, AND, b, c, OR]);
    LaterCallBuild(p, a, b, c);
  }

  /** Up to `(`: it pops the pending `&&`. */
  lemma LaterCallFirstPart(p: map<Token, int>, a: Token, b: Token, c: Token)
    requires TableShape(p) && OPEN in p && p[OPEN] == 0 && Plain(p, a)
    ensures var ts := [a, AND, OPEN, b, OR, c, CLOSE];
      Run(AsWritten, State([], [], p), ts[0..]) == Run(AsWritten, State([OPEN], [a, AND], p), ts[3..])
  {
    var ts, cf := [a, AND, OPEN, b, OR, c, CLOSE], AsWritten;
    var none: seq<Token> := [];
    var x1 := none + [a];
    assert ts[0] == a && ts[1] == AND && ts[2] == OPEN;
    RunOperandAt(cf, State(none, none, p), ts, 0);
    RunOperatorAt(cf, State(none, x1, p), ts, 1, State(none, x1, p));
    PopHigherPops(none, AND, x1, p, OPEN);
    RunOperatorAt(cf, State(none + [AND], x1, p), ts, 2, State(none, x1 + [AND], p));
    assert none + [OPEN] == [OPEN] && x1 + [AND] == [a, AND];
  }

  lemma LaterCallSecondPart(p: map<Token, int>, a: Token, b: Token, c: Token)
    requires TableShape(p) && OPEN in p && p[OPEN] == 0 && Plain(p, b) && Plain(p, c)
    ensures var ts := [a, AND, OPEN, b, OR, c, CLOSE];
      Run(AsWritten, State([OPEN], [a, AND], p), ts[3..]) == Run(AsWritten, State([], [a, AND, b, c, OR], p), ts[7..])
  {
    var ts, cf := [a, AND, OPEN, b, OR, c, CLOSE], AsWritten;
    var none: seq<Token> := [];
    var o1 := none + [OPEN];
    var x2: seq<Token> := [a, AND];
    var x3 := x2 + [b];
    var x4 := x3 + [c];
    assert o1 == [OPEN];
    RunOperandAt(cf, State(o1, x2, p), ts, 3);
    PopHigherBelowOpen(none, x3, p, OR);
    assert Touch(Touch(p, OPEN), OR) == p;
    RunOperatorAt(cf, State(o1, x3, p), ts, 4, State(o1, x3, p));
    RunOperandAt(cf, State(o1 + [OR], x3, p), ts, 5);
    PopToOpenPops(o1, OR, x4, p);
    PopToOpenStops(none, x4 + [OR], p);
    RunCloseAt(cf, State(o1 + [OR], x4, p), ts, 6, State(none, x4 + [OR], p));
    assert x4 + [OR] == [a, AND, b, c, OR];
  }

  lemma LaterCallBuild(p: map<Token, int>, a: Token, b: Token, c: Token)
    requires TableShape(p) && Plain(p, a)
    ensures Build([a, AND, b, c, OR]) == Err(StackUnderflow)
  {
    var ts := [a, AND, b, c, OR];
    var none: seq<Expr> := [];
    var s1 := [BaseExpr(a)];
    assert a != NOT && a != AND && a != OR;
    assert none + [BaseExpr(a)] == s1;
    assert Apply(none, a) == Ok(s1);
    assert Apply(s1, AND) == Err(StackUnderflow);
    assert ts[0] == a && ts[1..][0] == AND;
    assert Rebuild(s1, ts[1..]) == Err(StackUnderflow);
  }

  /** The corrected conversion renders the double negation right, and it builds the tree. */
  lemma CorrectedOrders(a: Token)
    requires IsOperand(Corrected, a) && IsWord(a)
    ensures Convert(Corrected, InfixTokens(Sample(a)), PRECEDENCE).Ok?
    ensures Convert(Corrected, InfixTokens(Sample(a)), PRECEDENCE).value.0 == [a, NOT, NOT]
    ensures Build([a, NOT, NOT]) == Ok(Sample(a))
  {
    var e := Sample(a);
    assert Printable(e);
    PrintableTerm(e);
    WordsOfJoin(InfixTokens(e));
    PipelineRoundTrip(e, PRECEDENCE);
    SampleRendering(a);
  }

  /** The first three tokens of `a op b`: both operands out, the operator stacked. */
  lemma BinaryPrefix(p: map<Token, int>, a: Token, op: Token, b: Token, ts: seq<Token>)
    requires TableShape(p) && Plain(p, a) && Plain(p, b) && (op == AND || op == OR)
    requires |ts| >= 3 && ts[0] == a && ts[1] == op && ts[2] == b
    ensures Run(AsWritten, State([], [], p), ts[0..]) == Run(AsWritten, State([op], [a, b], p), ts[3..])
  {
    var none: seq<Token> := [];
    var x1 := none + [a];
    RunOperandAt(AsWritten, State(none, none, p), ts, 0);
    RunOperatorAt(AsWritten, State(none, x1, p), ts, 1, State(none, x1, p));
    RunOperandAt(AsWritten, State(none + [op], x1, p), ts, 2);
    assert none + [op] == [op] && x1 + [b] == [a, b];
  }

  /** `&&` binds tighter than a `||` after it. */
  lemma AndBeforeOr(p: map<Token, int>, a: Token, b: Token, c: Token)
    requires TableShape(p) && Plain(p, a) && Plain(p, b) && Plain(p, c)
    ensures Convert(AsWritten, [a, AND, b, OR, c], p) == Ok(([a, b, AND, c, OR], p))
  {
    var ts, cf := [a, AND, b, OR, c], AsWritten;
    var none: seq<Token> := [];
    var x2: seq<Token> := [a, b];
    var x3 := x2 + [AND];
    BinaryPrefix(p, a, AND, b, ts);
    PopHigherPops(none, AND, x2, p, OR);
    assert none + [AND] == [AND];
    RunOperatorAt(cf, State([AND], x2, p), ts, 3, State(none, x3, p));
    RunOperandAt(cf, State(none + [OR], x3, p), ts, 4);
    assert Flush(State(none + [OR], x3 + [c], p)) == [a, b, AND, c, OR] by {
      assert Reverse(none + [OR]) == [OR] && x3 + [c] + [OR] == [a, b, AND, c, OR];
    }
    RunTraced(cf, ts, p, State(none + [OR], x3 + [c], p), [a, b, AND, c, OR]);
  }

  /** `&&` binds tighter than a `||` before it. */
  lemma AndAfterOr(p: map<Token, int>, a: Token, b: Token, c: Token)
    requires TableShape(p) && Plain(p, a) && Plain(p, b) && Plain(p, c)
    ensures Convert(AsWritten, [a, OR, b, AND, c], p) == Ok(([a, b, c, AND, OR], p))
  {
    var ts, cf := [a, OR, b, AND, c], AsWritten;
    var x2: seq<Token> := [a, b];
    BinaryPrefix(p, a, OR, b, ts);
    PopHigherKeeps([], OR, x2, p, AND);
    assert [] + [OR] == [OR];
    RunOperatorAt(cf, State([OR], x2, p), ts, 3, State([OR], x2, p));
    RunOperandAt(cf, State([OR] + [AND], x2, p), ts, 4);
    assert Flush(State([OR] + [AND], x2 + [c], p)) == [a, b, c, AND, OR] by {
      assert Reverse([OR] + [AND]) == [AND, OR] && x2 + [c] + [AND, OR] == [a, b, c, AND, OR];
    }
    RunTraced(cf, ts, p, State([OR] + [AND], x2 + [c], p), [a, b, c, AND, OR]);
  }

  /** The pop test is strict, so a chain of equal operators groups to the right. */
  lemma EqualGroupsRight(p: map<Token, int>, a: Token, b: Token, c: Token)
    requires TableShape(p) && Plain(p, a) && Plain(p, b) && Plain(p, c)
    ensures Convert(AsWritten, [a, OR, b, OR, c], p) == Ok(([a, b, c, OR, OR], p))
  {
    var ts, cf := [a, OR, b, OR, c], AsWritten;
    var x2: seq<Token> := [a, b];
    BinaryPrefix(p, a, OR, b, ts);
    PopHigherKeeps([], OR, x2, p, OR);
    assert [] + [OR] == [OR];
    RunOperatorAt(cf, State([OR], x2, p), ts, 3, State([OR], x2, p));
    RunOperandAt(cf, State([OR] + [OR], x2, p), ts, 4);
    assert Flush(State([OR] + [OR], x2 + [c], p)) == [a, b, c, OR, OR] by {
      assert Reverse([OR] + [OR]) == [OR, OR] && x2 + [c] + [OR, OR] == [a, b, c, OR, OR];
    }
    RunTraced(cf, ts, p, State([OR] + [OR], x2 + [c], p), [a, b, c, OR, OR]);
  }

  /** `!` binds tighter than `&&`. */
  lemma NotBeforeAnd(p: map<Token, int>, a: Token, b: Token)
    requires TableShape(p) && Plain(p, a) && Plain(p, b)
    ensures Convert(AsWritten, [NOT, a, AND, b], p) == Ok(([a, NOT, b, AND], p))
  {
    var ts, cf := [NOT, a, AND, b], AsWritten;
    var none: seq<Token> := [];
    var x1 := none + [a];
    var x2 := x1 + [NOT];
    NotBeforeAndFirst(p, a, b, ts);
    PopHigherPops(none, NOT, x1, p, AND);
    RunOperatorAt(cf, State(none + [NOT], x1, p), ts, 2, State(none, x2, p));
    RunOperandAt(cf, State(none + [AND], x2, p), ts, 3);
    assert Flush(State(none + [AND], x2 + [b], p)) == [a, NOT, b, AND] by {
      assert Reverse(none + [AND]) == [AND] && x2 + [b] + [AND] == [a, NOT, b, AND];
    }
    RunTraced(cf, ts, p, State(none + [AND], x2 + [b], p), [a, NOT, b, AND]);
  }
  lemma NotBeforeAndFirst(p: map<Token, int>, a: Token, b: Token, ts: seq<Token>)
    requires TableShape(p) && Plain(p, a) && ts == [NOT, a, AND, b]
    ensures Run(AsWritten, State([], [], p), ts[0..]) == Run(AsWritten, State([NOT], [a], p), ts[2..])
  {
    var none: seq<Token> := [];
    RunOperatorAt(AsWritten, State(none, none, p), ts, 0, State(none, none, p));
    RunOperandAt(AsWritten, State(none + [NOT], none, p), ts, 1);
    assert none + [NOT] == [NOT] && none + [a] == [a];
  }

}
