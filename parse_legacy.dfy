/**
 * The older stand-alone converter of parse.cpp: the same shunting-yard loop
 * as parse.hpp, but a token is an operator when it is one of the listed
 * `OPERATORS`, and the table also holds `(` at 999. Since every key the loop
 * looks up is already in the table, the table never changes.
 */
module ParseLegacy {
  import opened Outcomes
  import opened ShuntingYard

  const AND: Token := "&&"
  const OR: Token := "||"
  const PRIME: Token := "'"

  /** `OPERATORS` */
  const LEGACY_OPERATORS: set<Token> := {AND, OR, PRIME}

  /** `PRECEDENCE` of parse.cpp */
  const LEGACY_PRECEDENCE: map<Token, int> := map[OR := 20, AND := 50, PRIME := 100, OPEN := 999]

  /** Operators are recognised by the list, never by the table. */
  const Legacy: Config := Config(false, LEGACY_OPERATORS)

  /** The global table of parse.cpp, which `operator[]` could in principle extend. */
  class LegacyParser {
    var precedence: map<Token, int>

    constructor()
      ensures precedence == LEGACY_PRECEDENCE
    {
      precedence := LEGACY_PRECEDENCE;
    }

    /** `convert_to_postfix`: the conversion, and the table is left as it was found. */
    method ConvertToPostfix(input: string) returns (r: Result<seq<Token>, ParseError>)
      modifies this
      ensures var c := Convert(Legacy, Words(input), old(precedence));
        && (r.Ok? <==> c.Ok?)
        && (c.Ok? ==> r.value == c.value.0 && precedence == c.value.1)
      ensures old(precedence) == LEGACY_PRECEDENCE ==> precedence == LEGACY_PRECEDENCE
    {
      var c := ShuntingYard.ConvertToPostfix(Legacy, Words(input), precedence);
      match c
      case Err(e) =>
        r := Err(e);
      case Ok((out, prec)) =>
        if old(precedence) == LEGACY_PRECEDENCE {
          TableFixed(Words(input), LEGACY_PRECEDENCE);
        }
        precedence := prec;
        r := Ok(out);
    }
  }

  /** A table that holds every operator and `(` comes back from the conversion unchanged. */
  lemma TableFixed(ts: seq<Token>, p: map<Token, int>)
    requires Complete(Legacy, p)
    ensures Convert(Legacy, ts, p).Ok? ==> Convert(Legacy, ts, p).value.1 == p
  {
    ConvertGrowsPrecedence(Legacy, ts, p);
    if Convert(Legacy, ts, p).Ok? {
      var q := Convert(Legacy, ts, p).value.1;
      assert q.Keys == p.Keys;
    }
  }

  /**
   * What parse.cpp's converter guarantees on the table it starts with: it
   * fails exactly when some prefix closes more parentheses than it opens, and
   * otherwise it keeps the operands in order and leaves the table alone.
   */
  lemma LegacyConvertFacts(ts: seq<Token>)
    ensures Convert(Legacy, ts, LEGACY_PRECEDENCE).Err? <==>
      exists k :: 0 <= k <= |ts| && Count(CLOSE, ts[..k]) > Count(OPEN, ts[..k])
    ensures Convert(Legacy, ts, LEGACY_PRECEDENCE).Ok? ==>
      && Operands(Legacy, Convert(Legacy, ts, LEGACY_PRECEDENCE).value.0) == Operands(Legacy, ts)
      && Convert(Legacy, ts, LEGACY_PRECEDENCE).value.1 == LEGACY_PRECEDENCE
  {
    ConvertFails(Legacy, ts, LEGACY_PRECEDENCE);
    ConvertKeepsOperands(Legacy, ts, LEGACY_PRECEDENCE);
    TableFixed(ts, LEGACY_PRECEDENCE);
  }

  // ---------------------------------------------------------------------------
  // Fully parenthesised input

  /** Every token of the term is a word, so that writing it out with spaces and splitting it again gives it back. */
  predicate Spelled(t: Term)
  {
    match t
    case Atom(n) => IsWord(n)
    case Prefix(op, a) => IsWord(op) && Spelled(a)
    case Infix(op, a, b) => IsWord(op) && Spelled(a) && Spelled(b)
  }

  lemma {:induction false} SpelledTokens(t: Term)
    requires Spelled(t)
    ensures forall i :: 0 <= i < |Parenthesized(t)| ==> IsWord(Parenthesized(t)[i])
  {
    assert IsWord(OPEN) && IsWord(CLOSE);
    match t
    case Atom(n) =>
    case Prefix(op, a) =>
      SpelledTokens(a);
    case Infix(op, a, b) =>
      SpelledTokens(a);
      SpelledTokens(b);
  }

  /** A fully parenthesised input, written with single spaces, comes out in postfix order. */
  lemma LegacyRoundTrip(t: Term)
    requires TermOver(Legacy, t) && Spelled(t)
    ensures Convert(Legacy, Words(Join(Parenthesized(t))), LEGACY_PRECEDENCE) == Ok((PostfixOf(t), LEGACY_PRECEDENCE))
  {
    SpelledTokens(t);
    WordsOfJoin(Parenthesized(t));
    ConvertParenthesized(Legacy, t, LEGACY_PRECEDENCE);
  }

  // ---------------------------------------------------------------------------
  // The `(` guard

  /** The shape of parse.cpp's table, with any other keys. */
  predicate LegacyShape(p: map<Token, int>)
  {
    && OR in p && AND in p && PRIME in p && OPEN in p
    && p[OR] == 20 && p[AND] == 50 && p[PRIME] == 100 && p[OPEN] == 999
  }

  lemma GuardFirstPart(p: map<Token, int>, a: Token, b: Token, c: Token)
    requires LegacyShape(p) && IsOperand(Legacy, a) && IsOperand(Legacy, b)
    ensures var ts := [a, AND, OPEN, b, OR, c, CLOSE];
      Run(Legacy, State([], [], p), ts[0..]) == Run(Legacy, State([AND, OPEN], [a, b], p), ts[4..])
  {
    GuardLead(p, a, b, c);
    var ts := [a, AND, OPEN, b, OR, c, CLOSE];
    var o1: seq<Token> := [AND];
    var x1: seq<Token> := [a];
    assert ts[2] == OPEN && ts[3] == b;
    RunOpenAt(Legacy, State(o1, x1, p), ts, 2);
    RunOperandAt(Legacy, State(o1 + [OPEN], x1, p), ts, 3);
    assert o1 + [OPEN] == [AND, OPEN] && x1 + [b] == [a, b];
  }

  /** The leading `a &&` of the guard. */
  lemma GuardLead(p: map<Token, int>, a: Token, b: Token, c: Token)
    requires LegacyShape(p) && IsOperand(Legacy, a)
    ensures var ts := [a, AND, OPEN, b, OR, c, CLOSE];
      Run(Legacy, State([], [], p), ts[0..]) == Run(Legacy, State([AND], [a], p), ts[2..])
  {
    var ts := [a, AND, OPEN, b, OR, c, CLOSE];
    var none: seq<Token> := [];
    var x1 := none + [a];
    assert ts[0] == a && ts[1] == AND;
    RunOperandAt(Legacy, State(none, none, p), ts, 0);
    RunOperatorAt(Legacy, State(none, x1, p), ts, 1, State(none, x1, p));
    assert none + [AND] == [AND] && x1 == [a];
  }

  lemma GuardSecondPart(p: map<Token, int>, a: Token, b: Token, c: Token)
    requires LegacyShape(p) && IsOperand(Legacy, c)
    ensures var ts := [a, AND, OPEN, b, OR, c, CLOSE];
      Run(Legacy, State([AND, OPEN], [a, b], p), ts[4..]) == Run(Legacy, State([AND], [a, b, c, OR], p), ts[7..])
  {
    var ts, cf := [a, AND, OPEN, b, OR, c, CLOSE], Legacy;
    var o1: seq<Token> := [AND];
    var o2 := o1 + [OPEN];
    var x2: seq<Token> := [a, b];
    var x3 := x2 + [c];
    assert o2 == [AND, OPEN];
    PopHigherBelowOpen(o1, x2, p, OR);
    assert Touch(Touch(p, OPEN), OR) == p;
    RunOperatorAt(cf, State(o2, x2, p), ts, 4, State(o2, x2, p));
    RunOperandAt(cf, State(o2 + [OR], x2, p), ts, 5);
    PopToOpenPops(o2, OR, x3, p);
    PopToOpenStops(o1, x3 + [OR], p);
    RunCloseAt(cf, State(o2 + [OR], x3, p), ts, 6, State(o1, x3 + [OR], p));
    assert x3 + [OR] == [a, b, c, OR];
  }

  /**
   * `(` has the highest precedence in the table, yet an operator right above
   * it does not pop it: `a && ( b || c )` becomes `a b c || &&`.
   */
  lemma OpenGuard(p: map<Token, int>, a: Token, b: Token, c: Token)
    requires LegacyShape(p) && IsOperand(Legacy, a) && IsOperand(Legacy, b) && IsOperand(Legacy, c)
    ensures Convert(Legacy, [a, AND, OPEN, b, OR, c, CLOSE], p) == Ok(([a, b, c, OR, AND], p))
  {
    var ts := [a, AND, OPEN, b, OR, c, CLOSE];
    GuardFirstPart(p, a, b, c);
    GuardSecondPart(p, a, b, c);
    var final := State([AND], [a, b, c, OR], p);
    assert Flush(final) == [a, b, c, OR, AND] by {
      assert Reverse([AND]) == [AND];
    }
    RunTraced(Legacy, ts, p, final, [a, b, c, OR, AND]);
  }

  /** The guard on the table parse.cpp starts with. */
  lemma OpenGuardInitial(a: Token, b: Token, c: Token)
    requires IsOperand(Legacy, a) && IsOperand(Legacy, b) && IsOperand(Legacy, c)
    ensures Convert(Legacy, [a, AND, OPEN, b, OR, c, CLOSE], LEGACY_PRECEDENCE) == Ok(([a, b, c, OR, AND], LEGACY_PRECEDENCE))
  {
    assert LegacyShape(LEGACY_PRECEDENCE);
    OpenGuard(LEGACY_PRECEDENCE, a, b, c);
  }
}
