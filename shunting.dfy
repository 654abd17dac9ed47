/**
 * The infix-to-postfix conversion shared by parse.hpp and parse.cpp: a
 * token loop over two stacks, `ops` and `out`, in which an operator first
 * moves the stacked operators of strictly higher precedence to the output
 * (never past a `(`), `(` is stacked, `)` unstacks back to its `(`, and any
 * other token goes straight to the output; the operators left at the end are
 * output top first.
 *
 * The precedence table is a `std::unordered_map`, whose `operator[]` inserts
 * a missing key with the value 0; the model threads the map through the
 * conversion so those insertions are visible. The two copies differ only in
 * how the loop recognises an operator (`Config`).
 */
module ShuntingYard {
  import opened Outcomes

  type Token = string

  const OPEN: Token := "("
  const CLOSE: Token := ")"

  /** A `)` found no `(` to return to: the source calls `back()` on an empty stack. */
  datatype ParseError = UnmatchedClose

  /**
   * How the token loop recognises an operator: as a current key of the
   * precedence map (`byKeys`, parse.hpp), or by membership in the fixed list
   * `operators` (parse.cpp). `operators` is, in both cases, the set of
   * operator tokens the table was written for.
   */
  datatype Config = Config(byKeys: bool, operators: set<Token>)

  predicate WellFormed(cfg: Config)
  {
    OPEN !in cfg.operators && CLOSE !in cfg.operators
  }

  predicate IsOperator(cfg: Config, prec: map<Token, int>, t: Token)
  {
    if cfg.byKeys then t in prec else t in cfg.operators
  }

  /** A token that is neither an operator nor a parenthesis. */
  predicate IsOperand(cfg: Config, t: Token)
  {
    t !in cfg.operators && t != OPEN && t != CLOSE
  }

  /** `PRECEDENCE[k]` as a value. */
  function Get(prec: map<Token, int>, k: Token): int
  {
    if k in prec then prec[k] else 0
  }

  /** `PRECEDENCE[k]` as an effect: the map with `k` present. */
  function Touch(prec: map<Token, int>, k: Token): (r: map<Token, int>)
    ensures k in r
  {
    if k in prec then prec else prec[k := 0]
  }

  datatype State = State(ops: seq<Token>, out: seq<Token>, prec: map<Token, int>)

  /** The pop loop before an operator `t` is stacked. */
  function PopHigher(st: State, t: Token): (r: State)
    ensures |r.ops| <= |st.ops|
    decreases |st.ops|
  {
    if st.ops == [] then st
    else
      var top := st.ops[|st.ops| - 1];
      var prec := Touch(Touch(st.prec, top), t);
      if Get(prec, top) > Get(prec, t) && top != OPEN then
        PopHigher(State(st.ops[..|st.ops| - 1], st.out + [top], prec), t)
      else State(st.ops, st.out, prec)
  }

  /** The pop loop of a `)`: unstack to the nearest `(` and drop it. */
  function PopToOpen(st: State): Result<State, ParseError>
    decreases |st.ops|
  {
    if st.ops == [] then Err(UnmatchedClose)
    else
      var top := st.ops[|st.ops| - 1];
      if top == OPEN then Ok(State(st.ops[..|st.ops| - 1], st.out, st.prec))
      else PopToOpen(State(st.ops[..|st.ops| - 1], st.out + [top], st.prec))
  }

  /** One iteration of the token loop. */
  function Step(cfg: Config, st: State, t: Token): Result<State, ParseError>
  {
    if IsOperator(cfg, st.prec, t) then
      var s := PopHigher(st, t);
      Ok(State(s.ops + [t], s.out, s.prec))
    else if t == OPEN then Ok(State(st.ops + [OPEN], st.out, st.prec))
    else if t == CLOSE then PopToOpen(st)
    else Ok(State(st.ops, st.out + [t], st.prec))
  }

  /** The token loop. */
  function Run(cfg: Config, st: State, ts: seq<Token>): Result<State, ParseError>
    decreases |ts|
  {
    if ts == [] then Ok(st)
    else
      match Step(cfg, st, ts[0])
      case Err(e) => Err(e)
      case Ok(s) => Run(cfg, s, ts[1..])
  }

  function Reverse(s: seq<Token>): (r: seq<Token>)
    ensures |r| == |s|
    ensures forall k :: 0 <= k < |s| ==> r[k] == s[|s| - 1 - k]
  {
    if s == [] then [] else [s[|s| - 1]] + Reverse(s[..|s| - 1])
  }

  /** The output after the final loop, which moves the remaining operators out top first. */
  function Flush(st: State): seq<Token>
  {
    st.out + Reverse(st.ops)
  }

  /** `convert_to_postfix` on a token list: the postfix tokens and the precedence map afterwards. */
  function Convert(cfg: Config, ts: seq<Token>, prec: map<Token, int>): Result<(seq<Token>, map<Token, int>), ParseError>
  {
    match Run(cfg, State([], [], prec), ts)
    case Err(e) => Err(e)
    case Ok(s) => Ok((Flush(s), s.prec))
  }

  /**
   * `convert_to_postfix` on the extracted tokens: the two-stack loop, with the
   * precedence map's inserting lookups written out, then the final loop that
   * empties `ops` onto `out`.
   */
  method ConvertToPostfix(cfg: Config, tokens: seq<Token>, precedence: map<Token, int>)
      returns (r: Result<(seq<Token>, map<Token, int>), ParseError>)
    ensures r == Convert(cfg, tokens, precedence)
  {
    var prec := precedence;
    var ops: seq<Token> := [];
    var out: seq<Token> := [];
    for i := 0 to |tokens|
      invariant Run(cfg, State(ops, out, prec), tokens[i..]) == Run(cfg, State([], [], precedence), tokens)
    {
      var token := tokens[i];
      ghost var before := State(ops, out, prec);
      assert tokens[i..][0] == token && tokens[i..][1..] == tokens[i + 1..];
      var isOperator := if cfg.byKeys then token in prec else token in cfg.operators;
      if isOperator {
        ghost var goal := PopHigher(before, token);
        while ops != []
          invariant PopHigher(State(ops, out, prec), token) == goal
          decreases |ops|
        {
          var top := ops[|ops| - 1];
          if top !in prec {
            prec := prec[top := 0];
          }
          if token !in prec {
            prec := prec[token := 0];
          }
          if !(prec[top] > prec[token] && top != OPEN) {
            assert State(ops, out, prec) == goal;
            break;
          }
          out := out + [top];
          ops := ops[..|ops| - 1];
        }
        assert State(ops, out, prec) == goal;
        ops := ops + [token];
      } else if token == OPEN {
        ops := ops + [token];
      } else if token == CLOSE {
        ghost var goal := PopToOpen(before);
        while true
          invariant PopToOpen(State(ops, out, prec)) == goal
          decreases |ops|
        {
          if ops == [] {
            return Err(UnmatchedClose);
          }
          var top := ops[|ops| - 1];
          if top == OPEN {
            break;
          }
          out := out + [top];
          ops := ops[..|ops| - 1];
        }
        ops := ops[..|ops| - 1];
        assert Ok(State(ops, out, prec)) == goal;
      } else {
        out := out + [token];
      }
    }
    ghost var final := State(ops, out, prec);
    assert tokens[|tokens|..] == [];
    while ops != []
      invariant out + Reverse(ops) == Flush(final)
      decreases |ops|
    {
      assert Reverse(ops) == [ops[|ops| - 1]] + Reverse(ops[..|ops| - 1]);
      out := out + [ops[|ops| - 1]];
      ops := ops[..|ops| - 1];
    }
    assert out == Flush(final);
    return Ok((out, prec));
  }

  // ---------------------------------------------------------------------------
  // Tokens: `stream >> token` splits at white space.

  predicate IsSpace(c: char)
  {
    c == ' ' || c == '\t' || c == '\n' || c == '\r' || c == '\U{000B}' || c == '\U{000C}'
  }

  predicate IsWord(w: Token)
  {
    |w| > 0 && forall j :: 0 <= j < |w| ==> !IsSpace(w[j])
  }

  /** The words of `s`, continuing a word `cur` already begun. */
  function Scan(s: string, cur: Token): (r: seq<Token>)
    requires forall j :: 0 <= j < |cur| ==> !IsSpace(cur[j])
    ensures forall i :: 0 <= i < |r| ==> IsWord(r[i])
    decreases |s|
  {
    if s == [] then (if cur == [] then [] else [cur])
    else if IsSpace(s[0]) then (if cur == [] then [] else [cur]) + Scan(s[1..], [])
    else Scan(s[1..], cur + [s[0]])
  }

  /** The tokens `stream >> token` extracts from `s`: maximal runs of non-space characters. */
  function Words(s: string): (r: seq<Token>)
    ensures forall i :: 0 <= i < |r| ==> IsWord(r[i])
  {
    Scan(s, [])
  }

  /** The tokens separated by single spaces. */
  function Join(ts: seq<Token>): string
  {
    if ts == [] then [] else if |ts| == 1 then ts[0] else ts[0] + [' '] + Join(ts[1..])
  }

  // ---------------------------------------------------------------------------
  // Lemmas

  lemma {:induction false} ScanWord(w: Token, rest: string, cur: Token)
    requires forall j :: 0 <= j < |cur| ==> !IsSpace(cur[j])
    requires forall j :: 0 <= j < |w| ==> !IsSpace(w[j])
    requires rest == [] || IsSpace(rest[0])
    ensures Scan(w + rest, cur) == Scan(rest, cur + w)
    decreases |w|
  {
    if w != [] {
      assert (w + rest)[0] == w[0] && (w + rest)[1..] == w[1..] + rest;
      assert cur + w == (cur + [w[0]]) + w[1..];
      ScanWord(w[1..], rest, cur + [w[0]]);
    } else {
      assert w + rest == rest && cur + w == cur;
    }
  }

  /** Splitting space-separated words gives the words back. */
  lemma {:induction false} WordsOfJoin(ts: seq<Token>)
    requires forall i :: 0 <= i < |ts| ==> IsWord(ts[i])
    ensures Words(Join(ts)) == ts
  {
    if ts == [] {
    } else if |ts| == 1 {
      ScanWord(ts[0], [], []);
      assert ts[0] + [] == ts[0] && [] + ts[0] == ts[0];
    } else {
      var rest := [' '] + Join(ts[1..]);
      assert Join(ts) == ts[0] + rest;
      ScanWord(ts[0], rest, []);
      assert [] + ts[0] == ts[0];
      assert Scan(rest, ts[0]) == [ts[0]] + Scan(Join(ts[1..]), []) by {
        assert rest[1..] == Join(ts[1..]);
      }
      WordsOfJoin(ts[1..]);
    }
  }

  /** What the conversion keeps true: the shape of the two stacks and of the precedence keys. */
  predicate Inv(cfg: Config, st: State)
  {
    && WellFormed(cfg)
    && (forall i :: 0 <= i < |st.ops| ==> st.ops[i] in cfg.operators || st.ops[i] == OPEN)
    && OPEN !in st.out && CLOSE !in st.out
    && (cfg.byKeys ==> st.prec.Keys <= cfg.operators + {OPEN})
  }

  function Operands(cfg: Config, s: seq<Token>): seq<Token>
  {
    if s == [] then []
    else Operands(cfg, s[..|s| - 1]) + (if IsOperand(cfg, s[|s| - 1]) then [s[|s| - 1]] else [])
  }

  function Count(x: Token, s: seq<Token>): nat
  {
    multiset(s)[x]
  }

  /** The precedence map only grows, and every key it gains is an operator or `(`, with the value 0. */
  predicate Grown(cfg: Config, before: map<Token, int>, after: map<Token, int>)
  {
    && (forall k :: k in before ==> k in after && after[k] == before[k])
    && (forall k :: k in after && k !in before ==> (k in cfg.operators || k == OPEN) && after[k] == 0)
  }

  lemma OperandsAppend(cfg: Config, a: seq<Token>, b: seq<Token>)
    ensures Operands(cfg, a + b) == Operands(cfg, a) + Operands(cfg, b)
    decreases |b|
  {
    if b != [] {
      assert (a + b)[..|a + b| - 1] == a + b[..|b| - 1];
      OperandsAppend(cfg, a, b[..|b| - 1]);
    } else {
      assert a + b == a;
    }
  }

  lemma {:induction false} NoOperands(cfg: Config, s: seq<Token>)
    requires forall i :: 0 <= i < |s| ==> !IsOperand(cfg, s[i])
    ensures Operands(cfg, s) == []
  {
    if s != [] {
      NoOperands(cfg, s[..|s| - 1]);
    }
  }

  lemma GrownTransitive(cfg: Config, a: map<Token, int>, b: map<Token, int>, c: map<Token, int>)
    requires Grown(cfg, a, b) && Grown(cfg, b, c)
    ensures Grown(cfg, a, c)
  {
  }

  /** Moving one stacked operator to the output keeps the invariant, the operands, the `(` count and the token count. */
  lemma MoveTop(cfg: Config, st: State, prec: map<Token, int>)
    requires Inv(cfg, st) && st.ops != [] && st.ops[|st.ops| - 1] != OPEN
    requires cfg.byKeys ==> prec.Keys <= cfg.operators + {OPEN}
    ensures var top := st.ops[|st.ops| - 1];
      var next := State(st.ops[..|st.ops| - 1], st.out + [top], prec);
      && Inv(cfg, next)
      && Operands(cfg, next.out) == Operands(cfg, st.out)
      && Count(OPEN, next.ops) == Count(OPEN, st.ops)
      && |next.out| + |next.ops| == |st.out| + |st.ops|
  {
    var top := st.ops[|st.ops| - 1];
    assert st.ops == st.ops[..|st.ops| - 1] + [top];
    assert top in cfg.operators;
    OperandsAppend(cfg, st.out, [top]);
    OperandsOfOne(cfg, top);
  }

  /** The pop loop before an operator keeps the invariant, the operands, the `(` count and the token count. */
  lemma {:induction false} PopHigherFacts(cfg: Config, st: State, t: Token)
    requires Inv(cfg, st) && (t in cfg.operators || t == OPEN)
    ensures var r := PopHigher(st, t);
      && Inv(cfg, r)
      && Operands(cfg, r.out) == Operands(cfg, st.out)
      && Count(OPEN, r.ops) == Count(OPEN, st.ops)
      && |r.out| + |r.ops| == |st.out| + |st.ops|
      && Grown(cfg, st.prec, r.prec)
    decreases |st.ops|
  {
    if st.ops != [] {
      var top := st.ops[|st.ops| - 1];
      var prec := Touch(Touch(st.prec, top), t);
      assert Grown(cfg, st.prec, prec);
      if Get(prec, top) > Get(prec, t) && top != OPEN {
        MoveTop(cfg, st, prec);
        var next := State(st.ops[..|st.ops| - 1], st.out + [top], prec);
        PopHigherFacts(cfg, next, t);
        GrownTransitive(cfg, st.prec, prec, PopHigher(next, t).prec);
      }
    }
  }

  /** Moving `top` and then the operators below it outputs the reverse of them all. */
  lemma MovedStep(out: seq<Token>, top: Token, moved: seq<Token>, r: seq<Token>)
    requires r == (out + [top]) + Reverse(moved)
    ensures r == out + Reverse(moved + [top])
  {
    assert (moved + [top])[..|moved|] == moved;
    assert Reverse(moved + [top]) == [top] + Reverse(moved);
  }

  /** The pop loop keeps a prefix of the stack and moves the rest to the output, top first. */
  lemma {:induction false} PopHigherSplit(st: State, t: Token)
    ensures var r := PopHigher(st, t);
      r.ops == st.ops[..|r.ops|] && r.out == st.out + Reverse(st.ops[|r.ops|..])
    decreases |st.ops|
  {
    var n := |st.ops|;
    if n == 0 {
      assert st.ops[0..] == [];
    } else {
      var top := st.ops[n - 1];
      var init := st.ops[..n - 1];
      var prec := Touch(Touch(st.prec, top), t);
      if Get(prec, top) > Get(prec, t) && top != OPEN {
        var next := State(init, st.out + [top], prec);
        PopHigherSplit(next, t);
        var r := PopHigher(next, t);
        var m := |r.ops|;
        assert r == PopHigher(st, t);
        assert init[..m] == st.ops[..m];
        assert st.ops[m..] == init[m..] + [top];
        MovedStep(st.out, top, init[m..], r.out);
      } else {
        assert st.ops[n..] == [];
      }
    }
  }

  /** Every operator the pop loop moves is not `(` and ranks strictly higher than `t`. */
  lemma {:induction false} PopHigherStrict(st: State, t: Token, k: nat)
    requires |PopHigher(st, t).ops| <= k < |st.ops|
    ensures st.ops[k] != OPEN && Get(st.prec, st.ops[k]) > Get(st.prec, t)
    decreases |st.ops|
  {
    var n := |st.ops|;
    var top := st.ops[n - 1];
    var init := st.ops[..n - 1];
    var prec := Touch(Touch(st.prec, top), t);
    TouchKeepsReadings(st.prec, top);
    TouchKeepsReadings(Touch(st.prec, top), t);
    assert SameReadings(st.prec, prec);
    if Get(prec, top) > Get(prec, t) && top != OPEN {
      var next := State(init, st.out + [top], prec);
      if k < n - 1 {
        PopHigherStrict(next, t, k);
        assert st.ops[k] == init[k];
      }
    }
  }

  /**
   * The pop loop before an operator `t` keeps a prefix of the stack and moves the rest to the
   * output top first; it moves exactly the operators that are not `(` and rank strictly higher
   * than `t`, stopping at the bottom, at a `(`, or under an operator of no higher precedence.
   */
  lemma {:induction false} PopHigherStops(st: State, t: Token)
    ensures var r := PopHigher(st, t);
      && (r.ops == [] || r.ops[|r.ops| - 1] == OPEN || Get(r.prec, r.ops[|r.ops| - 1]) <= Get(r.prec, t))
      && r.ops == st.ops[..|r.ops|]
      && r.out == st.out + Reverse(st.ops[|r.ops|..])
      && (forall k :: |r.ops| <= k < |st.ops| ==> st.ops[k] != OPEN && Get(st.prec, st.ops[k]) > Get(st.prec, t))
    decreases |st.ops|
  {
    if st.ops != [] {
      var top := st.ops[|st.ops| - 1];
      var prec := Touch(Touch(st.prec, top), t);
      if Get(prec, top) > Get(prec, t) && top != OPEN {
        PopHigherStops(State(st.ops[..|st.ops| - 1], st.out + [top], prec), t);
      }
    }
    PopHigherSplit(st, t);
    forall k | |PopHigher(st, t).ops| <= k < |st.ops|
      ensures st.ops[k] != OPEN && Get(st.prec, st.ops[k]) > Get(st.prec, t)
    {
      PopHigherStrict(st, t, k);
    }
  }

  /** The `)` loop fails exactly when no `(` is stacked. */
  lemma {:induction false} PopToOpenFails(st: State)
    ensures PopToOpen(st).Err? <==> OPEN !in st.ops
    decreases |st.ops|
  {
    if st.ops != [] {
      var top := st.ops[|st.ops| - 1];
      var init := st.ops[..|st.ops| - 1];
      assert st.ops == init + [top];
      if top != OPEN {
        PopToOpenFails(State(init, st.out + [top], st.prec));
      }
    }
  }

  /** The `)` loop keeps the invariant and the operands, and removes one `(` and nothing else from the tokens held. */
  lemma {:induction false} PopToOpenFacts(cfg: Config, st: State)
    requires Inv(cfg, st) && PopToOpen(st).Ok?
    ensures var r := PopToOpen(st).value;
      && Inv(cfg, r) && r.prec == st.prec
      && Operands(cfg, r.out) == Operands(cfg, st.out)
      && Count(OPEN, r.ops) + 1 == Count(OPEN, st.ops)
      && |r.out| + |r.ops| + 1 == |st.out| + |st.ops|
    decreases |st.ops|
  {
    var top := st.ops[|st.ops| - 1];
    var init := st.ops[..|st.ops| - 1];
    assert st.ops == init + [top];
    if top != OPEN {
      MoveTop(cfg, st, st.prec);
      PopToOpenFacts(cfg, State(init, st.out + [top], st.prec));
    }
  }

  lemma CountSplit(x: Token, s: seq<Token>, k: nat)
    requires k <= |s|
    ensures Count(x, s) == Count(x, s[..k]) + Count(x, s[k..])
  {
    assert s == s[..k] + s[k..];
  }

  /** What one iteration preserves: the invariant, the operand order, the parenthesis balance, the token count. */
  predicate Preserved(cfg: Config, st: State, t: Token, s: State)
  {
    && Inv(cfg, s)
    && Operands(cfg, s.out) == Operands(cfg, st.out) + Operands(cfg, [t])
    && Count(OPEN, s.ops) + Count(CLOSE, [t]) == Count(OPEN, st.ops) + Count(OPEN, [t])
    && |s.out| + |s.ops| + 2 * Count(CLOSE, [t]) == |st.out| + |st.ops| + 1
    && Grown(cfg, st.prec, s.prec)
  }

  lemma OperandsOfOne(cfg: Config, t: Token)
    ensures Operands(cfg, [t]) == if IsOperand(cfg, t) then [t] else []
  {
    assert [t][..0] == [];
  }

  lemma StepOperator(cfg: Config, st: State, t: Token)
    requires Inv(cfg, st) && IsOperator(cfg, st.prec, t)
    ensures Step(cfg, st, t).Ok? && Preserved(cfg, st, t, Step(cfg, st, t).value)
  {
    OperandsOfOne(cfg, t);
    assert t in cfg.operators || t == OPEN;
    PopHigherFacts(cfg, st, t);
    var r := PopHigher(st, t);
    assert Count(OPEN, r.ops + [t]) == Count(OPEN, r.ops) + Count(OPEN, [t]);
  }

  lemma StepClose(cfg: Config, st: State)
    requires Inv(cfg, st) && !IsOperator(cfg, st.prec, CLOSE) && OPEN in st.ops
    ensures Step(cfg, st, CLOSE).Ok? && Preserved(cfg, st, CLOSE, Step(cfg, st, CLOSE).value)
  {
    OperandsOfOne(cfg, CLOSE);
    PopToOpenFails(st);
    PopToOpenFacts(cfg, st);
  }

  lemma StepOther(cfg: Config, st: State, t: Token)
    requires Inv(cfg, st) && !IsOperator(cfg, st.prec, t) && t != CLOSE
    ensures Step(cfg, st, t).Ok? && Preserved(cfg, st, t, Step(cfg, st, t).value)
  {
    if t == OPEN {
      StepOpen(cfg, st);
    } else {
      StepOperand(cfg, st, t);
    }
  }
  lemma StepOpen(cfg: Config, st: State)
    requires Inv(cfg, st) && !IsOperator(cfg, st.prec, OPEN)
    ensures Step(cfg, st, OPEN) == Ok(State(st.ops + [OPEN], st.out, st.prec))
    ensures Preserved(cfg, st, OPEN, Step(cfg, st, OPEN).value)
  {
    OperandsOfOne(cfg, OPEN);
    assert Count(OPEN, st.ops + [OPEN]) == Count(OPEN, st.ops) + 1;
  }
  lemma StepOperand(cfg: Config, st: State, t: Token)
    requires Inv(cfg, st) && !IsOperator(cfg, st.prec, t) && t != CLOSE && t != OPEN
    ensures Step(cfg, st, t) == Ok(State(st.ops, st.out + [t], st.prec))
    ensures Preserved(cfg, st, t, Step(cfg, st, t).value)
  {
    var s := State(st.ops, st.out + [t], st.prec);
    OperandsOfOne(cfg, t);
    OperandsAppend(cfg, st.out, [t]);
    assert OPEN !in s.out && CLOSE !in s.out;
    assert Inv(cfg, s);
    assert Count(CLOSE, [t]) == 0 && Count(OPEN, [t]) == 0;
  }

  /** One iteration fails exactly on a `)` with no `(` stacked, and otherwise preserves what `Preserved` lists. */
  lemma StepFacts(cfg: Config, st: State, t: Token)
    requires Inv(cfg, st)
    ensures Step(cfg, st, t).Err? <==> t == CLOSE && !IsOperator(cfg, st.prec, t) && Count(OPEN, st.ops) == 0
    ensures Step(cfg, st, t).Ok? ==> Preserved(cfg, st, t, Step(cfg, st, t).value)
  {
    assert OPEN in st.ops <==> Count(OPEN, st.ops) > 0;
    if IsOperator(cfg, st.prec, t) {
      StepOperator(cfg, st, t);
    } else if t == CLOSE {
      PopToOpenFails(st);
      if OPEN in st.ops {
        StepClose(cfg, st);
      }
    } else {
      StepOther(cfg, st, t);
    }
  }

  /** What the token loop preserves over the tokens `ts`, from `st` to `s`. */
  predicate RunPreserved(cfg: Config, st: State, ts: seq<Token>, s: State)
  {
    && Inv(cfg, s)
    && Operands(cfg, s.out) == Operands(cfg, st.out) + Operands(cfg, ts)
    && Count(OPEN, s.ops) + Count(CLOSE, ts) == Count(OPEN, st.ops) + Count(OPEN, ts)
    && |s.out| + |s.ops| + 2 * Count(CLOSE, ts) == |st.out| + |st.ops| + |ts|
    && Grown(cfg, st.prec, s.prec)
  }

  lemma PreservedChain(cfg: Config, st: State, t: Token, s1: State, rest: seq<Token>, s: State)
    requires Preserved(cfg, st, t, s1) && RunPreserved(cfg, s1, rest, s)
    ensures RunPreserved(cfg, st, [t] + rest, s)
  {
    OperandsAppend(cfg, [t], rest);
    assert multiset([t] + rest) == multiset([t]) + multiset(rest);
    GrownTransitive(cfg, st.prec, s1.prec, s.prec);
  }

  /** The token loop, over any suffix of the input: what one iteration preserves, summed over the tokens. */
  lemma {:induction false} RunFacts(cfg: Config, st: State, ts: seq<Token>)
    requires Inv(cfg, st)
    ensures Run(cfg, st, ts).Ok? ==> RunPreserved(cfg, st, ts, Run(cfg, st, ts).value)
    decreases |ts|
  {
    if ts == [] {
      assert Operands(cfg, ts) == [];
    } else if Step(cfg, st, ts[0]).Ok? {
      StepFacts(cfg, st, ts[0]);
      var s1 := Step(cfg, st, ts[0]).value;
      RunFacts(cfg, s1, ts[1..]);
      if Run(cfg, s1, ts[1..]).Ok? {
        assert ts == [ts[0]] + ts[1..];
        PreservedChain(cfg, st, ts[0], s1, ts[1..], Run(cfg, s1, ts[1..]).value);
      }
    }
  }

  /** Some prefix of `ts` closes more parentheses than the `d` already open and those it opens. */
  predicate Overdrawn(ts: seq<Token>, d: nat)
  {
    exists k :: 0 <= k <= |ts| && Count(CLOSE, ts[..k]) > d + Count(OPEN, ts[..k])
  }

  lemma PrefixAfterFirst(x: Token, ts: seq<Token>, k: nat)
    requires 1 <= k <= |ts|
    ensures Count(x, ts[..k]) == Count(x, [ts[0]]) + Count(x, ts[1..][..k - 1])
  {
    assert ts[..k] == [ts[0]] + ts[1..][..k - 1];
  }

  /** An overdrawn tail makes the whole input overdrawn, once the first token is accounted for. */
  lemma OverdrawnFromTail(ts: seq<Token>, d: nat, d1: nat)
    requires |ts| > 0 && d1 + Count(CLOSE, [ts[0]]) == d + Count(OPEN, [ts[0]])
    requires Overdrawn(ts[1..], d1)
    ensures Overdrawn(ts, d)
  {
    var k :| 0 <= k <= |ts[1..]| && Count(CLOSE, ts[1..][..k]) > d1 + Count(OPEN, ts[1..][..k]);
    PrefixAfterFirst(CLOSE, ts, k + 1);
    PrefixAfterFirst(OPEN, ts, k + 1);
    assert Count(CLOSE, ts[..k + 1]) > d + Count(OPEN, ts[..k + 1]);
  }

  /** An overdrawn input whose first token leaves `d1` open has an overdrawn tail. */
  lemma OverdrawnToTail(ts: seq<Token>, d: nat, d1: nat)
    requires |ts| > 0 && d1 + Count(CLOSE, [ts[0]]) == d + Count(OPEN, [ts[0]])
    requires Overdrawn(ts, d)
    ensures Overdrawn(ts[1..], d1)
  {
    var k :| 0 <= k <= |ts| && Count(CLOSE, ts[..k]) > d + Count(OPEN, ts[..k]);
    assert ts[..0] == [];
    assert k >= 1;
    PrefixAfterFirst(CLOSE, ts, k);
    PrefixAfterFirst(OPEN, ts, k);
    assert Count(CLOSE, ts[1..][..k - 1]) > d1 + Count(OPEN, ts[1..][..k - 1]);
  }

  /**
   * The token loop fails exactly when some prefix of the input closes more
   * parentheses than are open (counting those already stacked).
   */
  lemma {:induction false} RunFails(cfg: Config, st: State, ts: seq<Token>)
    requires Inv(cfg, st)
    ensures Run(cfg, st, ts).Err? <==> Overdrawn(ts, Count(OPEN, st.ops))
    decreases |ts|
  {
    var d := Count(OPEN, st.ops);
    if ts == [] {
      assert forall k :: 0 <= k <= |ts| ==> ts[..k] == [];
    } else {
      var t := ts[0];
      StepFacts(cfg, st, t);
      assert !IsOperator(cfg, st.prec, CLOSE);
      if Step(cfg, st, t).Err? {
        assert ts[..1] == [CLOSE];
        assert Count(CLOSE, ts[..1]) > d + Count(OPEN, ts[..1]);
      } else {
        var s1 := Step(cfg, st, t).value;
        RunFails(cfg, s1, ts[1..]);
        var d1 := Count(OPEN, s1.ops);
        assert d1 + Count(CLOSE, [t]) == d + Count(OPEN, [t]);
        if Overdrawn(ts[1..], d1) {
          OverdrawnFromTail(ts, d, d1);
        }
        if Overdrawn(ts, d) {
          OverdrawnToTail(ts, d, d1);
        }
      }
    }
  }

  /** The conversion keeps true from the start: the tables of both copies meet it. */
  predicate Startable(cfg: Config, prec: map<Token, int>)
  {
    WellFormed(cfg) && (cfg.byKeys ==> prec.Keys <= cfg.operators + {OPEN})
  }

  lemma FlushFacts(cfg: Config, s: State)
    requires Inv(cfg, s)
    ensures Operands(cfg, Flush(s)) == Operands(cfg, s.out)
    ensures |Flush(s)| == |s.out| + |s.ops|
    ensures CLOSE !in Flush(s)
    ensures Count(OPEN, s.ops) == 0 ==> OPEN !in Flush(s)
  {
    var rev := Reverse(s.ops);
    forall i | 0 <= i < |rev| ensures !IsOperand(cfg, rev[i]) && rev[i] != CLOSE && (rev[i] == OPEN ==> OPEN in s.ops) {
      assert rev[i] == s.ops[|s.ops| - 1 - i];
    }
    NoOperands(cfg, rev);
    OperandsAppend(cfg, s.out, rev);
  }

  /** The operands reach the output in their input order; nothing else is an operand there. */
  lemma ConvertKeepsOperands(cfg: Config, ts: seq<Token>, prec: map<Token, int>)
    requires Startable(cfg, prec)
    ensures Convert(cfg, ts, prec).Ok? ==> Operands(cfg, Convert(cfg, ts, prec).value.0) == Operands(cfg, ts)
  {
    RunFacts(cfg, State([], [], prec), ts);
    if Run(cfg, State([], [], prec), ts).Ok? {
      FlushFacts(cfg, Run(cfg, State([], [], prec), ts).value);
    }
  }

  /**
   * For input with as many `(` as `)`, no parenthesis reaches the output and
   * every other token does: the output has `|ts|` minus the parentheses.
   */
  lemma ConvertDropsParentheses(cfg: Config, ts: seq<Token>, prec: map<Token, int>)
    requires Startable(cfg, prec) && Count(OPEN, ts) == Count(CLOSE, ts)
    ensures Convert(cfg, ts, prec).Ok? ==> var out := Convert(cfg, ts, prec).value.0;
      OPEN !in out && CLOSE !in out && |out| == |ts| - Count(OPEN, ts) - Count(CLOSE, ts)
  {
    RunFacts(cfg, State([], [], prec), ts);
    if Run(cfg, State([], [], prec), ts).Ok? {
      FlushFacts(cfg, Run(cfg, State([], [], prec), ts).value);
    }
  }

  /** The conversion fails exactly when a `)` comes with no `(` open. */
  lemma ConvertFails(cfg: Config, ts: seq<Token>, prec: map<Token, int>)
    requires Startable(cfg, prec)
    ensures Convert(cfg, ts, prec).Err? <==> Overdrawn(ts, 0)
  {
    RunFails(cfg, State([], [], prec), ts);
  }

  /** The precedence map afterwards holds every entry it held before; the keys it gains are operators or `(`, read as 0. */
  lemma ConvertGrowsPrecedence(cfg: Config, ts: seq<Token>, prec: map<Token, int>)
    requires Startable(cfg, prec)
    ensures Convert(cfg, ts, prec).Ok? ==> Grown(cfg, prec, Convert(cfg, ts, prec).value.1)
  {
    RunFacts(cfg, State([], [], prec), ts);
  }

  /** One token of a run, for following a run on a given input state by state. */
  lemma RunStepAt(cfg: Config, st: State, ts: seq<Token>, k: nat, s: State)
    requires k < |ts| && Step(cfg, st, ts[k]) == Ok(s)
    ensures Run(cfg, st, ts[k..]) == Run(cfg, s, ts[k + 1..])
  {
    assert ts[k..][0] == ts[k] && ts[k..][1..] == ts[k + 1..];
  }

  lemma RunOperandAt(cfg: Config, st: State, ts: seq<Token>, k: nat)
    requires k < |ts| && !IsOperator(cfg, st.prec, ts[k]) && ts[k] != OPEN && ts[k] != CLOSE
    ensures Run(cfg, st, ts[k..]) == Run(cfg, State(st.ops, st.out + [ts[k]], st.prec), ts[k + 1..])
  {
    RunStepAt(cfg, st, ts, k, State(st.ops, st.out + [ts[k]], st.prec));
  }

  lemma RunOpenAt(cfg: Config, st: State, ts: seq<Token>, k: nat)
    requires k < |ts| && ts[k] == OPEN && !IsOperator(cfg, st.prec, OPEN)
    ensures Run(cfg, st, ts[k..]) == Run(cfg, State(st.ops + [OPEN], st.out, st.prec), ts[k + 1..])
  {
    RunStepAt(cfg, st, ts, k, State(st.ops + [OPEN], st.out, st.prec));
  }

  lemma RunOperatorAt(cfg: Config, st: State, ts: seq<Token>, k: nat, s: State)
    requires k < |ts| && IsOperator(cfg, st.prec, ts[k]) && PopHigher(st, ts[k]) == s
    ensures Run(cfg, st, ts[k..]) == Run(cfg, State(s.ops + [ts[k]], s.out, s.prec), ts[k + 1..])
  {
    RunStepAt(cfg, st, ts, k, State(s.ops + [ts[k]], s.out, s.prec));
  }

  lemma RunCloseAt(cfg: Config, st: State, ts: seq<Token>, k: nat, s: State)
    requires k < |ts| && ts[k] == CLOSE && !IsOperator(cfg, st.prec, CLOSE) && PopToOpen(st) == Ok(s)
    ensures Run(cfg, st, ts[k..]) == Run(cfg, s, ts[k + 1..])
  {
    RunStepAt(cfg, st, ts, k, s);
  }

  /** An operator of lower precedence pops the top of the stack. */
  lemma PopHigherPops(ops: seq<Token>, top: Token, out: seq<Token>, prec: map<Token, int>, t: Token)
    requires top in prec && t in prec && prec[top] > prec[t] && top != OPEN
    ensures PopHigher(State(ops + [top], out, prec), t) == PopHigher(State(ops, out + [top], prec), t)
  {
    assert (ops + [top])[..|ops|] == ops;
  }

  /** An operator of no lower precedence stops at the top of the stack. */
  lemma PopHigherKeeps(ops: seq<Token>, top: Token, out: seq<Token>, prec: map<Token, int>, t: Token)
    requires top in prec && t in prec && prec[top] <= prec[t]
    ensures PopHigher(State(ops + [top], out, prec), t) == State(ops + [top], out, prec)
  {
  }

  /** Nothing below a `(` is popped; the lookups insert `(` and the operator. */
  lemma PopHigherBelowOpen(ops: seq<Token>, out: seq<Token>, prec: map<Token, int>, t: Token)
    ensures PopHigher(State(ops + [OPEN], out, prec), t) == State(ops + [OPEN], out, Touch(Touch(prec, OPEN), t))
  {
  }

  lemma PopToOpenPops(ops: seq<Token>, top: Token, out: seq<Token>, prec: map<Token, int>)
    requires top != OPEN
    ensures PopToOpen(State(ops + [top], out, prec)) == PopToOpen(State(ops, out + [top], prec))
  {
    assert (ops + [top])[..|ops|] == ops;
  }

  lemma PopToOpenStops(ops: seq<Token>, out: seq<Token>, prec: map<Token, int>)
    ensures PopToOpen(State(ops + [OPEN], out, prec)) == Ok(State(ops, out, prec))
  {
    assert (ops + [OPEN])[..|ops|] == ops;
  }

  /** The end of a run followed state by state. */
  lemma RunTraced(cfg: Config, ts: seq<Token>, prec: map<Token, int>, final: State, out: seq<Token>)
    requires Run(cfg, State([], [], prec), ts[0..]) == Run(cfg, final, ts[|ts|..])
    requires Flush(final) == out
    ensures Convert(cfg, ts, prec) == Ok((out, final.prec))
  {
    assert ts[0..] == ts && ts[|ts|..] == [];
  }

  // ---------------------------------------------------------------------------
  // Fully parenthesised input

  /** An expression over operator tokens: the shape the conversion is meant to recover. */
  datatype Term =
    | Atom(name: Token)
    | Prefix(op: Token, arg: Term)
    | Infix(op: Token, left: Term, right: Term)

  /** Atoms are operands and operators are listed operators. */
  predicate TermOver(cfg: Config, t: Term)
  {
    match t
    case Atom(n) => IsOperand(cfg, n)
    case Prefix(op, a) => op in cfg.operators && TermOver(cfg, a)
    case Infix(op, a, b) => op in cfg.operators && TermOver(cfg, a) && TermOver(cfg, b)
  }

  /** The term written with every operator application in parentheses. */
  function Parenthesized(t: Term): seq<Token>
  {
    match t
    case Atom(n) => [n]
    case Prefix(op, a) => [OPEN, op] + Parenthesized(a) + [CLOSE]
    case Infix(op, a, b) => [OPEN] + Parenthesized(a) + [op] + Parenthesized(b) + [CLOSE]
  }

  /** The term in postfix order: operands, then their operator. */
  function PostfixOf(t: Term): seq<Token>
  {
    match t
    case Atom(n) => [n]
    case Prefix(op, a) => PostfixOf(a) + [op]
    case Infix(op, a, b) => PostfixOf(a) + PostfixOf(b) + [op]
  }

  /** A table that already holds every operator and `(` is never changed by a lookup. */
  predicate Complete(cfg: Config, prec: map<Token, int>)
  {
    OPEN in prec && cfg.operators <= prec.Keys
  }

  /** An operator pushed right above a `(` pops nothing. */
  lemma PopHigherAtOpen(cfg: Config, ops: seq<Token>, out: seq<Token>, prec: map<Token, int>, op: Token)
    requires Complete(cfg, prec) && op in cfg.operators
    ensures PopHigher(State(ops + [OPEN], out, prec), op) == State(ops + [OPEN], out, prec)
  {
  }

  /** A `)` right above `( op` outputs `op` and drops the `(`. */
  lemma CloseAfterOperator(cfg: Config, ops: seq<Token>, out: seq<Token>, prec: map<Token, int>, op: Token, rest: seq<Token>)
    requires !cfg.byKeys && WellFormed(cfg) && op in cfg.operators
    ensures Run(cfg, State(ops + [OPEN] + [op], out, prec), [CLOSE] + rest)
         == Run(cfg, State(ops, out + [op], prec), rest)
  {
    var o1 := ops + [OPEN];
    var o2 := o1 + [op];
    assert o2[..|o2| - 1] == o1 && o1[..|o1| - 1] == ops;
    assert PopToOpen(State(o1, out + [op], prec)) == Ok(State(ops, out + [op], prec));
    assert PopToOpen(State(o2, out, prec)) == Ok(State(ops, out + [op], prec));
    assert Step(cfg, State(o2, out, prec), CLOSE) == Ok(State(ops, out + [op], prec));
    assert ([CLOSE] + rest)[1..] == rest;
  }

  /**
   * Recognising operators by the fixed list, a parenthesised term moves to the
   * output as its postfix form and leaves the stacks as they were.
   */
  lemma {:induction false} RunParenthesized(cfg: Config, t: Term, ops: seq<Token>, out: seq<Token>,
                                            prec: map<Token, int>, rest: seq<Token>)
    requires !cfg.byKeys && WellFormed(cfg) && Complete(cfg, prec) && TermOver(cfg, t)
    ensures Run(cfg, State(ops, out, prec), Parenthesized(t) + rest)
         == Run(cfg, State(ops, out + PostfixOf(t), prec), rest)
    decreases t, 1
  {
    match t
    case Atom(n) =>
      assert ([n] + rest)[1..] == rest;
    case Prefix(op, a) =>
      RunParenthesizedPrefix(cfg, op, a, ops, out, prec, rest);
    case Infix(op, a, b) =>
      RunParenthesizedInfix(cfg, op, a, b, ops, out, prec, rest);
  }
  /** Running a sequence that starts with one token is that token's step, then the rest. */
  lemma RunCons(cfg: Config, st: State, t: Token, rest: seq<Token>, s: State)
    requires Step(cfg, st, t) == Ok(s)
    ensures Run(cfg, st, [t] + rest) == Run(cfg, s, rest)
  {
    assert ([t] + rest)[0] == t && ([t] + rest)[1..] == rest;
  }
  lemma {:induction false} RunParenthesizedPrefix(cfg: Config, op: Token, a: Term, ops: seq<Token>,
                                                  out: seq<Token>, prec: map<Token, int>, rest: seq<Token>)
    requires !cfg.byKeys && WellFormed(cfg) && Complete(cfg, prec) && TermOver(cfg, Prefix(op, a))
    ensures Run(cfg, State(ops, out, prec), Parenthesized(Prefix(op, a)) + rest)
         == Run(cfg, State(ops, out + PostfixOf(Prefix(op, a)), prec), rest)
    decreases Prefix(op, a), 0
  {
    var o1 := ops + [OPEN];
    var o2 := o1 + [op];
    var outA := out + PostfixOf(a);
    var tail := [CLOSE] + rest;
    var inner := Parenthesized(a) + tail;
    PrefixTokensSplit(op, a, rest);
    RunCons(cfg, State(ops, out, prec), OPEN, [op] + inner, State(o1, out, prec));
    PopHigherAtOpen(cfg, ops, out, prec, op);
    RunCons(cfg, State(o1, out, prec), op, inner, State(o2, out, prec));
    RunParenthesized(cfg, a, o2, out, prec, tail);
    CloseAfterOperator(cfg, ops, outA, prec, op, rest);
    PostfixPrefixAppend(out, op, a);
  }
  lemma PrefixTokensSplit(op: Token, a: Term, rest: seq<Token>)
    ensures Parenthesized(Prefix(op, a)) + rest == [OPEN] + ([op] + (Parenthesized(a) + ([CLOSE] + rest)))
  {
    var pa := Parenthesized(a);
    assert Parenthesized(Prefix(op, a)) == [OPEN, op] + pa + [CLOSE];
  }
  lemma PostfixPrefixAppend(out: seq<Token>, op: Token, a: Term)
    ensures out + PostfixOf(a) + [op] == out + PostfixOf(Prefix(op, a))
  {
  }
  lemma InfixTokensSplit(op: Token, a: Term, b: Term, rest: seq<Token>)
    ensures Parenthesized(Infix(op, a, b)) + rest
         == [OPEN] + (Parenthesized(a) + ([op] + (Parenthesized(b) + ([CLOSE] + rest))))
  {
    var pa, pb := Parenthesized(a), Parenthesized(b);
    assert Parenthesized(Infix(op, a, b)) == [OPEN] + pa + [op] + pb + [CLOSE];
  }
  lemma PostfixInfixAppend(out: seq<Token>, op: Token, a: Term, b: Term)
    ensures out + PostfixOf(a) + PostfixOf(b) + [op] == out + PostfixOf(Infix(op, a, b))
  {
  }
  lemma {:induction false} RunParenthesizedInfix(cfg: Config, op: Token, a: Term, b: Term, ops: seq<Token>,
                                                 out: seq<Token>, prec: map<Token, int>, rest: seq<Token>)
    requires !cfg.byKeys && WellFormed(cfg) && Complete(cfg, prec) && TermOver(cfg, Infix(op, a, b))
    ensures Run(cfg, State(ops, out, prec), Parenthesized(Infix(op, a, b)) + rest)
         == Run(cfg, State(ops, out + PostfixOf(Infix(op, a, b)), prec), rest)
    decreases Infix(op, a, b), 0
  {
    var o1 := ops + [OPEN];
    var o2 := o1 + [op];
    var out1 := out + PostfixOf(a);
    var out2 := out1 + PostfixOf(b);
    var tail := [CLOSE] + rest;
    var right := Parenthesized(b) + tail;
    var mid := [op] + right;
    var left := Parenthesized(a) + mid;
    InfixTokensSplit(op, a, b, rest);
    RunCons(cfg, State(ops, out, prec), OPEN, left, State(o1, out, prec));
    RunParenthesized(cfg, a, o1, out, prec, mid);
    PopHigherAtOpen(cfg, ops, out1, prec, op);
    RunCons(cfg, State(o1, out1, prec), op, right, State(o2, out1, prec));
    RunParenthesized(cfg, b, o2, out1, prec, tail);
    CloseAfterOperator(cfg, ops, out2, prec, op, rest);
    PostfixInfixAppend(out, op, a, b);
  }

  /** Converting a parenthesised term gives its postfix form and leaves a complete table unchanged. */
  lemma ConvertParenthesized(cfg: Config, t: Term, prec: map<Token, int>)
    requires !cfg.byKeys && WellFormed(cfg) && Complete(cfg, prec) && TermOver(cfg, t)
    ensures Convert(cfg, Parenthesized(t), prec) == Ok((PostfixOf(t), prec))
  {
    var ts := Parenthesized(t);
    RunParenthesized(cfg, t, [], [], prec, []);
    assert ts + [] == ts;
    assert [] + PostfixOf(t) == PostfixOf(t);
    var final := State([], PostfixOf(t), prec);
    assert Run(cfg, State([], [], prec), ts) == Run(cfg, final, []) == Ok(final);
    assert Reverse([]) == [];
    assert Flush(final) == PostfixOf(t);
  }

  /** Two tables that read the same for every key (a missing key reads as 0). */
  ghost predicate SameReadings(p1: map<Token, int>, p2: map<Token, int>)
  {
    forall k :: Get(p1, k) == Get(p2, k)
  }

  lemma TouchKeepsReadings(p: map<Token, int>, k: Token)
    ensures SameReadings(p, Touch(p, k))
  {
  }

  /**
   * Recognising operators by the fixed list, the stacks depend only on what
   * the table reads, so the `(` entries that lookups insert change nothing.
   */
  lemma {:induction false} ListedIgnoresInsertions(cfg: Config, ops: seq<Token>, out: seq<Token>,
                                                   p1: map<Token, int>, p2: map<Token, int>, ts: seq<Token>)
    requires !cfg.byKeys && SameReadings(p1, p2)
    ensures Run(cfg, State(ops, out, p1), ts).Ok? <==> Run(cfg, State(ops, out, p2), ts).Ok?
    ensures Run(cfg, State(ops, out, p1), ts).Ok? ==>
      var s1, s2 := Run(cfg, State(ops, out, p1), ts).value, Run(cfg, State(ops, out, p2), ts).value;
      s1.ops == s2.ops && s1.out == s2.out && SameReadings(s1.prec, s2.prec)
    decreases |ts|
  {
    if ts != [] {
      var t := ts[0];
      var r1, r2 := Step(cfg, State(ops, out, p1), t), Step(cfg, State(ops, out, p2), t);
      StepReadings(cfg, ops, out, p1, p2, t);
      if r1.Ok? {
        ListedIgnoresInsertions(cfg, r1.value.ops, r1.value.out, r1.value.prec, r2.value.prec, ts[1..]);
      }
    }
  }

  lemma StepReadings(cfg: Config, ops: seq<Token>, out: seq<Token>, p1: map<Token, int>, p2: map<Token, int>, t: Token)
    requires !cfg.byKeys && SameReadings(p1, p2)
    ensures var r1, r2 := Step(cfg, State(ops, out, p1), t), Step(cfg, State(ops, out, p2), t);
      && (r1.Ok? <==> r2.Ok?)
      && (r1.Ok? ==> r1.value.ops == r2.value.ops && r1.value.out == r2.value.out
                     && SameReadings(r1.value.prec, r2.value.prec))
  {
    if t in cfg.operators {
      PopHigherReadings(ops, out, p1, p2, t);
    } else if t == CLOSE {
      PopToOpenReadings(ops, out, p1, p2);
    }
  }

  lemma {:induction false} PopHigherReadings(ops: seq<Token>, out: seq<Token>, p1: map<Token, int>, p2: map<Token, int>, t: Token)
    requires SameReadings(p1, p2)
    ensures var r1, r2 := PopHigher(State(ops, out, p1), t), PopHigher(State(ops, out, p2), t);
      r1.ops == r2.ops && r1.out == r2.out && SameReadings(r1.prec, r2.prec)
    decreases |ops|
  {
    if ops != [] {
      var top := ops[|ops| - 1];
      var q1, q2 := Touch(Touch(p1, top), t), Touch(Touch(p2, top), t);
      TouchKeepsReadings(p1, top);
      TouchKeepsReadings(Touch(p1, top), t);
      TouchKeepsReadings(p2, top);
      TouchKeepsReadings(Touch(p2, top), t);
      assert SameReadings(q1, q2);
      if Get(q1, top) > Get(q1, t) && top != OPEN {
        PopHigherReadings(ops[..|ops| - 1], out + [top], q1, q2, t);
      }
    }
  }

  lemma {:induction false} PopToOpenReadings(ops: seq<Token>, out: seq<Token>, p1: map<Token, int>, p2: map<Token, int>)
    requires SameReadings(p1, p2)
    ensures var r1, r2 := PopToOpen(State(ops, out, p1)), PopToOpen(State(ops, out, p2));
      && (r1.Ok? <==> r2.Ok?)
      && (r1.Ok? ==> r1.value.ops == r2.value.ops && r1.value.out == r2.value.out
                     && SameReadings(r1.value.prec, r2.value.prec))
    decreases |ops|
  {
    if ops != [] && ops[|ops| - 1] != OPEN {
      PopToOpenReadings(ops[..|ops| - 1], out + [ops[|ops| - 1]], p1, p2);
    }
  }
}
