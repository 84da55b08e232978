/**
 * The evaluator: an eager shunting-yard interpreter over two stacks, the
 * pending operators and the operand values, with the fixed precedence
 * table and the binary step `currentCalc`.
 *
 * Values are exact reals. `NaN` stands for every value of the source that
 * is not a finite number: `undefined`, `NaN` and (as an approximation) the
 * infinities.
 */
module Evaluating {
  import opened Lexical
  import opened Stack

  datatype Value = Num(r: real) | NaN

  /** `precedence`: `+ -` bind weakest, then `* /`, then `^`; anything else has none (`undefined`). */
  function Precedence(op: string): (p: Option<nat>)
    ensures p.Some? <==> IsOperator(op)
    ensures p == Some(1) <==> op == "+" || op == "-"
    ensures p == Some(2) <==> op == "*" || op == "/"
    ensures p == Some(3) <==> op == "^"
  {
    if op == "+" || op == "-" then Some(1)
    else if op == "*" || op == "/" then Some(2)
    else if op == "^" then Some(3)
    else None
  }

  /**
   * The drain test `precedence(top(operators)) >= precedence(token)`: a
   * comparison with `undefined` (an empty stack, or `(` on top) is false.
   */
  predicate Drains(top: Option<string>, token: string)
  {
    && top.Some? && Precedence(top.value).Some? && Precedence(token).Some?
    && Precedence(top.value).value >= Precedence(token).value
  }

  /** The stack's top can be drained only when it is an operator. */
  lemma DrainsOnlyOperators(top: Option<string>, token: string)
    ensures Drains(top, token) ==> top.Some? && IsOperator(top.value) && IsOperator(token)
    ensures top == Some("(") || top.None? ==> !Drains(top, token)
  {
  }

  function Power(x: real, n: nat): (p: real)
    ensures x != 0.0 ==> p != 0.0
  {
    if n == 0 then 1.0 else x * Power(x, n - 1)
  }

  /** `a ** b` for finite `a` and `b`, exact where the result is rational for every base. */
  function Exponent(x: real, y: real): Value
  {
    if y != y.Floor as real then NaN
    else if y.Floor >= 0 then Num(Power(x, y.Floor))
    else if x == 0.0 then NaN
    else Num(1.0 / Power(x, -y.Floor))
  }

  /**
   * `singleCalc(a, b, operator)`: `a` is the left operand. `x ** 0` is 1
   * even when `x` is not a number; otherwise a non-number operand gives a
   * non-number, and so does an operator outside the switch.
   */
  function Apply(op: string, a: Value, b: Value): Value
  {
    if op == "^" && b == Num(0.0) then Num(1.0)
    else if a.NaN? || b.NaN? then NaN
    else if op == "+" then Num(a.r + b.r)
    else if op == "-" then Num(a.r - b.r)
    else if op == "*" then Num(a.r * b.r)
    else if op == "/" then (if b.r == 0.0 then NaN else Num(a.r / b.r))
    else if op == "^" then Exponent(a.r, b.r)
    else NaN
  }

  /** Subtraction undoes addition; division undoes multiplication by a non-zero number. */
  lemma ApplyInverses(x: real, y: real)
    ensures Apply("-", Apply("+", Num(x), Num(y)), Num(y)) == Num(x)
    ensures y != 0.0 ==> Apply("/", Apply("*", Num(x), Num(y)), Num(y)) == Num(x)
  {
    if y != 0.0 {
      assert (x * y) / y == x;
    }
  }

  /** A natural exponent is repeated multiplication. */
  lemma ApplyPowerStep(x: real, n: nat)
    ensures Apply("^", Num(x), Num((n + 1) as real)) == Apply("*", Num(x), Apply("^", Num(x), Num(n as real)))
  {
    assert ((n + 1) as real).Floor == n + 1;
    assert (n as real).Floor == n;
    assert Apply("^", Num(x), Num((n + 1) as real)) == Num(x * Power(x, n));
    if n == 0 {
      assert Apply("^", Num(x), Num(n as real)) == Num(1.0);
    } else {
      assert Apply("^", Num(x), Num(n as real)) == Num(Power(x, n));
    }
  }

  /**
   * What the binary step does beyond numbers: an operator outside the
   * switch gives a non-number, dividing by zero gives a non-number, a
   * non-number operand gives a non-number except that anything, a number
   * or not, to the power 0 is 1.
   */
  lemma ApplyNonNumbers(op: string, x: real, y: real)
    ensures !IsOperator(op) ==> Apply(op, Num(x), Num(y)) == NaN
    ensures Apply("/", Num(x), Num(0.0)) == NaN
    ensures forall a: Value :: Apply("^", a, Num(0.0)) == Num(1.0)
    ensures IsOperator(op) && y != 0.0 ==> Apply(op, NaN, Num(y)) == NaN && Apply(op, Num(x), NaN) == NaN
  {
  }

  /** The two stacks; the top of each is its last element. */
  datatype Stacks = Stacks(operators: seq<string>, numbers: seq<Value>)

  const Empty := Stacks([], [])

  /** `numbers.pop()`: the top value and the rest; an empty stack gives `undefined`. */
  function PopValue(numbers: seq<Value>): (Value, seq<Value>)
  {
    if numbers == [] then (NaN, []) else (numbers[|numbers| - 1], numbers[..|numbers| - 1])
  }

  /**
   * `currentCalc`: pop one operator and two values and push the operator
   * applied to them; the deeper value is the left operand. Missing
   * operands are `undefined`.
   */
  function Reduce(st: Stacks): (r: Stacks)
    requires st.operators != []
    ensures r.operators == st.operators[..|st.operators| - 1]
  {
    var op := st.operators[|st.operators| - 1];
    var (num1, rest1) := PopValue(st.numbers);
    var (num2, rest2) := PopValue(rest1);
    Stacks(st.operators[..|st.operators| - 1], rest2 + [Apply(op, num2, num1)])
  }

  /**
   * One reduction replaces the top two values by the top operator applied
   * to them, the deeper one on the left; missing operands are `undefined`.
   */
  lemma ReduceApplies(st: Stacks)
    requires st.operators != []
    ensures var op, n, r := st.operators[|st.operators| - 1], |st.numbers|, Reduce(st).numbers;
            && (n >= 2 ==> r == st.numbers[..n - 2] + [Apply(op, st.numbers[n - 2], st.numbers[n - 1])])
            && (n == 1 ==> r == [Apply(op, NaN, st.numbers[0])])
            && (n == 0 ==> r == [Apply(op, NaN, NaN)])
  {
    var n := |st.numbers|;
    if n >= 2 {
      assert st.numbers[..n - 1][..n - 2] == st.numbers[..n - 2];
    }
  }

  /**
   * The draining loop for an incoming operator: reduce while the top of the
   * operator stack binds at least as tightly. It stops at a `(` or at the
   * bottom, and removes operators only.
   */
  function Drain(st: Stacks, token: string): (r: Stacks)
    ensures !Drains(Top(r.operators), token)
    ensures |r.operators| <= |st.operators| && r.operators == st.operators[..|r.operators|]
    ensures forall i :: |r.operators| <= i < |st.operators| ==> IsOperator(st.operators[i])
    decreases |st.operators|
  {
    if Drains(Top(st.operators), token) then
      var r := Drain(Reduce(st), token);
      DrainedPrefix(st.operators, r.operators, token);
      r
    else st
  }

  /** What one more reduction adds to the operators a drain removes. */
  lemma DrainedPrefix(ops: seq<string>, r: seq<string>, token: string)
    requires ops != [] && Drains(Top(ops), token)
    requires var rest := ops[..|ops| - 1];
             && |r| <= |rest| && r == rest[..|r|]
             && forall i :: |r| <= i < |rest| ==> IsOperator(rest[i])
    ensures |r| <= |ops| && r == ops[..|r|]
    ensures forall i :: |r| <= i < |ops| ==> IsOperator(ops[i])
  {
    DrainsOnlyOperators(Top(ops), token);
    var rest := ops[..|ops| - 1];
    assert forall i :: 0 <= i < |rest| ==> rest[i] == ops[i];
  }

  /**
   * The loop for `)`: reduce until `(` is on top, then pop it. With no `(`
   * on the stack, `top` reaches `undefined` and the source never leaves
   * the loop; that is `None` here.
   */
  function CloseGroup(st: Stacks): (r: Option<Stacks>)
    decreases |st.operators|
  {
    if Top(st.operators) == Some("(") then Some(st.(operators := st.operators[..|st.operators| - 1]))
    else if st.operators == [] then None
    else CloseGroup(Reduce(st))
  }

  /**
   * The `)` loop returns exactly when a `(` is on the operator stack; it
   * then removes everything above the topmost `(` and that `(` itself.
   */
  lemma CloseGroupPops(st: Stacks)
    ensures CloseGroup(st).Some? <==> "(" in st.operators
    ensures CloseGroup(st).Some? ==> var k := |CloseGroup(st).value.operators|;
              && k < |st.operators| && CloseGroup(st).value.operators == st.operators[..k] && st.operators[k] == "("
              && forall i :: k < i < |st.operators| ==> st.operators[i] != "("
  {
    CloseGroupReturns(st);
    if CloseGroup(st).Some? {
      CloseGroupLeaves(st);
    }
  }

  lemma {:induction false} CloseGroupReturns(st: Stacks)
    ensures CloseGroup(st).Some? <==> "(" in st.operators
    decreases |st.operators|
  {
    var ops := st.operators;
    if Top(ops) == Some("(") {
      assert ops[|ops| - 1] == "(";
    } else if ops != [] {
      var st' := Reduce(st);
      assert CloseGroup(st) == CloseGroup(st');
      CloseGroupReturns(st');
      ClosePopsStep(ops, st'.operators);
    }
  }

  lemma {:induction false} CloseGroupLeaves(st: Stacks)
    requires CloseGroup(st).Some?
    ensures var k := |CloseGroup(st).value.operators|;
            && k < |st.operators| && CloseGroup(st).value.operators == st.operators[..k] && st.operators[k] == "("
            && forall i :: k < i < |st.operators| ==> st.operators[i] != "("
    decreases |st.operators|
  {
    var ops := st.operators;
    if Top(ops) != Some("(") {
      var st' := Reduce(st);
      assert CloseGroup(st) == CloseGroup(st');
      CloseGroupLeaves(st');
      ClosePopsPrefix(ops, st'.operators, |CloseGroup(st').value.operators|);
    }
  }

  /** Reducing below a top that is not `(` keeps every `(` of the stack. */
  lemma ClosePopsStep(ops: seq<string>, rest: seq<string>)
    requires ops != [] && ops[|ops| - 1] != "(" && rest == ops[..|ops| - 1]
    ensures "(" in ops <==> "(" in rest
  {
    assert ops == rest + [ops[|ops| - 1]];
  }

  /** The topmost `(` below a top that is not `(` is the topmost `(` of the whole stack. */
  lemma ClosePopsPrefix(ops: seq<string>, rest: seq<string>, k: nat)
    requires ops != [] && ops[|ops| - 1] != "(" && rest == ops[..|ops| - 1]
    requires k < |rest| && rest[k] == "(" && forall i :: k < i < |rest| ==> rest[i] != "("
    ensures rest[..k] == ops[..k] && ops[k] == "(" && forall i :: k < i < |ops| ==> ops[i] != "("
  {
    assert forall i :: 0 <= i < |rest| ==> rest[i] == ops[i];
  }

  /** One iteration of the token loop. A token of no kind is ignored. */
  function Feed(st: Stacks, token: string): Option<Stacks>
  {
    if IsOperator(token) then
      var d := Drain(st, token); Some(d.(operators := d.operators + [token]))
    else if IsNumber(token) then Some(st.(numbers := st.numbers + [Num(ParseNumber(token))]))
    else if token == "(" then Some(st.(operators := st.operators + [token]))
    else if token == ")" then CloseGroup(st)
    else Some(st)
  }

  /** The stacks after the token loop over `tokens`; `None` once the source loops forever. */
  function FeedAll(tokens: seq<string>): Option<Stacks>
  {
    if tokens == [] then Some(Empty)
    else match FeedAll(tokens[..|tokens| - 1])
      case None => None
      case Some(st) => Feed(st, tokens[|tokens| - 1])
  }

  /** The final loop: reduce until the operator stack is empty. */
  function Finish(st: Stacks): (r: Stacks)
    ensures r.operators == []
    decreases |st.operators|
  {
    if st.operators == [] then st else Finish(Reduce(st))
  }

  /** What a call of the source does: return a value, or never return. */
  datatype Outcome = Returns(value: Value) | LoopsForever

  /** `evaluate(tokens)`: the token loop, the final loop, then `numbers.pop()`. */
  function Evaluation(tokens: seq<string>): Outcome
  {
    match FeedAll(tokens)
    case None => LoopsForever
    case Some(st) => Returns(PopValue(Finish(st).numbers).0)
  }

  /** Nothing on the value stack, or no number on its top: `numbers.pop()` gives no number. */
  predicate NaNOnTop(numbers: seq<Value>)
  {
    numbers == [] || numbers[|numbers| - 1] == NaN
  }

  /** A missing right operand makes every operation give no number. */
  lemma ApplyToNaN(op: string, a: Value)
    ensures Apply(op, a, NaN) == NaN
  {
  }

  /** Once no number is on top, every further reduction keeps it so. */
  lemma ReduceKeepsNaNOnTop(st: Stacks)
    requires st.operators != [] && NaNOnTop(st.numbers)
    ensures NaNOnTop(Reduce(st).numbers)
  {
    ReduceApplies(st);
    ApplyToNaN(st.operators[|st.operators| - 1], NaN);
  }

  /** Applying `(` as if it were an operator gives no number. */
  lemma ReduceOpen(st: Stacks)
    requires st.operators != [] && st.operators[|st.operators| - 1] == "("
    ensures NaNOnTop(Reduce(st).numbers)
  {
    ReduceApplies(st);
  }

  lemma {:induction false} FinishKeepsNaNOnTop(st: Stacks)
    requires NaNOnTop(st.numbers)
    ensures NaNOnTop(Finish(st).numbers)
    decreases |st.operators|
  {
    if st.operators != [] {
      ReduceKeepsNaNOnTop(st);
      FinishKeepsNaNOnTop(Reduce(st));
    }
  }

  /** The final loop over a stack holding a `(` ends with no number on top. */
  lemma {:induction false} FinishOverOpen(st: Stacks)
    requires "(" in st.operators
    ensures NaNOnTop(Finish(st).numbers)
    decreases |st.operators|
  {
    var ops := st.operators;
    if ops[|ops| - 1] == "(" {
      ReduceOpen(st);
      FinishKeepsNaNOnTop(Reduce(st));
    } else {
      var i :| 0 <= i < |ops| && ops[i] == "(";
      assert Reduce(st).operators[i] == "(";
      FinishOverOpen(Reduce(st));
    }
  }

  /**
   * A `(` still open when the token loop ends is applied by the final loop,
   * and the result is no number, whatever precedes or follows it.
   */
  lemma OpenLeftAtEnd(tokens: seq<string>)
    requires FeedAll(tokens).Some? && "(" in FeedAll(tokens).value.operators
    ensures Evaluation(tokens) == Returns(NaN)
  {
    FinishOverOpen(FeedAll(tokens).value);
  }

  lemma FeedAllAppend(tokens: seq<string>, token: string)
    ensures FeedAll(tokens + [token]) == if FeedAll(tokens).None? then None else Feed(FeedAll(tokens).value, token)
  {
    assert (tokens + [token])[..|tokens|] == tokens;
  }

  /** Once the source is stuck in the `)` loop, later tokens change nothing. */
  lemma {:induction false} LoopsForeverStays(tokens: seq<string>, k: nat)
    requires k <= |tokens| && FeedAll(tokens[..k]) == None
    ensures FeedAll(tokens) == None
    decreases |tokens| - k
  {
    if k < |tokens| {
      assert tokens[..k + 1][..k] == tokens[..k];
      LoopsForeverStays(tokens, k + 1);
    } else {
      assert tokens[..k] == tokens;
    }
  }

  /**
   * The shape of the operator stack: only the five operators and `(`,
   * never `)`; within a run of operators, precedence strictly increases
   * from bottom to top.
   */
  predicate WellStacked(ops: seq<string>)
  {
    && (forall i :: 0 <= i < |ops| ==> IsOperator(ops[i]) || ops[i] == "(")
    && (forall i :: 0 < i < |ops| && IsOperator(ops[i - 1]) && IsOperator(ops[i]) ==>
          Precedence(ops[i - 1]).value < Precedence(ops[i]).value)
  }

  lemma WellStackedPrefix(ops: seq<string>, k: nat)
    requires WellStacked(ops) && k <= |ops|
    ensures WellStacked(ops[..k])
  {
  }

  /** An operator may go on a well-shaped stack whose top does not drain for it. */
  lemma AppendKeepsShape(d: seq<string>, token: string)
    requires WellStacked(d) && IsOperator(token) && !Drains(Top(d), token)
    ensures WellStacked(d + [token])
  {
    var ops := d + [token];
    assert forall i :: 0 <= i < |d| ==> ops[i] == d[i];
    if d != [] && IsOperator(d[|d| - 1]) {
      assert Precedence(d[|d| - 1]).value < Precedence(token).value;
    }
  }

  /** Draining for an operator and pushing it keeps the operator stack well shaped. */
  lemma PushKeepsShape(st: Stacks, token: string)
    requires WellStacked(st.operators) && IsOperator(token)
    ensures WellStacked(Drain(st, token).operators + [token])
  {
    var d := Drain(st, token).operators;
    WellStackedPrefix(st.operators, |d|);
    AppendKeepsShape(d, token);
  }

  /** Every token keeps the operator stack well shaped. */
  lemma FeedKeepsShape(st: Stacks, token: string)
    requires WellStacked(st.operators)
    ensures Feed(st, token).Some? ==> WellStacked(Feed(st, token).value.operators)
  {
    if IsOperator(token) {
      PushKeepsShape(st, token);
    } else if IsNumber(token) {
      assert Feed(st, token).value.operators == st.operators;
    } else if token == "(" {
      assert Feed(st, token).value.operators == st.operators + ["("];
    } else if token == ")" {
      CloseGroupPops(st);
      if CloseGroup(st).Some? {
        WellStackedPrefix(st.operators, |CloseGroup(st).value.operators|);
      }
    }
  }

  /** After any tokens the operator stack is well shaped. */
  lemma {:induction false} FedShape(tokens: seq<string>)
    ensures FeedAll(tokens).Some? ==> WellStacked(FeedAll(tokens).value.operators)
  {
    if tokens != [] {
      var p := tokens[..|tokens| - 1];
      FedShape(p);
      if FeedAll(p).Some? {
        FeedKeepsShape(FeedAll(p).value, tokens[|tokens| - 1]);
      }
    }
  }

  lemma {:induction false} RunClimbs(ops: seq<string>, i: nat, j: nat)
    requires WellStacked(ops) && i <= j < |ops|
    requires forall k :: i <= k <= j ==> IsOperator(ops[k])
    ensures Precedence(ops[j]).value >= Precedence(ops[i]).value + (j - i)
    decreases j - i
  {
    if i < j {
      RunClimbs(ops, i, j - 1);
    }
  }

  /**
   * A run of operators on a well-shaped stack holds at most three of them,
   * so the stack is bounded by the nesting depth.
   */
  lemma RunIsShort(ops: seq<string>, i: nat, j: nat)
    requires WellStacked(ops) && i <= j < |ops|
    requires forall k :: i <= k <= j ==> IsOperator(ops[k])
    ensures j - i < 3
  {
    RunClimbs(ops, i, j);
  }

  /** A token that is no operator, number or parenthesis leaves both stacks as they are. */
  lemma IgnoredToken(st: Stacks, token: string)
    requires !IsOperator(token) && !IsNumber(token) && token != "(" && token != ")"
    ensures Feed(st, token) == Some(st)
  {
  }

  /** `007` and `1.2.3`, which the tokenizer can emit, are ignored by the evaluator. */
  lemma IgnoredLiterals(st: Stacks)
    ensures Feed(st, "007") == Some(st) && Feed(st, "1.2.3") == Some(st)
  {
    RejectedLiterals();
  }

  lemma FeedNumber(st: Stacks, token: string)
    requires IsNumber(token)
    ensures Feed(st, token) == Some(st.(numbers := st.numbers + [Num(ParseNumber(token))]))
  {
    NumberIsNotOperator(token);
  }

  lemma FeedOperator(st: Stacks, token: string)
    requires IsOperator(token)
    ensures Feed(st, token) == Some(Drain(st, token).(operators := Drain(st, token).operators + [token]))
  {
  }

  /** The first three tokens of `a op1 b`: a pending operator over two numbers. */
  lemma FeedThree(a: string, op1: string, b: string)
    requires IsNumber(a) && IsNumber(b) && IsOperator(op1)
    ensures FeedAll([a, op1, b]) == Some(Stacks([op1], [Num(ParseNumber(a)), Num(ParseNumber(b))]))
  {
    var x, y := Num(ParseNumber(a)), Num(ParseNumber(b));
    var none: seq<string> := [];
    FeedAllAppend(none, a);
    assert none + [a] == [a];
    FeedNumber(Empty, a);
    assert Empty.numbers + [x] == [x];
    assert FeedAll([a]) == Some(Stacks([], [x]));
    FeedAllAppend([a], op1);
    assert [a] + [op1] == [a, op1];
    assert Drain(Stacks([], [x]), op1) == Stacks([], [x]);
    FeedOperator(Stacks([], [x]), op1);
    assert none + [op1] == [op1];
    assert FeedAll([a, op1]) == Some(Stacks([op1], [x]));
    FeedAllAppend([a, op1], b);
    assert [a, op1] + [b] == [a, op1, b];
    FeedNumber(Stacks([op1], [x]), b);
    assert [x] + [y] == [x, y];
  }

  lemma FeedFour(a: string, op1: string, b: string, op2: string)
    requires IsNumber(a) && IsNumber(b) && IsOperator(op1) && IsOperator(op2)
    ensures var d := Drain(Stacks([op1], [Num(ParseNumber(a)), Num(ParseNumber(b))]), op2);
            FeedAll([a, op1, b, op2]) == Some(Stacks(d.operators + [op2], d.numbers))
  {
    FeedThree(a, op1, b);
    var st := Stacks([op1], [Num(ParseNumber(a)), Num(ParseNumber(b))]);
    FeedAllAppend([a, op1, b], op2);
    assert [a, op1, b] + [op2] == [a, op1, b, op2];
    FeedOperator(st, op2);
  }

  lemma FeedFive(a: string, op1: string, b: string, op2: string, c: string)
    requires IsNumber(a) && IsNumber(b) && IsNumber(c) && IsOperator(op1) && IsOperator(op2)
    ensures var st := Stacks([op1], [Num(ParseNumber(a)), Num(ParseNumber(b))]);
            var d := Drain(st, op2);
            FeedAll([a, op1, b, op2, c]) == Some(Stacks(d.operators + [op2], d.numbers + [Num(ParseNumber(c))]))
  {
    FeedFour(a, op1, b, op2);
    var d := Drain(Stacks([op1], [Num(ParseNumber(a)), Num(ParseNumber(b))]), op2);
    FeedAllAppend([a, op1, b, op2], c);
    assert [a, op1, b, op2] + [c] == [a, op1, b, op2, c];
    FeedNumber(Stacks(d.operators + [op2], d.numbers), c);
  }

  /** Equal or weaker incoming precedence: the pending operator is applied first. */
  lemma GroupsLeft(a: string, op1: string, b: string, op2: string, c: string)
    requires IsNumber(a) && IsNumber(b) && IsNumber(c) && IsOperator(op1) && IsOperator(op2)
    requires Precedence(op1).value >= Precedence(op2).value
    ensures var x, y, z := Num(ParseNumber(a)), Num(ParseNumber(b)), Num(ParseNumber(c));
            Evaluation([a, op1, b, op2, c]) == Returns(Apply(op2, Apply(op1, x, y), z))
  {
    var x, y, z := Num(ParseNumber(a)), Num(ParseNumber(b)), Num(ParseNumber(c));
    FeedFive(a, op1, b, op2, c);
    var st := Stacks([op1], [x, y]);
    var l := Apply(op1, x, y);
    assert Reduce(st) == Stacks([], [l]);
    assert Drain(Stacks([], [l]), op2) == Stacks([], [l]);
    assert Drain(st, op2) == Stacks([], [l]);
    assert [] + [op2] == [op2] && [l] + [z] == [l, z];
    var e := Stacks([op2], [l, z]);
    assert FeedAll([a, op1, b, op2, c]) == Some(e);
    var f := Stacks([], [Apply(op2, l, z)]);
    assert Reduce(e) == f;
    assert Finish(e) == f;
  }

  /** Stronger incoming precedence: the incoming operator is applied first. */
  lemma GroupsRight(a: string, op1: string, b: string, op2: string, c: string)
    requires IsNumber(a) && IsNumber(b) && IsNumber(c) && IsOperator(op1) && IsOperator(op2)
    requires Precedence(op1).value < Precedence(op2).value
    ensures var x, y, z := Num(ParseNumber(a)), Num(ParseNumber(b)), Num(ParseNumber(c));
            Evaluation([a, op1, b, op2, c]) == Returns(Apply(op1, x, Apply(op2, y, z)))
  {
    var x, y, z := Num(ParseNumber(a)), Num(ParseNumber(b)), Num(ParseNumber(c));
    FeedFive(a, op1, b, op2, c);
    var st := Stacks([op1], [x, y]);
    assert Drain(st, op2) == st;
    assert [op1] + [op2] == [op1, op2] && [x, y] + [z] == [x, y, z];
    var e := Stacks([op1, op2], [x, y, z]);
    assert FeedAll([a, op1, b, op2, c]) == Some(e);
    var r := Apply(op2, y, z);
    var m := Stacks([op1], [x, r]);
    var f := Stacks([], [Apply(op1, x, r)]);
    assert Reduce(e) == m;
    assert Reduce(m) == f;
    assert Finish(m) == f;
    assert Finish(e) == f;
  }

  /** `currentCalc` on the two stacks. */
  method CurrentCalc(operators: seq<string>, numbers: seq<Value>) returns (operators': seq<string>, numbers': seq<Value>)
    requires operators != []
    ensures Stacks(operators', numbers') == Reduce(Stacks(operators, numbers))
  {
    var operator := operators[|operators| - 1];
    operators' := operators[..|operators| - 1];
    var num1, num2 := NaN, NaN;
    numbers' := numbers;
    if numbers' != [] {
      num1 := numbers'[|numbers'| - 1];
      numbers' := numbers'[..|numbers'| - 1];
    }
    if numbers' != [] {
      num2 := numbers'[|numbers'| - 1];
      numbers' := numbers'[..|numbers'| - 1];
    }
    numbers' := numbers' + [Apply(operator, num2, num1)];
  }

  /** `evaluate`: the token loop with its two inner loops, then the final loop. */
  method Evaluate(tokens: seq<string>) returns (result: Outcome)
    ensures result == Evaluation(tokens)
  {
    var operators: seq<string> := [];
    var numbers: seq<Value> := [];
    for i := 0 to |tokens|
      invariant FeedAll(tokens[..i]) == Some(Stacks(operators, numbers))
    {
      var token := tokens[i];
      assert tokens[..i + 1][..i] == tokens[..i];
      ghost var before := Stacks(operators, numbers);
      if IsOperator(token) {
        while Drains(Top(operators), token)
          invariant Drain(Stacks(operators, numbers), token) == Drain(before, token)
          decreases |operators|
        {
          operators, numbers := CurrentCalc(operators, numbers);
        }
        operators := operators + [token];
      } else if IsNumber(token) {
        numbers := numbers + [Num(ParseNumber(token))];
      } else if token == "(" {
        operators := operators + [token];
      } else if token == ")" {
        while Top(operators) != Some("(")
          invariant CloseGroup(Stacks(operators, numbers)) == CloseGroup(before)
          decreases |operators|
        {
          if operators == [] {
            LoopsForeverStays(tokens, i + 1);
            return LoopsForever;
          }
          operators, numbers := CurrentCalc(operators, numbers);
        }
        operators := operators[..|operators| - 1];
      }
    }
    assert tokens[..|tokens|] == tokens;
    ghost var fed := Stacks(operators, numbers);
    while operators != []
      invariant Finish(Stacks(operators, numbers)) == Finish(fed)
      decreases |operators|
    {
      operators, numbers := CurrentCalc(operators, numbers);
    }
    var solution := NaN;
    if numbers != [] {
      solution := numbers[|numbers| - 1];
    }
    result := Returns(solution);
  }
}
