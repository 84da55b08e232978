/**
 * `calc`: the tokenizer feeding the evaluator, and what the two prove
 * together about the texts of well-formed expressions.
 */
module Calculator {
  import opened Lexical
  import opened Evaluating
  import opened Tokenizing
  import opened Grammar
  import opened Correctness

  /** `calc(str)`: evaluate the tokens of `str`. */
  function Calculation(str: string): Outcome
  {
    Evaluation(Tokenize(str))
  }

  /** `calc`: the tokenizer's stream consumed by the evaluator. */
  method Calc(str: string) returns (result: Outcome)
    ensures result == Calculation(str)
  {
    var tokens := Tokenizer(str);
    result := Evaluate(tokens);
  }

  /**
   * Expressions whose text the tokenizer splits back into their tokens:
   * a negative literal may only open a parenthesised group, since
   * anywhere else its `-` is read as the subtraction operator.
   */
  predicate PrintableTerm(t: Term, opensGroup: bool)
  {
    match t
    case Number(text) => IsNumber(text) && (NegativeLiteral(text) ==> opensGroup)
    case Group(inner) => Printable(inner, true)
  }

  predicate Printable(e: Expr, opensGroup: bool)
  {
    match e
    case Single(t) => PrintableTerm(t, opensGroup)
    case Chain(t, op, rest) => PrintableTerm(t, opensGroup) && IsOperator(op) && Printable(rest, false)
  }

  /** The text of an expression, as one would type it without spaces. */
  function Text(e: Expr): string
  {
    Concat(ExprTokens(e))
  }

  lemma {:induction false} PrintableTermWellFormed(t: Term, g: bool)
    requires PrintableTerm(t, g)
    ensures WellFormedTerm(t)
    decreases t
  {
    match t
    case Number(_) =>
    case Group(inner) => PrintableWellFormed(inner, true);
  }

  lemma {:induction false} PrintableWellFormed(e: Expr, g: bool)
    requires Printable(e, g)
    ensures WellFormed(e)
    decreases e
  {
    match e
    case Single(t) => PrintableTermWellFormed(t, g);
    case Chain(t, _, rest) =>
      PrintableTermWellFormed(t, g);
      PrintableWellFormed(rest, false);
  }

  /** Two chained token lists whose meeting tokens fit form one chained list. */
  lemma ChainedJoin(a: seq<string>, b: seq<string>)
    requires Chained(a) && Chained(b) && (a != [] && b != [] ==> Fits(a[|a| - 1], b[0]))
    ensures Chained(a + b)
  {
    var ab := a + b;
    forall i | 0 <= i < |ab| ensures IsSymbolText(ab[i]) || LiteralText(ab[i]) {
      if i < |a| { assert ab[i] == a[i]; } else { assert ab[i] == b[i - |a|]; }
    }
    forall i | 0 < i < |ab| ensures Fits(ab[i - 1], ab[i]) {
      if i < |a| {
        assert ab[i - 1] == a[i - 1] && ab[i] == a[i];
      } else if i == |a| {
        assert ab[i - 1] == a[|a| - 1] && ab[i] == b[0];
      } else {
        assert ab[i - 1] == b[i - 1 - |a|] && ab[i] == b[i - |a|];
      }
    }
  }

  /** A token that may open the tokens of a term. */
  predicate Opens(x: string, opensGroup: bool)
  {
    x == "(" || (LiteralText(x) && (NegativeLiteral(x) ==> opensGroup))
  }

  /** A token that may close the tokens of a term. */
  predicate Closes(x: string)
  {
    x == ")" || LiteralText(x)
  }

  lemma {:induction false} TermTokensChained(t: Term, g: bool)
    requires PrintableTerm(t, g)
    ensures var ts := TermTokens(t);
            ts != [] && Chained(ts) && Opens(ts[0], g) && Closes(ts[|ts| - 1])
    decreases t
  {
    match t
    case Number(text) =>
      NumberIsLiteral(text);
    case Group(inner) =>
      var xs := ExprTokens(inner);
      ExprTokensChained(inner, true);
      ChainedJoin(["("], xs);
      ChainedJoin(["("] + xs, [")"]);
      assert TermTokens(t) == ["("] + xs + [")"];
  }

  lemma {:induction false} ExprTokensChained(e: Expr, g: bool)
    requires Printable(e, g)
    ensures var ts := ExprTokens(e);
            ts != [] && Chained(ts) && Opens(ts[0], g) && Closes(ts[|ts| - 1])
    decreases e
  {
    match e
    case Single(t) =>
      TermTokensChained(t, g);
    case Chain(t, op, rest) =>
      var ts, rs := TermTokens(t), ExprTokens(rest);
      TermTokensChained(t, g);
      ExprTokensChained(rest, false);
      OperatorBetween(ts, op, rs, g);
      assert ExprTokens(e) == ts + [op] + rs;
  }

  /** Two chained token lists joined by an operator token form one chained list. */
  lemma OperatorBetween(ts: seq<string>, op: string, rs: seq<string>, g: bool)
    requires ts != [] && Chained(ts) && Opens(ts[0], g) && Closes(ts[|ts| - 1])
    requires rs != [] && Chained(rs) && Opens(rs[0], false) && Closes(rs[|rs| - 1])
    requires IsOperator(op)
    ensures var all := ts + [op] + rs;
            all != [] && Chained(all) && Opens(all[0], g) && Closes(all[|all| - 1])
  {
    ChainedJoin(ts, [op]);
    ChainedJoin(ts + [op], rs);
    assert (ts + [op] + rs)[0] == ts[0];
    assert (ts + [op] + rs)[|ts + [op] + rs| - 1] == rs[|rs| - 1];
  }

  /** The tokenizer gives back the tokens of any printable expression from its text. */
  lemma TextTokenizes(e: Expr)
    requires Printable(e, false)
    ensures Tokenize(Text(e)) == ExprTokens(e)
  {
    ExprTokensChained(e, false);
    TokenRoundTrip(ExprTokens(e));
  }

  /**
   * `calc` on the text of a printable expression returns its value, however
   * many spaces or other dropped characters the text is written with.
   */
  lemma CalcComputes(e: Expr, str: string)
    requires Printable(e, false) && Kept(str) == Text(e)
    ensures Calculation(str) == Returns(ExprValue(e))
  {
    DroppedCharacters(str);
    TextTokenizes(e);
    PrintableWellFormed(e, false);
    EvaluatesToValue(e);
  }

  /** `Concat`, read from the front. */
  lemma {:induction false} ConcatFront(ts: seq<string>)
    requires ts != []
    ensures Concat(ts) == ts[0] + Concat(ts[1..])
    decreases |ts|
  {
    if |ts| > 1 {
      var init := ts[..|ts| - 1];
      ConcatFront(init);
      assert init[1..] == ts[1..][..|ts| - 2];
      assert init[0] == ts[0];
    } else {
      assert ts[..0] == [] && ts[1..] == [];
    }
  }

  /** A `)` after the text of a printable expression makes `calc` loop forever. */
  lemma CalcUnmatchedClose(e: Expr, str: string)
    requires Printable(e, false) && Kept(str) == Text(e) + ")"
    ensures Calculation(str) == LoopsForever
  {
    var ts := ExprTokens(e);
    ExprTokensChained(e, false);
    ChainedJoin(ts, [")"]);
    ConcatAppend(ts, ")");
    assert (ts + [")"])[0] == ts[0];
    TokenRoundTrip(ts + [")"]);
    DroppedCharacters(str);
    PrintableWellFormed(e, false);
    UnmatchedClose(e);
  }

  /** A `(` that is never closed before the text of an expression makes `calc` return no number. */
  lemma CalcUnclosedOpen(e: Expr, str: string)
    requires Printable(e, true) && Kept(str) == "(" + Text(e)
    ensures Calculation(str) == Returns(NaN)
  {
    var ts := ExprTokens(e);
    ExprTokensChained(e, true);
    ChainedJoin(["("], ts);
    ConcatFront(["("] + ts);
    assert (["("] + ts)[1..] == ts;
    TokenRoundTrip(["("] + ts);
    DroppedCharacters(str);
    PrintableWellFormed(e, true);
    UnclosedOpen(e);
  }

  /** `Concat` over two lists joined. */
  lemma {:induction false} ConcatJoin(a: seq<string>, b: seq<string>)
    ensures Concat(a + b) == Concat(a) + Concat(b)
    decreases |b|
  {
    if b != [] {
      var init, t := b[..|b| - 1], b[|b| - 1];
      assert a + b == (a + init) + [t] && b == init + [t];
      ConcatJoin(a, init);
      ConcatAppend(a + init, t);
      ConcatAppend(init, t);
    } else {
      assert a + b == a;
    }
  }

  /** The tokens of an expression, an operator, `(` and the tokens of a second expression. */
  lemma OpenAfterOperatorTokens(ts1: seq<string>, op: string, ts2: seq<string>)
    requires ts1 != [] && Chained(ts1) && Opens(ts1[0], false) && Closes(ts1[|ts1| - 1])
    requires ts2 != [] && Chained(ts2) && Opens(ts2[0], true)
    requires IsOperator(op)
    ensures Separable(ts1 + [op, "("] + ts2)
  {
    ChainedJoin(ts1, [op]);
    ChainedJoin(ts1 + [op], ["("]);
    assert ts1 + [op] + ["("] == ts1 + [op, "("];
    ChainedJoin(ts1 + [op, "("], ts2);
    assert (ts1 + [op, "("] + ts2)[0] == ts1[0];
  }

  /** An operator and a `(` that is never closed, between two printable texts, make `calc` return no number. */
  lemma CalcUnclosedAfterOperator(e1: Expr, op: string, e2: Expr, str: string)
    requires Printable(e1, false) && IsOperator(op) && Printable(e2, true)
    requires Kept(str) == Text(e1) + op + "(" + Text(e2)
    ensures Calculation(str) == Returns(NaN)
  {
    var ts1, ts2 := ExprTokens(e1), ExprTokens(e2);
    var a := ts1 + [op, "("];
    ExprTokensChained(e1, false);
    ExprTokensChained(e2, true);
    OpenAfterOperatorTokens(ts1, op, ts2);
    assert a == ts1 + [op] + ["("];
    ConcatAppend(ts1, op);
    ConcatAppend(ts1 + [op], "(");
    ConcatJoin(a, ts2);
    TokenRoundTrip(a + ts2);
    DroppedCharacters(str);
    PrintableWellFormed(e1, false);
    PrintableWellFormed(e2, true);
    UnclosedAfterOperator(e1, op, e2);
  }
}
