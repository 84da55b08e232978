/**
 * The evaluator computes the reference meaning of every well-formed
 * expression: feeding the tokens of an expression and running the final
 * loop leaves exactly the value `ExprValue` assigns to it.
 *
 * The proof views the operator stack in segments. A segment sits above a
 * barrier (the bottom of the stack, or a `(`), holds operators of strictly
 * increasing precedence, and owns the values above the values of the
 * enclosing segments. A segment's meaning is the chain of its values
 * joined by its operators; every reduction the evaluator performs applies
 * an operator that may be applied first in that chain, so the meaning is
 * kept.
 */
module Correctness {
  import opened Lexical
  import opened Stack
  import opened Evaluating
  import opened Grammar

  /** The token loop run forward from `st`; `None` once it would loop forever. */
  function FeedFrom(st: Stacks, tokens: seq<string>): Option<Stacks>
    decreases |tokens|
  {
    if tokens == [] then Some(st)
    else match Feed(st, tokens[0])
      case None => None
      case Some(st') => FeedFrom(st', tokens[1..])
  }

  /** Feeding two token runs one after the other is feeding their concatenation. */
  lemma {:induction false} FeedFromAppend(st: Stacks, a: seq<string>, b: seq<string>)
    ensures FeedFrom(st, a + b) == match FeedFrom(st, a) case None => None case Some(s) => FeedFrom(s, b)
    decreases |a|
  {
    if a == [] {
      assert a + b == b;
    } else {
      assert (a + b)[0] == a[0];
      assert (a + b)[1..] == a[1..] + b;
      match Feed(st, a[0])
      case None =>
      case Some(st') => FeedFromAppend(st', a[1..], b);
    }
  }

  lemma FeedFromLast(st: Stacks, tokens: seq<string>, token: string)
    ensures FeedFrom(st, tokens + [token]) == match FeedFrom(st, tokens) case None => None case Some(s) => Feed(s, token)
  {
    FeedFromAppend(st, tokens, [token]);
    match FeedFrom(st, tokens)
    case None =>
    case Some(s) =>
      assert [token][1..] == [];
  }

  /** Feeding a run that reaches `s` and then another run is feeding the second run from `s`. */
  lemma FeedFromThen(st: Stacks, a: seq<string>, s: Stacks, b: seq<string>)
    requires FeedFrom(st, a) == Some(s)
    ensures FeedFrom(st, a + b) == FeedFrom(s, b)
  {
    FeedFromAppend(st, a, b);
  }

  lemma FeedFromOne(st: Stacks, token: string)
    ensures FeedFrom(st, [token]) == Feed(st, token)
  {
    assert [token][1..] == [];
  }

  /** The token loop of the evaluator, run forward from empty stacks. */
  lemma {:induction false} FeedAllForward(tokens: seq<string>)
    ensures FeedAll(tokens) == FeedFrom(Empty, tokens)
    decreases |tokens|
  {
    if tokens != [] {
      var init := tokens[..|tokens| - 1];
      FeedAllForward(init);
      assert init + [tokens[|tokens| - 1]] == tokens;
      FeedFromLast(Empty, init, tokens[|tokens| - 1]);
    }
  }

  /** Operators only, binding strictly tighter from bottom to top. */
  predicate Increasing(os: seq<string>)
  {
    && (forall i :: 0 <= i < |os| ==> IsOperator(os[i]))
    && (forall i :: 0 < i < |os| ==> Rank(os[i - 1]) < Rank(os[i]))
  }

  /** What lies below a segment: the bottom of the stack or an open parenthesis. */
  predicate Barrier(p: seq<string>)
  {
    p == [] || p[|p| - 1] == "("
  }

  /** Reducing the top of a segment collapses its last operator. */
  lemma ReduceSegment(p: seq<string>, n: seq<Value>, os: seq<string>, vs: seq<Value>)
    requires Increasing(os) && |os| > 0 && |vs| == |os| + 1
    ensures var last := |os| - 1;
            && Reduce(Stacks(p + os, n + vs)) == Stacks(p + os[..last], n + CollapseValues(vs, os, last))
            && Increasing(os[..last]) && Collapsible(os, last)
  {
    var last := |os| - 1;
    var ops, nums := p + os, n + vs;
    var k := |nums|;
    assert ops[|ops| - 1] == os[last];
    assert ops[..|ops| - 1] == p + os[..last];
    assert nums[k - 2] == vs[last] && nums[k - 1] == vs[last + 1];
    assert nums[..k - 2] == n + vs[..last];
    assert vs[last + 2..] == [];
  }

  /** The drain test at the top of a segment compares its last operator with `op`. */
  lemma DrainsAtSegment(p: seq<string>, os: seq<string>, op: string)
    requires Barrier(p) && Increasing(os) && IsOperator(op)
    ensures Drains(Top(p + os), op) <==> os != [] && Rank(os[|os| - 1]) >= Rank(op)
  {
    if os == [] {
      assert p + os == p;
    } else {
      assert Top(p + os) == Some(os[|os| - 1]);
    }
  }

  /** Collapsing the top of a segment inside a longer chain. */
  lemma CollapseInChain(vs: seq<Value>, os: seq<string>, op: string, w: seq<Value>, o: seq<string>)
    requires |vs| == |os| + 1 && |os| > 0 && |w| == |o| + 1
    ensures var last := |os| - 1;
            && CollapseValues(vs + w, os + [op] + o, last) == CollapseValues(vs, os, last) + w
            && CollapseOps(os + [op] + o, last) == os[..last] + [op] + o
  {
    var last := |os| - 1;
    var all := os + [op] + o;
    assert all[last] == os[last];
    assert (vs + w)[..last] == vs[..last];
    assert (vs + w)[last] == vs[last] && (vs + w)[last + 1] == vs[last + 1];
    assert (vs + w)[last + 2..] == w;
    assert all[..last] == os[..last];
    assert all[last + 1..] == [op] + o;
  }

  /** Applying the top operator of a segment first keeps the value of any chain it starts. */
  lemma CollapseTopKeepsValue(vs: seq<Value>, os: seq<string>, op: string, w: seq<Value>, o: seq<string>)
    requires |vs| == |os| + 1 && |os| > 0 && |w| == |o| + 1
    requires Increasing(os) && Rank(os[|os| - 1]) >= Rank(op)
    ensures Flat(CollapseValues(vs, os, |os| - 1) + w, os[..|os| - 1] + [op] + o) == Flat(vs + w, os + [op] + o)
  {
    var last := |os| - 1;
    var all := os + [op] + o;
    assert Collapsible(all, last) by {
      assert all[last] == os[last] && all[last + 1] == op;
      if last > 0 { assert all[last - 1] == os[last - 1]; }
    }
    CollapseKeepsValue(vs + w, all, last);
    CollapseInChain(vs, os, op, w, o);
  }

  /**
   * The draining loop inside a segment: it stops at the barrier or below an
   * operator that binds more loosely than `op`, and whatever follows `op`,
   * the chain's value is kept.
   */
  lemma {:induction false} DrainSegment(p: seq<string>, n: seq<Value>, os: seq<string>, vs: seq<Value>,
                                        op: string, w: seq<Value>, o: seq<string>)
      returns (os': seq<string>, vs': seq<Value>)
    requires Barrier(p) && Increasing(os) && |vs| == |os| + 1 && IsOperator(op) && |w| == |o| + 1
    ensures Drain(Stacks(p + os, n + vs), op) == Stacks(p + os', n + vs')
    ensures Increasing(os' + [op]) && |vs'| == |os'| + 1
    ensures Flat(vs' + w, os' + [op] + o) == Flat(vs + w, os + [op] + o)
    decreases |os|
  {
    DrainsAtSegment(p, os, op);
    if !Drains(Top(p + os), op) {
      os', vs' := os, vs;
      IncreasingPush(os, op);
    } else {
      var last := |os| - 1;
      DrainStep(Stacks(p + os, n + vs), op);
      ReduceSegment(p, n, os, vs);
      os', vs' := DrainSegment(p, n, os[..last], CollapseValues(vs, os, last), op, w, o);
      CollapseTopKeepsValue(vs, os, op, w, o);
    }
  }

  /** An operator binding tighter than the top of a segment extends it. */
  lemma IncreasingPush(os: seq<string>, op: string)
    requires Increasing(os) && IsOperator(op) && (os != [] ==> Rank(os[|os| - 1]) < Rank(op))
    ensures Increasing(os + [op])
  {
    var all := os + [op];
    assert forall i :: 0 <= i < |os| ==> all[i] == os[i];
  }

  /** A draining top is reduced, and draining goes on below it. */
  lemma DrainStep(st: Stacks, op: string)
    requires Drains(Top(st.operators), op)
    ensures st.operators != [] && Drain(st, op) == Drain(Reduce(st), op)
  {
  }

  /** Applying the top operator of a segment first keeps the segment's value. */
  lemma CollapseLast(vs: seq<Value>, os: seq<string>)
    requires Increasing(os) && |os| > 0 && |vs| == |os| + 1
    ensures Flat(CollapseValues(vs, os, |os| - 1), os[..|os| - 1]) == Flat(vs, os)
  {
    var last := |os| - 1;
    assert Collapsible(os, last) by {
      if last > 0 { assert Rank(os[last - 1]) < Rank(os[last]); }
    }
    CollapseKeepsValue(vs, os, last);
    assert CollapseOps(os, last) == os[..last];
  }

  lemma CloseGroupStep(st: Stacks)
    requires st.operators != [] && IsOperator(st.operators[|st.operators| - 1])
    ensures CloseGroup(st) == CloseGroup(Reduce(st))
  {
  }

  /** Closing a parenthesis reduces the whole segment above it to its value. */
  lemma {:induction false} CloseSegment(p: seq<string>, n: seq<Value>, os: seq<string>, vs: seq<Value>)
    requires |p| > 0 && p[|p| - 1] == "(" && Increasing(os) && |vs| == |os| + 1
    ensures CloseGroup(Stacks(p + os, n + vs)) == Some(Stacks(p[..|p| - 1], n + [Flat(vs, os)]))
    decreases |os|
  {
    if os == [] {
      assert p + os == p;
      assert vs == [vs[0]];
      assert Top(p) == Some("(");
    } else {
      var last := |os| - 1;
      assert (p + os)[|p + os| - 1] == os[last];
      CloseGroupStep(Stacks(p + os, n + vs));
      ReduceSegment(p, n, os, vs);
      CloseSegment(p, n, os[..last], CollapseValues(vs, os, last));
      CollapseLast(vs, os);
    }
  }

  lemma FinishStep(st: Stacks)
    requires st.operators != []
    ensures Finish(st) == Finish(Reduce(st))
  {
  }

  /** The final loop reduces the bottom segment to its value. */
  lemma {:induction false} FinishSegment(n: seq<Value>, os: seq<string>, vs: seq<Value>)
    requires Increasing(os) && |vs| == |os| + 1
    ensures Finish(Stacks(os, n + vs)) == Stacks([], n + [Flat(vs, os)])
    decreases |os|
  {
    var none: seq<string> := [];
    if os == [] {
      assert vs == [vs[0]];
    } else {
      var last := |os| - 1;
      assert none + os == os && none + os[..last] == os[..last];
      FinishStep(Stacks(os, n + vs));
      ReduceSegment(none, n, os, vs);
      FinishSegment(n, os[..last], CollapseValues(vs, os, last));
      CollapseLast(vs, os);
    }
  }

  /** An open parenthesis is pushed onto the operator stack. */
  lemma FeedOpen(st: Stacks)
    ensures FeedFrom(st, ["("]) == Some(Stacks(st.operators + ["("], st.numbers))
  {
    FeedFromOne(st, "(");
    SingleCharNumber('(');
  }

  /** A closing parenthesis runs the `)` loop. */
  lemma FeedClose(st: Stacks)
    ensures FeedFrom(st, [")"]) == CloseGroup(st)
  {
    FeedFromOne(st, ")");
    SingleCharNumber(')');
  }

  /** The tokens of a term push exactly its value and leave the operators as they were. */
  lemma {:induction false} FeedTerm(q: seq<string>, m: seq<Value>, t: Term)
    requires WellFormedTerm(t)
    ensures FeedFrom(Stacks(q, m), TermTokens(t)) == Some(Stacks(q, m + [TermValue(t)]))
    decreases t, 0
  {
    match t
    case Number(text) =>
      FeedNumber(Stacks(q, m), text);
      FeedFromOne(Stacks(q, m), text);
    case Group(inner) =>
      var st := Stacks(q, m);
      var p := q + ["("];
      var none: seq<string> := [];
      var nothing: seq<Value> := [];
      FeedOpen(st);
      assert p + none == p && m + nothing == m;
      var os', vs' := FeedExpr(p, m, none, nothing, inner);
      FeedFromThen(st, ["("], Stacks(p, m), ExprTokens(inner));
      var inside := Stacks(p + os', m + vs');
      FeedFromThen(st, ["("] + ExprTokens(inner), inside, [")"]);
      FeedClose(inside);
      CloseSegment(p, m, os', vs');
      assert p[..|p| - 1] == q;
      assert none + Operators(inner) == Operators(inner) && nothing + TermValues(inner) == TermValues(inner);
      assert TermTokens(t) == ["("] + ExprTokens(inner) + [")"];
  }

  /** A term, then an operator: the value is pushed, the segment drained and the operator pushed. */
  lemma FeedTermOperator(p: seq<string>, n: seq<Value>, os: seq<string>, vs: seq<Value>, t: Term, op: string,
                         w: seq<Value>, o: seq<string>)
      returns (os': seq<string>, vs': seq<Value>)
    requires Barrier(p) && Increasing(os) && |vs| == |os| && WellFormedTerm(t) && IsOperator(op)
    requires |w| == |o| + 1
    ensures FeedFrom(Stacks(p + os, n + vs), TermTokens(t) + [op]) == Some(Stacks(p + os', n + vs'))
    ensures Increasing(os') && |vs'| == |os'|
    ensures Flat(vs' + w, os' + o) == Flat(vs + [TermValue(t)] + w, os + [op] + o)
    decreases t, 2
  {
    var vs1 := vs + [TermValue(t)];
    FeedTermPushes(p + os, n, vs, t);
    var os2, vs2 := DrainSegment(p, n, os, vs1, op, w, o);
    FeedOperatorPushes(Stacks(p + os, n + vs), TermTokens(t), p, os, n, vs1, op, os2, vs2);
    os', vs' := os2 + [op], vs2;
    assert os' + o == os2 + [op] + o;
  }

  lemma FeedTermPushes(q: seq<string>, n: seq<Value>, vs: seq<Value>, t: Term)
    requires WellFormedTerm(t)
    ensures FeedFrom(Stacks(q, n + vs), TermTokens(t)) == Some(Stacks(q, n + (vs + [TermValue(t)])))
    decreases t, 1
  {
    FeedTerm(q, n + vs, t);
    assert n + vs + [TermValue(t)] == n + (vs + [TermValue(t)]);
  }

  lemma FeedOperatorPushes(st: Stacks, a: seq<string>, p: seq<string>, os: seq<string>, n: seq<Value>, vs: seq<Value>,
                           op: string, os2: seq<string>, vs2: seq<Value>)
    requires FeedFrom(st, a) == Some(Stacks(p + os, n + vs)) && IsOperator(op)
    requires Drain(Stacks(p + os, n + vs), op) == Stacks(p + os2, n + vs2)
    ensures FeedFrom(st, a + [op]) == Some(Stacks(p + (os2 + [op]), n + vs2))
  {
    var st1 := Stacks(p + os, n + vs);
    FeedOperator(st1, op);
    FeedFromOne(st1, op);
    FeedFromThen(st, a, st1, [op]);
    assert p + os2 + [op] == p + (os2 + [op]);
  }

  /**
   * Feeding the tokens of an expression into a segment that awaits a term
   * leaves a segment whose value is the whole chain: the pending values and
   * operators followed by the terms and operators of the expression.
   */
  lemma {:induction false} FeedExpr(p: seq<string>, n: seq<Value>, os: seq<string>, vs: seq<Value>, e: Expr)
      returns (os': seq<string>, vs': seq<Value>)
    requires Barrier(p) && Increasing(os) && |vs| == |os| && WellFormed(e)
    ensures FeedFrom(Stacks(p + os, n + vs), ExprTokens(e)) == Some(Stacks(p + os', n + vs'))
    ensures Increasing(os') && |vs'| == |os'| + 1
    ensures Flat(vs', os') == Flat(vs + TermValues(e), os + Operators(e))
    decreases e
  {
    match e
    case Single(t) =>
      FeedTermPushes(p + os, n, vs, t);
      os', vs' := os, vs + [TermValue(t)];
      assert os + Operators(e) == os;
    case Chain(t, op, rest) =>
      var w, o := TermValues(rest), Operators(rest);
      var os2, vs2 := FeedTermOperator(p, n, os, vs, t, op, w, o);
      os', vs' := FeedExpr(p, n, os2, vs2, rest);
      FeedFromThen(Stacks(p + os, n + vs), TermTokens(t) + [op], Stacks(p + os2, n + vs2), ExprTokens(rest));
      ChainParts(vs, os, e);
  }

  lemma ChainParts(vs: seq<Value>, os: seq<string>, e: Expr)
    requires e.Chain?
    ensures ExprTokens(e) == TermTokens(e.term) + [e.op] + ExprTokens(e.rest)
    ensures vs + [TermValue(e.term)] + TermValues(e.rest) == vs + TermValues(e)
    ensures os + [e.op] + Operators(e.rest) == os + Operators(e)
  {
    ChainValues(vs, e);
    ChainOperators(os, e);
  }

  lemma ChainValues(vs: seq<Value>, e: Expr)
    requires e.Chain?
    ensures vs + [TermValue(e.term)] + TermValues(e.rest) == vs + TermValues(e)
  {
    var w := TermValues(e.rest);
    assert TermValues(e) == [TermValue(e.term)] + w;
    assert vs + [TermValue(e.term)] + w == vs + ([TermValue(e.term)] + w);
  }

  lemma ChainOperators(os: seq<string>, e: Expr)
    requires e.Chain?
    ensures os + [e.op] + Operators(e.rest) == os + Operators(e)
  {
    var o := Operators(e.rest);
    assert Operators(e) == [e.op] + o;
    assert os + [e.op] + o == os + ([e.op] + o);
  }

  /** The token loop over an expression leaves one segment holding its value. */
  lemma FedExpr(e: Expr) returns (os: seq<string>, vs: seq<Value>)
    requires WellFormed(e)
    ensures FeedAll(ExprTokens(e)) == Some(Stacks(os, vs))
    ensures Increasing(os) && |vs| == |os| + 1 && Flat(vs, os) == ExprValue(e)
  {
    var none: seq<string> := [];
    var nothing: seq<Value> := [];
    FeedAllForward(ExprTokens(e));
    assert Stacks(none + none, nothing + nothing) == Empty;
    os, vs := FeedExpr(none, nothing, none, nothing, e);
    assert none + os == os && nothing + vs == vs;
    assert none + Operators(e) == Operators(e) && nothing + TermValues(e) == TermValues(e);
  }

  /** The evaluator returns the reference value of every well-formed expression. */
  lemma EvaluatesToValue(e: Expr)
    requires WellFormed(e)
    ensures Evaluation(ExprTokens(e)) == Returns(ExprValue(e))
  {
    var nothing: seq<Value> := [];
    var os, vs := FedExpr(e);
    FinishSegment(nothing, os, vs);
    assert nothing + vs == vs;
    assert nothing + [Flat(vs, os)] == [Flat(vs, os)];
  }

  lemma NoOpenInSegment(os: seq<string>)
    requires Increasing(os)
    ensures "(" !in os
  {
    SingleCharNumber('(');
  }

  /** A `)` token runs the `)` loop. */
  lemma FeedCloseToken(st: Stacks)
    ensures Feed(st, ")") == CloseGroup(st)
  {
    SingleCharNumber(')');
  }

  /** A `)` after a complete expression finds no `(` and leaves the source stuck in its `)` loop. */
  lemma UnmatchedClose(e: Expr)
    requires WellFormed(e)
    ensures Evaluation(ExprTokens(e) + [")"]) == LoopsForever
  {
    var os, vs := FedExpr(e);
    FeedAllAppend(ExprTokens(e), ")");
    FeedCloseToken(Stacks(os, vs));
    NoOpenInSegment(os);
    CloseGroupPops(Stacks(os, vs));
  }

  /** A `(` that is never closed is applied by the final loop: the result is not a number. */
  lemma UnclosedOpen(e: Expr)
    requires WellFormed(e)
    ensures Evaluation(["("] + ExprTokens(e)) == Returns(NaN)
  {
    var os, vs := FedAfterOpen(e);
    assert (["("] + os)[0] == "(";
    OpenLeftAtEnd(["("] + ExprTokens(e));
  }

  /** A `(` opened after an operator and never closed: `1+(2` returns no number either. */
  lemma UnclosedAfterOperator(e1: Expr, op: string, e2: Expr)
    requires WellFormed(e1) && IsOperator(op) && WellFormed(e2)
    ensures Evaluation(ExprTokens(e1) + [op, "("] + ExprTokens(e2)) == Returns(NaN)
  {
    var none: seq<string> := [];
    var nothing: seq<Value> := [];
    var a := ExprTokens(e1) + [op, "("];
    var p, n := FedThroughOpen(e1, op);
    FeedAllForward(a);
    FeedAllForward(a + ExprTokens(e2));
    FeedFromThen(Empty, a, Stacks(p, n), ExprTokens(e2));
    assert Stacks(p + none, n + nothing) == Stacks(p, n);
    var os, vs := FeedExpr(p, n, none, nothing, e2);
    assert (p + os)[|p| - 1] == "(";
    OpenLeftAtEnd(a + ExprTokens(e2));
  }

  /** An expression, an operator and a `(`: the `(` lies on top of the operator stack. */
  lemma FedThroughOpen(e1: Expr, op: string) returns (p: seq<string>, n: seq<Value>)
    requires WellFormed(e1) && IsOperator(op)
    ensures FeedAll(ExprTokens(e1) + [op, "("]) == Some(Stacks(p, n))
    ensures p != [] && p[|p| - 1] == "(" && Barrier(p)
  {
    var os1, vs1 := FedExpr(e1);
    var ts := ExprTokens(e1);
    FeedAllAppend(ts, op);
    FeedOperator(Stacks(os1, vs1), op);
    var d := Drain(Stacks(os1, vs1), op);
    var st1 := Stacks(d.operators + [op], d.numbers);
    FeedAllAppend(ts + [op], "(");
    SingleCharNumber('(');
    assert ts + [op] + ["("] == ts + [op, "("];
    p, n := st1.operators + ["("], st1.numbers;
  }

  /** After a leading `(`, the tokens of an expression leave one segment above that `(`. */
  lemma FedAfterOpen(e: Expr) returns (os: seq<string>, vs: seq<Value>)
    requires WellFormed(e)
    ensures FeedAll(["("] + ExprTokens(e)) == Some(Stacks(["("] + os, vs))
    ensures Increasing(os) && |vs| == |os| + 1
  {
    var none: seq<string> := [];
    var nothing: seq<Value> := [];
    OpenFirst(ExprTokens(e));
    assert Stacks(["("] + none, nothing + nothing) == Stacks(["("], []);
    os, vs := FeedExpr(["("], nothing, none, nothing, e);
    assert nothing + vs == vs;
  }

  /** A leading `(` is pushed onto the empty operator stack. */
  lemma OpenFirst(tokens: seq<string>)
    ensures FeedAll(["("] + tokens) == FeedFrom(Stacks(["("], []), tokens)
  {
    FeedAllForward(["("] + tokens);
    FeedOpen(Empty);
    var st := Stacks(["("], []);
    assert Stacks(Empty.operators + ["("], Empty.numbers) == st;
    FeedFromThen(Empty, ["("], st, tokens);
  }
}
