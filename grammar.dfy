/**
 * Well-formed infix expressions and their meaning, defined independently
 * of the evaluator: an expression is a chain of terms joined by
 * operators, a term is a number literal or a parenthesised expression,
 * and a chain is split at its loosest-binding operator, the rightmost one
 * among equals (so that every operator groups to the left).
 */
module Grammar {
  import opened Lexical
  import opened Evaluating

  datatype Term = Number(text: string) | Group(inner: Expr)
  datatype Expr = Single(term: Term) | Chain(term: Term, op: string, rest: Expr)

  predicate WellFormedTerm(t: Term)
  {
    match t
    case Number(text) => IsNumber(text)
    case Group(inner) => WellFormed(inner)
  }

  predicate WellFormed(e: Expr)
  {
    match e
    case Single(t) => WellFormedTerm(t)
    case Chain(t, op, rest) => WellFormedTerm(t) && IsOperator(op) && WellFormed(rest)
  }

  /** The token sequence of a term: a literal, or `(`, the inner tokens, `)`. */
  function TermTokens(t: Term): seq<string>
  {
    match t
    case Number(text) => [text]
    case Group(inner) => ["("] + ExprTokens(inner) + [")"]
  }

  function ExprTokens(e: Expr): seq<string>
  {
    match e
    case Single(t) => TermTokens(t)
    case Chain(t, op, rest) => TermTokens(t) + [op] + ExprTokens(rest)
  }

  /** Binding strength of an operator; 0 for anything else. */
  function Rank(op: string): nat
  {
    match Precedence(op)
    case Some(p) => p
    case None => 0
  }

  /** The loosest-binding operator of a non-empty chain, the rightmost among equals. */
  function SplitPoint(ops: seq<string>): (p: nat)
    requires |ops| > 0
    ensures p < |ops|
    ensures forall q :: 0 <= q < |ops| ==> Rank(ops[p]) <= Rank(ops[q])
    ensures forall q :: p < q < |ops| ==> Rank(ops[p]) < Rank(ops[q])
  {
    if |ops| == 1 then 0
    else
      var p' := SplitPoint(ops[..|ops| - 1]);
      if Rank(ops[|ops| - 1]) <= Rank(ops[p']) then |ops| - 1 else p'
  }

  /** The split point is the only index with its two properties. */
  lemma SplitPointUnique(ops: seq<string>, p: nat)
    requires p < |ops|
    requires forall q :: 0 <= q < |ops| ==> Rank(ops[p]) <= Rank(ops[q])
    requires forall q :: p < q < |ops| ==> Rank(ops[p]) < Rank(ops[q])
    ensures SplitPoint(ops) == p
  {
  }

  /**
   * The value of the chain `values[0] ops[0] values[1] ... values[n]`:
   * the loosest operator applied to the values of the two sides.
   */
  function Flat(values: seq<Value>, ops: seq<string>): Value
    requires |values| == |ops| + 1
    decreases |ops|
  {
    if ops == [] then values[0]
    else
      var p := SplitPoint(ops);
      Apply(ops[p], Flat(values[..p + 1], ops[..p]), Flat(values[p + 1..], ops[p + 1..]))
  }

  function TermValue(t: Term): Value
  {
    match t
    case Number(text) => if IsNumber(text) then Num(ParseNumber(text)) else NaN
    case Group(inner) => Flat(TermValues(inner), Operators(inner))
  }

  /** The values of the terms of a chain, left to right. */
  function TermValues(e: Expr): (vs: seq<Value>)
    ensures |vs| == |Operators(e)| + 1
  {
    match e
    case Single(t) => [TermValue(t)]
    case Chain(t, op, rest) => [TermValue(t)] + TermValues(rest)
  }

  /** The operators of a chain, left to right. */
  function Operators(e: Expr): seq<string>
  {
    match e
    case Single(_) => []
    case Chain(_, op, rest) => [op] + Operators(rest)
  }

  function ExprValue(e: Expr): Value
  {
    Flat(TermValues(e), Operators(e))
  }

  /** The chain with the operator at `j` applied to its two operands. */
  function CollapseValues(values: seq<Value>, ops: seq<string>, j: nat): (r: seq<Value>)
    requires |values| == |ops| + 1 && j < |ops|
    ensures |r| == |values| - 1
  {
    values[..j] + [Apply(ops[j], values[j], values[j + 1])] + values[j + 2..]
  }

  function CollapseOps(ops: seq<string>, j: nat): (r: seq<string>)
    requires j < |ops|
    ensures |r| == |ops| - 1
  {
    ops[..j] + ops[j + 1..]
  }

  /** An operator may be applied first when it binds tighter than its left and at least as tightly as its right neighbour. */
  predicate Collapsible(ops: seq<string>, j: nat)
  {
    && j < |ops|
    && (j == 0 || Rank(ops[j - 1]) < Rank(ops[j]))
    && (j == |ops| - 1 || Rank(ops[j + 1]) <= Rank(ops[j]))
  }

  lemma CollapseSplitPoint(ops: seq<string>, j: nat) returns (p: nat)
    requires |ops| > 1 && Collapsible(ops, j)
    ensures p == SplitPoint(ops) && p != j
    ensures SplitPoint(CollapseOps(ops, j)) == if p < j then p else p - 1
  {
    p := SplitPoint(ops);
    var ops' := CollapseOps(ops, j);
    var p' := if p < j then p else p - 1;
    assert ops'[p'] == ops[p];
    forall q' | 0 <= q' < |ops'| ensures Rank(ops'[p']) <= Rank(ops'[q']) {
      if q' < j { assert ops'[q'] == ops[q']; } else { assert ops'[q'] == ops[q' + 1]; }
    }
    forall q' | p' < q' < |ops'| ensures Rank(ops'[p']) < Rank(ops'[q']) {
      if q' < j { assert ops'[q'] == ops[q']; } else { assert ops'[q'] == ops[q' + 1]; }
    }
    SplitPointUnique(ops', p');
  }

  /** Applying a collapsible operator first does not change the value of the chain. */
  lemma {:induction false} CollapseKeepsValue(values: seq<Value>, ops: seq<string>, j: nat)
    requires |values| == |ops| + 1 && Collapsible(ops, j)
    ensures Flat(CollapseValues(values, ops, j), CollapseOps(ops, j)) == Flat(values, ops)
    decreases |ops|, 1
  {
    if |ops| == 1 {
      assert CollapseOps(ops, j) == [];
      assert CollapseValues(values, ops, j) == [Apply(ops[0], values[0], values[1])];
      assert values[..1] == [values[0]] && values[1..] == [values[1]];
    } else {
      var p := CollapseSplitPoint(ops, j);
      if p < j {
        CollapseRightOfSplit(values, ops, j, p);
      } else {
        CollapseLeftOfSplit(values, ops, j, p);
      }
    }
  }

  /** The collapsed operator lies right of the split point. */
  lemma {:induction false} CollapseRightOfSplit(values: seq<Value>, ops: seq<string>, j: nat, p: nat)
    requires |values| == |ops| + 1 && Collapsible(ops, j) && |ops| > 1
    requires p == SplitPoint(ops) && p < j && SplitPoint(CollapseOps(ops, j)) == p
    ensures Flat(CollapseValues(values, ops, j), CollapseOps(ops, j)) == Flat(values, ops)
    decreases |ops|, 0
  {
    var values', ops' := CollapseValues(values, ops, j), CollapseOps(ops, j);
    var vr, or, k := values[p + 1..], ops[p + 1..], j - p - 1;
    RightSlices(values, ops, j, p);
    CollapseKeepsValue(vr, or, k);
    assert Flat(values', ops') == Apply(ops[p], Flat(values[..p + 1], ops[..p]), Flat(CollapseValues(vr, or, k), CollapseOps(or, k)));
  }

  lemma RightSlices(values: seq<Value>, ops: seq<string>, j: nat, p: nat)
    requires |values| == |ops| + 1 && Collapsible(ops, j) && p < j
    ensures Collapsible(ops[p + 1..], j - p - 1)
    ensures CollapseValues(values, ops, j)[..p + 1] == values[..p + 1]
    ensures CollapseOps(ops, j)[..p] == ops[..p] && CollapseOps(ops, j)[p] == ops[p]
    ensures CollapseValues(values, ops, j)[p + 1..] == CollapseValues(values[p + 1..], ops[p + 1..], j - p - 1)
    ensures CollapseOps(ops, j)[p + 1..] == CollapseOps(ops[p + 1..], j - p - 1)
  {
    var or, k := ops[p + 1..], j - p - 1;
    var ops' := CollapseOps(ops, j);
    assert ops'[p + 1..] == ops[p + 1..j] + ops[j + 1..];
    assert or[..k] == ops[p + 1..j] && or[k + 1..] == ops[j + 1..];
    assert Collapsible(or, k) by {
      if k > 0 { assert or[k - 1] == ops[j - 1]; }
      assert or[k] == ops[j];
      if k < |or| - 1 { assert or[k + 1] == ops[j + 1]; }
    }
  }

  /** The collapsed operator lies left of the split point. */
  lemma {:induction false} CollapseLeftOfSplit(values: seq<Value>, ops: seq<string>, j: nat, p: nat)
    requires |values| == |ops| + 1 && Collapsible(ops, j) && |ops| > 1
    requires p == SplitPoint(ops) && j < p && SplitPoint(CollapseOps(ops, j)) == p - 1
    ensures Flat(CollapseValues(values, ops, j), CollapseOps(ops, j)) == Flat(values, ops)
    decreases |ops|, 0
  {
    var values', ops' := CollapseValues(values, ops, j), CollapseOps(ops, j);
    var vl, ol := values[..p + 1], ops[..p];
    var q := p - 1;
    LeftSlices(values, ops, j, p);
    CollapseKeepsValue(vl, ol, j);
    assert Flat(values', ops') == Apply(ops'[q], Flat(values'[..q + 1], ops'[..q]), Flat(values'[q + 1..], ops'[q + 1..]));
    assert q + 1 == p;
    assert Flat(values', ops') == Apply(ops[p], Flat(CollapseValues(vl, ol, j), CollapseOps(ol, j)), Flat(values[p + 1..], ops[p + 1..]));
  }

  lemma LeftSlices(values: seq<Value>, ops: seq<string>, j: nat, p: nat)
    requires |values| == |ops| + 1 && Collapsible(ops, j) && j < p < |ops|
    ensures Collapsible(ops[..p], j)
    ensures CollapseValues(values, ops, j)[p..] == values[p + 1..]
    ensures CollapseOps(ops, j)[p..] == ops[p + 1..] && CollapseOps(ops, j)[p - 1] == ops[p]
    ensures CollapseValues(values, ops, j)[..p] == CollapseValues(values[..p + 1], ops[..p], j)
    ensures CollapseOps(ops, j)[..p - 1] == CollapseOps(ops[..p], j)
  {
    var ol := ops[..p];
    assert Collapsible(ol, j) by {
      if j > 0 { assert ol[j - 1] == ops[j - 1]; }
      assert ol[j] == ops[j];
      if j < |ol| - 1 { assert ol[j + 1] == ops[j + 1]; }
    }
  }
}
