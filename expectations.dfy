/**
 * Concrete results of `calc`: the four expectations of the repository's
 * tests, right-to-left `^` grouping not happening, and a negative literal
 * opening a group. Each follows from the general theorem `CalcComputes`
 * applied to a chain of one-digit literals. The failure shapes follow from
 * the theorems about `)` and `(`, and a leading `-`, which is not a sign,
 * is traced through the scanner and the evaluator step by step.
 */
module Expectations {
  import opened Lexical
  import opened Evaluating
  import opened Tokenizing
  import opened Grammar
  import opened Calculator
  import opened Stack

  /** The value of a one-digit literal. */
  function DigitNum(c: char): Value
    requires IsDigit(c)
  {
    Num(DigitValue(c) as real)
  }

  lemma DigitLiteral(c: char)
    requires IsDigit(c)
    ensures IsNumber([c]) && ParseNumber([c]) == DigitValue(c) as real && !NegativeLiteral([c])
    ensures TermValue(Number([c])) == DigitNum(c)
  {
    SingleCharNumber(c);
    var s := [c];
    assert DotIndex(s) == 1 && s[0] == c && s[..0] == [];
    assert DigitsValue(s) == DigitValue(c);
    assert UnsignedValue(s) == DigitValue(c) as real;
  }

  predicate AllOperatorChars(os: string) { forall i :: 0 <= i < |os| ==> IsOperatorChar(os[i]) }

  /** The chain `ds[0] os[0] ds[1] ... ds[n]` of one-digit literals. */
  function DigitChain(ds: string, os: string): Expr
    requires |ds| == |os| + 1
    decreases |os|
  {
    if os == [] then Single(Number([ds[0]])) else Chain(Number([ds[0]]), [os[0]], DigitChain(ds[1..], os[1..]))
  }

  /** Its text: digits and operators alternating. */
  function Interleave(ds: string, os: string): string
    requires |ds| == |os| + 1
    decreases |os|
  {
    if os == [] then [ds[0]] else [ds[0], os[0]] + Interleave(ds[1..], os[1..])
  }

  /** Each character as a token of its own. */
  function Singles(s: string): seq<string>
  {
    if s == [] then [] else [[s[0]]] + Singles(s[1..])
  }

  function DigitNums(ds: string): (vs: seq<Value>)
    requires AllDigits(ds)
    ensures |vs| == |ds|
  {
    if ds == [] then [] else [DigitNum(ds[0])] + DigitNums(ds[1..])
  }

  function OperatorTexts(os: string): (ts: seq<string>)
    ensures |ts| == |os|
  {
    if os == [] then [] else [[os[0]]] + OperatorTexts(os[1..])
  }

  lemma {:induction false} SinglesAppend(a: string, b: string)
    ensures Singles(a + b) == Singles(a) + Singles(b)
    decreases |a|
  {
    if a == [] {
      assert a + b == b;
    } else {
      assert (a + b)[0] == a[0] && (a + b)[1..] == a[1..] + b;
      SinglesAppend(a[1..], b);
    }
  }

  lemma {:induction false} ConcatSingles(s: string)
    ensures Concat(Singles(s)) == s
    decreases |s|
  {
    if s != [] {
      ConcatFront(Singles(s));
      ConcatSingles(s[1..]);
      assert s == [s[0]] + s[1..];
    }
  }

  /** The tokens, values, operators and printability of a chain of one-digit literals. */
  lemma {:induction false} DigitChainFacts(ds: string, os: string)
    requires |ds| == |os| + 1 && AllDigits(ds) && AllOperatorChars(os)
    ensures var e := DigitChain(ds, os);
            && Printable(e, false)
            && ExprTokens(e) == Singles(Interleave(ds, os))
            && TermValues(e) == DigitNums(ds)
            && Operators(e) == OperatorTexts(os)
    decreases |os|
  {
    DigitLiteral(ds[0]);
    if os == [] {
      assert Singles([ds[0]]) == [[ds[0]]];
      assert DigitNums(ds) == [DigitNum(ds[0])];
    } else {
      var ds', os' := ds[1..], os[1..];
      assert AllDigits(ds') by { assert forall i :: 0 <= i < |ds'| ==> ds'[i] == ds[i + 1]; }
      assert AllOperatorChars(os') by { assert forall i :: 0 <= i < |os'| ==> os'[i] == os[i + 1]; }
      DigitChainFacts(ds', os');
      var i := Interleave(ds', os');
      SinglesAppend([ds[0], os[0]], i);
      assert Singles([ds[0], os[0]]) == [[ds[0]], [os[0]]] by {
        assert [ds[0], os[0]][1..] == [os[0]];
        assert Singles([os[0]]) == [[os[0]]];
      }
      assert [[ds[0]]] + [[os[0]]] + Singles(i) == [[ds[0]], [os[0]]] + Singles(i);
    }
  }

  /** `calc` on any text that reads as a chain of one-digit literals once dropped characters are removed. */
  lemma CalcDigitChain(str: string, ds: string, os: string)
    requires |ds| == |os| + 1 && AllDigits(ds) && AllOperatorChars(os)
    requires Kept(str) == Interleave(ds, os)
    ensures Calculation(str) == Returns(Flat(DigitNums(ds), OperatorTexts(os)))
  {
    var e := DigitChain(ds, os);
    DigitChainFacts(ds, os);
    ConcatSingles(Interleave(ds, os));
    CalcComputes(e, str);
  }

  /** The expression `(chain) o z`. */
  function GroupThen(ds: string, os: string, o: char, z: char): Expr
    requires |ds| == |os| + 1
  {
    Chain(Group(DigitChain(ds, os)), [o], Single(Number([z])))
  }

  lemma GroupThenPrintable(ds: string, os: string, o: char, z: char)
    requires |ds| == |os| + 1 && AllDigits(ds) && AllOperatorChars(os) && IsOperatorChar(o) && IsDigit(z)
    ensures Printable(GroupThen(ds, os, o, z), false)
  {
    DigitChainFacts(ds, os);
    DigitLiteral(z);
    PrintableInGroup(DigitChain(ds, os));
  }

  lemma SinglesThree(a: char, b: char, c: char)
    ensures Singles([a, b, c]) == [[a], [b], [c]]
  {
    assert Singles([c]) == [[c]] by { assert [c][1..] == []; }
    assert Singles([b, c]) == [[b], [c]] by { assert [b, c][1..] == [c]; }
    assert [a, b, c][1..] == [b, c];
  }

  lemma GroupThenTokens(ds: string, os: string, o: char, z: char)
    requires |ds| == |os| + 1 && AllDigits(ds) && AllOperatorChars(os)
    ensures ExprTokens(GroupThen(ds, os, o, z)) == Singles("(" + Interleave(ds, os) + [')', o, z])
  {
    var i := Interleave(ds, os);
    var inner := DigitChain(ds, os);
    var g, x := Group(inner), ExprTokens(inner);
    assert TermTokens(g) == ["("] + x + [")"];
    assert ExprTokens(Single(Number([z]))) == [[z]];
    assert ExprTokens(GroupThen(ds, os, o, z)) == TermTokens(g) + [[o]] + [[z]];
    DigitChainFacts(ds, os);
    SinglesAppend("(", i);
    SinglesAppend("(" + i, [')', o, z]);
    assert Singles("(") == ["("];
    SinglesThree(')', o, z);
  }

  lemma GroupThenValue(ds: string, os: string, o: char, z: char)
    requires |ds| == |os| + 1 && AllDigits(ds) && AllOperatorChars(os) && IsDigit(z)
    ensures ExprValue(GroupThen(ds, os, o, z)) == Apply([o], Flat(DigitNums(ds), OperatorTexts(os)), DigitNum(z))
  {
    DigitChainFacts(ds, os);
    DigitLiteral(z);
    var e := GroupThen(ds, os, o, z);
    var v := Flat(DigitNums(ds), OperatorTexts(os));
    assert TermValues(e) == [v, DigitNum(z)];
    assert Operators(e) == [[o]];
    FlatPair(v, [o], DigitNum(z));
  }

  /** `calc` on a text that reads as `(chain) o z` once dropped characters are removed. */
  lemma CalcGroupThen(str: string, ds: string, os: string, o: char, z: char)
    requires |ds| == |os| + 1 && AllDigits(ds) && AllOperatorChars(os) && IsOperatorChar(o) && IsDigit(z)
    requires Kept(str) == "(" + Interleave(ds, os) + [')', o, z]
    ensures Calculation(str) == Returns(Apply([o], Flat(DigitNums(ds), OperatorTexts(os)), DigitNum(z)))
  {
    var e := GroupThen(ds, os, o, z);
    GroupThenPrintable(ds, os, o, z);
    GroupThenTokens(ds, os, o, z);
    ConcatSingles("(" + Interleave(ds, os) + [')', o, z]);
    GroupThenValue(ds, os, o, z);
    CalcComputes(e, str);
  }

  /** Allowing a leading negative literal only widens the printable expressions. */
  lemma PrintableInGroup(e: Expr)
    requires Printable(e, false)
    ensures Printable(e, true)
  {
    match e
    case Single(t) =>
    case Chain(t, op, rest) =>
  }

  /** A chain of two values. */
  lemma FlatPair(a: Value, op: string, b: Value)
    ensures Flat([a, b], [op]) == Apply(op, a, b)
  {
    assert [a, b][..1] == [a] && [a, b][1..] == [b];
    assert [op][..0] == [] && [op][1..] == [];
  }

  /** A chain of three values groups by precedence, to the left among equals. */
  lemma FlatTriple(a: Value, op1: string, b: Value, op2: string, c: Value)
    ensures Flat([a, b, c], [op1, op2]) ==
              if Rank(op2) <= Rank(op1) then Apply(op2, Apply(op1, a, b), c) else Apply(op1, a, Apply(op2, b, c))
  {
    var vs, os := [a, b, c], [op1, op2];
    assert os[..1] == [op1];
    if Rank(op2) <= Rank(op1) {
      assert SplitPoint(os) == 1;
      assert vs[..2] == [a, b] && vs[2..] == [c] && os[2..] == [];
      FlatPair(a, op1, b);
    } else {
      assert SplitPoint(os) == 0;
      assert vs[..1] == [a] && vs[1..] == [b, c] && os[..0] == [] && os[1..] == [op2];
      FlatPair(b, op2, c);
    }
  }

  /** A text of tokenized characters only is its own `Kept`. */
  lemma {:induction false} KeptWhole(s: string)
    requires forall i :: 0 <= i < |s| ==> IsKept(s[i])
    ensures Kept(s) == s
    decreases |s|
  {
    if s != [] {
      KeptWhole(s[..|s| - 1]);
    }
  }

  /** `Kept` distributes over concatenation. */
  lemma {:induction false} KeptAppend(s: string, t: string)
    ensures Kept(s + t) == Kept(s) + Kept(t)
    decreases |t|
  {
    if t == [] {
      assert s + t == s;
    } else {
      var t' := t[..|t| - 1];
      assert (s + t)[..|s + t| - 1] == s + t';
      KeptAppend(s, t');
    }
  }

  lemma KeptSpacedHead(x: char, y: char)
    requires IsKept(x) && IsKept(y)
    ensures Kept([x, ' ', y, ' ']) == [x, y]
  {
    var sp := ' ';
    assert !IsKept(sp);
    KeptSnoc([], x);
    assert [] + [x] == [x];
    KeptSnoc([x], sp);
    assert [x] + [sp] == [x, sp];
    KeptSnoc([x, sp], y);
    assert [x, sp] + [y] == [x, sp, y];
    KeptSnoc([x, sp, y], sp);
    assert [x, sp, y] + [sp] == [x, sp, y, sp];
  }

  lemma KeptSpacedTail(x: char, y: char, z: char)
    requires IsKept(x) && IsKept(y) && IsKept(z)
    ensures Kept([x, ' ', y, ' ', z]) == [x, y, z]
  {
    KeptSpacedHead(x, y);
    KeptSnoc([x, ' ', y, ' '], z);
    assert [x, ' ', y, ' '] + [z] == [x, ' ', y, ' ', z];
  }

  /** `a o1 b o2 c` written with single spaces between the five characters. */
  lemma KeptSpaced(a: char, o1: char, b: char, o2: char, c: char)
    requires IsKept(a) && IsKept(o1) && IsKept(b) && IsKept(o2) && IsKept(c)
    ensures Kept([a, ' ', o1, ' ', b, ' ', o2, ' ', c]) == [a, o1, b, o2, c]
  {
    var head, tail := [a, ' ', o1, ' '], [b, ' ', o2, ' ', c];
    assert [a, ' ', o1, ' ', b, ' ', o2, ' ', c] == head + tail;
    KeptAppend(head, tail);
    KeptSpacedHead(a, o1);
    KeptSpacedTail(b, o2, c);
  }

  lemma KeptGroupHead(x: char, y: char)
    requires IsKept(x) && IsKept(y)
    ensures Kept(['(', x, ' ', y, ' ']) == ['(', x, y]
  {
    var l, sp := '(', ' ';
    assert IsKept(l) && !IsKept(sp);
    KeptSnoc([], l);
    assert [] + [l] == [l];
    KeptSnoc([l], x);
    assert [l] + [x] == [l, x];
    KeptSnoc([l, x], sp);
    assert [l, x] + [sp] == [l, x, sp];
    KeptSnoc([l, x, sp], y);
    assert [l, x, sp] + [y] == [l, x, sp, y];
    KeptSnoc([l, x, sp, y], sp);
    assert [l, x, sp, y] + [sp] == [l, x, sp, y, sp];
  }

  lemma KeptGroupTail(x: char, y: char, z: char)
    requires IsKept(x) && IsKept(y) && IsKept(z)
    ensures Kept([x, ')', y, ' ', z]) == [x, ')', y, z]
  {
    var r, sp := ')', ' ';
    assert IsKept(r) && !IsKept(sp);
    KeptSnoc([], x);
    assert [] + [x] == [x];
    KeptSnoc([x], r);
    assert [x] + [r] == [x, r];
    KeptSnoc([x, r], y);
    assert [x, r] + [y] == [x, r, y];
    KeptSnoc([x, r, y], sp);
    assert [x, r, y] + [sp] == [x, r, y, sp];
    KeptSnoc([x, r, y, sp], z);
    assert [x, r, y, sp] + [z] == [x, r, y, sp, z];
  }

  /** `(a o1 b) o z` written with spaces around `o1` and after `o`. */
  lemma KeptGroupSpaced(a: char, o1: char, b: char, o: char, z: char)
    requires IsKept(a) && IsKept(o1) && IsKept(b) && IsKept(o) && IsKept(z)
    ensures Kept(['(', a, ' ', o1, ' ', b, ')', o, ' ', z]) == ['(', a, o1, b, ')', o, z]
  {
    var head, tail := ['(', a, ' ', o1, ' '], [b, ')', o, ' ', z];
    assert ['(', a, ' ', o1, ' ', b, ')', o, ' ', z] == head + tail;
    KeptAppend(head, tail);
    KeptGroupHead(a, o1);
    KeptGroupTail(b, o, z);
  }

  /** The first test string without its spaces. */
  lemma KeptSix()
    ensures Kept("2 + 2 * 2") == "2+2*2"
  {
    KeptSpaced('2', '+', '2', '*', '2');
  }

  lemma ThreeDigits(a: char, o1: char, b: char, o2: char, c: char)
    requires IsDigit(a) && IsDigit(b) && IsDigit(c)
    ensures AllDigits([a, b, c])
    ensures Interleave([a, b, c], [o1, o2]) == [a, o1, b, o2, c]
    ensures DigitNums([a, b, c]) == [DigitNum(a), DigitNum(b), DigitNum(c)]
    ensures OperatorTexts([o1, o2]) == [[o1], [o2]]
  {
    assert [a, b, c][1..] == [b, c] && [b, c][1..] == [c] && [c][1..] == [];
    assert [o1, o2][1..] == [o2] && [o2][1..] == [];
    assert Interleave([b, c], [o2]) == [b, o2, c];
    assert DigitNums([c]) == [DigitNum(c)];
    assert DigitNums([b, c]) == [DigitNum(b), DigitNum(c)];
  }

  lemma CalcThree(str: string, a: char, o1: char, b: char, o2: char, c: char)
    requires IsDigit(a) && IsDigit(b) && IsDigit(c) && IsOperatorChar(o1) && IsOperatorChar(o2)
    requires Kept(str) == [a, o1, b, o2, c]
    ensures Calculation(str) == Returns(Flat([DigitNum(a), DigitNum(b), DigitNum(c)], [[o1], [o2]]))
  {
    ThreeDigits(a, o1, b, o2, c);
    assert AllOperatorChars([o1, o2]);
    CalcDigitChain(str, [a, b, c], [o1, o2]);
  }

  /** A chain splits at any index with the two properties of the split point. */
  lemma FlatAt(vs: seq<Value>, os: seq<string>, p: nat)
    requires |vs| == |os| + 1 && p < |os|
    requires forall q :: 0 <= q < |os| ==> Rank(os[p]) <= Rank(os[q])
    requires forall q :: p < q < |os| ==> Rank(os[p]) < Rank(os[q])
    ensures Flat(vs, os) == Apply(os[p], Flat(vs[..p + 1], os[..p]), Flat(vs[p + 1..], os[p + 1..]))
  {
    SplitPointUnique(os, p);
  }

  lemma FlatFourLeft(a: Value, o1: string, b: Value, o2: string, c: Value, o3: string, d: Value)
    requires Rank(o1) == Rank(o2) < Rank(o3)
    ensures Flat([a, b, c, d], [o1, o2, o3]) == Apply(o2, Apply(o1, a, b), Apply(o3, c, d))
  {
    var vs, os := [a, b, c, d], [o1, o2, o3];
    FlatAt(vs, os, 1);
    assert vs[..2] == [a, b] && os[..1] == [o1] && vs[2..] == [c, d] && os[2..] == [o3];
    FlatPair(a, o1, b);
    FlatPair(c, o3, d);
  }

  /** A chain of five values whose third operator binds tightest and whose others are equal. */
  lemma FlatFive(a: Value, o1: string, b: Value, o2: string, c: Value, o3: string, d: Value, o4: string, e: Value)
    requires Rank(o1) == Rank(o2) == Rank(o4) < Rank(o3)
    ensures Flat([a, b, c, d, e], [o1, o2, o3, o4]) == Apply(o4, Apply(o2, Apply(o1, a, b), Apply(o3, c, d)), e)
  {
    var vs, os := [a, b, c, d, e], [o1, o2, o3, o4];
    FlatAt(vs, os, 3);
    assert vs[..4] == [a, b, c, d] && os[..3] == [o1, o2, o3] && vs[4..] == [e] && os[4..] == [];
    FlatFourLeft(a, o1, b, o2, c, o3, d);
  }

  lemma InterleaveFive(a: char, o1: char, b: char, o2: char, c: char, o3: char, d: char, o4: char, e: char)
    ensures Interleave([a, b, c, d, e], [o1, o2, o3, o4]) == [a, o1, b, o2, c, o3, d, o4, e]
  {
    var ds, os := [a, b, c, d, e], [o1, o2, o3, o4];
    assert ds[1..] == [b, c, d, e] && os[1..] == [o2, o3, o4];
    assert [b, c, d, e][1..] == [c, d, e] && [o2, o3, o4][1..] == [o3, o4];
    assert [c, d, e][1..] == [d, e] && [o3, o4][1..] == [o4];
    assert [d, e][1..] == [e] && [o4][1..] == [];
    assert Interleave([d, e], [o4]) == [d, o4, e];
    assert Interleave([c, d, e], [o3, o4]) == [c, o3, d, o4, e];
    assert Interleave([b, c, d, e], [o2, o3, o4]) == [b, o2, c, o3, d, o4, e];
  }

  lemma DigitNumsFive(a: char, b: char, c: char, d: char, e: char)
    requires IsDigit(a) && IsDigit(b) && IsDigit(c) && IsDigit(d) && IsDigit(e)
    ensures AllDigits([a, b, c, d, e])
    ensures DigitNums([a, b, c, d, e]) == [DigitNum(a), DigitNum(b), DigitNum(c), DigitNum(d), DigitNum(e)]
  {
    assert [a, b, c, d, e][1..] == [b, c, d, e] && [b, c, d, e][1..] == [c, d, e];
    assert [c, d, e][1..] == [d, e] && [d, e][1..] == [e] && [e][1..] == [];
    assert DigitNums([e]) == [DigitNum(e)];
    assert DigitNums([d, e]) == [DigitNum(d), DigitNum(e)];
    assert DigitNums([c, d, e]) == [DigitNum(c), DigitNum(d), DigitNum(e)];
    assert DigitNums([b, c, d, e]) == [DigitNum(b), DigitNum(c), DigitNum(d), DigitNum(e)];
  }

  lemma OperatorTextsFour(o1: char, o2: char, o3: char, o4: char)
    ensures OperatorTexts([o1, o2, o3, o4]) == [[o1], [o2], [o3], [o4]]
  {
    assert [o1, o2, o3, o4][1..] == [o2, o3, o4] && [o2, o3, o4][1..] == [o3, o4];
    assert [o3, o4][1..] == [o4] && [o4][1..] == [];
    assert OperatorTexts([o4]) == [[o4]];
    assert OperatorTexts([o3, o4]) == [[o3], [o4]];
  }

  lemma FiveDigits(a: char, o1: char, b: char, o2: char, c: char, o3: char, d: char, o4: char, e: char)
    requires IsDigit(a) && IsDigit(b) && IsDigit(c) && IsDigit(d) && IsDigit(e)
    requires IsOperatorChar(o1) && IsOperatorChar(o2) && IsOperatorChar(o3) && IsOperatorChar(o4)
    ensures AllDigits([a, b, c, d, e]) && AllOperatorChars([o1, o2, o3, o4])
    ensures Interleave([a, b, c, d, e], [o1, o2, o3, o4]) == [a, o1, b, o2, c, o3, d, o4, e]
    ensures DigitNums([a, b, c, d, e]) == [DigitNum(a), DigitNum(b), DigitNum(c), DigitNum(d), DigitNum(e)]
    ensures OperatorTexts([o1, o2, o3, o4]) == [[o1], [o2], [o3], [o4]]
  {
    InterleaveFive(a, o1, b, o2, c, o3, d, o4, e);
    DigitNumsFive(a, b, c, d, e);
    OperatorTextsFour(o1, o2, o3, o4);
  }

  /** `calc` on a text that reads `a o1 b o2 c o3 d o4 e` once dropped characters are removed. */
  lemma CalcFive(str: string, a: char, o1: char, b: char, o2: char, c: char, o3: char, d: char, o4: char, e: char)
    requires IsDigit(a) && IsDigit(b) && IsDigit(c) && IsDigit(d) && IsDigit(e)
    requires IsOperatorChar(o1) && IsOperatorChar(o2) && IsOperatorChar(o3) && IsOperatorChar(o4)
    requires Kept(str) == [a, o1, b, o2, c, o3, d, o4, e]
    ensures Calculation(str) ==
              Returns(Flat([DigitNum(a), DigitNum(b), DigitNum(c), DigitNum(d), DigitNum(e)], [[o1], [o2], [o3], [o4]]))
  {
    FiveDigits(a, o1, b, o2, c, o3, d, o4, e);
    CalcDigitChain(str, [a, b, c, d, e], [o1, o2, o3, o4]);
  }

  /** The one-digit literals of the tests. */
  lemma DigitValues()
    ensures DigitNum('1') == Num(1.0) && DigitNum('2') == Num(2.0) && DigitNum('3') == Num(3.0) && DigitNum('5') == Num(5.0)
  {
  }

  lemma SixValue()
    ensures Flat([Num(2.0), Num(2.0), Num(2.0)], ["+", "*"]) == Num(6.0)
  {
    var two := Num(2.0);
    FlatTriple(two, "+", two, "*", two);
    assert Rank("+") < Rank("*");
    assert Apply("*", two, two) == Num(4.0);
    assert Apply("+", two, Num(4.0)) == Num(6.0);
  }

  /** `calc("2 + 2 * 2")` is 6. */
  lemma CalcSix()
    ensures Calculation("2 + 2 * 2") == Returns(Num(6.0))
  {
    KeptSix();
    CalcThree("2 + 2 * 2", '2', '+', '2', '*', '2');
    DigitValues();
    SixValue();
  }

  lemma PairInGroup(a: char, o1: char, b: char, o: char, z: char)
    requires IsDigit(a) && IsDigit(b)
    ensures AllDigits([a, b]) && AllOperatorChars([o1]) == IsOperatorChar(o1)
    ensures "(" + Interleave([a, b], [o1]) + [')', o, z] == ['(', a, o1, b, ')', o, z]
    ensures DigitNums([a, b]) == [DigitNum(a), DigitNum(b)] && OperatorTexts([o1]) == [[o1]]
  {
    assert [a, b][1..] == [b] && [o1][1..] == [] && [b][1..] == [];
    assert Interleave([a, b], [o1]) == [a, o1, b];
    assert DigitNums([b]) == [DigitNum(b)];
  }

  /** `calc` on a text that reads `(a o1 b) o z` once dropped characters are removed. */
  lemma CalcPairThen(str: string, a: char, o1: char, b: char, o: char, z: char)
    requires IsDigit(a) && IsDigit(b) && IsDigit(z) && IsOperatorChar(o1) && IsOperatorChar(o)
    requires Kept(str) == ['(', a, o1, b, ')', o, z]
    ensures Calculation(str) == Returns(Apply([o], Apply([o1], DigitNum(a), DigitNum(b)), DigitNum(z)))
  {
    PairInGroup(a, o1, b, o, z);
    CalcGroupThen(str, [a, b], [o1], o, z);
    FlatPair(DigitNum(a), [o1], DigitNum(b));
  }

  lemma KeptTwentyFour()
    ensures Kept("2-1+5*5-2") == ['2', '-', '1', '+', '5', '*', '5', '-', '2']
  {
    KeptWhole("2-1+5*5-2");
  }

  lemma TwentyFourValue()
    ensures Flat([Num(2.0), Num(1.0), Num(5.0), Num(5.0), Num(2.0)], ["-", "+", "*", "-"]) == Num(24.0)
  {
    FlatFive(Num(2.0), "-", Num(1.0), "+", Num(5.0), "*", Num(5.0), "-", Num(2.0));
    assert Apply("-", Num(2.0), Num(1.0)) == Num(1.0);
    assert Apply("*", Num(5.0), Num(5.0)) == Num(25.0);
    assert Apply("+", Num(1.0), Num(25.0)) == Num(26.0);
  }

  /** `calc("2-1+5*5-2")` is 24: `*` first, then the rest from the left. */
  lemma CalcTwentyFour()
    ensures Calculation("2-1+5*5-2") == Returns(Num(24.0))
  {
    KeptTwentyFour();
    CalcFive("2-1+5*5-2", '2', '-', '1', '+', '5', '*', '5', '-', '2');
    DigitValues();
    TwentyFourValue();
  }

  /** The second test string without its spaces. */
  lemma KeptEight()
    ensures Kept("(2 + 2)* 2") == ['(', '2', '+', '2', ')', '*', '2']
  {
    KeptGroupSpaced('2', '+', '2', '*', '2');
  }

  lemma EightValue()
    ensures Apply("*", Apply("+", Num(2.0), Num(2.0)), Num(2.0)) == Num(8.0)
  {
    assert Apply("+", Num(2.0), Num(2.0)) == Num(4.0);
  }

  /** `calc("(2 + 2)* 2")` is 8. */
  lemma CalcEight()
    ensures Calculation("(2 + 2)* 2") == Returns(Num(8.0))
  {
    KeptEight();
    CalcPairThen("(2 + 2)* 2", '2', '+', '2', '*', '2');
    DigitValues();
    EightValue();
  }

  lemma KeptNine()
    ensures Kept("(1+2)^2") == ['(', '1', '+', '2', ')', '^', '2']
  {
    KeptWhole("(1+2)^2");
  }

  lemma NineValue()
    ensures Apply("^", Apply("+", Num(1.0), Num(2.0)), Num(2.0)) == Num(9.0)
  {
    assert Apply("+", Num(1.0), Num(2.0)) == Num(3.0);
    assert Power(3.0, 2) == 9.0;
  }

  /** `calc("(1+2)^2")` is 9. */
  lemma CalcNine()
    ensures Calculation("(1+2)^2") == Returns(Num(9.0))
  {
    KeptNine();
    CalcPairThen("(1+2)^2", '1', '+', '2', '^', '2');
    DigitValues();
    NineValue();
  }

  lemma KeptSixtyFour()
    ensures Kept("2^3^2") == ['2', '^', '3', '^', '2']
  {
    KeptWhole("2^3^2");
  }

  lemma SixtyFourValue()
    ensures Flat([Num(2.0), Num(3.0), Num(2.0)], ["^", "^"]) == Num(64.0)
  {
    FlatTriple(Num(2.0), "^", Num(3.0), "^", Num(2.0));
    assert Power(2.0, 3) == 8.0;
    assert Apply("^", Num(2.0), Num(3.0)) == Num(8.0);
    assert Power(8.0, 2) == 64.0;
  }

  /** `^` groups to the left like the other operators: `calc("2^3^2")` is `(2^3)^2`, 64. */
  lemma CalcSixtyFour()
    ensures Calculation("2^3^2") == Returns(Num(64.0))
  {
    KeptSixtyFour();
    CalcThree("2^3^2", '2', '^', '3', '^', '2');
    DigitValues();
    SixtyFourValue();
  }

  /** The text of `1+2` as a chain of one-digit literals. */
  lemma OnePlusTwo()
    ensures Printable(DigitChain("12", "+"), false) && Text(DigitChain("12", "+")) == "1+2"
  {
    assert AllDigits("12") && AllOperatorChars("+");
    DigitChainFacts("12", "+");
    assert Interleave("12", "+") == "1+2" by { assert "12"[1..] == "2" && "+"[1..] == ""; }
    ConcatSingles("1+2");
  }

  lemma KeptStuck()
    ensures Kept("1+2)") == "1+2" + ")"
  {
    KeptWhole("1+2)");
  }

  lemma KeptUnclosed()
    ensures Kept("(1+2") == "(" + "1+2"
  {
    KeptWhole("(1+2");
  }

  /** `calc("1+2)")` never returns. */
  lemma CalcStuck()
    ensures Calculation("1+2)") == LoopsForever
  {
    OnePlusTwo();
    KeptStuck();
    CalcUnmatchedClose(DigitChain("12", "+"), "1+2)");
  }

  /** `calc("(1+2")` returns no number. */
  lemma CalcUnclosed()
    ensures Calculation("(1+2") == Returns(NaN)
  {
    OnePlusTwo();
    PrintableInGroup(DigitChain("12", "+"));
    KeptUnclosed();
    CalcUnclosedOpen(DigitChain("12", "+"), "(1+2");
  }

  /** `(-2)*3`: a negative literal opening a group, its value multiplied by 3. */
  function NegativeTimesThree(): Expr
  {
    Chain(Group(Single(Number("-2"))), "*", Single(Number("3")))
  }

  lemma NegativeTimesThreeText()
    ensures Text(NegativeTimesThree()) == "(-2)*3"
  {
    var t1, t2, t3, t4 := ["("], ["(", "-2"], ["(", "-2", ")"], ["(", "-2", ")", "*"];
    assert ExprTokens(NegativeTimesThree()) == t4 + ["3"];
    assert [] + ["("] == t1 && t1 + ["-2"] == t2 && t2 + [")"] == t3 && t3 + ["*"] == t4;
    ConcatAppend([], "(");
    ConcatAppend(t1, "-2");
    ConcatAppend(t2, ")");
    ConcatAppend(t3, "*");
    ConcatAppend(t4, "3");
    assert "" + "(" + "-2" + ")" + "*" + "3" == "(-2)*3";
  }

  lemma NegativeTimesThreeValue()
    ensures Printable(NegativeTimesThree(), false)
    ensures ExprValue(NegativeTimesThree()) == Num(-6.0)
  {
    AcceptedNegative();
    DigitLiteral('3');
    assert NegativeLiteral("-2");
    assert "3" == ['3'];
    FlatPair(Num(-2.0), "*", Num(3.0));
  }

  lemma KeptNegativeGroup()
    ensures Kept("(-2)*3") == "(-2)*3"
  {
    KeptWhole("(-2)*3");
  }

  /** A `-` right after `(` starts a negative literal: `calc("(-2)*3")` is -6. */
  lemma CalcNegativeGroup()
    ensures Calculation("(-2)*3") == Returns(Num(-6.0))
  {
    NegativeTimesThreeText();
    NegativeTimesThreeValue();
    KeptNegativeGroup();
    CalcComputes(NegativeTimesThree(), "(-2)*3");
  }

  lemma OneDigitText(c: char)
    requires IsDigit(c)
    ensures Printable(Single(Number([c])), false) && Printable(Single(Number([c])), true)
    ensures Text(Single(Number([c]))) == [c]
  {
    DigitLiteral(c);
    assert ExprTokens(Single(Number([c]))) == [[c]];
    SingleTokenText([c]);
  }

  lemma SingleTokenText(t: string)
    ensures Concat([t]) == t
  {
    assert [t][..0] == [];
  }

  /** `calc("1+(2")`: a `(` left open after an operator returns no number. */
  lemma CalcOpenAfterOperator()
    ensures Calculation("1+(2") == Returns(NaN)
  {
    OneDigitText('1');
    OneDigitText('2');
    KeptWhole("1+(2");
    assert "1" + "+" + "(" + "2" == "1+(2";
    CalcUnclosedAfterOperator(Single(Number("1")), "+", Single(Number("2")), "1+(2");
  }

  /**
   * A `-` at the very start follows no `(`, so it is the subtraction
   * operator and not the sign of the digit after it.
   */
  lemma LeadingMinusTokens(d: char, e: char)
    requires IsDigit(d) && IsDigit(e)
    ensures Tokenize(['-', d, '+', e]) == ["-", [d], "+", [e]]
  {
    SingleCharNumber('-');
    SingleCharNumber(d);
    SingleCharNumber('+');
    SingleCharNumber(e);
    var s := ['-', d, '+', e];
    assert s[..3][..2][..1] == ['-'] && ['-'][..0] == [];
    assert Scanned(['-']) == Scan("", "-", [Symbol('-')]);
    assert Scanned(s[..2]) == Scan([d], "", [Symbol('-')]);
    assert Scanned(s[..3]) == Scan("", "+", [Symbol('-'), Literal([d]), Symbol('+')]);
    assert Scanned(s) == Scan([e], "", [Symbol('-'), Literal([d]), Symbol('+')]);
    assert Lexemes(s) == [Symbol('-'), Literal([d]), Symbol('+'), Literal([e])];
  }

  /** The first token `-` goes onto the empty operator stack. */
  lemma MinusOnEmpty()
    ensures FeedAll(["-"]) == Some(Stacks(["-"], []))
  {
    assert ["-"][..0] == [] && IsOperator("-");
    assert Drain(Empty, "-") == Empty;
    assert Feed(Empty, "-").value.operators == ["-"];
  }

  /** A one-digit literal goes onto the value stack. */
  lemma PushDigit(ops: seq<string>, nums: seq<Value>, d: char)
    requires IsDigit(d)
    ensures Feed(Stacks(ops, nums), [d]) == Some(Stacks(ops, nums + [DigitNum(d)]))
  {
    DigitLiteral(d);
    var st := Stacks(ops, nums);
    assert !IsOperator([d]) && IsNumber([d]);
    assert Feed(st, [d]) == Some(st.(numbers := nums + [Num(ParseNumber([d]))]));
    assert Num(ParseNumber([d])) == DigitNum(d);
  }

  /**
   * `+` drains the pending `-`, whose left operand is missing: the value
   * stack is left with `undefined` alone.
   */
  lemma PlusDrainsMinus(v: Value)
    ensures Feed(Stacks(["-"], [v]), "+") == Some(Stacks(["+"], [NaN]))
  {
    var st := Stacks(["-"], [v]);
    assert IsOperator("+") && Drains(Top(["-"]), "+") && !Drains(Top([]), "+");
    assert Reduce(st) == Stacks([], [NaN]);
    assert Drain(st, "+") == Stacks([], [NaN]);
    assert [] + ["+"] == ["+"];
    assert Feed(st, "+") == Some(Stacks([] + ["+"], [NaN]));
  }

  /** The final loop applies `+` to `undefined` and the last value. */
  lemma FinishOverNaN(v: Value)
    requires v.Num?
    ensures Finish(Stacks(["+"], [NaN, v])) == Stacks([], [NaN])
  {
    assert Reduce(Stacks(["+"], [NaN, v])) == Stacks([], [NaN]);
  }

  /**
   * The leading `-` finds no left operand: the `+` drains it with
   * `undefined` on its left, and the result is no number.
   */
  lemma LeadingMinusValue(d: char, e: char)
    requires IsDigit(d) && IsDigit(e)
    ensures Evaluation(["-", [d], "+", [e]]) == Returns(NaN)
  {
    var ts := ["-", [d], "+", [e]];
    assert ts[..3][..2][..1] == ["-"];
    assert ts[..2][1] == [d] && ts[..3][2] == "+" && ts[3] == [e];
    MinusOnEmpty();
    PushDigit(["-"], [], d);
    assert [] + [DigitNum(d)] == [DigitNum(d)];
    assert FeedAll(ts[..2]) == Some(Stacks(["-"], [DigitNum(d)]));
    PlusDrainsMinus(DigitNum(d));
    assert FeedAll(ts[..3]) == Some(Stacks(["+"], [NaN]));
    PushDigit(["+"], [NaN], e);
    assert [NaN] + [DigitNum(e)] == [NaN, DigitNum(e)];
    assert FeedAll(ts) == Some(Stacks(["+"], [NaN, DigitNum(e)]));
    FinishOverNaN(DigitNum(e));
  }

  /** `calc("-3+5")`: a leading minus is not a sign, and the result is no number. */
  lemma CalcLeadingMinus()
    ensures Calculation("-3+5") == Returns(NaN)
  {
    LeadingMinusTokens('3', '5');
    LeadingMinusValue('3', '5');
  }
}
