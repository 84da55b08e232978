/**
 * Character and token classification of the calculator, and the
 * conversion of a number token to its value.
 *
 * `IsNumber` and `IsOperator` are the two regular expressions of the
 * calculator written out as predicates:
 *   number:   an optional `-`, then `0` or a digit run that does not start
 *             with `0`, then optionally `.` and one or more digits;
 *   operator: exactly one of `+ - * / ^`.
 */
module Lexical {

  predicate IsDigit(c: char) { '0' <= c <= '9' }

  predicate IsNonZeroDigit(c: char) { '1' <= c <= '9' }

  predicate IsOperatorChar(c: char) {
    c == '+' || c == '-' || c == '*' || c == '/' || c == '^'
  }

  /** The characters the tokenizer emits as tokens of their own. */
  predicate IsSymbolChar(c: char) { IsOperatorChar(c) || c == '(' || c == ')' }

  /** The characters the tokenizer can put into its number buffer. */
  predicate IsLiteralChar(c: char) { IsDigit(c) || c == '.' || c == '-' }

  predicate AllDigits(s: string) { forall i :: 0 <= i < |s| ==> IsDigit(s[i]) }

  predicate NoDigit(s: string) { forall i :: 0 <= i < |s| ==> !IsDigit(s[i]) }

  /** `0`, or a run of digits that does not start with `0`. */
  predicate IsIntegerPart(s: string) {
    s == "0" || (|s| > 0 && IsNonZeroDigit(s[0]) && AllDigits(s))
  }

  /** Index of the first `.` in `s`, or `|s|` when there is none. */
  function DotIndex(s: string): (k: nat)
    ensures k <= |s|
    ensures forall i :: 0 <= i < k ==> s[i] != '.'
    ensures k < |s| ==> s[k] == '.'
  {
    if s == [] then 0 else if s[0] == '.' then 0 else 1 + DotIndex(s[1..])
  }

  /** The number grammar without its optional leading minus. */
  predicate IsUnsignedNumber(s: string) {
    var k := DotIndex(s);
    if k == |s| then IsIntegerPart(s)
    else IsIntegerPart(s[..k]) && k + 1 < |s| && AllDigits(s[k + 1..])
  }

  /** `isNumber`: the whole string is one number literal. */
  predicate IsNumber(s: string) {
    if |s| > 0 && s[0] == '-' then IsUnsignedNumber(s[1..]) else IsUnsignedNumber(s)
  }

  /** `isOperator`: the whole string is one of the five operators. */
  predicate IsOperator(s: string) { |s| == 1 && IsOperatorChar(s[0]) }

  /** A single character is a number exactly when it is a digit. */
  lemma SingleCharNumber(c: char)
    ensures IsNumber([c]) <==> IsDigit(c)
  {
    var s := [c];
    if c == '.' {
      assert DotIndex(s) == 0;
      assert !IsIntegerPart(s[..0]);
    } else if c != '-' {
      assert DotIndex(s) == 1;
    } else {
      assert s[1..] == [];
    }
  }

  /** No string is both a number and an operator. */
  lemma NumberIsNotOperator(s: string)
    ensures !(IsNumber(s) && IsOperator(s))
  {
    if IsOperator(s) {
      SingleCharNumber(s[0]);
      assert s == [s[0]];
    }
  }

  /** Every number contains a digit and only digits, `.` and `-`. */
  lemma NumberChars(s: string)
    requires IsNumber(s)
    ensures forall i :: 0 <= i < |s| ==> IsLiteralChar(s[i])
    ensures !NoDigit(s)
  {
    var u := if |s| > 0 && s[0] == '-' then s[1..] else s;
    var d := if |s| > 0 && s[0] == '-' then 1 else 0;
    assert u == s[d..];
    var k := DotIndex(u);
    var head := if k == |u| then u else u[..k];
    assert IsIntegerPart(head);
    assert IsDigit(u[0]) by { assert head[0] == u[0]; }
    assert IsDigit(s[d]);
    forall i | 0 <= i < |s| ensures IsLiteralChar(s[i]) {
      if i >= d {
        var j := i - d;
        assert u[j] == s[i];
        if j < k {
          assert head[j] == u[j];
        } else if j > k {
          assert u[k + 1..][j - k - 1] == u[j];
        }
      }
    }
  }

  /** Value of a digit character. */
  function DigitValue(c: char): (v: nat)
    requires IsDigit(c)
    ensures v < 10
  {
    (c as int - '0' as int)
  }

  /** Character of a digit value. */
  function DigitChar(v: nat): (c: char)
    requires v < 10
    ensures IsDigit(c) && DigitValue(c) == v
    ensures IsNonZeroDigit(c) <==> v != 0
  {
    ('0' as int + v) as char
  }

  /** Value of a run of decimal digits, most significant first. */
  function DigitsValue(d: string): nat
    requires AllDigits(d)
  {
    if d == [] then 0 else 10 * DigitsValue(d[..|d| - 1]) + DigitValue(d[|d| - 1])
  }

  function Power10(n: nat): (p: nat)
    ensures p >= 1
  {
    if n == 0 then 1 else 10 * Power10(n - 1)
  }

  /** Value of an unsigned number: integer part plus fraction digits over 10^k. */
  function UnsignedValue(s: string): real
    requires IsUnsignedNumber(s)
  {
    var k := DotIndex(s);
    if k == |s| then DigitsValue(s) as real
    else DigitsValue(s[..k]) as real + DigitsValue(s[k + 1..]) as real / Power10(|s| - k - 1) as real
  }

  /** `Number(token)` for a token that satisfies `isNumber`, as an exact real. */
  function ParseNumber(s: string): (r: real)
    requires IsNumber(s)
    ensures s[0] == '-' ==> r <= 0.0
    ensures s[0] != '-' ==> r >= 0.0
  {
    if s[0] == '-' then -UnsignedValue(s[1..]) else UnsignedValue(s)
  }

  /** Canonical decimal text of a natural number. */
  function ShowNat(n: nat): (s: string)
    ensures |s| > 0 && AllDigits(s)
    decreases n
  {
    if n < 10 then [DigitChar(n)] else ShowNat(n / 10) + [DigitChar(n % 10)]
  }

  /** Canonical decimal text of an integer; negatives carry a leading `-`. */
  function ShowInt(i: int): string
  {
    if i < 0 then "-" + ShowNat(-i) else ShowNat(i)
  }

  lemma {:induction false} ShowNatLeads(n: nat)
    ensures (ShowNat(n)[0] == '0') <==> n == 0
    decreases n
  {
    if n >= 10 {
      ShowNatLeads(n / 10);
    }
  }

  lemma {:induction false} ShowNatValue(n: nat)
    ensures DigitsValue(ShowNat(n)) == n
    decreases n
  {
    var s := ShowNat(n);
    if n < 10 {
      assert s[..0] == [];
    } else {
      assert s[..|s| - 1] == ShowNat(n / 10);
      ShowNatValue(n / 10);
    }
  }

  /** Digits without a dot: the dot search runs to the end. */
  lemma DotIndexOfDigits(s: string)
    requires AllDigits(s)
    ensures DotIndex(s) == |s|
  {
  }

  /** The text of a natural number is an integer part: `0`, or no leading zero. */
  lemma ShowNatIsIntegerPart(n: nat)
    ensures IsIntegerPart(ShowNat(n))
  {
    var s := ShowNat(n);
    ShowNatLeads(n);
    if n == 0 { assert s == "0"; } else { assert IsNonZeroDigit(s[0]); }
  }

  /** Showing a natural number gives a number token that parses back to it. */
  lemma ShowNatRoundTrip(n: nat)
    ensures IsNumber(ShowNat(n)) && ParseNumber(ShowNat(n)) == n as real
  {
    var s := ShowNat(n);
    ShowNatIsIntegerPart(n);
    ShowNatValue(n);
    DotIndexOfDigits(s);
  }

  /** Showing an integer, with its sign, gives a number token that parses back to it. */
  lemma ShowIntRoundTrip(i: int)
    ensures IsNumber(ShowInt(i)) && ParseNumber(ShowInt(i)) == i as real
  {
    if i < 0 {
      ShowNatRoundTrip(-i);
      ShowNatLeads(-i);
      Negated(ShowNat(-i));
    } else {
      ShowNatRoundTrip(i);
    }
  }

  /** After a run of digits, the first `.` is the first `.` of what follows. */
  lemma {:induction false} DotIndexAfterDigits(a: string, rest: string)
    requires AllDigits(a)
    ensures DotIndex(a + rest) == |a| + DotIndex(rest)
    decreases |a|
  {
    if a == [] {
      assert a + rest == rest;
    } else {
      assert (a + rest)[0] == a[0] && (a + rest)[1..] == a[1..] + rest;
      DotIndexAfterDigits(a[1..], rest);
    }
  }

  /** The first `.` of a text is the first index holding one. */
  lemma {:induction false} DotIndexIs(s: string, k: nat)
    requires k < |s| && s[k] == '.' && forall i :: 0 <= i < k ==> s[i] != '.'
    ensures DotIndex(s) == k
    decreases k
  {
    if k > 0 {
      assert forall i :: 0 <= i < k - 1 ==> s[1..][i] == s[i + 1];
      DotIndexIs(s[1..], k - 1);
    }
  }

  /** A text with an integer part, a `.` at `k` and fraction digits after it, and its value. */
  lemma UnsignedDecimal(s: string, k: nat)
    requires k + 1 < |s| && s[k] == '.' && IsIntegerPart(s[..k]) && AllDigits(s[k + 1..])
    ensures IsUnsignedNumber(s)
    ensures UnsignedValue(s) == DigitsValue(s[..k]) as real + DigitsValue(s[k + 1..]) as real / Power10(|s| - k - 1) as real
  {
    DecimalDot(s, k);
  }

  /** The `.` after an integer part is the first `.` of the text. */
  lemma DecimalDot(s: string, k: nat)
    requires k < |s| && s[k] == '.' && IsIntegerPart(s[..k])
    ensures DotIndex(s) == k
  {
    var head := s[..k];
    assert AllDigits(head) by { if head == "0" { assert IsDigit(head[0]); } }
    assert forall i :: 0 <= i < k ==> s[i] == head[i] && s[i] != '.';
    DotIndexIs(s, k);
  }

  /**
   * A natural number, a `.` and a run of fraction digits is a number token
   * whose value is the number plus the fraction digits over a power of ten.
   */
  lemma ShowDecimalRoundTrip(n: nat, d: string)
    requires AllDigits(d) && d != []
    ensures IsNumber(ShowNat(n) + "." + d)
    ensures ParseNumber(ShowNat(n) + "." + d) == n as real + DigitsValue(d) as real / Power10(|d|) as real
  {
    var a := ShowNat(n);
    var s := a + "." + d;
    DecimalParts(a, d);
    ShowNatIsIntegerPart(n);
    assert s[0] != '-' by { ShowNatLeads(n); }
    UnsignedDecimal(s, |a|);
    assert UnsignedValue(s) == DigitsValue(a) as real + DigitsValue(d) as real / Power10(|d|) as real;
    ShowNatValue(n);
  }

  lemma DecimalParts(a: string, d: string)
    requires a != []
    ensures var s := a + "." + d;
            s[..|a|] == a && s[|a|] == '.' && s[|a| + 1..] == d && |s| - |a| - 1 == |d| && s[0] == a[0]
  {
  }

  /** A leading `-` on an unsigned number token negates its value. */
  lemma Negated(u: string)
    requires IsNumber(u) && u[0] != '-'
    ensures IsNumber("-" + u) && ParseNumber("-" + u) == -ParseNumber(u)
  {
    var s := "-" + u;
    assert s[0] == '-' && s[1..] == u;
  }

  /** Tokens the tokenizer can emit but `isNumber` rejects. */
  lemma RejectedLiterals()
    ensures !IsNumber("007") && !IsNumber("1.2.3") && !IsNumber("-") && !IsNumber("-.5")
    ensures !IsNumber("1.") && !IsNumber("--1")
  {
    assert DotIndex("007") == 3;
    var s := "1.2.3";
    assert DotIndex(s) == 1;
    assert !AllDigits(s[2..]) by { assert s[2..][1] == '.'; }
    var t := "-";
    assert t[1..] == [];
    var u := "-.5";
    assert u[1..] == ".5";
    assert DotIndex(".5") == 0;
    assert ".5"[..0] == [];
    assert DotIndex("1.") == 1;
    var v := "--1";
    assert v[1..] == "-1";
    assert DotIndex("-1") == 2;
  }

  /** A few accepted literals and their values. */
  lemma AcceptedLiterals()
    ensures IsNumber("0") && ParseNumber("0") == 0.0
    ensures IsNumber("-2") && ParseNumber("-2") == -2.0
    ensures IsNumber("3.25") && ParseNumber("3.25") == 3.25
    ensures IsNumber("0.5") && ParseNumber("0.5") == 0.5
  {
    AcceptedZero();
    AcceptedNegative();
    AcceptedDecimal();
    AcceptedHalf();
  }

  lemma AcceptedZero()
    ensures IsNumber("0") && ParseNumber("0") == 0.0
  {
    assert DotIndex("0") == 1;
  }

  lemma AcceptedNegative()
    ensures IsNumber("-2") && ParseNumber("-2") == -2.0
  {
    var m := "-2";
    assert m[1..] == "2";
    assert DotIndex("2") == 1;
    assert DigitsValue("2") == 2 by { assert "2"[..0] == []; }
  }

  lemma AcceptedDecimal()
    ensures IsNumber("3.25") && ParseNumber("3.25") == 3.25
  {
    var d := "3.25";
    assert DotIndex(d) == 1;
    assert d[..1] == "3" && d[2..] == "25";
    assert DigitsValue("3") == 3 by { assert "3"[..0] == []; }
    assert DigitsValue("25") == 25 by {
      assert "25"[..1] == "2";
      assert DigitsValue("2") == 2 by { assert "2"[..0] == []; }
    }
  }

  lemma AcceptedHalf()
    ensures IsNumber("0.5") && ParseNumber("0.5") == 0.5
  {
    var h := "0.5";
    assert DotIndex(h) == 1;
    assert h[..1] == "0" && h[2..] == "5";
    assert DigitsValue("0") == 0 by { assert "0"[..0] == []; }
    assert DigitsValue("5") == 5 by { assert "5"[..0] == []; }
  }
}
