/**
 * The tokenizer: a left-to-right scan over the characters of the input
 * with two accumulators, the pending number buffer and the marker of the
 * last emitted operator or parenthesis.
 *
 * `Scanned` is the state after a prefix of the input, `Lexemes` the
 * emitted tokens tagged with where they come from (a flushed buffer or a
 * single operator/parenthesis character), `Tokenize` their texts, and
 * `Tokenizer` the loop itself.
 */
module Tokenizing {
  import opened Lexical

  /** An emitted token: a flushed number buffer, or one operator/parenthesis. */
  datatype Lexeme = Literal(text: string) | Symbol(c: char)
  {
    function Text(): string {
      match this
      case Literal(t) => t
      case Symbol(c) => [c]
    }
  }

  /** The scanner's state: the two accumulators and what has been emitted so far. */
  datatype Scan = Scan(number: string, operator: string, emitted: seq<Lexeme>)

  const Start := Scan("", "", [])

  /** Emit the number buffer when it is not empty. */
  function Flush(number: string, emitted: seq<Lexeme>): seq<Lexeme>
  {
    if number != "" then emitted + [Literal(number)] else emitted
  }

  /** One iteration of the scanning loop, on character `c`. */
  function Step(st: Scan, c: char): Scan
  {
    if IsNumber([c]) then st.(number := st.number + [c], operator := "")
    else if c == '.' then st.(number := st.number + [c])
    else if c == '-' && st.operator == "(" then st.(number := st.number + "-")
    else if IsOperator([c]) || c == '(' || c == ')' then
      Scan("", [c], Flush(st.number, st.emitted) + [Symbol(c)])
    else st
  }

  /** The scanner's state after the whole of `s`. */
  function Scanned(s: string): Scan
  {
    if s == [] then Start else Step(Scanned(s[..|s| - 1]), s[|s| - 1])
  }

  /** All tokens of `s`, the pending buffer flushed at the end. */
  function Lexemes(s: string): seq<Lexeme>
  {
    Flush(Scanned(s).number, Scanned(s).emitted)
  }

  function Texts(ls: seq<Lexeme>): (ts: seq<string>)
    ensures |ts| == |ls|
    ensures forall i :: 0 <= i < |ls| ==> ts[i] == ls[i].Text()
  {
    if ls == [] then [] else Texts(ls[..|ls| - 1]) + [ls[|ls| - 1].Text()]
  }

  /** The token stream of `tokenizer(s)`, as strings. */
  function Tokenize(s: string): seq<string>
  {
    Texts(Lexemes(s))
  }

  /** All tokens joined together. */
  function Concat(ts: seq<string>): string
  {
    if ts == [] then "" else Concat(ts[..|ts| - 1]) + ts[|ts| - 1]
  }

  /** Characters that end up in some token. */
  predicate IsKept(c: char) { IsDigit(c) || c == '.' || IsSymbolChar(c) }

  /** The input with every character the tokenizer drops removed. */
  function Kept(s: string): string
  {
    if s == [] then "" else Kept(s[..|s| - 1]) + (if IsKept(s[|s| - 1]) then [s[|s| - 1]] else "")
  }

  predicate WellShaped(l: Lexeme) {
    match l
    case Literal(t) => |t| > 0 && forall i :: 0 <= i < |t| ==> IsLiteralChar(t[i])
    case Symbol(c) => IsSymbolChar(c)
  }

  /** Within a buffer, no digit comes before a `-`. */
  predicate MinusBeforeDigits(t: string) {
    forall i, j :: 0 <= i < j < |t| && t[j] == '-' ==> !IsDigit(t[i])
  }

  /** The text of the last emitted operator/parenthesis, or "" when nothing was emitted. */
  function LastSymbolText(emitted: seq<Lexeme>): string
  {
    if emitted == [] then "" else emitted[|emitted| - 1].Text()
  }

  /** Joining what was emitted and the buffer gives the kept part of the input. */
  ghost predicate Joined(s: string, st: Scan)
  {
    Concat(Texts(st.emitted)) + st.number == Kept(s)
  }

  /** Every emitted token and the buffer are well formed; a buffer is emitted only right before a symbol. */
  ghost predicate Shapes(st: Scan)
  {
    && (forall i :: 0 <= i < |st.emitted| ==> WellShaped(st.emitted[i]))
    && (forall i :: 0 <= i < |st.number| ==> IsLiteralChar(st.number[i]))
    && (st.emitted != [] ==> st.emitted[|st.emitted| - 1].Symbol?)
    && (forall i :: 0 <= i < |st.emitted| - 1 && st.emitted[i].Literal? ==> st.emitted[i + 1].Symbol?)
  }

  /** The marker is the last emitted symbol until a digit is buffered, and "" after. */
  ghost predicate MarkerTracks(st: Scan)
  {
    && (NoDigit(st.number) ==> st.operator == LastSymbolText(st.emitted))
    && (!NoDigit(st.number) ==> st.operator == "")
  }

  /** The minus rule, as it shows in the buffer and in what was emitted. */
  ghost predicate MinusTracked(st: Scan)
  {
    && MinusBeforeDigits(st.number)
    && ('-' in st.number ==> st.emitted != [] && st.emitted[|st.emitted| - 1] == Symbol('('))
    && (forall i :: 0 <= i < |st.emitted| && st.emitted[i].Literal? && '-' in st.emitted[i].text ==>
          0 < i && st.emitted[i - 1] == Symbol('(') && MinusBeforeDigits(st.emitted[i].text))
    && (forall i :: 0 < i < |st.emitted| && st.emitted[i] == Symbol('-') ==> st.emitted[i - 1] != Symbol('('))
  }

  /** What holds of the scanner's state after any prefix. */
  ghost predicate ScanInvariant(s: string, st: Scan)
  {
    Joined(s, st) && Shapes(st) && MarkerTracks(st) && MinusTracked(st)
  }

  lemma {:induction false} ConcatAppend(ts: seq<string>, t: string)
    ensures Concat(ts + [t]) == Concat(ts) + t
  {
    assert (ts + [t])[..|ts|] == ts;
  }

  lemma TextsAppend(ls: seq<Lexeme>, l: Lexeme)
    ensures Texts(ls + [l]) == Texts(ls) + [l.Text()]
  {
  }

  /** The three things one step can do: buffer the character, emit it, or drop it. */
  predicate Buffers(st: Scan, c: char) {
    IsDigit(c) || c == '.' || (c == '-' && st.operator == "(")
  }

  lemma StepCases(st: Scan, c: char)
    ensures Buffers(st, c) ==> Step(st, c) == st.(number := st.number + [c], operator := if IsDigit(c) then "" else st.operator)
    ensures !Buffers(st, c) && IsSymbolChar(c) ==> Step(st, c) == Scan("", [c], Flush(st.number, st.emitted) + [Symbol(c)])
    ensures !Buffers(st, c) && !IsSymbolChar(c) ==> Step(st, c) == st
  {
    SingleCharNumber(c);
  }

  lemma KeptSnoc(s: string, c: char)
    ensures Kept(s + [c]) == Kept(s) + (if IsKept(c) then [c] else "")
  {
    assert (s + [c])[..|s|] == s;
  }

  /** Flushing moves the buffer, unchanged, to the end of what was emitted. */
  lemma FlushJoined(number: string, emitted: seq<Lexeme>)
    ensures Concat(Texts(Flush(number, emitted))) == Concat(Texts(emitted)) + number
  {
    if number != "" {
      TextsAppend(emitted, Literal(number));
      ConcatAppend(Texts(emitted), number);
    }
  }

  lemma StepJoined(s: string, c: char)
    requires Joined(s, Scanned(s))
    ensures Joined(s + [c], Scanned(s + [c]))
  {
    var st := Scanned(s);
    assert (s + [c])[..|s|] == s;
    assert Scanned(s + [c]) == Step(st, c);
    KeptSnoc(s, c);
    StepText(st, c);
  }

  /** One step adds the character to the joined text exactly when the character is kept. */
  lemma StepText(st: Scan, c: char)
    ensures var st' := Step(st, c);
            Concat(Texts(st'.emitted)) + st'.number == Concat(Texts(st.emitted)) + st.number + (if IsKept(c) then [c] else "")
  {
    StepCases(st, c);
    var done := Concat(Texts(st.emitted));
    if Buffers(st, c) {
      assert done + (st.number + [c]) == (done + st.number) + [c];
    } else if IsSymbolChar(c) {
      var flushed := Flush(st.number, st.emitted);
      FlushJoined(st.number, st.emitted);
      TextsAppend(flushed, Symbol(c));
      ConcatAppend(Texts(flushed), [c]);
    }
  }

  lemma StepShapes(st: Scan, c: char)
    requires Shapes(st)
    ensures Shapes(Step(st, c))
  {
    StepCases(st, c);
  }

  lemma StepMarker(st: Scan, c: char)
    requires MarkerTracks(st)
    ensures MarkerTracks(Step(st, c))
  {
    StepCases(st, c);
    var st' := Step(st, c);
    if Buffers(st, c) {
      if IsDigit(c) {
        assert !NoDigit(st'.number) by { assert st'.number[|st.number|] == c; }
      } else {
        assert NoDigit(st.number) == NoDigit(st'.number) by {
          assert forall i :: 0 <= i < |st.number| ==> st'.number[i] == st.number[i];
        }
      }
    }
  }

  lemma StepMinus(st: Scan, c: char)
    requires Shapes(st) && MarkerTracks(st) && MinusTracked(st)
    ensures MinusTracked(Step(st, c))
  {
    StepCases(st, c);
    if Buffers(st, c) {
      StepMinusBuffered(st, c);
    } else if IsSymbolChar(c) {
      StepMinusSymbol(st, c);
    }
  }

  /** A buffered `-` follows a `(` and no digit. */
  lemma StepMinusBuffered(st: Scan, c: char)
    requires Shapes(st) && MarkerTracks(st) && MinusTracked(st) && Buffers(st, c)
    ensures MinusTracked(st.(number := st.number + [c], operator := if IsDigit(c) then "" else st.operator))
  {
    var st' := st.(number := st.number + [c], operator := if IsDigit(c) then "" else st.operator);
    if c == '-' {
      assert NoDigit(st.number);
      assert st.emitted != [] && st.emitted[|st.emitted| - 1] == Symbol('(') by {
        assert LastSymbolText(st.emitted) == "(";
      }
    }
    assert '-' in st'.number ==> '-' in st.number || c == '-';
  }

  /** An emitted `-` symbol never follows a `(` symbol. */
  lemma StepMinusSymbol(st: Scan, c: char)
    requires Shapes(st) && MarkerTracks(st) && MinusTracked(st) && !Buffers(st, c) && IsSymbolChar(c)
    ensures MinusTracked(Scan("", [c], Flush(st.number, st.emitted) + [Symbol(c)]))
  {
    var flushed := Flush(st.number, st.emitted);
    if st.number == "" && c == '-' {
      assert st.operator != "(";
      assert LastSymbolText(st.emitted) != "(";
    }
    assert c == '-' && flushed != [] ==> flushed[|flushed| - 1] != Symbol('(');
    SymbolAppended(flushed, c);
  }

  /** Appending a symbol keeps the minus rule of what was emitted. */
  lemma SymbolAppended(em: seq<Lexeme>, c: char)
    requires forall i :: 0 <= i < |em| && em[i].Literal? && '-' in em[i].text ==>
               0 < i && em[i - 1] == Symbol('(') && MinusBeforeDigits(em[i].text)
    requires forall i :: 0 < i < |em| && em[i] == Symbol('-') ==> em[i - 1] != Symbol('(')
    requires c == '-' && em != [] ==> em[|em| - 1] != Symbol('(')
    ensures MinusTracked(Scan("", [c], em + [Symbol(c)]))
  {
    var em' := em + [Symbol(c)];
    forall i | 0 < i < |em'| && em'[i] == Symbol('-')
      ensures em'[i - 1] != Symbol('(')
    {
      assert em'[i - 1] == em[i - 1];
      if i < |em| { assert em'[i] == em[i]; }
    }
    forall i | 0 <= i < |em'| && em'[i].Literal? && '-' in em'[i].text
      ensures 0 < i && em'[i - 1] == Symbol('(') && MinusBeforeDigits(em'[i].text)
    {
      assert em'[i] == em[i];
    }
  }

  lemma {:induction false} ScannedInvariant(s: string)
    ensures ScanInvariant(s, Scanned(s))
    decreases |s|
  {
    if s != [] {
      var p := s[..|s| - 1];
      var c := s[|s| - 1];
      assert p + [c] == s;
      ScannedInvariant(p);
      StepJoined(p, c);
      StepShapes(Scanned(p), c);
      StepMarker(Scanned(p), c);
      StepMinus(Scanned(p), c);
    }
  }

  /** Joining the tokens gives back the input without the dropped characters. */
  lemma TokensConcatenate(s: string)
    ensures Concat(Tokenize(s)) == Kept(s)
  {
    var st := Scanned(s);
    ScannedInvariant(s);
    if st.number != "" {
      TextsAppend(st.emitted, Literal(st.number));
      ConcatAppend(Texts(st.emitted), st.number);
    }
  }

  /**
   * Every token is non-empty; operator/parenthesis tokens are one symbol
   * character; buffer tokens hold only digits, `.` and `-`; a buffer is
   * always followed by an operator/parenthesis or by the end of the input.
   */
  lemma TokenShapes(s: string)
    ensures forall i :: 0 <= i < |Lexemes(s)| ==> WellShaped(Lexemes(s)[i])
    ensures forall i :: 0 <= i < |Lexemes(s)| - 1 && Lexemes(s)[i].Literal? ==> Lexemes(s)[i + 1].Symbol?
    ensures forall t :: t in Tokenize(s) ==> t != ""
  {
    ScannedInvariant(s);
    FlushShapes(Scanned(s));
    var ls := Lexemes(s);
    forall t | t in Tokenize(s) ensures t != "" {
      var i :| 0 <= i < |ls| && Tokenize(s)[i] == t;
      assert WellShaped(ls[i]);
    }
  }

  /** Flushing a well-shaped state gives well-shaped lexemes, each buffer followed by a symbol. */
  lemma FlushShapes(st: Scan)
    requires Shapes(st)
    ensures var ls := Flush(st.number, st.emitted);
            && (forall i :: 0 <= i < |ls| ==> WellShaped(ls[i]))
            && (forall i :: 0 <= i < |ls| - 1 && ls[i].Literal? ==> ls[i + 1].Symbol?)
  {
    var ls := Flush(st.number, st.emitted);
    if st.number != "" {
      forall i | 0 <= i < |ls| ensures WellShaped(ls[i]) {
        if i < |st.emitted| { assert ls[i] == st.emitted[i]; }
      }
      forall i | 0 <= i < |ls| - 1 && ls[i].Literal? ensures ls[i + 1].Symbol? {
        assert ls[i] == st.emitted[i];
      }
    }
  }

  /**
   * The minus rule, token by token: a buffer holding `-` directly follows
   * a `(` and has no digit before any of its `-`; a `-` operator never
   * directly follows a `(`.
   */
  lemma MinusTokens(s: string)
    ensures forall i :: 0 <= i < |Lexemes(s)| && Lexemes(s)[i].Literal? && '-' in Lexemes(s)[i].text ==>
              0 < i && Lexemes(s)[i - 1] == Symbol('(') && MinusBeforeDigits(Lexemes(s)[i].text)
    ensures forall i :: 0 < i < |Lexemes(s)| && Lexemes(s)[i] == Symbol('-') ==> Lexemes(s)[i - 1] != Symbol('(')
  {
    ScannedInvariant(s);
    var st := Scanned(s);
    if st.number != "" {
      assert Lexemes(s) == st.emitted + [Literal(st.number)];
    }
  }

  /**
   * The minus rule, as one step: a `-` goes into the number buffer exactly
   * when the last emitted operator/parenthesis was `(` and no digit has been
   * buffered since; otherwise it is emitted as the subtraction operator.
   */
  lemma MinusRule(s: string)
    ensures var st := Scanned(s);
            var joins := LastSymbolText(st.emitted) == "(" && NoDigit(st.number);
            && (joins ==> Scanned(s + "-") == st.(number := st.number + "-"))
            && (!joins ==> Scanned(s + "-") == Scan("", "-", Flush(st.number, st.emitted) + [Symbol('-')]))
  {
    ScannedInvariant(s);
    assert (s + "-")[..|s|] == s;
    SingleCharNumber('-');
  }

  /** Every token, as text, is a one-character operator/parenthesis or a non-empty buffer of digits, `.` and `-`. */
  lemma TokenTexts(s: string)
    ensures forall t :: t in Tokenize(s) ==>
              t != "" && ((|t| == 1 && IsSymbolChar(t[0])) || forall k :: 0 <= k < |t| ==> IsLiteralChar(t[k]))
  {
    TokenShapes(s);
    var ls := Lexemes(s);
    forall t | t in Tokenize(s)
      ensures t != "" && ((|t| == 1 && IsSymbolChar(t[0])) || forall k :: 0 <= k < |t| ==> IsLiteralChar(t[k]))
    {
      var i :| 0 <= i < |ls| && Tokenize(s)[i] == t;
      assert WellShaped(ls[i]);
    }
  }

  /** Spaces and other dropped characters never split a number. */
  lemma SpacesDoNotSplit()
    ensures Tokenize("1 2") == ["12"]
  {
    DroppedBetweenDigits('1', ' ', '2');
    assert "1 2" == ['1', ' ', '2'] && "12" == ['1', '2'];
  }

  lemma DroppedBetweenDigits(a: char, sp: char, b: char)
    requires IsDigit(a) && IsDigit(b) && !IsKept(sp)
    ensures Tokenize([a, sp, b]) == [[a, b]]
  {
    var s := [a, sp, b];
    assert s[..2] == [a, sp] && [a, sp][..1] == [a];
    DigitFirst(a);
    StepCases(Scan([a], "", []), sp);
    assert Scanned([a, sp]) == Scan([a], "", []);
    DigitAfter(Scan([a], "", []), b);
    assert [a] + [b] == [a, b];
  }

  /** The first digit of the input is buffered. */
  lemma DigitFirst(a: char)
    requires IsDigit(a)
    ensures Scanned([a]) == Scan([a], "", [])
  {
    assert [a][..0] == "";
    StepCases(Start, a);
  }

  /** A digit is appended to the buffer and clears the marker. */
  lemma DigitAfter(st: Scan, b: char)
    requires IsDigit(b)
    ensures Step(st, b) == Scan(st.number + [b], "", st.emitted)
  {
    StepCases(st, b);
  }

  /** Characters the scanner drops leave its state as it was. */
  lemma {:induction false} DroppedCharacters(s: string)
    ensures Scanned(s) == Scanned(Kept(s))
    ensures Tokenize(s) == Tokenize(Kept(s))
    decreases |s|
  {
    if s != [] {
      var init, c := s[..|s| - 1], s[|s| - 1];
      DroppedCharacters(init);
      assert Kept(s) == Kept(init) + (if IsKept(c) then [c] else "");
      if IsKept(c) {
        var k := Kept(init) + [c];
        assert k[..|k| - 1] == Kept(init) && k[|k| - 1] == c;
        assert Scanned(k) == Step(Scanned(Kept(init)), c);
      } else {
        StepCases(Scanned(init), c);
        assert Kept(s) == Kept(init);
      }
    }
  }

  /** The scan continued from state `st` over the characters of `t`. */
  function ScanFrom(st: Scan, t: string): Scan
  {
    if t == [] then st else Step(ScanFrom(st, t[..|t| - 1]), t[|t| - 1])
  }

  lemma {:induction false} ScannedAppend(s: string, t: string)
    ensures Scanned(s + t) == ScanFrom(Scanned(s), t)
    decreases |t|
  {
    if t == [] {
      assert s + t == s;
    } else {
      var u := s + t;
      assert u[..|u| - 1] == s + t[..|t| - 1];
      ScannedAppend(s, t[..|t| - 1]);
    }
  }

  /** The text of a one-character operator or parenthesis token. */
  predicate IsSymbolText(t: string) { |t| == 1 && IsSymbolChar(t[0]) }

  /**
   * The text of a number token as the scanner buffers it: digits and `.`,
   * a `-` only in front, and a digit at the end.
   */
  predicate LiteralText(t: string) {
    && |t| > 0 && IsDigit(t[|t| - 1])
    && forall k :: 0 <= k < |t| ==> IsDigit(t[k]) || t[k] == '.' || (k == 0 && t[k] == '-')
  }

  predicate NegativeLiteral(t: string) { LiteralText(t) && t[0] == '-' }

  lemma LiteralIsNotSymbol(t: string)
    ensures !(LiteralText(t) && IsSymbolText(t))
  {
  }

  /** Every text `isNumber` accepts is buffered as one literal. */
  lemma NumberIsLiteral(t: string)
    requires IsNumber(t)
    ensures LiteralText(t)
  {
    NumberChars(t);
    var d := if t[0] == '-' then 1 else 0;
    var u := t[d..];
    var k := DotIndex(u);
    var head := if k == |u| then u else u[..k];
    assert IsIntegerPart(head);
    assert IsDigit(t[|t| - 1]) by {
      if k == |u| {
        assert head[|head| - 1] == t[|t| - 1];
      } else {
        assert u[k + 1..][|u| - k - 2] == t[|t| - 1];
      }
    }
    forall j | 0 < j < |t| ensures t[j] != '-' {
      var i := j - d;
      assert u[i] == t[j];
      if i < k {
        assert head[i] == u[i];
      } else if i > k {
        assert u[k + 1..][i - k - 1] == u[i];
      }
    }
  }

  /**
   * Scanning a literal's characters from an empty buffer buffers all of
   * them; the marker is kept until the first digit and cleared after it.
   */
  lemma {:induction false} ScanLiteralPrefix(m: string, em: seq<Lexeme>, t: string, k: nat)
    requires LiteralText(t) && (t[0] == '-' ==> m == "(") && k <= |t|
    ensures ScanFrom(Scan("", m, em), t[..k]) == Scan(t[..k], if NoDigit(t[..k]) then m else "", em)
    decreases k
  {
    if k > 0 {
      var pre := t[..k - 1];
      assert t[..k][..k - 1] == pre && t[..k][k - 1] == t[k - 1];
      assert ScanFrom(Scan("", m, em), t[..k]) == Step(ScanFrom(Scan("", m, em), pre), t[k - 1]);
      ScanLiteralPrefix(m, em, t, k - 1);
      ScanLiteralChar(m, em, t, k - 1);
    }
  }

  /** One more character of a literal. */
  lemma ScanLiteralChar(m: string, em: seq<Lexeme>, t: string, j: nat)
    requires LiteralText(t) && (t[0] == '-' ==> m == "(") && j < |t|
    ensures var st := Scan(t[..j], if NoDigit(t[..j]) then m else "", em);
            Step(st, t[j]) == Scan(t[..j + 1], if NoDigit(t[..j + 1]) then m else "", em)
  {
    var pre, c := t[..j], t[j];
    assert t[..j + 1] == pre + [c];
    var st := Scan(pre, if NoDigit(pre) then m else "", em);
    StepCases(st, c);
    if IsDigit(c) {
      assert !NoDigit(t[..j + 1]) by { assert t[..j + 1][j] == c; }
    } else {
      assert NoDigit(t[..j + 1]) == NoDigit(pre) by {
        assert forall i :: 0 <= i < j ==> t[..j + 1][i] == pre[i];
      }
      if c == '-' {
        assert j == 0 && pre == "";
      }
    }
  }

  lemma ScanLiteral(m: string, em: seq<Lexeme>, t: string)
    requires LiteralText(t) && (t[0] == '-' ==> m == "(")
    ensures ScanFrom(Scan("", m, em), t) == Scan(t, "", em)
  {
    ScanLiteralPrefix(m, em, t, |t|);
    assert t[..|t|] == t;
    assert !NoDigit(t);
  }

  /** Two neighbouring tokens the scanner keeps apart. */
  predicate Fits(a: string, b: string) {
    && !(LiteralText(a) && LiteralText(b))
    && (NegativeLiteral(b) ==> a == "(")
    && (b == "-" ==> a != "(")
  }

  /** Tokens the scanner emits unchanged from their concatenation. */
  predicate Separable(ts: seq<string>) {
    Chained(ts) && (ts != [] ==> !NegativeLiteral(ts[0]))
  }

  /** Symbol and literal tokens whose neighbours fit. */
  predicate Chained(ts: seq<string>) {
    && (forall i :: 0 <= i < |ts| ==> IsSymbolText(ts[i]) || LiteralText(ts[i]))
    && (forall i :: 0 < i < |ts| ==> Fits(ts[i - 1], ts[i]))
  }

  /** The tokens of a token list, tagged as the scanner would tag them. */
  function Lexed(ts: seq<string>): (ls: seq<Lexeme>)
    ensures |ls| == |ts|
  {
    if ts == [] then []
    else
      var t := ts[|ts| - 1];
      Lexed(ts[..|ts| - 1]) + [if IsSymbolText(t) then Symbol(t[0]) else Literal(t)]
  }

  lemma {:induction false} TextsLexed(ts: seq<string>)
    requires forall i :: 0 <= i < |ts| ==> IsSymbolText(ts[i]) || LiteralText(ts[i])
    ensures Texts(Lexed(ts)) == ts
    decreases |ts|
  {
    if ts != [] {
      var init, t := ts[..|ts| - 1], ts[|ts| - 1];
      TextsLexed(init);
      var l := if IsSymbolText(t) then Symbol(t[0]) else Literal(t);
      TextsAppend(Lexed(init), l);
      assert init + [t] == ts;
      if IsSymbolText(t) { assert [t[0]] == t; }
    }
  }

  /** The scanner's state after the concatenation of separable tokens. */
  function Expected(ts: seq<string>): Scan
  {
    if ts == [] then Start
    else
      var t := ts[|ts| - 1];
      if IsSymbolText(t) then Scan("", t, Lexed(ts)) else Scan(t, "", Lexed(ts[..|ts| - 1]))
  }

  lemma SeparablePrefix(ts: seq<string>)
    requires Separable(ts) && ts != []
    ensures Separable(ts[..|ts| - 1])
  {
  }

  lemma ScanSymbol(st: Scan, c: char)
    requires IsSymbolChar(c) && !(c == '-' && st.operator == "(")
    ensures ScanFrom(st, [c]) == Scan("", [c], Flush(st.number, st.emitted) + [Symbol(c)])
  {
    assert [c][..0] == [];
    StepCases(st, c);
  }

  lemma {:induction false} ScanSeparable(ts: seq<string>)
    requires Separable(ts)
    ensures Scanned(Concat(ts)) == Expected(ts)
    decreases |ts|
  {
    if ts != [] {
      var init, t := ts[..|ts| - 1], ts[|ts| - 1];
      SeparablePrefix(ts);
      ScanSeparable(init);
      assert init + [t] == ts;
      ConcatAppend(init, t);
      ScannedAppend(Concat(init), t);
      ScanNextToken(init, t);
    }
  }

  /** Scanning the text of one more separable token from the expected state. */
  lemma ScanNextToken(init: seq<string>, t: string)
    requires Separable(init + [t])
    ensures ScanFrom(Expected(init), t) == Expected(init + [t])
  {
    var ts := init + [t];
    var st := Expected(init);
    assert ts[..|ts| - 1] == init && ts[|ts| - 1] == t;
    assert IsSymbolText(t) || LiteralText(t) by { assert ts[|init|] == t; }
    LiteralIsNotSymbol(t);
    if init != [] {
      LiteralIsNotSymbol(init[|init| - 1]);
      assert Fits(init[|init| - 1], t) by { assert ts[|init| - 1] == init[|init| - 1]; }
    } else {
      assert !NegativeLiteral(t) by { assert ts[0] == t; }
    }
    if LiteralText(t) {
      ScanLiteral(st.operator, st.emitted, t);
    } else {
      assert [t[0]] == t;
      ScanSymbol(st, t[0]);
      if st.number != "" {
        var m := |init| - 1;
        assert init[..m] + [init[m]] == init;
      }
    }
  }

  /** Separable tokens survive concatenation and scanning unchanged. */
  lemma TokenRoundTrip(ts: seq<string>)
    requires Separable(ts)
    ensures Tokenize(Concat(ts)) == ts
  {
    ScanSeparable(ts);
    TextsLexed(ts);
    if ts != [] && !IsSymbolText(ts[|ts| - 1]) {
      var init := ts[..|ts| - 1];
      TextsLexed(init);
      TextsAppend(Lexed(init), Literal(ts[|ts| - 1]));
      assert init + [ts[|ts| - 1]] == ts;
    }
  }

  /** `tokenizer`: the scanning loop over the characters of `str`. */
  method Tokenizer(str: string) returns (tokens: seq<string>)
    ensures tokens == Tokenize(str)
    ensures Concat(tokens) == Kept(str)
  {
    var number := "";
    var operator := "";
    tokens := [];
    for i := 0 to |str|
      invariant Scanned(str[..i]).number == number
      invariant Scanned(str[..i]).operator == operator
      invariant Texts(Scanned(str[..i]).emitted) == tokens
    {
      var val := str[i];
      ghost var before := Scanned(str[..i]);
      assert str[..i + 1][..i] == str[..i];
      if IsNumber([val]) {
        number := number + [val];
        operator := "";
      } else if val == '.' {
        number := number + [val];
      } else if val == '-' && operator == "(" {
        number := number + "-";
      } else if IsOperator([val]) || val == '(' || val == ')' {
        if number != "" {
          TextsAppend(before.emitted, Literal(number));
          tokens := tokens + [number];
          number := "";
        }
        TextsAppend(Flush(before.number, before.emitted), Symbol(val));
        operator := [val];
        tokens := tokens + [[val]];
      }
    }
    assert str[..|str|] == str;
    if number != "" {
      TextsAppend(Scanned(str).emitted, Literal(number));
      tokens := tokens + [number];
    }
    TokensConcatenate(str);
  }
}
