# calc: a verified model of a small infix calculator

The modelled repository is a JavaScript calculator. `calc(str)` tokenizes an
arithmetic text and evaluates the tokens with an eager shunting-yard
interpreter. The model covers:

- `tokenizer`: a one-pass scanner with a number buffer and an "operator
  marker". The marker makes a `-` right after `(` the sign of a number.
- `precedence`: `+ -` bind weakest, `* /` tighter, `^` tightest.
- `singleCalc`: one binary operation.
- `evaluate`: two stacks, the pending operators and the operand values.
  Its inner step `currentCalc` pops one operator and two values and pushes
  the result. An operator drains the stack while the top binds at least as
  tightly. `)` reduces down to its `(`. A final loop reduces whatever is left.
- `calc`: the scanner feeding the evaluator.

Modules, one per part of the program:

- `Lexical`: the `isNumber` / `isOperator` tests and the numeric value of an
  accepted literal.
- `Stack`: `top`, the peek of an array used as a stack.
- `Tokenizing`:
  - the scanner as a step function `Step`, its fold `Scanned`
    and `Tokenize`;
  - the method `Tokenizer`, with the loop of the source, proved equal to
    `Tokenize`;
  - what the scanner promises: tokens concatenate to the kept characters;
    token shapes; the minus rule; dropped characters change nothing;
    a round trip from tokens to text and back.
- `Evaluating`:
  - values, `Precedence` and `Apply` (`singleCalc`);
  - the stacks; `Reduce` (`currentCalc`), `Drain`, `CloseGroup` and
    `Finish` (the three inner loops) and `Feed` / `FeedAll` (the token loop);
  - the method `Evaluate`, with the loops of the source, proved equal to
    `Evaluation`.
- `Grammar`: well-formed expressions and a reference meaning, independent of
  the evaluator. `Flat` splits a chain at its loosest operator, the
  rightmost among equals.
- `Correctness`: the evaluator computes that reference meaning for every
  well-formed expression. It also covers what happens with an unmatched `)`
  and with a `(` that is never closed.
- `Calculator`: `calc` as a method, and the end-to-end theorem. For every
  expression printed without ambiguity, and any text whose kept characters
  are that print, `calc` returns the expression's value.
- `Expectations`: the four results the repository's tests expect, and a few
  more concrete results, as consequences of the general theorem.

Values are `Num(r)` with an exact real `r`, or `NaN`. `NaN` stands for every
non-finite result of the source: `undefined`, `NaN` and the infinities. An
input on which the source never returns (an unmatched `)`) is modelled as
the outcome `LoopsForever`.

## Model

| member | source | states |
|---|---|---|
| Lexical.IsNumber | index.mjs:5 | definition of `isNumber`: an optional `-`, then `0` or a digit run without a leading zero, then optionally `.` and at least one digit; its properties are the lemmas below |
| Lexical.IsOperator | index.mjs:6 | definition of `isOperator`: exactly one of `+ - * / ^` |
| Lexical.SingleCharNumber | index.mjs:5 | a one-character text is a number exactly when it is a digit, as `tokenizer` uses `isNumber` on single characters |
| Lexical.NumberIsNotOperator | index.mjs:5-6 | no text is both a number and an operator, so the first two branches of the token loop never overlap |
| Lexical.NumberChars | index.mjs:5 | an accepted number consists only of digits, `.` and `-`, and holds at least one digit |
| Lexical.RejectedLiterals | index.mjs:5 | leading zeros, two dots, a bare or doubled sign, a missing integer part and a trailing dot are all rejected |
| Lexical.AcceptedLiterals | index.mjs:5 | `0`, `-2`, `3.25` and `0.5` are accepted and read as 0, -2, 3.25 and 0.5 |
| Lexical.ParseNumber | index.mjs:80-81 | the value of an accepted literal is non-positive when the literal starts with `-` and non-negative otherwise |
| Lexical.ShowNatRoundTrip | index.mjs:5 | the decimal text of every natural number is accepted and reads back as that number |
| Lexical.ShowIntRoundTrip | index.mjs:5 | the decimal text of every integer, with its sign, is accepted and reads back as that integer |
| Lexical.UnsignedDecimal | index.mjs:80-81 | a text with an integer part, a `.` and fraction digits is accepted without sign, and its value is the integer part plus the fraction digits over 10 to the number of fraction digits |
| Lexical.ShowDecimalRoundTrip | index.mjs:80-81 | the text of a natural number `n`, a `.` and fraction digits `d` is accepted and reads as `n` plus the value of `d` over 10 to the length of `d` |
| Lexical.Negated | index.mjs:80-81 | a leading `-` on an unsigned number is accepted and negates its value |
| Stack.Top | index.mjs:11 | `top` is empty exactly on an empty stack and otherwise gives the last element |
| Stack.TopOfPush | index.mjs:11 | after a push, `top` sees the pushed element |
| Tokenizing.Step | index.mjs:24-39 | definition of one iteration of the scanning loop on the buffer, the marker and what was emitted; `StepCases` and `MinusRule` state its cases |
| Tokenizing.Tokenize | index.mjs:19-47 | definition of the tokens of a text: the loop folded over the text, then the final flush of the buffer; the lemmas below state its properties |
| Tokenizing.Tokenizer | index.mjs:19-47 | the scanning loop yields exactly `Tokenize(str)`, and those tokens concatenate to the kept characters of `str` |
| Tokenizing.StepCases | index.mjs:24-39 | one character is buffered (digit, `.`, or `-` after `(`), or flushes the buffer and emits a symbol, or is dropped |
| Tokenizing.MinusRule | index.mjs:29-31 | a `-` joins the buffer exactly when the last emitted symbol is `(` and no digit has been buffered since; otherwise it is emitted as the operator |
| Tokenizing.TokensConcatenate | index.mjs:19-47 | the tokens of `s` concatenate to `s` with every dropped character removed |
| Tokenizing.TokenShapes | index.mjs:31-44 | every token is non-empty and well shaped, and a number token is always followed by a symbol or by the end |
| Tokenizing.TokenTexts | index.mjs:31-44 | every token is either one operator or parenthesis character, or a non-empty run of digits, `.` and `-` |
| Tokenizing.MinusTokens | index.mjs:29-30 | a number token holding `-` directly follows `(`, with no digit before any of its `-`; a `-` operator never directly follows `(` |
| Tokenizing.SpacesDoNotSplit | index.mjs:23-28 | a space between two digits is dropped and does not end the number: `1 2` gives the single token `12` |
| Tokenizing.DroppedCharacters | index.mjs:23-40 | removing the characters the scanner ignores changes neither its state nor its tokens |
| Tokenizing.TokenRoundTrip | index.mjs:19-47 | scanning the concatenation of a separable token list gives back exactly that list |
| Evaluating.Precedence | index.mjs:55-68 | there is a precedence exactly for the five operators: 1 for `+ -`, 2 for `* /`, 3 for `^` |
| Evaluating.DrainsOnlyOperators | index.mjs:118 | the drain test holds only between two operators; `(` or an empty stack on top never drains |
| Evaluating.Apply | index.mjs:79-95 | definition of `singleCalc` on exact values, left operand first; the three lemmas below and `ApplyToNaN` state its properties |
| Evaluating.ApplyInverses | index.mjs:79-95 | subtraction undoes addition, and division undoes multiplication by a non-zero number |
| Evaluating.ApplyPowerStep | index.mjs:92-93 | `x ^ (n+1)` equals `x * x ^ n` for natural `n` |
| Evaluating.ApplyNonNumbers | index.mjs:79-95 | an unknown operator, a division by zero, and a missing operand give no number, but `x ^ 0` is 1 for every `x` |
| Evaluating.Reduce | index.mjs:108-114 | `currentCalc` removes exactly the top operator |
| Evaluating.ReduceApplies | index.mjs:108-114 | `currentCalc` replaces the top two values by the operator applied to them, deeper value on the left; missing values are `undefined` |
| Evaluating.CurrentCalc | index.mjs:108-114 | the popping and pushing on the two stacks computes exactly `Reduce` |
| Evaluating.Drain | index.mjs:118-120 | the drain loop stops with a top that does not drain, removes only operators, and leaves a prefix of the stack |
| Evaluating.CloseGroup | index.mjs:127-132 | definition of the `)` loop, with no result when the source never leaves it; `CloseGroupPops` states what it does |
| Evaluating.CloseGroupPops | index.mjs:127-132 | the `)` loop returns exactly when `(` is on the stack; it then removes everything above the topmost `(` and that `(` |
| Evaluating.Feed | index.mjs:116-134 | definition of one iteration of the token loop, branch by branch; `IgnoredToken` and `FedShape` state its properties |
| Evaluating.Evaluation | index.mjs:104-143 | definition of the outcome of `evaluate`: the token loop, the final loop and the last `pop`; `Evaluate` computes it and `EvaluatesToValue` states its meaning |
| Evaluating.Finish | index.mjs:136-138 | the final loop leaves the operator stack empty |
| Evaluating.LoopsForeverStays | index.mjs:127-130 | once the token loop is stuck on a `)`, no later token changes that |
| Evaluating.FedShape | index.mjs:116-134 | after any tokens the operator stack holds only operators and `(`, with precedence strictly rising within each run of operators |
| Evaluating.RunIsShort | index.mjs:116-122 | a run of pending operators is never longer than three |
| Evaluating.IgnoredToken | index.mjs:116-134 | a token that is no operator, number or parenthesis leaves both stacks unchanged |
| Evaluating.IgnoredLiterals | index.mjs:123 | malformed number tokens such as `007` and `1.2.3` are ignored |
| Evaluating.GroupsLeft | index.mjs:118-122 | `a op1 b op2 c` with `op1` binding at least as tightly as `op2` is `(a op1 b) op2 c` |
| Evaluating.GroupsRight | index.mjs:118-122 | `a op1 b op2 c` with `op2` binding tighter is `a op1 (b op2 c)` |
| Evaluating.OpenLeftAtEnd | index.mjs:136-142 | whenever a `(` is still on the operator stack after the token loop, whatever tokens came before or after it, `evaluate` returns no number |
| Evaluating.FinishOverOpen | index.mjs:136-138 | the final loop over a stack holding a `(` ends with no number on top of the value stack: applying `(` gives `undefined`, and every later operation has it as right operand |
| Evaluating.ApplyToNaN | index.mjs:79-95 | every operation with a missing right operand gives no number |
| Evaluating.Evaluate | index.mjs:104-143 | the token loop, its two inner loops and the final loop compute exactly `Evaluation(tokens)` |
| Grammar.SplitPoint | index.mjs:118 | the index taken first in the reference meaning has the loosest precedence, and it is the rightmost one among equals |
| Grammar.SplitPointUnique | index.mjs:118 | the split point is the only index with those two properties |
| Grammar.CollapseKeepsValue | index.mjs:108-114 | applying an operator that binds tighter than its left and at least as tightly as its right neighbour first keeps the value of the chain |
| Correctness.EvaluatesToValue | index.mjs:104-143 | for every well-formed expression, evaluating its tokens returns the reference value `ExprValue` |
| Correctness.UnmatchedClose | index.mjs:127-130 | a `)` after a complete expression leaves `evaluate` looping forever |
| Correctness.UnclosedOpen | index.mjs:136-140 | a leading `(` followed by a complete expression is never closed; the final loop applies it, and the result is no number |
| Correctness.UnclosedAfterOperator | index.mjs:136-140 | a `(` opened after an expression and an operator and never closed, as in `1+(2`, makes the result no number |
| Calculator.Calculation | index.mjs:151 | definition of the outcome of `calc`: `Evaluation` of `Tokenize`; `CalcComputes` states its meaning |
| Calculator.Calc | index.mjs:151 | `calc` runs the tokenizer and then the evaluator, with result `Calculation(str)` |
| Calculator.TextTokenizes | index.mjs:19-47 | the text of an unambiguously printable expression tokenizes into exactly that expression's tokens |
| Calculator.CalcComputes | index.mjs:151 | for every printable expression, and every text whose kept characters are its print, `calc` returns the expression's value |
| Calculator.CalcUnmatchedClose | index.mjs:127-130 | such a text followed by a `)` makes `calc` loop forever |
| Calculator.CalcUnclosedOpen | index.mjs:136-140 | such a text after a leading `(` that is never closed makes `calc` return no number |
| Calculator.CalcUnclosedAfterOperator | index.mjs:136-140 | the text of an expression, an operator, `(` and the text of another expression makes `calc` return no number |
| Expectations.CalcDigitChain | index.mjs:151 | a chain of one-digit numbers and operators, with any dropped characters in between, evaluates to its reference value |
| Expectations.CalcGroupThen | index.mjs:151 | a parenthesised digit chain followed by an operator and a digit evaluates to the operator applied to the two |
| Expectations.CalcSix | test.mjs:4 | `calc("2 + 2 * 2")` is 6 |
| Expectations.CalcEight | test.mjs:5 | `calc("(2 + 2)* 2")` is 8 |
| Expectations.CalcNine | test.mjs:6 | `calc("(1+2)^2")` is 9 |
| Expectations.CalcTwentyFour | test.mjs:7 | `calc("2-1+5*5-2")` is 24 |
| Expectations.CalcSixtyFour | index.mjs:118-122 | `^` groups to the left like the other operators: `calc("2^3^2")` is 64 |
| Expectations.CalcNegativeGroup | index.mjs:29-30 | a `-` right after `(` starts a negative number: `calc("(-2)*3")` is -6 |
| Expectations.CalcStuck | index.mjs:127-130 | `calc("1+2)")` never returns |
| Expectations.CalcUnclosed | index.mjs:136-140 | `calc("(1+2")` returns no number |
| Expectations.CalcOpenAfterOperator | index.mjs:136-140 | `calc("1+(2")` returns no number |
| Expectations.LeadingMinusTokens | index.mjs:29-38 | a `-` at the very start follows no `(`, so `-d+e` scans as the operator `-`, the digit `d`, `+` and the digit `e` |
| Expectations.LeadingMinusValue | index.mjs:108-122 | those tokens give no number: `+` drains the `-`, whose left operand is the `undefined` popped from a one-value stack |
| Expectations.CalcLeadingMinus | index.mjs:29-31 | a leading minus is not a sign: `calc("-3+5")` returns no number, not 2 |

## Left out

- Floating point: values are exact reals. IEEE-754 rounding is not modelled. Infinity, `NaN` and `undefined` are one value, `NaN`, so a division by zero gives `NaN` and not an infinity. A finite result computed from an infinity is lost too: `calc("1/(1/0)")` is 0 in the source, since 1 divided by Infinity is 0, and `NaN` in the model.
- Evaluating.Apply: `^` is exact only for integer exponents; a non-integer exponent gives `NaN`, where the source computes a real power of a positive base and 0 for a zero base with a positive exponent.
- Evaluating.Evaluate: number tokens are converted when pushed. The source pushes the string and converts it only inside `singleCalc`. So `calc("5")` returns the string `"5"` in the source and `Num(5)` here; the two agree whenever the returned value was produced by `singleCalc`. They differ when the last number pushed is returned unapplied, as in `calc("(1+2)3")`, where the source returns the string `"3"` and the model `Num(3)`.
- Evaluating.Evaluate: with an unmatched `)` the source spins forever; its value stack settles at one `undefined` entry and stays there (it shrinks to it from two or more values and grows to it from none, as in `calc(")")`). The model stops with the outcome `LoopsForever` and does not model those iterations.
- The tokenizer is a generator that `evaluate` consumes lazily. The model produces the whole token sequence first. The generator has no side effects and always terminates, so reading it eagerly changes nothing, also on the stuck `)` path where `evaluate` stops pulling tokens.
- `isNumber` and `isOperator` are regular-expression tests. They are written as predicates that accept the same language.
- The test driver in test.mjs:10-16, which prints each result and a pass flag, is not modelled. Its expectations are the lemmas in `Expectations`.
