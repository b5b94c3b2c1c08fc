# rpn_cli evaluator in Dafny

A model of the reverse-Polish evaluator of `rpn_cli` (`RpnCalculator` in
`src/rpn_calculator.rs`), with proofs of what it promises.

`RpnCalculator::new(verbose)` holds one flag. `eval(line)` works in five steps:

1. It splits the line at white space.
2. It reverses the tokens so that popping from the end visits them left to right.
3. It counts positions from 1.
4. It handles each token:
   - A token that `parse::<i32>` accepts is pushed.
   - Any other token pops the right operand, then the left one. An empty
     stack at either pop gives "invalid syntax at *pos*".
   - Only after both pops is the token matched against `+ - * / %`. Any
     other token gives "invalid token at *pos*".
   - An operator's result is pushed.
   - In verbose mode, the pending tokens and the stack are printed after
     each handled token.
5. At the end the stack must hold exactly one value. Otherwise the result
   is the position-less "invalid syntax".

The modules:

- `Wrappers`: `Option` and `Result`.
- `Lexer`: `split_whitespace`. `IsWhitespace` is the Unicode White_Space
  set that `char::is_whitespace` tests. `Join` (single spaces) and
  `Interleave` (white-space runs of any length) are the partners used in
  the round-trip lemmas.
- `Int32`: the `i32` newtype and `str::parse::<i32>`. A number is an
  optional `+` or `-`, one or more ASCII digits, and a value in range.
  `FormatI32`, decimal `Display`, is the round-trip partner.
- `Arith`: the five operators and the `i32` arithmetic Rust performs.
  `TruncDiv` and `TruncRem` truncate toward zero; they are not Dafny's
  Euclidean `/` and `%`. Host panics become a `Fault` value:
  - `DivideByZero`: a zero divisor, for `/` and `%`.
  - `Overflow`: any exact result outside the `i32` range, and `MIN % -1`.
- `Rpn`: the error taxonomy and the left-to-right reference semantics
  (`Step`, `Run`, `EvaluateTokens`, `Evaluate`). The verbose trace is
  `Trace`, built from `Handled`, `SnapshotAfter` and `Snapshots`.
  `RpnCalculator(verbose)` is a datatype whose methods `Eval` and
  `EvalInner` are the source's imperative code. `EvalInner` is a `while`
  loop that pops from the reversed token vector, keeps a mutable stack and
  a position counter, and returns early on error. It is proved to compute
  `EvaluateTokens` of the left-to-right tokens, and the `Trace` when
  verbose.
- `RpnProperties`: lemmas for each property the evaluator promises, and
  the source's test cases.

The model's error type, `Rpn.EvalError`:

- `InvalidSyntaxAt(pos)`: "invalid syntax at {pos}", raised at
  src/rpn_calculator.rs:30-31.
- `InvalidTokenAt(pos)`: "invalid token at {pos}", raised at :41.
- `InvalidSyntax`: the final check at :53.
- `Panic(pos, fault)`: the arithmetic panic at :35-39.

The verbose `println!` becomes the `trace` out-parameter of `Eval`: one
`Snapshot(pending, stack)` per handled token. `pending` keeps the order of
the source's reversed vector, so the next token is last. A call on a quiet
calculator yields an empty trace. The result never depends on the flag.

Two behaviours of `eval` that are easy to misread:

- A number may carry a leading `+`, as `parse::<i32>` allows. A sign alone
  is not a number, so a lone `-` or `+` is an operator. A digit string
  too large for 32 bits is not a number either; it takes the operator path.
- A token that is neither a number nor an operator is reported as
  "invalid token" only when two operands are available. Otherwise the
  pops come first and report "invalid syntax at" that position.

## Model

| member | source | states |
|---|---|---|
| `Lexer.SplitWhitespace` | src/rpn_calculator.rs:13 | every token produced is non-empty and free of white space |
| `Lexer.SplitEmpty` | src/rpn_calculator.rs:13 | a line yields no tokens exactly when every character of it is white space |
| `Lexer.SplitToken` | src/rpn_calculator.rs:13 | a token followed by white space or the end of the line is split off whole |
| `Lexer.SplitJoin` | src/rpn_calculator.rs:13 | splitting tokens joined by single spaces gives those tokens back, in order |
| `Lexer.SplitSkip` | src/rpn_calculator.rs:13 | a run of white space of any length in front of a line is skipped |
| `Lexer.SplitInterleave` | src/rpn_calculator.rs:13 | tokens separated by white-space runs of any length, with any white space before and after, split back into exactly those tokens in order |
| `Int32.ParseI32` | src/rpn_calculator.rs:25 | a string read as a number starts with a sign or a digit, has only digits after it, and is more than a bare sign |
| `Int32.ParseSignedDigits` | src/rpn_calculator.rs:25 | no sign, `+` or `-` before one or more digits, leading zeros allowed, reads as the signed value of the digits exactly when that fits in 32 bits, and as no number otherwise |
| `Int32.ParseFormat` | src/rpn_calculator.rs:25 | every `i32` written in decimal is read back as itself |
| `Int32.ParsePlusSign` | src/rpn_calculator.rs:25 | a leading `+` before the digits is accepted and does not change the value |
| `Int32.ParseOutOfRange` | src/rpn_calculator.rs:25 | digits whose value exceeds the `i32` maximum are not a number, bare or after `+`; after `-` they are not a number once their value exceeds 2^31 |
| `Int32.LeadingZeros` | src/rpn_calculator.rs:25 | `007` reads as 7 and `-007` as -7 |
| `Int32.SignedZero` | src/rpn_calculator.rs:25 | `-0` and `+0` read as 0 |
| `Int32.SignAloneIsNotANumber` | src/rpn_calculator.rs:25 | `+` and `-` on their own are not numbers, so they reach the operator branch |
| `Arith.ParseOp` | src/rpn_calculator.rs:34-41 | only the five operator symbols are recognised, each as its own operator |
| `Arith.ParseOpSymbol` | src/rpn_calculator.rs:34-41 | a token is read as an operator exactly when it is that operator's symbol |
| `Arith.TruncDiv` | src/rpn_calculator.rs:38 | the quotient truncates toward zero: its magnitude is the whole number of times the divisor fits, and its sign is the product of the signs |
| `Arith.TruncRem` | src/rpn_calculator.rs:39 | dividend = quotient × divisor + remainder, the remainder is smaller than the divisor in magnitude and has the dividend's sign |
| `Arith.Apply` | src/rpn_calculator.rs:35-39 | divide-by-zero fault exactly for `/` and `%` by zero; overflow fault exactly when the exact result leaves the `i32` range or for `MIN % -1`; otherwise the exact result |
| `Rpn.Step` | src/rpn_calculator.rs:25-44 | a number is pushed; otherwise fewer than two values give the positioned syntax error whatever the token; with two values a non-operator gives invalid-token; an operator replaces the top two values by `x op y`, where `x` is second from the top, and leaves the rest alone; the host fault occurs exactly when that operator's arithmetic faults on those operands |
| `Rpn.Run` | src/rpn_calculator.rs:20-23 | an error from the token loop carries a position between 1 and the number of tokens and is never the final syntax error |
| `Rpn.RunHeight` | src/rpn_calculator.rs:25-44 | after tokens handled without error the stack holds as many values as there were numbers less operators |
| `Rpn.RunPrefixError` | src/rpn_calculator.rs:30-41 | once a prefix of the tokens fails, the whole line fails with that same error: the loop stops at the first failure |
| `Rpn.Reversed` | src/rpn_calculator.rs:13 | reversal keeps the number of tokens; `Rpn.ReversedAt` gives each element |
| `Rpn.ReversedAt` | src/rpn_calculator.rs:13 | the k-th element of the reversed tokens is the k-th from the back of the original |
| `Rpn.ReversedSuffix` | src/rpn_calculator.rs:22 | what is still in the reversed vector after p pops is the reversal of the tokens from position p + 1 on |
| `Rpn.ReversedTwice` | src/rpn_calculator.rs:13 | reversing twice gives back the tokens, so popping from the end walks them left to right |
| `Rpn.EvaluateTokens` | src/rpn_calculator.rs:18-55 | success means the loop left exactly that one value; a positioned error is the loop's own error, at a position among the tokens; the position-less syntax error occurs exactly when the loop finished with a stack of any other height |
| `Rpn.Evaluate` | src/rpn_calculator.rs:11-15 | a line without tokens is the position-less syntax error; any positioned error lies between 1 and the number of the line's tokens |
| `Rpn.Trace` | src/rpn_calculator.rs:48-50 | a line that runs without error prints one trace line per token; a failing one prints a line for each token before the failing position and none from it on |
| `Rpn.StopAt` | src/rpn_calculator.rs:30-41 | the first failing token's error is the outcome of the line, and only the tokens before it were handled |
| `Rpn.RpnCalculator.Eval` | src/rpn_calculator.rs:11-15 | the outcome is the left-to-right evaluation of the line's tokens whatever the flag; the trace is the verbose trace when the flag is set and empty otherwise |
| `Rpn.RpnCalculator.EvalInner` | src/rpn_calculator.rs:18-56 | popping the reversed vector with a mutable stack and counter computes exactly the left-to-right evaluation and trace; the loop keeps the stack equal to the run of the tokens popped so far |
| `RpnProperties.LiteralIsToken` | src/rpn_calculator.rs:25 | a number contains no white space, so it is a token on its own |
| `RpnProperties.OperatorIsNotLiteral` | src/rpn_calculator.rs:25-34 | the operator symbols are tokens and are never read as numbers |
| `RpnProperties.SingleLiteral` | src/rpn_calculator.rs:25-55 | a line holding one number evaluates to that number |
| `RpnProperties.FormattedLiteral` | src/rpn_calculator.rs:25-55 | every `i32` written in decimal, as a line, evaluates to itself |
| `RpnProperties.OutOfRangeNumber` | src/rpn_calculator.rs:25-31 | a too-large digit string is not a number and, alone on a line, fails with the syntax error at position 1 |
| `RpnProperties.BinaryOperation` | src/rpn_calculator.rs:30-44 | the line `a b op` gives `x op y` with the first number as the left operand, or the host fault at position 3 |
| `RpnProperties.BinaryTokens` | src/rpn_calculator.rs:30-44 | the tokens `a b op` give `x op y` with the first number as the left operand, or the host fault at position 3 |
| `RpnProperties.NumbersArePushed` | src/rpn_calculator.rs:25-27 | a sequence of numbers leaves all of them on the stack, first at the bottom |
| `RpnProperties.OperandShortage` | src/rpn_calculator.rs:30-31 | a non-number at position p that finds fewer than two values fails with the syntax error at p, even when it is not an operator |
| `RpnProperties.UnknownOperator` | src/rpn_calculator.rs:34-41 | a non-number, non-operator at position p that finds two values fails with invalid-token at p |
| `RpnProperties.ErrorLocatesToken` | src/rpn_calculator.rs:20-41 | a positioned error names the 1-based index of the first failing token, every earlier token was handled, and the error kind follows from the stack it found |
| `RpnProperties.PrefixHeight` | src/rpn_calculator.rs:25-44 | on a line that runs without error every prefix runs without error and its stack height is numbers less operators |
| `RpnProperties.FinalStackCheck` | src/rpn_calculator.rs:53-55 | success exactly when the loop finishes with one more number than operators, the stack then being the result alone; otherwise the position-less syntax error |
| `RpnProperties.BlankLine` | src/rpn_calculator.rs:53 | an empty or all-white-space line fails with the position-less syntax error |
| `RpnProperties.HandledPrefix` | src/rpn_calculator.rs:22-45 | every token before the first failing one was handled without error |
| `RpnProperties.TraceLines` | src/rpn_calculator.rs:48-50 | there is one trace line per handled token; line k shows the tokens still pending and the stack after token k + 1 |
| `RpnProperties.TraceEndsWithResult` | src/rpn_calculator.rs:48-55 | on success the last trace line shows nothing pending and the result alone on the stack |
| `RpnProperties.RepeatedEvaluation` | src/rpn_calculator.rs:3-19 | two calls on one calculator and a call on a quiet one give the same outcome |
| `RpnProperties.FiveExample` | src/rpn_calculator.rs:67 | `5` evaluates to 5 |
| `RpnProperties.FiftyExample` | src/rpn_calculator.rs:68 | `50` evaluates to 50 |
| `RpnProperties.MinusFiftyExample` | src/rpn_calculator.rs:69 | `-50` evaluates to -50 |
| `RpnProperties.AddExample` | src/rpn_calculator.rs:72 | `2 3 +` evaluates to 5 |
| `RpnProperties.MulExample` | src/rpn_calculator.rs:73 | `2 3 *` evaluates to 6 |
| `RpnProperties.SubExample` | src/rpn_calculator.rs:74 | `2 3 -` evaluates to -1 |
| `RpnProperties.DivExample` | src/rpn_calculator.rs:75 | `2 3 /` evaluates to 0 |
| `RpnProperties.RemExample` | src/rpn_calculator.rs:76 | `2 3 %` evaluates to 2 |
| `RpnProperties.UnknownOperatorExample` | src/rpn_calculator.rs:82 | `1 1 ^` fails with invalid-token at position 3 |
| `RpnProperties.DanglingOperatorExample` | src/rpn_calculator.rs:30-31 | `1 +` fails with the syntax error at position 2 |
| `RpnProperties.LeftoverOperandsExample` | src/rpn_calculator.rs:53 | `1 2` fails with the position-less syntax error |
| `RpnProperties.DivisionByZeroExample` | src/rpn_calculator.rs:38 | `1 0 /` fails with the divide-by-zero fault at position 3 |

## Left out

- `src/main.rs` entirely: command-line parsing, choosing a file or standard input, reading lines, and printing results and errors. It is I/O around `eval`.
- The text of the error messages and `anyhow`'s context chain. Errors are the `EvalError` datatype, which keeps the kind and the position.
- The `{:?}` formatting of the verbose line. The trace keeps each line's content, the pending tokens and the stack, as a `Snapshot` value, not as text.
- `Rpn.RpnCalculator.EvalInner` takes the reversed tokens by value. The source drains a `&mut Vec` that its only caller discards afterwards, so nothing observable is lost.
- `Arith.Apply`: models the debug-build panic on `+ - *` overflow, as the `Overflow` fault. It does not model the release-build wrap-around. Division and remainder by zero, `MIN / -1` and `MIN % -1` panic in both builds.
- Panics are modelled as a `Panic(pos, fault)` result. The model does not capture that a panic aborts the process instead of returning.
- The position counter is unbounded. The source's counter is an `i32`, which would overflow only after 2^31 tokens on one line.
