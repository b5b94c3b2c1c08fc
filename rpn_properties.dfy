/**
 * What the evaluator promises, proved about its reference semantics
 * (`Rpn.Run`, `Rpn.EvaluateTokens`, `Rpn.Evaluate`), and through the
 * contracts of `RpnCalculator.Eval` about the loop itself.
 */
module RpnProperties {
  import opened Wrappers
  import opened Lexer
  import opened Int32
  import opened Arith
  import opened Rpn

  /** A number has no white space in it, so it is a token on its own. */
  lemma {:induction false} LiteralIsToken(t: string)
    requires IsLiteral(t)
    ensures IsToken(t)
  {
  }

  /** The five operator symbols are tokens and are not numbers: a lone `+` or `-` is an operator. */
  lemma {:induction false} OperatorIsNotLiteral(t: string)
    requires ParseOp(t).Some?
    ensures IsToken(t) && !IsLiteral(t)
  {
  }

  /** A line holding one number evaluates to that number. */
  lemma {:induction false} SingleLiteral(t: string, v: i32)
    requires ParseI32(t) == Some(v)
    ensures Evaluate(t) == Ok(v)
  {
    LiteralIsToken(t);
    SplitToken(t, "");
    assert t + "" == t;
    NumbersArePushed([t], [v]);
  }

  /** Every `i32`, written in decimal, evaluates to itself. */
  lemma {:induction false} FormattedLiteral(v: i32)
    ensures Evaluate(FormatI32(v)) == Ok(v)
  {
    ParseFormat(v);
    SingleLiteral(FormatI32(v), v);
  }

  /**
   * A digit string too large for an `i32` is not a number: it reaches the
   * operator branch, and alone on a line finds no operands at position 1.
   */
  lemma {:induction false} OutOfRangeNumber(t: string)
    requires t != [] && AllDigits(t) && DigitsValue(t) > MAX
    ensures !IsLiteral(t)
    ensures Evaluate(t) == Err(InvalidSyntaxAt(1))
  {
    ParseOutOfRange(t);
    assert IsToken(t) by {
      forall i | 0 <= i < |t|
        ensures !IsWhitespace(t[i])
      {
        assert IsDigit(t[i]);
      }
    }
    SplitToken(t, "");
    assert t + "" == t;
    assert [t][..0] == [];
    RunUnfold([t], 1);
    assert [t][..1] == [t];
  }

  /**
   * `a b op` applies the operator with the first number as its left
   * operand; a host fault is reported at position 3.
   */
  lemma {:induction false} BinaryOperation(a: string, b: string, o: string, x: i32, y: i32, op: Op)
    requires ParseI32(a) == Some(x) && ParseI32(b) == Some(y) && ParseOp(o) == Some(op)
    ensures Evaluate(a + " " + b + " " + o) ==
      match Apply(op, x, y)
      case Ok(v) => Ok(v)
      case Err(f) => Err(Panic(3, f))
  {
    LiteralIsToken(a);
    LiteralIsToken(b);
    OperatorIsNotLiteral(o);
    SplitJoin([a, b, o]);
    JoinThree(a, b, o);
    BinaryTokens(a, b, o, x, y, op);
  }

  lemma {:induction false} JoinThree(a: string, b: string, c: string)
    ensures Join([a, b, c]) == a + " " + b + " " + c
  {
    var ts := [a, b, c];
    assert ts[1..] == [b, c] && ts[1..][1..] == [c];
    assert Join([c]) == c;
    assert Join([b, c]) == b + " " + c;
    assert Join(ts) == a + " " + (b + " " + c);
  }

  lemma {:induction false} BinaryTokens(a: string, b: string, o: string, x: i32, y: i32, op: Op)
    requires ParseI32(a) == Some(x) && ParseI32(b) == Some(y) && ParseOp(o) == Some(op)
    ensures EvaluateTokens([a, b, o]) ==
      match Apply(op, x, y)
      case Ok(v) => Ok(v)
      case Err(f) => Err(Panic(3, f))
  {
    var ts := [a, b, o];
    OperatorIsNotLiteral(o);
    NumbersArePushed([a, b], [x, y]);
    assert ts[..2] == [a, b];
    RunUnfold(ts, 3);
    assert ts[..3] == ts;
  }

  /** A run of numbers only leaves all of them on the stack, first one at the bottom. */
  lemma {:induction false} NumbersArePushed(ts: seq<string>, vs: seq<i32>)
    requires |ts| == |vs| && forall i :: 0 <= i < |ts| ==> ParseI32(ts[i]) == Some(vs[i])
    ensures Run(ts) == Ok(vs)
  {
    if ts != [] {
      var n := |ts|;
      var init, values := ts[..n - 1], vs[..n - 1];
      assert Run(init) == Ok(values) by {
        assert forall i :: 0 <= i < n - 1 ==> init[i] == ts[i] && values[i] == vs[i];
        NumbersArePushed(init, values);
      }
      assert Run(ts) == Step(values, ts[n - 1], n) by {
        RunUnfold(ts, n);
        assert ts[..n] == ts;
      }
      PushNumber(values, ts[n - 1], n, vs[n - 1]);
      assert values + [vs[n - 1]] == vs;
    }
  }

  /** A number is pushed whatever the stack holds. */
  lemma {:induction false} PushNumber(stack: seq<i32>, t: string, pos: nat, v: i32)
    requires ParseI32(t) == Some(v)
    ensures Step(stack, t, pos) == Ok(stack + [v])
  {
  }

  /**
   * An operator that finds fewer than two values on the stack fails with
   * the positioned syntax error, whatever the token is: the operands are
   * popped before the token is matched against the operators.
   */
  lemma {:induction false} OperandShortage(ts: seq<string>, p: nat, stack: seq<i32>)
    requires 1 <= p <= |ts| && Run(ts[..p - 1]) == Ok(stack)
    requires |stack| < 2 && !IsLiteral(ts[p - 1])
    ensures EvaluateTokens(ts) == Err(InvalidSyntaxAt(p))
  {
    StopAt(ts, p, stack);
  }

  /** A token that is neither a number nor an operator, reached with two operands available, fails as invalid at its position. */
  lemma {:induction false} UnknownOperator(ts: seq<string>, p: nat, stack: seq<i32>)
    requires 1 <= p <= |ts| && Run(ts[..p - 1]) == Ok(stack)
    requires |stack| >= 2 && !IsLiteral(ts[p - 1]) && ParseOp(ts[p - 1]).None?
    ensures EvaluateTokens(ts) == Err(InvalidTokenAt(p))
  {
    StopAt(ts, p, stack);
  }

  /**
   * The converse of the two lemmas above: a positioned error names the
   * 1-based index of the first token that fails; every token before it was
   * handled, and the kind of error follows from the stack it found.
   */
  lemma {:induction false} ErrorLocatesToken(ts: seq<string>)
    requires EvaluateTokens(ts).Err? && !EvaluateTokens(ts).error.InvalidSyntax?
    ensures var e := EvaluateTokens(ts).error;
      1 <= e.pos <= |ts| && Run(ts[..e.pos - 1]).Ok? &&
      Step(Run(ts[..e.pos - 1]).value, ts[e.pos - 1], e.pos) == Err(e)
    ensures var e := EvaluateTokens(ts).error;
      !IsLiteral(ts[e.pos - 1]) &&
      (e.InvalidSyntaxAt? <==> |Run(ts[..e.pos - 1]).value| < 2) &&
      (e.InvalidTokenAt? <==> |Run(ts[..e.pos - 1]).value| >= 2 && ParseOp(ts[e.pos - 1]).None?)
  {
    var e := EvaluateTokens(ts).error;
    var init := ts[..|ts| - 1];
    match Run(init)
    case Err(e') =>
      assert e' == e;
      ErrorLocatesToken(init);
      assert init[..e.pos - 1] == ts[..e.pos - 1];
    case Ok(stack) =>
      assert e.pos == |ts|;
  }

  /**
   * The stack-height invariant: while no token has failed, the stack holds
   * as many values as there were numbers, less the operators.
   */
  lemma {:induction false} PrefixHeight(ts: seq<string>, k: nat)
    requires Run(ts).Ok? && k <= |ts|
    ensures Run(ts[..k]).Ok?
    ensures |Run(ts[..k]).value| == Literals(ts[..k]) - Operators(ts[..k])
  {
    if Run(ts[..k]).Err? {
      RunPrefixError(ts, k);
    }
    RunHeight(ts[..k]);
  }

  /**
   * The final check: success exactly when the tokens leave one value, that
   * is when there is one more number than operators; any other count is
   * the position-less syntax error.
   */
  lemma {:induction false} FinalStackCheck(ts: seq<string>)
    ensures EvaluateTokens(ts).Ok? <==> Run(ts).Ok? && Literals(ts) == Operators(ts) + 1
    ensures EvaluateTokens(ts) == Err(InvalidSyntax) <==> Run(ts).Ok? && Literals(ts) != Operators(ts) + 1
    ensures EvaluateTokens(ts).Ok? ==> Run(ts) == Ok([EvaluateTokens(ts).value])
  {
    if Run(ts).Ok? {
      RunHeight(ts);
    }
    if EvaluateTokens(ts).Ok? {
      assert Run(ts).value == [Run(ts).value[0]];
    }
  }

  /** An empty or all-white-space line fails with the position-less syntax error. */
  lemma {:induction false} BlankLine(line: string)
    requires forall i :: 0 <= i < |line| ==> IsWhitespace(line[i])
    ensures Evaluate(line) == Err(InvalidSyntax)
  {
    SplitEmpty(line);
  }

  /** Every token before the first failing one was handled: all those prefixes run without error. */
  lemma {:induction false} HandledPrefix(ts: seq<string>, j: nat)
    requires j <= Handled(ts)
    ensures Run(ts[..j]).Ok?
  {
    var h := Handled(ts);
    assert Run(ts[..h]).Ok? by {
      if Run(ts).Err? {
        ErrorLocatesToken(ts);
      } else {
        assert ts[..h] == ts;
      }
    }
    if Run(ts[..j]).Err? {
      assert ts[..h][..j] == ts[..j];
      RunPrefixError(ts[..h], j);
    }
  }

  /**
   * The verbose trace has one line per handled token; line `k` shows the
   * tokens still pending after token `k + 1` and the stack it left.
   */
  lemma {:induction false} TraceLines(ts: seq<string>, k: nat)
    requires k < |Trace(ts)|
    ensures |Trace(ts)| == Handled(ts)
    ensures Run(ts[..k + 1]).Ok?
    ensures Trace(ts)[k] == Snapshot(Reversed(ts[k + 1..]), Run(ts[..k + 1]).value)
  {
    HandledPrefix(ts, k + 1);
  }

  /** On success the last trace line shows no pending token and the result alone on the stack. */
  lemma {:induction false} TraceEndsWithResult(ts: seq<string>, v: i32)
    requires EvaluateTokens(ts) == Ok(v)
    ensures |Trace(ts)| == |ts| && Trace(ts)[|ts| - 1] == Snapshot([], [v])
  {
    assert ts[..|ts|] == ts;
    assert ts[|ts|..] == [];
    assert Run(ts).value == [v];
  }

  /**
   * Two calls on one verbose calculator and a call on a quiet one all give
   * the same outcome: the stack is local to a call and the flag only decides
   * whether the trace is produced.
   */
  method RepeatedEvaluation(line: string) returns (first: Result<i32, EvalError>, second: Result<i32, EvalError>, quiet: Result<i32, EvalError>)
    ensures first == second == quiet == Evaluate(line)
  {
    var calculator := RpnCalculator(true);
    var trace;
    first, trace := calculator.Eval(line);
    second, trace := calculator.Eval(line);
    quiet, trace := RpnCalculator(false).Eval(line);
  }

  /** The source's test: the line `5` is the number 5. */
  lemma {:induction false} FiveExample()
    ensures Evaluate("5") == Ok(5)
  {
  }

  /** The source's test: the line `50` is the number 50. */
  lemma {:induction false} FiftyExample()
    ensures Evaluate("50") == Ok(50)
  {
    assert "50"[..1] == "5" && DigitsValue("50") == 50;
    assert ParseI32("50") == Some(50);
    SingleLiteral("50", 50);
  }

  /** The source's test: the line `-50` is the number -50. */
  lemma {:induction false} MinusFiftyExample()
    ensures Evaluate("-50") == Ok(-50)
  {
    assert "-50"[1..] == "50" && "50"[..1] == "5" && DigitsValue("50") == 50;
    assert ParseI32("-50") == Some(-50);
    SingleLiteral("-50", -50);
  }

  /** The source's test: `2 3 +` is 5. */
  lemma {:induction false} AddExample()
    ensures Evaluate("2 3 +") == Ok(5)
  {
    assert ParseI32("2") == Some(2) && ParseI32("3") == Some(3);
    assert ParseOp("+") == Some(Add) && Apply(Add, 2, 3) == Ok(5);
    assert "2" + " " + "3" + " " + "+" == "2 3 +";
    BinaryOperation("2", "3", "+", 2, 3, Add);
  }

  /** The source's test: `2 3 *` is 6. */
  lemma {:induction false} MulExample()
    ensures Evaluate("2 3 *") == Ok(6)
  {
    assert ParseI32("2") == Some(2) && ParseI32("3") == Some(3);
    assert ParseOp("*") == Some(Mul) && Apply(Mul, 2, 3) == Ok(6);
    assert "2" + " " + "3" + " " + "*" == "2 3 *";
    BinaryOperation("2", "3", "*", 2, 3, Mul);
  }

  /** The source's test: `2 3 -` is -1, the first number being the left operand. */
  lemma {:induction false} SubExample()
    ensures Evaluate("2 3 -") == Ok(-1)
  {
    assert ParseI32("2") == Some(2) && ParseI32("3") == Some(3);
    assert ParseOp("-") == Some(Sub) && Apply(Sub, 2, 3) == Ok(-1);
    assert "2" + " " + "3" + " " + "-" == "2 3 -";
    BinaryOperation("2", "3", "-", 2, 3, Sub);
  }

  /** The source's test: `2 3 /` is 0, division truncating. */
  lemma {:induction false} DivExample()
    ensures Evaluate("2 3 /") == Ok(0)
  {
    assert ParseI32("2") == Some(2) && ParseI32("3") == Some(3);
    assert ParseOp("/") == Some(Div) && Apply(Div, 2, 3) == Ok(0);
    assert "2" + " " + "3" + " " + "/" == "2 3 /";
    BinaryOperation("2", "3", "/", 2, 3, Div);
  }

  /** The source's test: `2 3 %` is 2. */
  lemma {:induction false} RemExample()
    ensures Evaluate("2 3 %") == Ok(2)
  {
    assert ParseI32("2") == Some(2) && ParseI32("3") == Some(3);
    assert ParseOp("%") == Some(Rem) && Apply(Rem, 2, 3) == Ok(2);
    assert "2" + " " + "3" + " " + "%" == "2 3 %";
    BinaryOperation("2", "3", "%", 2, 3, Rem);
  }

  /** The source's failing test: `^` is not an operator, and the error names position 3. */
  lemma {:induction false} UnknownOperatorExample()
    ensures Evaluate("1 1 ^") == Err(InvalidTokenAt(3))
  {
    var ts := ["1", "1", "^"];
    assert ParseI32("1") == Some(1) && ParseI32("^") == None && ParseOp("^") == None;
    SplitJoin(ts);
    assert Join(ts) == "1 1 ^";
    assert ts[..2] == ["1", "1"];
    NumbersArePushed(ts[..2], [1, 1]);
    UnknownOperator(ts, 3, [1, 1]);
  }

  /** A dangling operator fails at its own position. */
  lemma {:induction false} DanglingOperatorExample()
    ensures Evaluate("1 +") == Err(InvalidSyntaxAt(2))
  {
    var ts := ["1", "+"];
    assert ParseI32("1") == Some(1) && ParseI32("+") == None;
    SplitJoin(ts);
    assert Join(ts) == "1 +";
    assert ts[..1] == ["1"];
    NumbersArePushed(ts[..1], [1]);
    OperandShortage(ts, 2, [1]);
  }

  /** Leftover operands fail with the position-less syntax error. */
  lemma {:induction false} LeftoverOperandsExample()
    ensures Evaluate("1 2") == Err(InvalidSyntax)
  {
  }

  /** Dividing by zero is the host's fault at the operator, not a value. */
  lemma {:induction false} DivisionByZeroExample()
    ensures Evaluate("1 0 /") == Err(Panic(3, DivideByZero))
  {
    assert ParseI32("1") == Some(1) && ParseI32("0") == Some(0);
    assert ParseOp("/") == Some(Div) && Apply(Div, 1, 0) == Err(DivideByZero);
    assert "1" + " " + "0" + " " + "/" == "1 0 /";
    BinaryOperation("1", "0", "/", 1, 0, Div);
  }
}
