/**
 * The RPN evaluator (`RpnCalculator` of src/rpn_calculator.rs).
 *
 * A line is split into tokens; the tokens are stored in reverse so that
 * popping from the end visits them left to right; each token bumps a
 * 1-based position counter. A number is pushed. Anything else pops two
 * operands (right one first), is then matched against the five operators,
 * and its result is pushed. At the end exactly one value must be left.
 *
 * `Step`, `Run` and `EvaluateTokens` are the left-to-right reference
 * semantics; `RpnCalculator.EvalInner` is the source's loop over the
 * reversed token vector, proved to compute them.
 */
module Rpn {
  import opened Wrappers
  import opened Lexer
  import opened Int32
  import opened Arith

  datatype EvalError =
    | InvalidSyntaxAt(pos: nat)      // an operator found fewer than two operands
    | InvalidTokenAt(pos: nat)       // a token that is neither a number nor an operator
    | InvalidSyntax                  // the final stack does not hold exactly one value
    | Panic(pos: nat, fault: Fault)  // the host's arithmetic panic at that token

  /** One verbose trace line: the tokens still pending, stored next-one-last as the source keeps them, and the stack. */
  datatype Snapshot = Snapshot(pending: seq<string>, stack: seq<i32>)

  predicate IsLiteral(t: string) {
    ParseI32(t).Some?
  }

  /** How many of the tokens are numbers. */
  function Literals(ts: seq<string>): nat {
    if ts == [] then 0
    else Literals(ts[..|ts| - 1]) + (if IsLiteral(ts[|ts| - 1]) then 1 else 0)
  }

  /** How many of the tokens are taken for operators (everything that is not a number). */
  function Operators(ts: seq<string>): (n: nat)
    ensures Literals(ts) + n == |ts|
  {
    if ts == [] then 0
    else Operators(ts[..|ts| - 1]) + (if IsLiteral(ts[|ts| - 1]) then 0 else 1)
  }

  function Reversed<T>(s: seq<T>): (r: seq<T>)
    ensures |r| == |s|
  {
    if s == [] then [] else Reversed(s[1..]) + [s[0]]
  }

  /** The element `k` places from the front of the reversal is the one `k` places from the back of the original. */
  lemma {:induction false} ReversedAt<T>(s: seq<T>, k: nat)
    requires k < |s|
    ensures Reversed(s)[k] == s[|s| - 1 - k]
  {
    if k < |s| - 1 {
      ReversedAt(s[1..], k);
    }
  }

  /** Reversing a suffix of the reversed sequence gives back a prefix of the original. */
  lemma {:induction false} ReversedSuffix<T>(s: seq<T>, p: nat)
    requires p <= |s|
    ensures Reversed(Reversed(s)[p..]) == s[..|s| - p]
  {
    forall i | 0 <= i < |s| - p
      ensures Reversed(Reversed(s)[p..])[i] == s[i]
    {
      ReversedSuffixAt(s, p, i);
    }
  }

  lemma {:induction false} ReversedSuffixAt<T>(s: seq<T>, p: nat, i: nat)
    requires p <= |s| && i < |s| - p
    ensures Reversed(Reversed(s)[p..])[i] == s[i]
  {
    var r := Reversed(s);
    var t := r[p..];
    var j := |t| - 1 - i;
    ReversedAt(t, i);
    assert t[j] == r[p + j];
    ReversedAt(s, p + j);
  }

  /** Reversal is its own inverse. */
  lemma {:induction false} ReversedTwice<T>(s: seq<T>)
    ensures Reversed(Reversed(s)) == s
  {
    ReversedSuffix(s, 0);
    assert Reversed(s)[0..] == Reversed(s);
  }

  /**
   * One token at 1-based position `pos` against the stack: a number is
   * pushed; otherwise two operands are popped first (a shortage is the
   * positioned syntax error), and only then is the token matched against
   * the operators (a mismatch is the positioned invalid-token error).
   */
  function Step(stack: seq<i32>, token: string, pos: nat): (r: Result<seq<i32>, EvalError>)
    ensures r.Ok? && IsLiteral(token) ==> r.value == stack + [ParseI32(token).value]
    ensures r.Ok? && !IsLiteral(token) ==>
      |stack| >= 2 && |r.value| == |stack| - 1 && r.value[..|stack| - 2] == stack[..|stack| - 2]
    ensures r.Err? ==> !IsLiteral(token) && !r.error.InvalidSyntax? && r.error.pos == pos
    ensures r == Err(InvalidSyntaxAt(pos)) <==> !IsLiteral(token) && |stack| < 2
    ensures r == Err(InvalidTokenAt(pos)) <==> !IsLiteral(token) && |stack| >= 2 && ParseOp(token).None?
    ensures r.Ok? && !IsLiteral(token) ==>
      ParseOp(token).Some? &&
      Apply(ParseOp(token).value, stack[|stack| - 2], stack[|stack| - 1]) == Ok(r.value[|r.value| - 1])
    ensures (r.Err? && r.error.Panic?) <==>
      !IsLiteral(token) && |stack| >= 2 && ParseOp(token).Some? &&
      Apply(ParseOp(token).value, stack[|stack| - 2], stack[|stack| - 1]).Err?
    ensures r.Err? && r.error.Panic? ==>
      Apply(ParseOp(token).value, stack[|stack| - 2], stack[|stack| - 1]) == Err(r.error.fault)
  {
    match ParseI32(token)
    case Some(v) => Ok(stack + [v])
    case None =>
      if |stack| < 2 then Err(InvalidSyntaxAt(pos))
      else
        var y, x, below := stack[|stack| - 1], stack[|stack| - 2], stack[..|stack| - 2];
        match ParseOp(token)
        case None => Err(InvalidTokenAt(pos))
        case Some(op) =>
          match Apply(op, x, y)
          case Ok(v) => Ok(below + [v])
          case Err(f) => Err(Panic(pos, f))
  }

  /**
   * The stack after the tokens, left to right from an empty stack, the
   * k-th token at position k; or the error of the first token that fails.
   */
  function Run(ts: seq<string>): (r: Result<seq<i32>, EvalError>)
    ensures r.Err? ==> !r.error.InvalidSyntax? && 1 <= r.error.pos <= |ts|
  {
    if ts == [] then Ok([])
    else
      match Run(ts[..|ts| - 1])
      case Err(e) => Err(e)
      case Ok(stack) => Step(stack, ts[|ts| - 1], |ts|)
  }

  /** The outcome of a token sequence: the one value left, or the final syntax error. */
  function EvaluateTokens(ts: seq<string>): (r: Result<i32, EvalError>)
    ensures r.Ok? ==> Run(ts) == Ok([r.value])
    ensures r.Err? && !r.error.InvalidSyntax? ==> Run(ts) == Err(r.error) && 1 <= r.error.pos <= |ts|
    ensures r == Err(InvalidSyntax) <==> Run(ts).Ok? && |Run(ts).value| != 1
  {
    match Run(ts)
    case Err(e) => Err(e)
    case Ok(stack) =>
      if |stack| == 1 then
        assert stack == [stack[0]];
        Ok(stack[0])
      else Err(InvalidSyntax)
  }

  /** The outcome of a line. */
  function Evaluate(line: string): (r: Result<i32, EvalError>)
    ensures SplitWhitespace(line) == [] ==> r == Err(InvalidSyntax)
    ensures r.Err? && !r.error.InvalidSyntax? ==> 1 <= r.error.pos <= |SplitWhitespace(line)|
  {
    EvaluateTokens(SplitWhitespace(line))
  }

  /** How many tokens are handled without error: all of them, or those before the failing one. */
  function Handled(ts: seq<string>): (n: nat)
    ensures n <= |ts|
  {
    match Run(ts)
    case Ok(_) => |ts|
    case Err(e) => e.pos - 1
  }

  /** The verbose line printed after the `k`-th token: the tokens still pending and the stack. */
  function SnapshotAfter(ts: seq<string>, k: nat): Snapshot
    requires k <= |ts|
  {
    match Run(ts[..k])
    case Ok(stack) => Snapshot(Reversed(ts[k..]), stack)
    case Err(_) => Snapshot(Reversed(ts[k..]), [])
  }

  /** The verbose lines after each of the first `j` tokens. */
  function Snapshots(ts: seq<string>, j: nat): (lines: seq<Snapshot>)
    requires j <= |ts|
    ensures |lines| == j
  {
    seq(j, k requires 0 <= k < j => SnapshotAfter(ts, k + 1))
  }

  /** The verbose trace of a line: one line per handled token, none from the failing one on. */
  function Trace(ts: seq<string>): (lines: seq<Snapshot>)
    ensures Run(ts).Ok? ==> |lines| == |ts|
    ensures Run(ts).Err? ==> |lines| == Run(ts).error.pos - 1
  {
    Snapshots(ts, Handled(ts))
  }

  /** The run of the first `k` tokens is the run of the first `k - 1` followed by one `Step`. */
  lemma {:induction false} RunUnfold(ts: seq<string>, k: nat)
    requires 1 <= k <= |ts|
    ensures Run(ts[..k]) ==
      match Run(ts[..k - 1])
      case Err(e) => Err(e)
      case Ok(stack) => Step(stack, ts[k - 1], k)
  {
    assert ts[..k][..k - 1] == ts[..k - 1];
  }

  /**
   * The stack-height invariant: after tokens handled without error the
   * stack holds one value per number less one per operator.
   */
  lemma {:induction false} RunHeight(ts: seq<string>)
    requires Run(ts).Ok?
    ensures |Run(ts).value| == Literals(ts) - Operators(ts)
  {
    if ts != [] {
      RunHeight(ts[..|ts| - 1]);
    }
  }

  /** Once a prefix fails, the whole sequence fails with the same error. */
  lemma {:induction false} RunPrefixError(ts: seq<string>, k: nat)
    requires k <= |ts| && Run(ts[..k]).Err?
    ensures Run(ts) == Run(ts[..k])
    decreases |ts|
  {
    if k < |ts| {
      var init := ts[..|ts| - 1];
      assert init[..k] == ts[..k];
      RunPrefixError(init, k);
    } else {
      assert ts[..k] == ts;
    }
  }

  /** A handled token adds one trace line. */
  lemma {:induction false} SnapshotsExtend(ts: seq<string>, p: nat)
    requires 1 <= p <= |ts|
    ensures Snapshots(ts, p) == Snapshots(ts, p - 1) + [SnapshotAfter(ts, p)]
  {
  }

  /** The token at position `p` fails after the ones before it were handled: that error is the outcome. */
  lemma {:induction false} StopAt(ts: seq<string>, p: nat, stack: seq<i32>)
    requires 1 <= p <= |ts| && Run(ts[..p - 1]) == Ok(stack)
    requires Step(stack, ts[p - 1], p).Err?
    ensures Run(ts) == Err(Step(stack, ts[p - 1], p).error)
    ensures EvaluateTokens(ts) == Err(Step(stack, ts[p - 1], p).error)
    ensures Handled(ts) == p - 1
  {
    RunUnfold(ts, p);
    RunPrefixError(ts, p);
  }

  /** `RpnCalculator::new(verbose)`: the flag is only ever read to decide whether to trace. */
  datatype RpnCalculator = RpnCalculator(verbose: bool) {

    /** `eval`: tokenise, reverse, and run the loop; the trace stands for the verbose `println!` lines. */
    method Eval(formula: string) returns (r: Result<i32, EvalError>, trace: seq<Snapshot>)
      ensures r == Evaluate(formula)
      ensures trace == if verbose then Trace(SplitWhitespace(formula)) else []
    {
      var tokens := Reversed(SplitWhitespace(formula));
      ReversedTwice(SplitWhitespace(formula));
      r, trace := EvalInner(tokens);
    }

    /** `eval_inner`: pop tokens from the end of the reversed vector until it is empty. */
    method EvalInner(reversedTokens: seq<string>) returns (r: Result<i32, EvalError>, trace: seq<Snapshot>)
      ensures r == EvaluateTokens(Reversed(reversedTokens))
      ensures trace == if verbose then Trace(Reversed(reversedTokens)) else []
    {
      ghost var all := Reversed(reversedTokens);
      var tokens := reversedTokens;
      var stack: seq<i32> := [];
      var pos: nat := 0;
      trace := [];
      while tokens != []
        invariant pos <= |all| && tokens == reversedTokens[..|all| - pos]
        invariant Run(all[..pos]) == Ok(stack)
        invariant trace == if verbose then Snapshots(all, pos) else []
        decreases |tokens|
      {
        var token := tokens[|tokens| - 1];
        tokens := tokens[..|tokens| - 1];
        pos := pos + 1;
        ghost var before := stack;
        ReversedAt(reversedTokens, pos - 1);
        assert token == all[pos - 1];
        match ParseI32(token) {
          case Some(v) =>
            stack := stack + [v];
          case None =>
            if stack == [] {
              r := Err(InvalidSyntaxAt(pos));
              StopAt(all, pos, before);
              return;
            }
            var y := stack[|stack| - 1];
            stack := stack[..|stack| - 1];
            if stack == [] {
              r := Err(InvalidSyntaxAt(pos));
              StopAt(all, pos, before);
              return;
            }
            var x := stack[|stack| - 1];
            stack := stack[..|stack| - 1];
            assert x == before[|before| - 2] && y == before[|before| - 1];
            assert stack == before[..|before| - 2];
            match ParseOp(token) {
              case None =>
                r := Err(InvalidTokenAt(pos));
                StopAt(all, pos, before);
                return;
              case Some(op) =>
                match Apply(op, x, y) {
                  case Err(f) =>
                    r := Err(Panic(pos, f));
                    StopAt(all, pos, before);
                    return;
                  case Ok(res) =>
                    stack := stack + [res];
                }
            }
        }
        assert Step(before, all[pos - 1], pos) == Ok(stack);
        RunUnfold(all, pos);
        if verbose {
          ReversedSuffix(reversedTokens, pos);
          SnapshotsExtend(all, pos);
          trace := trace + [Snapshot(tokens, stack)];
        }
      }
      assert all[..pos] == all;
      if |stack| != 1 {
        r := Err(InvalidSyntax);
        return;
      }
      r := Ok(stack[0]);
    }
  }
}
