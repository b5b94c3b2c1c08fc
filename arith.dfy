/**
 * The five operators of the evaluator and Rust's `i32` arithmetic behind them.
 * `/` truncates toward zero and `%` takes the sign of the dividend. A
 * result outside the `i32` range, and a zero divisor, are host faults (a
 * panic in the source), reported here as a `Fault` value.
 */
module Arith {
  import opened Wrappers
  import opened Int32

  datatype Op = Add | Sub | Mul | Div | Rem

  /** The panics the source can hit while applying an operator. */
  datatype Fault = Overflow | DivideByZero

  function Symbol(op: Op): string {
    match op
    case Add => "+"
    case Sub => "-"
    case Mul => "*"
    case Div => "/"
    case Rem => "%"
  }

  /** The `match token` of the source: exactly the five symbols are operators. */
  function ParseOp(t: string): (r: Option<Op>)
    ensures r.Some? ==> Symbol(r.value) == t
  {
    if t == "+" then Some(Add)
    else if t == "-" then Some(Sub)
    else if t == "*" then Some(Mul)
    else if t == "/" then Some(Div)
    else if t == "%" then Some(Rem)
    else None
  }

  /** Reading an operator and writing it out are inverse. */
  lemma {:induction false} ParseOpSymbol(t: string, op: Op)
    ensures ParseOp(t) == Some(op) <==> t == Symbol(op)
  {
  }

  function Abs(x: int): nat {
    if x < 0 then -x else x
  }

  /** Euclid's division on naturals, in the form the two functions below use. */
  lemma {:induction false} NatDivision(a: nat, b: nat)
    requires b > 0
    ensures a == (a / b) * b + a % b && 0 <= a % b < b
  {
  }

  /** Division truncating toward zero, as Rust's `/` on integers. */
  function TruncDiv(x: int, y: int): (q: int)
    requires y != 0
    ensures Abs(q) * Abs(y) <= Abs(x) < Abs(q) * Abs(y) + Abs(y)
    ensures q != 0 ==> ((q < 0) <==> ((x < 0) != (y < 0)))
  {
    var m := Abs(x) / Abs(y);
    NatDivision(Abs(x), Abs(y));
    if (x < 0) == (y < 0) then m else -m
  }

  /** The remainder that goes with `TruncDiv`, as Rust's `%` on integers. */
  function TruncRem(x: int, y: int): (r: int)
    requires y != 0
    ensures x == TruncDiv(x, y) * y + r
    ensures Abs(r) < Abs(y)
    ensures r != 0 ==> ((r < 0) <==> (x < 0))
  {
    var a, b := Abs(x), Abs(y);
    var m := a % b;
    NatDivision(a, b);
    var q := TruncDiv(x, y);
    var k: int := a / b;
    assert q * y == if x < 0 then -(k * b) else k * b by {
      assert b == if y < 0 then -y else y;
      assert q == if (x < 0) == (y < 0) then k else -k;
      if y < 0 {
        assert q * y == -(q * b);
      }
    }
    if x < 0 then -m else m
  }

  /** The exact integer result of `x op y`, before it is fitted into an `i32`. */
  function Exact(op: Op, x: int, y: int): int
    requires y != 0 || !(op.Div? || op.Rem?)
  {
    match op
    case Add => x + y
    case Sub => x - y
    case Mul => x * y
    case Div => TruncDiv(x, y)
    case Rem => TruncRem(x, y)
  }

  /**
   * `x op y` on `i32`. A zero divisor faults, so does `MIN % -1` (Rust
   * computes it through the overflowing quotient), and so does every exact
   * result outside the `i32` range; otherwise the result is the exact one.
   */
  function Apply(op: Op, x: i32, y: i32): (r: Result<i32, Fault>)
    ensures r == Err(DivideByZero) <==> (op.Div? || op.Rem?) && y == 0
    ensures r == Err(Overflow) <==>
      (y != 0 || !(op.Div? || op.Rem?)) &&
      (!InRange(Exact(op, x as int, y as int)) || (op.Rem? && x as int == MIN && y == -1))
    ensures r.Ok? ==> r.value as int == Exact(op, x as int, y as int)
  {
    if (op.Div? || op.Rem?) && y == 0 then Err(DivideByZero)
    else if op.Rem? && x as int == MIN && y == -1 then Err(Overflow)
    else
      var v := Exact(op, x as int, y as int);
      if InRange(v) then Ok(v as i32) else Err(Overflow)
  }
}
