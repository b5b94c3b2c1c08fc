/**
 * The tokeniser of the evaluator: Rust's `str::split_whitespace`, which
 * splits a line at every run of Unicode white space and never yields an
 * empty token.
 */
module Lexer {
  /** The Unicode White_Space property, which is what `char::is_whitespace` tests. */
  predicate IsWhitespace(c: char) {
    ('\t' <= c <= '\r') || c == ' ' || c == '\U{85}' || c == '\U{A0}' || c == '\U{1680}'
    || ('\U{2000}' <= c <= '\U{200A}') || c == '\U{2028}' || c == '\U{2029}'
    || c == '\U{202F}' || c == '\U{205F}' || c == '\U{3000}'
  }

  predicate NoWhitespace(s: string) {
    forall i :: 0 <= i < |s| ==> !IsWhitespace(s[i])
  }

  /** A token as `split_whitespace` produces it: non-empty, without white space. */
  predicate IsToken(t: string) {
    t != [] && NoWhitespace(t)
  }

  /** The length of the white-space-free word at the start of `s`. */
  function WordLength(s: string): (n: nat)
    ensures n <= |s|
    ensures NoWhitespace(s[..n])
    ensures n < |s| ==> IsWhitespace(s[n])
  {
    if s == [] || IsWhitespace(s[0]) then 0
    else
      var m := WordLength(s[1..]);
      assert s[..1 + m] == [s[0]] + s[1..][..m];
      1 + m
  }

  /** The tokens of `s`, left to right. */
  function SplitWhitespace(s: string): (ts: seq<string>)
    ensures forall i :: 0 <= i < |ts| ==> IsToken(ts[i])
    decreases |s|
  {
    if s == [] then []
    else if IsWhitespace(s[0]) then SplitWhitespace(s[1..])
    else
      var n := WordLength(s);
      [s[..n]] + SplitWhitespace(s[n..])
  }

  /** A run of white space, possibly empty. */
  predicate IsBlank(w: string) {
    forall i :: 0 <= i < |w| ==> IsWhitespace(w[i])
  }

  /**
   * The tokens laid out between white-space runs: `gaps[0]` before the
   * first token, `gaps[i]` between token `i - 1` and token `i`, and the
   * last gap after the final token.
   */
  function Interleave(ts: seq<string>, gaps: seq<string>): string
    requires |gaps| == |ts| + 1
  {
    if ts == [] then gaps[0] else gaps[0] + ts[0] + Interleave(ts[1..], gaps[1..])
  }

  /** The tokens written out with one space between neighbours. */
  function Join(ts: seq<string>): string {
    if ts == [] then ""
    else if |ts| == 1 then ts[0]
    else ts[0] + " " + Join(ts[1..])
  }

  /** A line yields no token exactly when it is empty or all white space. */
  lemma {:induction false} SplitEmpty(s: string)
    ensures SplitWhitespace(s) == [] <==> forall i :: 0 <= i < |s| ==> IsWhitespace(s[i])
    decreases |s|
  {
    if s != [] && IsWhitespace(s[0]) {
      SplitEmpty(s[1..]);
      assert forall i :: 1 <= i < |s| ==> s[i] == s[1..][i - 1];
    }
  }

  /** A token followed by the end of the line or by white space is split off whole. */
  lemma {:induction false} SplitToken(t: string, rest: string)
    requires IsToken(t)
    requires rest == [] || IsWhitespace(rest[0])
    ensures SplitWhitespace(t + rest) == [t] + SplitWhitespace(rest)
  {
    var s := t + rest;
    var n := WordLength(s);
    assert forall i :: 0 <= i < |t| ==> s[i] == t[i];
    assert |t| < |s| ==> s[|t|] == rest[0];
    assert n == |t|;
    assert s[..n] == t;
    assert s[n..] == rest;
  }

  /** White space in front of a line is skipped, however long the run. */
  lemma {:induction false} SplitSkip(w: string, s: string)
    requires IsBlank(w)
    ensures SplitWhitespace(w + s) == SplitWhitespace(s)
    decreases |w|
  {
    if w != [] {
      assert (w + s)[1..] == w[1..] + s;
      SplitSkip(w[1..], s);
    } else {
      assert w + s == s;
    }
  }

  /**
   * Tokens separated by runs of white space of any length, with any white
   * space before the first and after the last, split back into exactly
   * those tokens, in order.
   */
  lemma {:induction false} SplitInterleave(ts: seq<string>, gaps: seq<string>)
    requires |gaps| == |ts| + 1
    requires forall i :: 0 <= i < |ts| ==> IsToken(ts[i])
    requires forall i :: 0 <= i < |gaps| ==> IsBlank(gaps[i])
    requires forall i :: 0 < i < |ts| ==> gaps[i] != []
    ensures SplitWhitespace(Interleave(ts, gaps)) == ts
    decreases |ts|
  {
    if ts == [] {
      SplitSkip(gaps[0], "");
      assert gaps[0] + "" == gaps[0];
    } else {
      var rest := Interleave(ts[1..], gaps[1..]);
      assert rest == [] || IsWhitespace(rest[0]) by {
        if gaps[1] != [] {
          assert |ts| == 1 ==> rest == gaps[1];
          assert |ts| > 1 ==> rest == gaps[1] + ts[1] + Interleave(ts[2..], gaps[2..]);
          assert rest[0] == gaps[1][0];
        } else {
          assert rest == gaps[1];
        }
      }
      assert Interleave(ts, gaps) == gaps[0] + (ts[0] + rest);
      SplitSkip(gaps[0], ts[0] + rest);
      SplitToken(ts[0], rest);
      SplitInterleave(ts[1..], gaps[1..]);
      assert ts == [ts[0]] + ts[1..];
    }
  }

  /** Splitting undoes joining: the round trip of `Join` and `SplitWhitespace`. */
  lemma {:induction false} SplitJoin(ts: seq<string>)
    requires forall i :: 0 <= i < |ts| ==> IsToken(ts[i])
    ensures SplitWhitespace(Join(ts)) == ts
  {
    if ts == [] {
    } else if |ts| == 1 {
      SplitToken(ts[0], "");
      assert ts[0] + "" == ts[0];
    } else {
      var tail := Join(ts[1..]);
      SplitJoin(ts[1..]);
      SplitToken(ts[0], " " + tail);
      assert ts[0] + " " + tail == ts[0] + (" " + tail);
      assert (" " + tail)[1..] == tail;
      assert ts == [ts[0]] + ts[1..];
    }
  }
}
