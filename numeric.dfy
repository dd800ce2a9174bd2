/** Sums and means of price and volume columns in exact real arithmetic, and
    the float64 values of the screener's divisions: finite, ±inf or NaN, with
    division and the comparisons `>` and `<` as floats define them. */
module Numeric {

  /** A float64 as the screener can produce it: a finite value, an infinity
      from dividing a non-zero number by zero, or NaN (0/0, or a rolling
      window that is not full yet). */
  datatype Value = Finite(x: real) | PosInf | NegInf | NaN

  /** Float division `a / b` of finite operands. */
  function Div(a: real, b: real): (r: Value)
    ensures b != 0.0 ==> r == Finite(a / b)
    ensures b == 0.0 ==> (r.PosInf? <==> a > 0.0) && (r.NegInf? <==> a < 0.0) && (r.NaN? <==> a == 0.0)
  {
    if b != 0.0 then Finite(a / b)
    else if a > 0.0 then PosInf
    else if a < 0.0 then NegInf
    else NaN
  }

  /** `v > t`: false for NaN, true for +inf. */
  predicate Gt(v: Value, t: real)
  {
    v.PosInf? || (v.Finite? && v.x > t)
  }

  /** `v < t`: false for NaN, true for -inf. */
  predicate Lt(v: Value, t: real)
  {
    v.NegInf? || (v.Finite? && v.x < t)
  }

  /** The sum of a column, left to right. */
  function Sum(s: seq<real>): real
  {
    if s == [] then 0.0 else Sum(s[..|s| - 1]) + s[|s| - 1]
  }

  /** The arithmetic mean of a non-empty column. */
  function Mean(s: seq<real>): real
    requires |s| > 0
  {
    Sum(s) / (|s| as real)
  }

  /** Scaling every element scales the sum. */
  lemma {:induction false} SumScale(s: seq<real>, t: seq<real>, c: real)
    requires |s| == |t|
    requires forall i :: 0 <= i < |s| ==> t[i] == c * s[i]
    ensures Sum(t) == c * Sum(s)
  {
    if s != [] {
      SumScale(s[..|s| - 1], t[..|t| - 1], c);
    }
  }

  /** The sum of a column whose entries all equal `c` is `|s| * c`. */
  lemma {:induction false} SumConstant(s: seq<real>, c: real)
    requires forall i :: 0 <= i < |s| ==> s[i] == c
    ensures Sum(s) == (|s| as real) * c
  {
    if s != [] {
      SumConstant(s[..|s| - 1], c);
    }
  }
}
