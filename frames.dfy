/**
 * The tabular data both statistics modules read: a data frame whose columns
 * are looked up by name, optionally after selecting the sub-table of one
 * forecast lead day, together with the two Python built-ins the statistics
 * lean on (zip and abs) and the ways a computation can fail.
 */
module Frames {

  datatype Option<+T> = None | Some(value: T)

  datatype Result<+T, +E> = Success(value: T) | Failure(error: E)

  /** Why a statistic has no real-valued result. */
  datatype Error =
    | MissingKey      // a lead day or a column name the frame does not have (a KeyError)
    | DivisionByZero  // a zero denominator: a ZeroDivisionError, or an inf/NaN under numpy
    | EmptyMean       // the mean of an empty list (NaN under numpy)

  /** A forecast horizon, in days. */
  type LeadDay = int

  type ColumnName = string

  /** One table: columns by name. */
  type Table<V> = map<ColumnName, seq<V>>

  /**
   * A data frame: the key None stands for the frame itself (`df[col]`), the
   * key Some(d) for the sub-table of lead day d (`df[d][col]`).
   */
  type Frame<V> = map<Option<LeadDay>, Table<V>>

  /** Every column of a table has the same number of rows, as in a pandas DataFrame. */
  predicate Rectangular<V>(t: Table<V>) {
    forall a, b :: a in t && b in t ==> |t[a]| == |t[b]|
  }

  predicate WellFormed<V>(df: Frame<V>) {
    forall k :: k in df ==> Rectangular(df[k])
  }

  /** `df[name]` when lead is None, `df[lead][name]` otherwise. */
  function Column<V>(df: Frame<V>, lead: Option<LeadDay>, name: ColumnName): (r: Result<seq<V>, Error>)
    ensures r.Success? <==> lead in df && name in df[lead]
    ensures r.Success? ==> r.value == df[lead][name]
    ensures r.Failure? ==> r.error == MissingKey
  {
    if lead in df && name in df[lead] then Success(df[lead][name]) else Failure(MissingKey)
  }

  function Min(a: int, b: int): int {
    if a <= b then a else b
  }

  function Abs(x: real): (r: real)
    ensures r >= 0.0 && (r == 0.0 <==> x == 0.0)
  {
    if x < 0.0 then -x else x
  }

  /** Python's zip: pairs up elements position by position and stops at the shorter sequence. */
  function Zip<A, B>(xs: seq<A>, ys: seq<B>): (ps: seq<(A, B)>)
    ensures |ps| == Min(|xs|, |ys|)
    ensures forall i :: 0 <= i < |ps| ==> ps[i] == (xs[i], ys[i])
  {
    if xs == [] || ys == [] then [] else [(xs[0], ys[0])] + Zip(xs[1..], ys[1..])
  }

  // ---------------------------------------------------------------------
  // Real arithmetic the statistics' divisions need
  // ---------------------------------------------------------------------

  lemma MulPositive(x: real, y: real)
    requires x > 0.0 && y > 0.0
    ensures x * y > 0.0
  {
  }

  lemma MulNonNegative(x: real, y: real)
    requires x >= 0.0 && y >= 0.0
    ensures x * y >= 0.0
  {
  }

  /** A quotient with a positive denominator is at most k when its numerator is at most k times the denominator. */
  lemma DivAtMost(n: real, d: real, k: real)
    requires d > 0.0 && n <= k * d
    ensures n / d <= k
  {
    var q := n / d;
    assert q * d == n;
    if q > k {
      MulPositive(q - k, d);
    }
  }

  /** 0 <= n/d <= 1 when 0 <= n <= d, and n/d > 0 when n > 0. */
  lemma DivBounds(n: real, d: real)
    requires 0.0 <= n <= d && d > 0.0
    ensures 0.0 <= n / d <= 1.0
    ensures n > 0.0 ==> n / d > 0.0
  {
    DivAtMost(n, d, 1.0);
  }

  lemma DivNonNegative(n: real, d: real)
    requires n >= 0.0 && d > 0.0
    ensures n / d >= 0.0
  {
  }

  lemma DivMonotone(m: real, n: real, d: real)
    requires m <= n && d > 0.0
    ensures m / d <= n / d
  {
  }

  /** n/d is zero exactly when n is, for a positive d. */
  lemma ZeroQuotient(n: real, d: real)
    requires d > 0.0
    ensures n / d == 0.0 <==> n == 0.0
  {
    if n / d == 0.0 {
      assert n == (n / d) * d;
    }
  }
}
