/**
 * Forecast-error statistics over an observed and a model column, read from
 * the whole frame or from the sub-table of one lead day
 * (statistical_analysis.py).
 *
 * Each statistic is a method that walks the zipped (observed, model) pairs
 * once and updates running accumulators, as the source does; each is proved
 * equal to a specification function built from a recursive sum over the
 * pairs, and the properties of the statistic are lemmas about that function.
 */
module StatisticalAnalysis {
  import opened Frames

  /** An (observed, model) pair, in the order zip(df[observed], df[model]) yields it. */
  type Pair = (real, real)

  /**
   * The pairs each statistic iterates over: the observed column is looked up
   * before the model column, from the frame itself when lead is None and
   * from the lead day's sub-table otherwise.
   */
  function Pairs(lead: Option<LeadDay>, df: Frame<real>, model: ColumnName, observed: ColumnName)
    : (r: Result<seq<Pair>, Error>)
    ensures r.Success? <==> lead in df && observed in df[lead] && model in df[lead]
    ensures r.Success? ==> r.value == Zip(df[lead][observed], df[lead][model])
    ensures r.Failure? ==> r.error == MissingKey
  {
    match Column(df, lead, observed)
    case Failure(e) => Failure(e)
    case Success(obs) =>
      match Column(df, lead, model)
      case Failure(e) => Failure(e)
      case Success(mod) => Success(Zip(obs, mod))
  }

  /**
   * A lead day only selects the table the pairs come from: the pairs of lead
   * day d are those of a frame whose own columns are d's sub-table.
   */
  lemma LeadDaySelectsSubTable(df: Frame<real>, d: LeadDay, model: ColumnName, observed: ColumnName)
    requires Some(d) in df
    ensures Pairs(Some(d), df, model, observed) == Pairs(None, map[None := df[Some(d)]], model, observed)
  {
  }

  /**
   * Hence each statistic of lead day d is that statistic computed on a frame
   * whose own columns are d's sub-table: the two branches of every loop
   * compute the same thing.
   */
  lemma LeadDayStatistics(df: Frame<real>, d: LeadDay, model: ColumnName, observed: ColumnName, threshold: real)
    requires Some(d) in df
    ensures var sub := map[None := df[Some(d)]];
      && MeanAbsoluteBiasOf(Some(d), df, model, observed) == MeanAbsoluteBiasOf(None, sub, model, observed)
      && MeanSquaredErrorOf(Some(d), df, model, observed) == MeanSquaredErrorOf(None, sub, model, observed)
      && PercentGrossErrorOf(Some(d), df, model, observed, threshold)
         == PercentGrossErrorOf(None, sub, model, observed, threshold)
      && MeanAbsolutePercentageErrorOf(Some(d), df, model, observed)
         == MeanAbsolutePercentageErrorOf(None, sub, model, observed)
  {
    LeadDaySelectsSubTable(df, d, model, observed);
  }

  // ---------------------------------------------------------------------
  // Recursive sums over the pairs
  // ---------------------------------------------------------------------

  /** Sum of |observed - model| over the pairs. */
  function SumAbsDiff(ps: seq<Pair>): (r: real)
    ensures r >= 0.0
  {
    if ps == [] then 0.0
    else var n := |ps| - 1; SumAbsDiff(ps[..n]) + Abs(ps[n].0 - ps[n].1)
  }

  /** Sum of (model - observed)^2 over the pairs. */
  function SumSquaredDiff(ps: seq<Pair>): (r: real)
    ensures r >= 0.0
  {
    if ps == [] then 0.0
    else
      var n := |ps| - 1;
      AddSquare(SumSquaredDiff(ps[..n]), ps[n].1 - ps[n].0);
      SumSquaredDiff(ps[..n]) + (ps[n].1 - ps[n].0) * (ps[n].1 - ps[n].0)
  }

  /** Adding a square to a sum that is not negative keeps it so, and leaves it zero only when both were zero. */
  lemma AddSquare(sum: real, x: real)
    requires sum >= 0.0
    ensures sum + x * x >= 0.0
    ensures sum + x * x == 0.0 <==> sum == 0.0 && x == 0.0
  {
    assert x * x >= 0.0;
    if sum + x * x == 0.0 {
      ZeroProduct(x, x);
    }
  }

  lemma ZeroProduct(x: real, y: real)
    requires x * y == 0.0
    ensures x == 0.0 || y == 0.0
  {
    if x != 0.0 {
      assert y == (x * y) / x;
    }
  }

  /** How many pairs have |observed - model| >= threshold. */
  function GrossCount(ps: seq<Pair>, threshold: real): (r: nat)
    ensures r <= |ps|
  {
    if ps == [] then 0
    else
      var n := |ps| - 1;
      GrossCount(ps[..n], threshold) + (if Abs(ps[n].0 - ps[n].1) >= threshold then 1 else 0)
  }

  predicate NonZeroObserved(ps: seq<Pair>) {
    forall i :: 0 <= i < |ps| ==> ps[i].0 != 0.0
  }

  /** Sum of |observed - model| / observed * 100 over the pairs; the division is by the signed observed value. */
  function SumPercentError(ps: seq<Pair>): (r: real)
    requires NonZeroObserved(ps)
    ensures (forall i :: 0 <= i < |ps| ==> ps[i].0 > 0.0) ==> r >= 0.0
    ensures (forall i :: 0 <= i < |ps| ==> ps[i].0 < 0.0) ==> r <= 0.0
  {
    if ps == [] then 0.0
    else
      var n := |ps| - 1;
      SumPercentError(ps[..n]) + Abs(ps[n].0 - ps[n].1) / ps[n].0 * 100.0
  }

  /** Every pair agrees exactly. */
  predicate Exact(ps: seq<Pair>) {
    forall i :: 0 <= i < |ps| ==> ps[i].0 == ps[i].1
  }

  lemma {:induction false} SumAbsDiffZeroIff(ps: seq<Pair>)
    ensures SumAbsDiff(ps) == 0.0 <==> Exact(ps)
  {
    if ps != [] {
      var n := |ps| - 1;
      SumAbsDiffZeroIff(ps[..n]);
      assert Exact(ps) <==> Exact(ps[..n]) && ps[n].0 == ps[n].1;
    }
  }

  lemma {:induction false} SumSquaredDiffZeroIff(ps: seq<Pair>)
    ensures SumSquaredDiff(ps) == 0.0 <==> Exact(ps)
  {
    if ps != [] {
      var n := |ps| - 1;
      SumSquaredDiffZeroIff(ps[..n]);
      AddSquare(SumSquaredDiff(ps[..n]), ps[n].1 - ps[n].0);
      assert Exact(ps) <==> Exact(ps[..n]) && ps[n].0 == ps[n].1;
    }
  }

  /** A higher threshold flags no more pairs. */
  lemma {:induction false} GrossCountAntitone(ps: seq<Pair>, low: real, high: real)
    requires low <= high
    ensures GrossCount(ps, high) <= GrossCount(ps, low)
  {
    if ps != [] {
      GrossCountAntitone(ps[..|ps| - 1], low, high);
    }
  }

  /** A threshold that is not positive flags every pair, since |observed - model| >= 0. */
  lemma {:induction false} GrossCountAll(ps: seq<Pair>, threshold: real)
    requires threshold <= 0.0
    ensures GrossCount(ps, threshold) == |ps|
  {
    if ps != [] {
      GrossCountAll(ps[..|ps| - 1], threshold);
    }
  }

  lemma {:induction false} SumPercentErrorExact(ps: seq<Pair>)
    requires NonZeroObserved(ps) && Exact(ps)
    ensures SumPercentError(ps) == 0.0
  {
    if ps != [] {
      SumPercentErrorExact(ps[..|ps| - 1]);
    }
  }

  // ---------------------------------------------------------------------
  // mean_absolute_bias
  // ---------------------------------------------------------------------

  /** The mean of |observed - model| over the zipped pairs. */
  function MeanAbsoluteBiasOf(lead: Option<LeadDay>, df: Frame<real>, model: ColumnName, observed: ColumnName)
    : (r: Result<real, Error>)
    ensures r.Success? <==> Pairs(lead, df, model, observed).Success? && |Pairs(lead, df, model, observed).value| > 0
    ensures r.Success? ==> r.value >= 0.0
  {
    match Pairs(lead, df, model, observed)
    case Failure(e) => Failure(e)
    case Success(ps) =>
      if |ps| == 0 then Failure(DivisionByZero) else Success(SumAbsDiff(ps) / |ps| as real)
  }

  method MeanAbsoluteBias(lead: Option<LeadDay>, df: Frame<real>, model: ColumnName, observed: ColumnName)
    returns (r: Result<real, Error>)
    ensures r == MeanAbsoluteBiasOf(lead, df, model, observed)
  {
    var pairs := Pairs(lead, df, model, observed);
    if pairs.Failure? {
      return Failure(pairs.error);
    }
    var ps := pairs.value;
    var count, avgdiff := 0, 0.0;
    for i := 0 to |ps|
      invariant count == i
      invariant avgdiff == SumAbsDiff(ps[..i])
    {
      var (a, j) := ps[i];
      avgdiff := avgdiff + Abs(a - j);
      count := count + 1;
      assert ps[..i + 1][..i] == ps[..i];
    }
    assert ps[..|ps|] == ps;
    if count == 0 {
      return Failure(DivisionByZero);
    }
    r := Success(avgdiff / count as real);
  }

  /** The mean absolute bias is zero exactly when the two columns agree on every zipped row. */
  lemma MeanAbsoluteBiasZeroIff(lead: Option<LeadDay>, df: Frame<real>, model: ColumnName, observed: ColumnName)
    requires MeanAbsoluteBiasOf(lead, df, model, observed).Success?
    ensures var obs, mod := df[lead][observed], df[lead][model];
      MeanAbsoluteBiasOf(lead, df, model, observed).value == 0.0
      <==> forall i :: 0 <= i < Min(|obs|, |mod|) ==> obs[i] == mod[i]
  {
    var ps := Pairs(lead, df, model, observed).value;
    SumAbsDiffZeroIff(ps);
    ZeroQuotient(SumAbsDiff(ps), |ps| as real);
  }

  // ---------------------------------------------------------------------
  // total_mean_bias
  // ---------------------------------------------------------------------

  function Sum(xs: seq<real>): real {
    if xs == [] then 0.0 else Sum(xs[..|xs| - 1]) + xs[|xs| - 1]
  }

  /**
   * The mean absolute bias of each lead day in turn, as the list
   * comprehension builds them; the first lead day that fails stops it with
   * that lead day's error.
   */
  function LeadBiases(leads: seq<Option<LeadDay>>, df: Frame<real>, model: ColumnName, observed: ColumnName)
    : (r: Result<seq<real>, Error>)
    ensures r.Success? <==> forall i :: 0 <= i < |leads| ==> MeanAbsoluteBiasOf(leads[i], df, model, observed).Success?
    ensures r.Success? ==> (
      && |r.value| == |leads|
      && forall i :: 0 <= i < |leads| ==> MeanAbsoluteBiasOf(leads[i], df, model, observed) == Success(r.value[i]))
    ensures r.Failure? ==> exists i :: (
      && 0 <= i < |leads|
      && MeanAbsoluteBiasOf(leads[i], df, model, observed) == Failure(r.error)
      && forall k :: 0 <= k < i ==> MeanAbsoluteBiasOf(leads[k], df, model, observed).Success?)
  {
    if leads == [] then Success([])
    else
      match MeanAbsoluteBiasOf(leads[0], df, model, observed)
      case Failure(e) => Failure(e)
      case Success(b) =>
        match LeadBiases(leads[1..], df, model, observed)
        case Failure(e) => Failure(e)
        case Success(bs) => Success([b] + bs)
  }

  /** total_mean_bias: the mean over the lead days of their mean absolute bias. */
  function TotalMeanBias(leads: seq<Option<LeadDay>>, df: Frame<real>, model: ColumnName, observed: ColumnName)
    : (r: Result<real, Error>)
    ensures r.Success? <==> |leads| > 0 && LeadBiases(leads, df, model, observed).Success?
    ensures r.Success? ==> r.value == Sum(LeadBiases(leads, df, model, observed).value) / |leads| as real
    ensures leads == [] ==> r == Failure(EmptyMean)
  {
    match LeadBiases(leads, df, model, observed)
    case Failure(e) => Failure(e)
    case Success(bs) => if |bs| == 0 then Failure(EmptyMean) else Success(Sum(bs) / |bs| as real)
  }

  lemma {:induction false} SumNonNegative(xs: seq<real>)
    requires forall i :: 0 <= i < |xs| ==> xs[i] >= 0.0
    ensures Sum(xs) >= 0.0
    ensures Sum(xs) == 0.0 <==> forall i :: 0 <= i < |xs| ==> xs[i] == 0.0
  {
    if xs != [] {
      SumNonNegative(xs[..|xs| - 1]);
    }
  }

  /**
   * The total mean bias is not negative, and it is zero exactly when every
   * lead day's mean absolute bias is zero.
   */
  lemma TotalMeanBiasZeroIff(leads: seq<Option<LeadDay>>, df: Frame<real>, model: ColumnName, observed: ColumnName)
    requires TotalMeanBias(leads, df, model, observed).Success?
    ensures TotalMeanBias(leads, df, model, observed).value >= 0.0
    ensures TotalMeanBias(leads, df, model, observed).value == 0.0
      <==> forall i :: 0 <= i < |leads| ==> MeanAbsoluteBiasOf(leads[i], df, model, observed).value == 0.0
  {
    var bs := LeadBiases(leads, df, model, observed).value;
    SumNonNegative(bs);
    ZeroQuotient(Sum(bs), |leads| as real);
    DivNonNegative(Sum(bs), |leads| as real);
  }

  /** Over lead days 1 and 2 the total is the average of their two biases. */
  lemma TotalMeanBiasOfTwo(df: Frame<real>, model: ColumnName, observed: ColumnName)
    requires MeanAbsoluteBiasOf(Some(1), df, model, observed).Success?
    requires MeanAbsoluteBiasOf(Some(2), df, model, observed).Success?
    ensures TotalMeanBias([Some(1), Some(2)], df, model, observed)
         == Success((MeanAbsoluteBiasOf(Some(1), df, model, observed).value
                     + MeanAbsoluteBiasOf(Some(2), df, model, observed).value) / 2.0)
  {
    var leads := [Some(1), Some(2)];
    var b1 := MeanAbsoluteBiasOf(Some(1), df, model, observed).value;
    var b2 := MeanAbsoluteBiasOf(Some(2), df, model, observed).value;
    var none: seq<Option<LeadDay>> := [];
    assert leads[1..] == [Some(2)] && [Some(2)][1..] == none;
    assert LeadBiases([Some(2)], df, model, observed) == Success([b2] + []);
    assert [b2] + [] == [b2];
    assert LeadBiases(leads[1..], df, model, observed) == Success([b2]);
    assert LeadBiases(leads, df, model, observed) == Success([b1] + [b2]);
    var bs := [b1, b2];
    assert [b1] + [b2] == bs;
    assert bs[..1] == [b1] && [b1][..0] == [];
    assert Sum([b1]) == b1;
    assert Sum(bs) == b1 + b2;
  }

  // ---------------------------------------------------------------------
  // root_mean_squared_error, up to the mean of the squares
  // ---------------------------------------------------------------------

  /** The mean of (model - observed)^2 over the zipped pairs: the square of the RMSE. */
  function MeanSquaredErrorOf(lead: Option<LeadDay>, df: Frame<real>, model: ColumnName, observed: ColumnName)
    : (r: Result<real, Error>)
    ensures r.Success? <==> Pairs(lead, df, model, observed).Success? && |Pairs(lead, df, model, observed).value| > 0
    ensures r.Success? ==> r.value >= 0.0
  {
    match Pairs(lead, df, model, observed)
    case Failure(e) => Failure(e)
    case Success(ps) =>
      if |ps| == 0 then Failure(DivisionByZero) else Success(SumSquaredDiff(ps) / |ps| as real)
  }

  method MeanSquaredError(lead: Option<LeadDay>, df: Frame<real>, model: ColumnName, observed: ColumnName)
    returns (r: Result<real, Error>)
    ensures r == MeanSquaredErrorOf(lead, df, model, observed)
  {
    var pairs := Pairs(lead, df, model, observed);
    if pairs.Failure? {
      return Failure(pairs.error);
    }
    var ps := pairs.value;
    var count, total := 0, 0.0;
    for i := 0 to |ps|
      invariant count == i
      invariant total == SumSquaredDiff(ps[..i])
    {
      var (a, j) := ps[i];
      var diffsquared := (j - a) * (j - a);
      total := total + diffsquared;
      count := count + 1;
      assert ps[..i + 1][..i] == ps[..i];
    }
    assert ps[..|ps|] == ps;
    if count == 0 {
      return Failure(DivisionByZero);
    }
    r := Success(total / count as real);
  }

  /** The mean of the squares is zero exactly when the model matches the observations on every zipped row. */
  lemma MeanSquaredErrorZeroIff(lead: Option<LeadDay>, df: Frame<real>, model: ColumnName, observed: ColumnName)
    requires MeanSquaredErrorOf(lead, df, model, observed).Success?
    ensures var obs, mod := df[lead][observed], df[lead][model];
      MeanSquaredErrorOf(lead, df, model, observed).value == 0.0
      <==> forall i :: 0 <= i < Min(|obs|, |mod|) ==> obs[i] == mod[i]
  {
    var ps := Pairs(lead, df, model, observed).value;
    SumSquaredDiffZeroIff(ps);
    ZeroQuotient(SumSquaredDiff(ps), |ps| as real);
  }

  // ---------------------------------------------------------------------
  // percent_gross_error
  // ---------------------------------------------------------------------

  /** The fraction (not a percentage) of zipped pairs with |observed - model| >= threshold. */
  function PercentGrossErrorOf(lead: Option<LeadDay>, df: Frame<real>, model: ColumnName, observed: ColumnName,
                               threshold: real): (r: Result<real, Error>)
    ensures r.Success? <==> Pairs(lead, df, model, observed).Success? && |Pairs(lead, df, model, observed).value| > 0
  {
    match Pairs(lead, df, model, observed)
    case Failure(e) => Failure(e)
    case Success(ps) =>
      if |ps| == 0 then Failure(DivisionByZero)
      else Success(GrossCount(ps, threshold) as real / |ps| as real)
  }

  method PercentGrossError(lead: Option<LeadDay>, df: Frame<real>, model: ColumnName, observed: ColumnName,
                           threshold: real) returns (r: Result<real, Error>)
    ensures r == PercentGrossErrorOf(lead, df, model, observed, threshold)
    ensures r.Success? ==> 0.0 <= r.value <= 1.0
  {
    var pairs := Pairs(lead, df, model, observed);
    if pairs.Failure? {
      return Failure(pairs.error);
    }
    var ps := pairs.value;
    var count, count2 := 0, 0;
    for i := 0 to |ps|
      invariant count2 == i
      invariant count == GrossCount(ps[..i], threshold)
      invariant count <= count2
    {
      var (a, j) := ps[i];
      if Abs(a - j) >= threshold {
        count := count + 1;
      }
      count2 := count2 + 1;
      assert ps[..i + 1][..i] == ps[..i];
    }
    assert ps[..|ps|] == ps;
    if count2 == 0 {
      return Failure(DivisionByZero);
    }
    DivBounds(count as real, count2 as real);
    r := Success(count as real / count2 as real);
  }

  /** Raising the threshold never raises the fraction of gross errors. */
  lemma PercentGrossErrorAntitone(lead: Option<LeadDay>, df: Frame<real>, model: ColumnName, observed: ColumnName,
                                  low: real, high: real)
    requires low <= high
    requires PercentGrossErrorOf(lead, df, model, observed, low).Success?
    ensures PercentGrossErrorOf(lead, df, model, observed, high).value
         <= PercentGrossErrorOf(lead, df, model, observed, low).value
  {
    var ps := Pairs(lead, df, model, observed).value;
    GrossCountAntitone(ps, low, high);
    DivMonotone(GrossCount(ps, high) as real, GrossCount(ps, low) as real, |ps| as real);
  }

  /** A threshold that is not positive makes every pair a gross error. */
  lemma PercentGrossErrorNonPositiveThreshold(lead: Option<LeadDay>, df: Frame<real>, model: ColumnName,
                                              observed: ColumnName, threshold: real)
    requires threshold <= 0.0
    requires PercentGrossErrorOf(lead, df, model, observed, threshold).Success?
    ensures PercentGrossErrorOf(lead, df, model, observed, threshold).value == 1.0
  {
    var ps := Pairs(lead, df, model, observed).value;
    GrossCountAll(ps, threshold);
    assert |ps| as real / |ps| as real == 1.0;
  }

  // ---------------------------------------------------------------------
  // mean_absolute_percentage_error
  // ---------------------------------------------------------------------

  /**
   * The mean over the zipped pairs of |observed - model| / observed * 100;
   * DivisionByZero when there is no pair or when an observed value is zero.
   */
  function MeanAbsolutePercentageErrorOf(lead: Option<LeadDay>, df: Frame<real>, model: ColumnName,
                                         observed: ColumnName): (r: Result<real, Error>)
    ensures r.Success? <==> (
      && Pairs(lead, df, model, observed).Success?
      && |Pairs(lead, df, model, observed).value| > 0
      && NonZeroObserved(Pairs(lead, df, model, observed).value))
  {
    match Pairs(lead, df, model, observed)
    case Failure(e) => Failure(e)
    case Success(ps) =>
      if !NonZeroObserved(ps) || |ps| == 0 then Failure(DivisionByZero)
      else Success(SumPercentError(ps) / |ps| as real)
  }

  method MeanAbsolutePercentageError(lead: Option<LeadDay>, df: Frame<real>, model: ColumnName,
                                     observed: ColumnName) returns (r: Result<real, Error>)
    ensures r == MeanAbsolutePercentageErrorOf(lead, df, model, observed)
  {
    var pairs := Pairs(lead, df, model, observed);
    if pairs.Failure? {
      return Failure(pairs.error);
    }
    var ps := pairs.value;
    var count, percentError := 0, 0.0;
    for i := 0 to |ps|
      invariant count == i
      invariant NonZeroObserved(ps[..i])
      invariant percentError == SumPercentError(ps[..i])
    {
      var (a, j) := ps[i];
      if a == 0.0 {
        return Failure(DivisionByZero);
      }
      var val := Abs(a - j) / a;
      percentError := percentError + val * 100.0;
      count := count + 1;
      assert ps[..i + 1][..i] == ps[..i];
    }
    assert ps[..|ps|] == ps;
    if count == 0 {
      return Failure(DivisionByZero);
    }
    r := Success(percentError / count as real);
  }

  /** A model that matches the observations on every zipped row has zero percentage error. */
  lemma MeanAbsolutePercentageErrorExact(lead: Option<LeadDay>, df: Frame<real>, model: ColumnName,
                                         observed: ColumnName)
    requires MeanAbsolutePercentageErrorOf(lead, df, model, observed).Success?
    requires Exact(Pairs(lead, df, model, observed).value)
    ensures MeanAbsolutePercentageErrorOf(lead, df, model, observed).value == 0.0
  {
    SumPercentErrorExact(Pairs(lead, df, model, observed).value);
  }

  /** With positive observations the percentage error is not negative. */
  lemma MeanAbsolutePercentageErrorPositiveObserved(lead: Option<LeadDay>, df: Frame<real>, model: ColumnName,
                                                    observed: ColumnName)
    requires MeanAbsolutePercentageErrorOf(lead, df, model, observed).Success?
    requires forall i :: 0 <= i < Min(|df[lead][observed]|, |df[lead][model]|) ==> df[lead][observed][i] > 0.0
    ensures MeanAbsolutePercentageErrorOf(lead, df, model, observed).value >= 0.0
  {
    var ps := Pairs(lead, df, model, observed).value;
    DivNonNegative(SumPercentError(ps), |ps| as real);
  }

  /**
   * The division is by the signed observed value, so a negative observation
   * gives a negative term: observed -1 against model 0 gives -100.
   */
  lemma MeanAbsolutePercentageErrorNegativeObserved()
    ensures MeanAbsolutePercentageErrorOf(None, map[None := map["obs" := [-1.0], "mod" := [0.0]]], "mod", "obs")
         == Success(-100.0)
  {
    var df := map[None := map["obs" := [-1.0], "mod" := [0.0]]];
    var ps := Pairs(None, df, "mod", "obs").value;
    assert ps == [(-1.0, 0.0)];
    assert ps[..0] == [];
  }
}
