/**
 * Comparison and counting helpers over paired columns, and the
 * confusion-matrix metrics built on them (src/model_analysis.py).
 *
 * The counting helpers are numpy reductions: an element-wise comparison
 * yields a boolean mask, `&` combines two masks position by position, and
 * `np.sum` counts the true entries. The model keeps that structure.
 */
module ModelAnalysis {
  import opened Frames

  // ---------------------------------------------------------------------
  // Boolean masks and np.sum
  // ---------------------------------------------------------------------

  /** `column == v`, element by element. */
  function EqMask<T(==)>(column: seq<T>, v: T): seq<bool> {
    seq(|column|, i requires 0 <= i < |column| => column[i] == v)
  }

  /** `column < bound`, element by element. */
  function LessMask(column: seq<real>, bound: real): seq<bool> {
    seq(|column|, i requires 0 <= i < |column| => column[i] < bound)
  }

  /** `column > bound`, element by element. */
  function GreaterMask(column: seq<real>, bound: real): seq<bool> {
    seq(|column|, i requires 0 <= i < |column| => column[i] > bound)
  }

  /** `m1 & m2` on masks of one length. */
  function AndMask(m1: seq<bool>, m2: seq<bool>): seq<bool>
    requires |m1| == |m2|
  {
    seq(|m1|, i requires 0 <= i < |m1| => m1[i] && m2[i])
  }

  /** `np.sum` of a boolean mask: the number of true entries. */
  function CountTrue(m: seq<bool>): (r: nat)
    ensures r <= |m|
  {
    if m == [] then 0 else CountTrue(m[..|m| - 1]) + (if m[|m| - 1] then 1 else 0)
  }

  /** The count of a mask is the size of the set of positions where it holds. */
  lemma {:induction false} CountTrueIsCardinality(m: seq<bool>)
    ensures CountTrue(m) == |set i | 0 <= i < |m| && m[i]|
  {
    if m != [] {
      var n := |m| - 1;
      var init := m[..n];
      CountTrueIsCardinality(init);
      var before := set i | 0 <= i < n && init[i];
      var after := set i | 0 <= i < |m| && m[i];
      assert n !in before;
      if m[n] {
        assert after == before + {n};
      } else {
        assert after == before;
      }
    }
  }

  /** A mask that holds wherever another holds counts at least as much. */
  lemma {:induction false} CountTrueMonotone(a: seq<bool>, b: seq<bool>)
    requires |a| == |b|
    requires forall i :: 0 <= i < |a| && a[i] ==> b[i]
    ensures CountTrue(a) <= CountTrue(b)
  {
    if a != [] {
      var n := |a| - 1;
      CountTrueMonotone(a[..n], b[..n]);
    }
  }

  // ---------------------------------------------------------------------
  // sum_1_column, sum_2_columns, in_bounds
  // ---------------------------------------------------------------------

  /** sum_1_column: how many entries of the column equal v. */
  function SumOneColumn<T(==)>(column: seq<T>, v: T): (r: nat)
    ensures r <= |column|
    ensures r == |set i | 0 <= i < |column| && column[i] == v|
  {
    var m := EqMask(column, v);
    CountTrueIsCardinality(m);
    assert (set i | 0 <= i < |m| && m[i]) == (set i | 0 <= i < |column| && column[i] == v);
    CountTrue(m)
  }

  /** Adding one row to a column adds one to its count exactly when the row matches. */
  lemma SumOneColumnSnoc<T>(column: seq<T>, v: T)
    requires column != []
    ensures SumOneColumn(column, v)
         == SumOneColumn(column[..|column| - 1], v) + (if column[|column| - 1] == v then 1 else 0)
  {
    var n := |column| - 1;
    assert EqMask(column, v)[..n] == EqMask(column[..n], v);
  }

  /** sum_1_column is the multiplicity of v in the column. */
  lemma {:induction false} SumOneColumnIsMultiplicity<T>(column: seq<T>, v: T)
    ensures SumOneColumn(column, v) == multiset(column)[v]
  {
    if column != [] {
      var n := |column| - 1;
      SumOneColumnIsMultiplicity(column[..n], v);
      SumOneColumnSnoc(column, v);
      assert column == column[..n] + [column[n]];
      assert multiset(column) == multiset(column[..n]) + multiset{column[n]};
    }
  }

  /** sum_2_columns: how many rows have var1 in column1 and var2 in column2. */
  function SumTwoColumns<T(==), U(==)>(column1: seq<T>, var1: T, column2: seq<U>, var2: U): (r: nat)
    requires |column1| == |column2|
    ensures r == |set i | 0 <= i < |column1| && column1[i] == var1 && column2[i] == var2|
    ensures r <= SumOneColumn(column1, var1) && r <= SumOneColumn(column2, var2)
  {
    var m1 := EqMask(column1, var1);
    var m2 := EqMask(column2, var2);
    var m := AndMask(m1, m2);
    CountTrueIsCardinality(m);
    assert (set i | 0 <= i < |m| && m[i])
        == (set i | 0 <= i < |column1| && column1[i] == var1 && column2[i] == var2);
    CountTrueMonotone(m, m1);
    CountTrueMonotone(m, m2);
    CountTrue(m)
  }

  /** Adding one row adds one to sum_2_columns exactly when both columns match in it. */
  lemma SumTwoColumnsSnoc<T, U>(column1: seq<T>, var1: T, column2: seq<U>, var2: U)
    requires |column1| == |column2| > 0
    ensures var n := |column1| - 1;
      SumTwoColumns(column1, var1, column2, var2)
      == SumTwoColumns(column1[..n], var1, column2[..n], var2)
         + (if column1[n] == var1 && column2[n] == var2 then 1 else 0)
  {
    var n := |column1| - 1;
    assert AndMask(EqMask(column1, var1), EqMask(column2, var2))[..n]
        == AndMask(EqMask(column1[..n], var1), EqMask(column2[..n], var2));
  }

  /** The `&` of the two masks is commutative, so the arguments may be swapped pairwise. */
  lemma SumTwoColumnsSymmetric<T, U>(column1: seq<T>, var1: T, column2: seq<U>, var2: U)
    requires |column1| == |column2|
    ensures SumTwoColumns(column1, var1, column2, var2) == SumTwoColumns(column2, var2, column1, var1)
  {
    assert AndMask(EqMask(column1, var1), EqMask(column2, var2))
        == AndMask(EqMask(column2, var2), EqMask(column1, var1));
  }

  /**
   * in_bounds: how many entries lie strictly between the bounds. The
   * upper bound comes first, as in the source's parameter list.
   */
  function InBounds(column1: seq<real>, upperbound: real, lowerbound: real): (r: nat)
    ensures r <= |column1|
    ensures r == |set i | 0 <= i < |column1| && lowerbound < column1[i] < upperbound|
  {
    var m := AndMask(LessMask(column1, upperbound), GreaterMask(column1, lowerbound));
    CountTrueIsCardinality(m);
    assert (set i | 0 <= i < |m| && m[i])
        == (set i | 0 <= i < |column1| && lowerbound < column1[i] < upperbound);
    CountTrue(m)
  }

  /** No value lies strictly between bounds that do not enclose an open interval. */
  lemma InBoundsEmptyInterval(column1: seq<real>, upperbound: real, lowerbound: real)
    requires upperbound <= lowerbound
    ensures InBounds(column1, upperbound, lowerbound) == 0
  {
    assert (set i | 0 <= i < |column1| && lowerbound < column1[i] < upperbound) == {};
  }

  /** Widening the bounds never lowers the count. */
  lemma InBoundsWiden(column1: seq<real>, upper: real, lower: real, upper': real, lower': real)
    requires lower' <= lower && upper <= upper'
    ensures InBounds(column1, upper, lower) <= InBounds(column1, upper', lower')
  {
    var narrow := AndMask(LessMask(column1, upper), GreaterMask(column1, lower));
    var wide := AndMask(LessMask(column1, upper'), GreaterMask(column1, lower'));
    CountTrueMonotone(narrow, wide);
  }

  // ---------------------------------------------------------------------
  // pairwise_comparison
  // ---------------------------------------------------------------------

  /** The list comprehension over zipped pairs: var1 where the first is smaller, else var2. */
  function Labels<L>(pairs: seq<(real, real)>, var1: L, var2: L): (r: seq<L>)
    ensures |r| == |pairs|
    ensures forall i :: 0 <= i < |pairs| ==> r[i] == if pairs[i].0 < pairs[i].1 then var1 else var2
  {
    if pairs == [] then []
    else
      var n := |pairs| - 1;
      Labels(pairs[..n], var1, var2) + [if pairs[n].0 < pairs[n].1 then var1 else var2]
  }

  /** pairwise_comparison: label each zipped pair by which column holds the smaller value. */
  function PairwiseComparison<L>(column1: seq<real>, var1: L, column2: seq<real>, var2: L): (r: seq<L>)
    ensures |r| == Min(|column1|, |column2|)
    ensures forall i :: 0 <= i < |r| ==> r[i] == if column1[i] < column2[i] then var1 else var2
    ensures forall x :: x in r ==> x == var1 || x == var2
  {
    Labels(Zip(column1, column2), var1, var2)
  }

  /** Every entry of a column holding only two distinct labels is counted under exactly one of them. */
  lemma {:induction false} TwoLabelsPartition<L>(column: seq<L>, var1: L, var2: L)
    requires var1 != var2
    requires forall x :: x in column ==> x == var1 || x == var2
    ensures SumOneColumn(column, var1) + SumOneColumn(column, var2) == |column|
  {
    if column != [] {
      var n := |column| - 1;
      assert forall x :: x in column[..n] ==> x in column;
      TwoLabelsPartition(column[..n], var1, var2);
      SumOneColumnSnoc(column, var1);
      SumOneColumnSnoc(column, var2);
      assert column[n] in column;
    }
  }

  /**
   * Counting the labels of pairwise_comparison with sum_1_column: var1 is
   * counted once per pair whose first value is smaller, and with distinct
   * labels the two counts add up to the number of pairs.
   */
  lemma PairwiseComparisonCounts<L>(column1: seq<real>, var1: L, column2: seq<real>, var2: L)
    requires var1 != var2
    ensures var r := PairwiseComparison(column1, var1, column2, var2);
      SumOneColumn(r, var1) == |set i | 0 <= i < Min(|column1|, |column2|) && column1[i] < column2[i]|
      && SumOneColumn(r, var1) + SumOneColumn(r, var2) == Min(|column1|, |column2|)
  {
    var r := PairwiseComparison(column1, var1, column2, var2);
    assert (set i | 0 <= i < |r| && r[i] == var1)
        == (set i | 0 <= i < Min(|column1|, |column2|) && column1[i] < column2[i]);
    TwoLabelsPartition(r, var1, var2);
  }

  /** A smaller first value gives var1, otherwise var2: 1 < 3 gives 'A', 5 < 2 fails and gives 'B'. */
  lemma PairwiseComparisonExample()
    ensures PairwiseComparison([1.0, 5.0], 'A', [3.0, 2.0], 'B') == ['A', 'B']
  {
    var r := PairwiseComparison([1.0, 5.0], 'A', [3.0, 2.0], 'B');
    assert r[0] == 'A' && r[1] == 'B';
  }

  /** Only rows 0 and 2 hold 1 in the first column and 5 in the second, so the count is 2. */
  lemma SumTwoColumnsExample()
    ensures SumTwoColumns([1, 2, 1], 1, [5, 6, 5], 5) == 2
  {
    var c1, c2 := [1, 2, 1], [5, 6, 5];
    SumTwoColumnsSnoc(c1, 1, c2, 5);
    assert c1[..2] == [1, 2] && c2[..2] == [5, 6];
    SumTwoColumnsSnoc([1, 2], 1, [5, 6], 5);
    assert [1, 2][..1] == [1] && [5, 6][..1] == [5];
    SumTwoColumnsSnoc([1], 1, [5], 5);
    var none: seq<int> := [];
    assert [1][..0] == none && [5][..0] == none;
    assert SumTwoColumns(none, 1, none, 5) == 0;
  }

  // ---------------------------------------------------------------------
  // confusion_matrix_calculation
  // ---------------------------------------------------------------------

  /**
   * What confusion_matrix_calculation reports. F1 is computed last, from
   * precision and recall, and has a division of its own that can fail after
   * the other three are known.
   */
  datatype Metrics = Metrics(precision: real, recall: real, accuracy: real, f1: Result<real, Error>)

  /** F1 = 2pr/(p+r), the harmonic mean of precision and recall; DivisionByZero when p + r is zero. */
  function F1Score(p: real, r: real): (f: Result<real, Error>)
    ensures f.Success? <==> p + r != 0.0
    ensures f.Success? ==> f.value * (p + r) == 2.0 * (p * r)
    ensures f.Failure? ==> f.error == DivisionByZero
  {
    if p + r == 0.0 then Failure(DivisionByZero) else Success(2.0 * ((p * r) / (p + r)))
  }

  /**
   * confusion_matrix_calculation: precision, recall and accuracy from the
   * four counts, or DivisionByZero when one of their denominators is zero;
   * F1 = 2pr/(p+r) on its own, DivisionByZero when p + r is zero.
   */
  function ConfusionMatrixCalculation(truePos: real, trueNeg: real, falsePos: real, falseNeg: real)
    : (r: Result<Metrics, Error>)
    ensures r.Success? <==>
      truePos + falsePos != 0.0 && truePos + falseNeg != 0.0 && truePos + falsePos + trueNeg + falseNeg != 0.0
    ensures r.Failure? ==> r.error == DivisionByZero
    ensures r.Success? ==> (
      var m := r.value;
      && m.precision * (truePos + falsePos) == truePos
      && m.recall * (truePos + falseNeg) == truePos
      && m.accuracy * (truePos + falsePos + trueNeg + falseNeg) == truePos + trueNeg
      && (m.f1.Success? <==> m.precision + m.recall != 0.0)
      && (m.f1.Failure? ==> m.f1.error == DivisionByZero)
      && (m.f1.Success? ==> m.f1.value * (m.precision + m.recall) == 2.0 * (m.precision * m.recall)))
  {
    if truePos + falsePos == 0.0 || truePos + falseNeg == 0.0
       || truePos + falsePos + trueNeg + falseNeg == 0.0
    then Failure(DivisionByZero)
    else
      var p := truePos / (truePos + falsePos);
      var r := truePos / (truePos + falseNeg);
      var a := (truePos + trueNeg) / (truePos + falsePos + trueNeg + falseNeg);
      Success(Metrics(p, r, a, F1Score(p, r)))
  }

  predicate NonNegativeCounts(truePos: real, trueNeg: real, falsePos: real, falseNeg: real) {
    truePos >= 0.0 && trueNeg >= 0.0 && falsePos >= 0.0 && falseNeg >= 0.0
  }

  /**
   * With counts that are not negative, precision, recall and accuracy are
   * defined exactly when there is a predicted and an actual positive, and F1
   * is defined as well exactly when there is a true positive.
   */
  lemma ConfusionMatrixDefinedIff(truePos: real, trueNeg: real, falsePos: real, falseNeg: real)
    requires NonNegativeCounts(truePos, trueNeg, falsePos, falseNeg)
    ensures var r := ConfusionMatrixCalculation(truePos, trueNeg, falsePos, falseNeg);
      && (r.Success? <==> truePos + falsePos > 0.0 && truePos + falseNeg > 0.0)
      && (r.Success? ==> (r.value.f1.Success? <==> truePos > 0.0))
  {
    if truePos + falsePos > 0.0 && truePos + falseNeg > 0.0 {
      var p := truePos / (truePos + falsePos);
      var r := truePos / (truePos + falseNeg);
      DivBounds(truePos, truePos + falsePos);
      DivBounds(truePos, truePos + falseNeg);
      if truePos == 0.0 {
        assert p == 0.0 && r == 0.0;
      } else {
        assert p > 0.0 && r > 0.0;
      }
    }
  }

  /** The harmonic combination 2pr/(p+r) of two ratios in [0,1] stays in [0,1]. */
  lemma F1Bounds(p: real, r: real)
    requires 0.0 <= p <= 1.0 && 0.0 <= r <= 1.0 && p + r > 0.0
    ensures 0.0 <= 2.0 * ((p * r) / (p + r)) <= 1.0
  {
    assert 0.0 <= p * (1.0 - r) by { MulNonNegative(p, 1.0 - r); }
    assert 0.0 <= r * (1.0 - p) by { MulNonNegative(r, 1.0 - p); }
    assert 0.0 <= p * r by { MulNonNegative(p, r); }
    assert p * r <= 0.5 * (p + r);
    DivAtMost(p * r, p + r, 0.5);
    DivBounds(p * r, p + r);
  }

  /** With counts that are not negative, precision, recall, accuracy and (where defined) F1 all lie in [0,1]. */
  lemma ConfusionMatrixInUnitInterval(truePos: real, trueNeg: real, falsePos: real, falseNeg: real)
    requires NonNegativeCounts(truePos, trueNeg, falsePos, falseNeg)
    requires ConfusionMatrixCalculation(truePos, trueNeg, falsePos, falseNeg).Success?
    ensures var m := ConfusionMatrixCalculation(truePos, trueNeg, falsePos, falseNeg).value;
      && 0.0 <= m.precision <= 1.0 && 0.0 <= m.recall <= 1.0 && 0.0 <= m.accuracy <= 1.0
      && (m.f1.Success? ==> 0.0 <= m.f1.value <= 1.0)
  {
    var total := truePos + falsePos + trueNeg + falseNeg;
    DivBounds(truePos, truePos + falsePos);
    DivBounds(truePos, truePos + falseNeg);
    DivBounds(truePos + trueNeg, total);
    var p := truePos / (truePos + falsePos);
    var r := truePos / (truePos + falseNeg);
    var m := ConfusionMatrixCalculation(truePos, trueNeg, falsePos, falseNeg).value;
    assert m.precision == p && m.recall == r;
    if p + r != 0.0 {
      F1Bounds(p, r);
      assert m.f1.value == 2.0 * ((p * r) / (p + r));
    }
  }

  /** No false positives and no false negatives: every metric, F1 included, is exactly 1. */
  lemma ConfusionMatrixPerfect(truePos: real, trueNeg: real)
    requires truePos > 0.0 && trueNeg >= 0.0
    ensures ConfusionMatrixCalculation(truePos, trueNeg, 0.0, 0.0) == Success(Metrics(1.0, 1.0, 1.0, Success(1.0)))
  {
    assert truePos / truePos == 1.0;
    assert (truePos + trueNeg) / (truePos + trueNeg) == 1.0;
    assert 2.0 * ((1.0 * 1.0) / (1.0 + 1.0)) == 1.0;
  }

  /**
   * (10, 10, 0, 0) is a perfect classifier; (0, 0, 5, 5) has no true
   * positive, so precision, recall and accuracy are 0 and only the F1
   * division fails.
   */
  lemma ConfusionMatrixExamples()
    ensures ConfusionMatrixCalculation(10.0, 10.0, 0.0, 0.0) == Success(Metrics(1.0, 1.0, 1.0, Success(1.0)))
    ensures ConfusionMatrixCalculation(0.0, 0.0, 5.0, 5.0) == Success(Metrics(0.0, 0.0, 0.0, Failure(DivisionByZero)))
  {
    ConfusionMatrixPerfect(10.0, 10.0);
  }

  // ---------------------------------------------------------------------
  // confusion_matrix_calculation on numpy counts
  // ---------------------------------------------------------------------

  /**
   * The same metrics when the counts are numpy numbers, as sum_cmatrix
   * passes them: a zero denominator then yields nan for that metric alone
   * instead of raising, so each metric succeeds or fails by itself.
   */
  datatype ElementwiseMetrics = ElementwiseMetrics(
    precision: Result<real, Error>, recall: Result<real, Error>,
    accuracy: Result<real, Error>, f1: Result<real, Error>)

  /** n / d, or DivisionByZero (numpy's nan or inf) when d is zero. */
  function Quotient(n: real, d: real): (q: Result<real, Error>)
    ensures q.Success? <==> d != 0.0
    ensures q.Success? ==> q.value * d == n
    ensures q.Failure? ==> q.error == DivisionByZero
  {
    if d == 0.0 then Failure(DivisionByZero) else Success(n / d)
  }

  /**
   * Each of precision, recall and accuracy is defined exactly when its own
   * denominator is non-zero; F1 needs both precision and recall and a
   * non-zero p + r, since nan propagates through 2pr/(p+r).
   */
  function ElementwiseConfusionMatrix(truePos: real, trueNeg: real, falsePos: real, falseNeg: real)
    : (m: ElementwiseMetrics)
    ensures m.precision.Success? <==> truePos + falsePos != 0.0
    ensures m.recall.Success? <==> truePos + falseNeg != 0.0
    ensures m.accuracy.Success? <==> truePos + falsePos + trueNeg + falseNeg != 0.0
    ensures m.precision.Success? ==> m.precision.value * (truePos + falsePos) == truePos
    ensures m.recall.Success? ==> m.recall.value * (truePos + falseNeg) == truePos
    ensures m.accuracy.Success? ==>
      m.accuracy.value * (truePos + falsePos + trueNeg + falseNeg) == truePos + trueNeg
    ensures m.f1.Success? <==>
      m.precision.Success? && m.recall.Success? && m.precision.value + m.recall.value != 0.0
    ensures m.f1.Success? ==>
      m.f1.value * (m.precision.value + m.recall.value) == 2.0 * (m.precision.value * m.recall.value)
  {
    var p := Quotient(truePos, truePos + falsePos);
    var r := Quotient(truePos, truePos + falseNeg);
    var a := Quotient(truePos + trueNeg, truePos + falsePos + trueNeg + falseNeg);
    var f1 := if p.Failure? || r.Failure? then Failure(DivisionByZero) else F1Score(p.value, r.value);
    ElementwiseMetrics(p, r, a, f1)
  }

  /**
   * Where the calculation on Python numbers produces its metrics, the
   * element-wise one on numpy numbers produces the same four values.
   */
  lemma ElementwiseAgreesWithCalculation(truePos: real, trueNeg: real, falsePos: real, falseNeg: real)
    requires ConfusionMatrixCalculation(truePos, trueNeg, falsePos, falseNeg).Success?
    ensures var c := ConfusionMatrixCalculation(truePos, trueNeg, falsePos, falseNeg).value;
      ElementwiseConfusionMatrix(truePos, trueNeg, falsePos, falseNeg)
      == ElementwiseMetrics(Success(c.precision), Success(c.recall), Success(c.accuracy), c.f1)
  {
    var total := truePos + falsePos + trueNeg + falseNeg;
    var c := ConfusionMatrixCalculation(truePos, trueNeg, falsePos, falseNeg).value;
    var m := ElementwiseConfusionMatrix(truePos, trueNeg, falsePos, falseNeg);
    assert m.precision == Success(truePos / (truePos + falsePos)) == Success(c.precision);
    assert m.recall == Success(truePos / (truePos + falseNeg)) == Success(c.recall);
    assert m.accuracy == Success((truePos + trueNeg) / total) == Success(c.accuracy);
    assert m.f1 == F1Score(c.precision, c.recall) == c.f1;
  }

  /**
   * With counts that are not negative, every metric the element-wise
   * calculation produces lies in [0,1].
   */
  lemma ElementwiseInUnitInterval(truePos: real, trueNeg: real, falsePos: real, falseNeg: real)
    requires NonNegativeCounts(truePos, trueNeg, falsePos, falseNeg)
    ensures var m := ElementwiseConfusionMatrix(truePos, trueNeg, falsePos, falseNeg);
      && (m.precision.Success? ==> 0.0 <= m.precision.value <= 1.0)
      && (m.recall.Success? ==> 0.0 <= m.recall.value <= 1.0)
      && (m.accuracy.Success? ==> 0.0 <= m.accuracy.value <= 1.0)
      && (m.f1.Success? ==> 0.0 <= m.f1.value <= 1.0)
  {
    var total := truePos + falsePos + trueNeg + falseNeg;
    var m := ElementwiseConfusionMatrix(truePos, trueNeg, falsePos, falseNeg);
    if truePos + falsePos != 0.0 {
      assert m.precision.value == truePos / (truePos + falsePos);
      DivBounds(truePos, truePos + falsePos);
    }
    if truePos + falseNeg != 0.0 {
      assert m.recall.value == truePos / (truePos + falseNeg);
      DivBounds(truePos, truePos + falseNeg);
    }
    if total != 0.0 {
      assert m.accuracy.value == (truePos + trueNeg) / total;
      DivBounds(truePos + trueNeg, total);
    }
    if m.f1.Success? {
      var p, r := m.precision.value, m.recall.value;
      assert m.f1.value == 2.0 * ((p * r) / (p + r));
      F1Bounds(p, r);
    }
  }

  /**
   * No predicted positive at all (tp = fp = 0, fn = tn = 1): precision is
   * nan, yet recall is 0 and accuracy 0.5; F1 is nan.
   */
  lemma ElementwiseNoPredictedPositive()
    ensures ElementwiseConfusionMatrix(0.0, 1.0, 0.0, 1.0)
         == ElementwiseMetrics(Failure(DivisionByZero), Success(0.0), Success(0.5), Failure(DivisionByZero))
  {
  }

  // ---------------------------------------------------------------------
  // sum_cmatrix
  // ---------------------------------------------------------------------

  /** The four counts sum_cmatrix reports, and what the calculation made of them. */
  datatype CMatrixReport = CMatrixReport(
    truePos: nat, trueNeg: nat, falseNeg: nat, falsePos: nat,
    metrics: ElementwiseMetrics)

  /**
   * sum_cmatrix: read the model's and the observation's above- and
   * below-climatology label columns from the frame and count the four
   * cells of the confusion matrix, then run the calculation on them; the
   * counts are numpy numbers, so each metric fails on its own.
   */
  function SumCMatrix<T(==)>(df: Frame<T>, modelA: ColumnName, modelB: ColumnName, var1: T,
                             obsA: ColumnName, obsB: ColumnName, var2: T): (r: Result<CMatrixReport, Error>)
    requires WellFormed(df)
    ensures r.Success? <==>
      None in df && modelA in df[None] && modelB in df[None] && obsA in df[None] && obsB in df[None]
    ensures r.Failure? ==> r.error == MissingKey
    ensures r.Success? ==>
      var t := df[None];
      var rows := |t[modelA]|;
      && r.value.truePos == |set i | 0 <= i < rows && t[modelA][i] == var1 && t[obsA][i] == var2|
      && r.value.trueNeg == |set i | 0 <= i < rows && t[modelB][i] == var1 && t[obsB][i] == var2|
      && r.value.falseNeg == |set i | 0 <= i < rows && t[modelB][i] == var1 && t[obsA][i] == var2|
      && r.value.falsePos == |set i | 0 <= i < rows && t[modelA][i] == var1 && t[obsB][i] == var2|
      && r.value.truePos <= rows && r.value.trueNeg <= rows
      && r.value.falseNeg <= rows && r.value.falsePos <= rows
      && r.value.metrics == ElementwiseConfusionMatrix(
           r.value.truePos as real, r.value.trueNeg as real, r.value.falsePos as real, r.value.falseNeg as real)
  {
    if !(None in df && modelA in df[None] && modelB in df[None] && obsA in df[None] && obsB in df[None])
    then Failure(MissingKey)
    else
      var t := df[None];
      assert |t[modelA]| == |t[modelB]| == |t[obsA]| == |t[obsB]|;
      var truePos := SumTwoColumns(t[modelA], var1, t[obsA], var2);
      var trueNeg := SumTwoColumns(t[modelB], var1, t[obsB], var2);
      var falseNeg := SumTwoColumns(t[modelB], var1, t[obsA], var2);
      var falsePos := SumTwoColumns(t[modelA], var1, t[obsB], var2);
      Success(CMatrixReport(truePos, trueNeg, falseNeg, falsePos,
        ElementwiseConfusionMatrix(truePos as real, trueNeg as real, falsePos as real, falseNeg as real)))
  }

  /**
   * When no row is flagged both above and below, the four cells count each
   * row at most once; when every row is flagged exactly once on each side,
   * they count every row exactly once.
   */
  lemma {:induction false} FourCellsCoverRows<T>(modelA: seq<T>, modelB: seq<T>, var1: T,
                                                    obsA: seq<T>, obsB: seq<T>, var2: T)
    requires |modelA| == |modelB| == |obsA| == |obsB|
    requires forall i :: 0 <= i < |modelA| ==>
      !(modelA[i] == var1 && modelB[i] == var1) && !(obsA[i] == var2 && obsB[i] == var2)
    ensures var total :=
      SumTwoColumns(modelA, var1, obsA, var2) + SumTwoColumns(modelB, var1, obsB, var2)
      + SumTwoColumns(modelB, var1, obsA, var2) + SumTwoColumns(modelA, var1, obsB, var2);
      total <= |modelA|
      && ((forall i :: 0 <= i < |modelA| ==>
             (modelA[i] == var1 || modelB[i] == var1) && (obsA[i] == var2 || obsB[i] == var2))
          ==> total == |modelA|)
  {
    if modelA != [] {
      var n := |modelA| - 1;
      FourCellsCoverRows(modelA[..n], modelB[..n], var1, obsA[..n], obsB[..n], var2);
      SumTwoColumnsSnoc(modelA, var1, obsA, var2);
      SumTwoColumnsSnoc(modelB, var1, obsB, var2);
      SumTwoColumnsSnoc(modelB, var1, obsA, var2);
      SumTwoColumnsSnoc(modelA, var1, obsB, var2);
    }
  }

  /** sum_cmatrix's four counts never add up to more than the number of rows. */
  lemma SumCMatrixCoverage<T>(df: Frame<T>, modelA: ColumnName, modelB: ColumnName, var1: T,
                                  obsA: ColumnName, obsB: ColumnName, var2: T)
    requires WellFormed(df)
    requires None in df && modelA in df[None] && modelB in df[None] && obsA in df[None] && obsB in df[None]
    requires forall i :: 0 <= i < |df[None][modelA]| ==>
      !(df[None][modelA][i] == var1 && df[None][modelB][i] == var1)
      && !(df[None][obsA][i] == var2 && df[None][obsB][i] == var2)
    ensures var c := SumCMatrix(df, modelA, modelB, var1, obsA, obsB, var2).value;
      c.truePos + c.trueNeg + c.falseNeg + c.falsePos <= |df[None][modelA]|
  {
    var t := df[None];
    assert |t[modelA]| == |t[modelB]| == |t[obsA]| == |t[obsB]|;
    FourCellsCoverRows(t[modelA], t[modelB], var1, t[obsA], t[obsB], var2);
  }
}
