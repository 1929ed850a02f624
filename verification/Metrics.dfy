/** Classification metrics over judge predictions. Rates are whole numbers of ten-thousandths, as they are reported. */
module Metrics {
  import opened Arithmetic
  import opened Wrappers

  datatype Verdict = Pass | Fail | Review

  datatype Mode = Rules | Semantic | Hybrid

  datatype Prediction = Prediction(caseId: string, mode: Mode, expected: Verdict, predicted: Option<Verdict>,
                                   error: Option<string>)

  predicate Eligible(p: Prediction) {
    p.predicted.Some? && p.error.None?
  }

  /** Eligible predictions with the given expected and predicted verdicts. */
  function Cell(ps: seq<Prediction>, expected: Verdict, predicted: Verdict): nat {
    if ps == [] then 0
    else
      var p := ps[|ps| - 1];
      Cell(ps[..|ps| - 1], expected, predicted)
      + if Eligible(p) && p.expected == expected && p.predicted == Some(predicted) then 1 else 0
  }

  function EligibleCount(ps: seq<Prediction>): nat {
    if ps == [] then 0 else EligibleCount(ps[..|ps| - 1]) + if Eligible(ps[|ps| - 1]) then 1 else 0
  }

  function Row(ps: seq<Prediction>, expected: Verdict): nat {
    Cell(ps, expected, Pass) + Cell(ps, expected, Fail) + Cell(ps, expected, Review)
  }

  function Column(ps: seq<Prediction>, predicted: Verdict): nat {
    Cell(ps, Pass, predicted) + Cell(ps, Fail, predicted) + Cell(ps, Review, predicted)
  }

  function Correct(ps: seq<Prediction>): nat {
    Cell(ps, Pass, Pass) + Cell(ps, Fail, Fail) + Cell(ps, Review, Review)
  }

  function FalsePositives(ps: seq<Prediction>, verdict: Verdict): int {
    Column(ps, verdict) - Cell(ps, verdict, verdict)
  }

  function FalseNegatives(ps: seq<Prediction>, verdict: Verdict): int {
    Row(ps, verdict) - Cell(ps, verdict, verdict)
  }

  /** Where the judge answered without an error, the verdict expected and the verdict given being these. */
  ghost function CellMembers(ps: seq<Prediction>, expected: Verdict, predicted: Verdict): set<nat> {
    set i: nat | i < |ps| && ps[i].expected == expected && ps[i].predicted == Some(predicted) && ps[i].error == None
  }

  ghost function EligibleMembers(ps: seq<Prediction>): set<nat> {
    set i: nat | i < |ps| && ps[i].predicted.Some? && ps[i].error == None
  }

  lemma MembersSnoc(ps: seq<Prediction>, expected: Verdict, predicted: Verdict)
    requires ps != []
    ensures var before, k := ps[..|ps| - 1], |ps| - 1; var p := ps[k];
            && k !in CellMembers(before, expected, predicted) && k !in EligibleMembers(before)
            && CellMembers(ps, expected, predicted)
               == (if Eligible(p) && p.expected == expected && p.predicted == Some(predicted)
                   then CellMembers(before, expected, predicted) + {k} else CellMembers(before, expected, predicted))
            && EligibleMembers(ps) == if Eligible(p) then EligibleMembers(before) + {k} else EligibleMembers(before)
  {
  }

  /** A cell counts exactly those predictions, and every other number of a report is made of cells. */
  lemma {:induction false} CellCounts(ps: seq<Prediction>, expected: Verdict, predicted: Verdict)
    ensures Cell(ps, expected, predicted) == |CellMembers(ps, expected, predicted)|
    ensures EligibleCount(ps) == |EligibleMembers(ps)|
  {
    if ps != [] {
      MembersSnoc(ps, expected, predicted);
      CellCounts(ps[..|ps| - 1], expected, predicted);
      hide CellMembers, EligibleMembers;
    }
  }

  /** Every eligible prediction is in exactly one cell. */
  lemma CellsAddUp(ps: seq<Prediction>)
    ensures Row(ps, Pass) + Row(ps, Fail) + Row(ps, Review) == EligibleCount(ps)
    ensures Column(ps, Pass) + Column(ps, Fail) + Column(ps, Review) == EligibleCount(ps)
  {
    RowsAddUp(ps);
    ColumnsAddUp(ps);
  }

  lemma {:induction false} RowsAddUp(ps: seq<Prediction>)
    ensures Row(ps, Pass) + Row(ps, Fail) + Row(ps, Review) == EligibleCount(ps)
  {
    if ps != [] {
      RowsAddUp(ps[..|ps| - 1]);
      var p := ps[|ps| - 1];
      if Eligible(p) {
        Cases(p.expected);
        Cases(p.predicted.value);
      }
    }
  }

  lemma {:induction false} ColumnsAddUp(ps: seq<Prediction>)
    ensures Column(ps, Pass) + Column(ps, Fail) + Column(ps, Review) == EligibleCount(ps)
  {
    if ps != [] {
      ColumnsAddUp(ps[..|ps| - 1]);
      var p := ps[|ps| - 1];
      if Eligible(p) {
        Cases(p.expected);
        Cases(p.predicted.value);
      }
    }
  }

  lemma Cases(v: Verdict)
    ensures v == Pass || v == Fail || v == Review
  {
  }

  lemma CellWithin(ps: seq<Prediction>, v: Verdict)
    ensures Cell(ps, v, v) <= Row(ps, v) && Cell(ps, v, v) <= Column(ps, v)
  {
    hide Cell;
    Cases(v);
  }

  /** Class false positives and class false negatives both account for every wrong prediction. */
  lemma ErrorsBalance(ps: seq<Prediction>)
    ensures FalsePositives(ps, Pass) + FalsePositives(ps, Fail) + FalsePositives(ps, Review)
              == EligibleCount(ps) - Correct(ps)
    ensures FalseNegatives(ps, Pass) + FalseNegatives(ps, Fail) + FalseNegatives(ps, Review)
              == EligibleCount(ps) - Correct(ps)
    ensures Correct(ps) <= EligibleCount(ps)
  {
    hide Cell;
    CellsAddUp(ps);
  }

  // ---------------------------------------------------------------- rounding

  /** `a / d` rounded to a whole number, ties to even. */
  function RoundHalfEven(a: nat, d: nat): nat
    requires d > 0
  {
    var q, r := a / d, a % d;
    if 2 * r < d || (2 * r == d && q % 2 == 0) then q else q + 1
  }

  const ONE: nat := 10000

  function Ratio(numerator: nat, denominator: nat): nat {
    if denominator == 0 then 0 else RoundHalfEven(ONE * numerator, denominator)
  }

  /** The harmonic mean of two rounded rates, rounded again. */
  function F1(precision: nat, recall: nat): nat {
    if precision + recall == 0 then 0 else RoundHalfEven(2 * precision * recall, precision + recall)
  }

  function Mean3(a: nat, b: nat, c: nat): nat {
    RoundHalfEven(a + b + c, 3)
  }

  /** `n` units of size `d`, `x` in all, are nearest to `a`; half-way `n` is even. */
  predicate Nearest(a: nat, d: nat, n: nat, x: nat) {
    2 * x - d <= 2 * a <= 2 * x + d && (2 * a == 2 * x - d || 2 * a == 2 * x + d ==> n % 2 == 0)
  }

  /** Rounding goes to the nearest whole number, and from half-way to the even one; no other number is both. */
  lemma RoundIsNearest(a: nat, d: nat, n: nat)
    requires d > 0
    ensures n == RoundHalfEven(a, d) <==> Nearest(a, d, n, n * d)
  {
    var q := a / d;
    NextMultiple(n, q, d);
    NextMultiple(q, n, d);
    NextMultiple(q + 1, n, d);
    assert (q + 1) * d == q * d + d;
    NearestBetween(a, d, q, q * d, n, n * d);
  }

  lemma NearestBetween(a: nat, d: nat, q: nat, below: nat, n: nat, x: nat)
    requires d > 0 && q == a / d && a % d == a - below && 0 <= a - below < d
    requires (n == q ==> x == below) && (n == q + 1 ==> x == below + d)
    requires (n < q ==> x + d <= below) && (n > q + 1 ==> x >= below + 2 * d)
    ensures n == RoundHalfEven(a, d) <==> Nearest(a, d, n, x)
  {
  }

  /** Rounding stays between whole bounds of the exact quotient. */
  lemma RoundWithin(a: nat, d: nat, low: nat, high: nat)
    requires d > 0 && low * d <= a <= high * d
    ensures low <= RoundHalfEven(a, d) <= high
  {
    QuotientAbove(a, d, low);
    QuotientBelow(a, d, high);
  }

  lemma QuotientAbove(a: nat, d: nat, low: nat)
    requires d > 0 && low * d <= a
    ensures low <= a / d
  {
    NextMultiple(a / d, low, d);
    assert a < (a / d) * d + d;
  }

  lemma QuotientBelow(a: nat, d: nat, high: nat)
    requires d > 0 && a <= high * d
    ensures a / d < high || (a / d == high && a % d == 0)
  {
    NextMultiple(high, a / d, d);
    assert a == (a / d) * d + a % d;
  }

  lemma NextMultiple(q: nat, n: nat, d: nat)
    ensures q < n ==> q * d + d <= n * d
  {
    if q < n {
      MulMonotone(q + 1, n, d);
      assert (q + 1) * d == q * d + d;
    }
  }

  lemma RatioWithinOne(numerator: nat, denominator: nat)
    requires numerator <= denominator
    ensures Ratio(numerator, denominator) <= ONE
  {
    if denominator > 0 {
      RoundWithin(ONE * numerator, denominator, 0, ONE);
    }
  }

  /** However precision and recall were rounded, the rounded F1 lies between them. */
  lemma F1Between(precision: nat, recall: nat)
    ensures precision <= recall ==> precision <= F1(precision, recall) <= recall
    ensures recall <= precision ==> recall <= F1(precision, recall) <= precision
  {
    hide F1;
    F1Commutes(precision, recall);
    if precision <= recall {
      F1Ordered(precision, recall);
    } else {
      F1Ordered(recall, precision);
    }
  }

  lemma F1Ordered(low: nat, high: nat)
    requires low <= high
    ensures low <= F1(low, high) <= high
  {
    hide RoundHalfEven;
    if low + high > 0 {
      HarmonicBounds(low, high);
      RoundWithin(2 * low * high, low + high, low, high);
    }
  }

  lemma F1Commutes(a: nat, b: nat)
    ensures F1(a, b) == F1(b, a)
  {
    hide RoundHalfEven;
    assert 2 * a * b == 2 * b * a;
  }

  lemma HarmonicBounds(low: nat, high: nat)
    requires low <= high
    ensures low * (low + high) <= 2 * low * high <= high * (low + high)
  {
    assert low * low <= low * high <= high * high by {
      MulMonotone(low, high, low);
      MulMonotone(low, high, high);
    }
  }

  lemma MeanBetween(a: nat, b: nat, c: nat, low: nat, high: nat)
    requires low <= a <= high && low <= b <= high && low <= c <= high
    ensures low <= Mean3(a, b, c) <= high
  {
    RoundWithin(a + b + c, 3, low, high);
  }

  // ---------------------------------------------------------------- the report

  datatype ClassRates = ClassRates(precision: nat, recall: nat, f1: nat, support: nat)

  datatype Report = Report(
    eligible: nat, correct: nat, accuracy: nat, macroPrecision: nat, macroRecall: nat, macroF1: nat,
    falsePositiveCount: nat, falsePositiveRate: nat, falseNegativeCount: nat, falseNegativeRate: nat,
    confusion: map<(Verdict, Verdict), nat>, perClass: map<Verdict, ClassRates>)

  ghost predicate Confusion(ps: seq<Prediction>, m: map<(Verdict, Verdict), nat>) {
    forall e: Verdict, p: Verdict :: (e, p) in m && m[(e, p)] == Cell(ps, e, p)
  }

  function ClassRatesOf(ps: seq<Prediction>, verdict: Verdict): ClassRates {
    var hits := Cell(ps, verdict, verdict);
    var precision, recall := Ratio(hits, Column(ps, verdict)), Ratio(hits, Row(ps, verdict));
    ClassRates(precision, recall, F1(precision, recall), Row(ps, verdict))
  }

  /** What a report of these predictions says. */
  ghost predicate Reports(ps: seq<Prediction>, r: Report) {
    && Confusion(ps, r.confusion)
    && r.perClass == map[Pass := ClassRatesOf(ps, Pass), Fail := ClassRatesOf(ps, Fail),
                         Review := ClassRatesOf(ps, Review)]
    && r.eligible == EligibleCount(ps) && r.correct == Correct(ps)
    && r.accuracy == Ratio(Correct(ps), EligibleCount(ps))
    && r.macroPrecision == Mean3(r.perClass[Pass].precision, r.perClass[Fail].precision, r.perClass[Review].precision)
    && r.macroRecall == Mean3(r.perClass[Pass].recall, r.perClass[Fail].recall, r.perClass[Review].recall)
    && r.macroF1 == Mean3(r.perClass[Pass].f1, r.perClass[Fail].f1, r.perClass[Review].f1)
    && r.falsePositiveCount == FalsePositives(ps, Fail)
    && r.falsePositiveRate == Ratio(r.falsePositiveCount, Row(ps, Pass) + Row(ps, Review))
    && r.falseNegativeCount == FalseNegatives(ps, Fail)
    && r.falseNegativeRate == Ratio(r.falseNegativeCount, Row(ps, Fail))
  }

  /** One pass over the eligible predictions for the table and the four counts about `Fail`. */
  method Tally(predictions: seq<Prediction>)
    returns (confusion: map<(Verdict, Verdict), nat>, eligible: nat, fp: nat, fpOf: nat, fn: nat, fnOf: nat)
    ensures Confusion(predictions, confusion) && eligible == EligibleCount(predictions)
    ensures fp == FalsePositives(predictions, Fail) && fpOf == Row(predictions, Pass) + Row(predictions, Review)
    ensures fn == FalseNegatives(predictions, Fail) && fnOf == Row(predictions, Fail)
  {
    hide ZeroTable, Confusion, Counts, EligibleCount, FalsePositives, FalseNegatives, Row, Cell;
    confusion := ZeroTable();
    eligible, fp, fpOf, fn, fnOf := 0, 0, 0, 0, 0;
    NothingTallied();
    NothingCounted();
    for n := 0 to |predictions|
      invariant Confusion(predictions[..n], confusion)
      invariant Counts(predictions[..n], eligible, fp, fpOf, fn, fnOf)
    {
      var item := predictions[n];
      Entry(predictions, n, confusion);
      CountOne(predictions, n, eligible, fp, fpOf, fn, fnOf);
      if item.predicted.Some? && item.error.None? {
        var predicted := item.predicted.value;
        eligible := eligible + 1;
        confusion := confusion[(item.expected, predicted) := confusion[(item.expected, predicted)] + 1];
        if item.expected != Fail {
          fpOf := fpOf + 1;
          if predicted == Fail {
            fp := fp + 1;
          }
        } else {
          fnOf := fnOf + 1;
          if predicted != Fail {
            fn := fn + 1;
          }
        }
      }
    }
    assert predictions[..|predictions|] == predictions;
    CountsAre(predictions, eligible, fp, fpOf, fn, fnOf);
  }

  /** The five running counts of a pass over `ps`. */
  predicate Counts(ps: seq<Prediction>, eligible: nat, fp: nat, fpOf: nat, fn: nat, fnOf: nat) {
    && eligible == EligibleCount(ps)
    && fp == FalsePositives(ps, Fail) && fpOf == Row(ps, Pass) + Row(ps, Review)
    && fn == FalseNegatives(ps, Fail) && fnOf == Row(ps, Fail)
  }

  lemma CountsAre(ps: seq<Prediction>, eligible: nat, fp: nat, fpOf: nat, fn: nat, fnOf: nat)
    requires Counts(ps, eligible, fp, fpOf, fn, fnOf)
    ensures eligible == EligibleCount(ps)
    ensures fp == FalsePositives(ps, Fail) && fpOf == Row(ps, Pass) + Row(ps, Review)
    ensures fn == FalseNegatives(ps, Fail) && fnOf == Row(ps, Fail)
  {
  }

  lemma CountOne(ps: seq<Prediction>, n: nat, eligible: nat, fp: nat, fpOf: nat, fn: nat, fnOf: nat)
    requires n < |ps| && Counts(ps[..n], eligible, fp, fpOf, fn, fnOf)
    ensures var p := ps[n];
            Counts(ps[..n + 1], eligible + Increment(Eligible(p)),
                   fp + Increment(Eligible(p) && p.expected != Fail && p.predicted == Some(Fail)),
                   fpOf + Increment(Eligible(p) && p.expected != Fail),
                   fn + Increment(Eligible(p) && p.expected == Fail && p.predicted != Some(Fail)),
                   fnOf + Increment(Eligible(p) && p.expected == Fail))
  {
    assert ps[..n + 1][..n] == ps[..n];
    hide EligibleCount, FalsePositives, FalseNegatives, Row;
    OneMore(ps[..n + 1]);
  }

  function ZeroTable(): map<(Verdict, Verdict), nat> {
    map[
      (Pass, Pass) := 0, (Pass, Fail) := 0, (Pass, Review) := 0,
      (Fail, Pass) := 0, (Fail, Fail) := 0, (Fail, Review) := 0,
      (Review, Pass) := 0, (Review, Fail) := 0, (Review, Review) := 0]
  }

  lemma NothingTallied()
    ensures Confusion([], ZeroTable())
  {
    var m := ZeroTable();
    forall e: Verdict, p: Verdict ensures (e, p) in m && m[(e, p)] == 0 {
      Cases(e);
      Cases(p);
    }
  }

  lemma NothingCounted()
    ensures Counts([], 0, 0, 0, 0, 0)
  {
  }

  function Increment(b: bool): nat {
    if b then 1 else 0
  }

  /** How the counts about `Fail` grow with one more prediction. */
  lemma OneMore(ps: seq<Prediction>)
    requires ps != []
    ensures var before, p := ps[..|ps| - 1], ps[|ps| - 1];
            && EligibleCount(ps) == EligibleCount(before) + Increment(Eligible(p))
            && FalsePositives(ps, Fail)
               == FalsePositives(before, Fail)
                   + Increment(Eligible(p) && p.expected != Fail && p.predicted == Some(Fail))
            && FalseNegatives(ps, Fail)
               == FalseNegatives(before, Fail)
                   + Increment(Eligible(p) && p.expected == Fail && p.predicted != Some(Fail))
            && Row(ps, Pass) + Row(ps, Review)
                 == Row(before, Pass) + Row(before, Review) + Increment(Eligible(p) && p.expected != Fail)
            && Row(ps, Fail) == Row(before, Fail) + Increment(Eligible(p) && p.expected == Fail)
  {
    var p := ps[|ps| - 1];
    if Eligible(p) {
      Cases(p.expected);
      Cases(p.predicted.value);
    }
  }

  /** Counting one more prediction in its cell. */
  lemma Entry(ps: seq<Prediction>, n: nat, m: map<(Verdict, Verdict), nat>)
    requires n < |ps| && Confusion(ps[..n], m)
    ensures var item := ps[n];
            if Eligible(item)
            then (item.expected, item.predicted.value) in m
                 && Confusion(ps[..n + 1], m[(item.expected, item.predicted.value) :=
                                             m[(item.expected, item.predicted.value)] + 1])
            else Confusion(ps[..n + 1], m)
  {
    assert ps[..n + 1][..n] == ps[..n];
  }

  lemma Lookup(ps: seq<Prediction>, m: map<(Verdict, Verdict), nat>, e: Verdict, p: Verdict)
    requires Confusion(ps, m)
    ensures (e, p) in m && m[(e, p)] == Cell(ps, e, p)
  {
  }

  method RatesOf(ghost ps: seq<Prediction>, confusion: map<(Verdict, Verdict), nat>, verdict: Verdict)
    returns (r: ClassRates)
    requires Confusion(ps, confusion)
    ensures r == ClassRatesOf(ps, verdict)
  {
    hide Cell, Ratio, F1;
    var hits := confusion[(verdict, verdict)];
    var inColumn := confusion[(Pass, verdict)] + confusion[(Fail, verdict)] + confusion[(Review, verdict)];
    var inRow := confusion[(verdict, Pass)] + confusion[(verdict, Fail)] + confusion[(verdict, Review)];
    var precision, recall := Ratio(hits, inColumn), Ratio(hits, inRow);
    r := ClassRates(precision, recall, F1(precision, recall), inRow);
  }

  method ClassificationMetrics(predictions: seq<Prediction>) returns (r: Report)
    ensures Reports(predictions, r)
  {
    hide Cell, Ratio, F1, Mean3, Confusion, ClassRatesOf, Row, FalsePositives, FalseNegatives;
    var confusion, eligible, fp, fpOf, fn, fnOf := Tally(predictions);
    Lookup(predictions, confusion, Pass, Pass);
    Lookup(predictions, confusion, Fail, Fail);
    Lookup(predictions, confusion, Review, Review);
    var correct := confusion[(Pass, Pass)] + confusion[(Fail, Fail)] + confusion[(Review, Review)];
    var pass := RatesOf(predictions, confusion, Pass);
    var fail := RatesOf(predictions, confusion, Fail);
    var review := RatesOf(predictions, confusion, Review);
    r := Report(eligible, correct, Ratio(correct, eligible),
                Mean3(pass.precision, fail.precision, review.precision), Mean3(pass.recall, fail.recall, review.recall),
                Mean3(pass.f1, fail.f1, review.f1), fp, Ratio(fp, fpOf), fn, Ratio(fn, fnOf), confusion,
                map[Pass := pass, Fail := fail, Review := review]);
  }

  /** Every reported rate is a rate, and no class's F1 leaves the interval of its own precision and recall. */
  lemma RatesAreRates(ps: seq<Prediction>, r: Report)
    requires Reports(ps, r)
    ensures r.accuracy <= ONE && r.macroPrecision <= ONE && r.macroRecall <= ONE && r.macroF1 <= ONE
    ensures r.falsePositiveRate <= ONE && r.falseNegativeRate <= ONE
    ensures forall verdict: Verdict :: verdict in r.perClass
              && r.perClass[verdict].precision <= ONE && r.perClass[verdict].recall <= ONE
              && (r.perClass[verdict].precision <= r.perClass[verdict].f1 <= r.perClass[verdict].recall
                  || r.perClass[verdict].recall <= r.perClass[verdict].f1 <= r.perClass[verdict].precision)
  {
    hide Cell, Ratio, F1, Mean3;
    ErrorsBalance(ps);
    CellsAddUp(ps);
    RatioWithinOne(r.correct, r.eligible);
    RatioWithinOne(r.falsePositiveCount, Row(ps, Pass) + Row(ps, Review));
    RatioWithinOne(r.falseNegativeCount, Row(ps, Fail));
    forall verdict: Verdict
      ensures verdict in r.perClass
              && r.perClass[verdict].precision <= ONE && r.perClass[verdict].recall <= ONE
              && r.perClass[verdict].f1 <= ONE
              && (r.perClass[verdict].precision <= r.perClass[verdict].f1 <= r.perClass[verdict].recall
                  || r.perClass[verdict].recall <= r.perClass[verdict].f1 <= r.perClass[verdict].precision)
    {
      Cases(verdict);
      CellWithin(ps, verdict);
      RatioWithinOne(Cell(ps, verdict, verdict), Column(ps, verdict));
      RatioWithinOne(Cell(ps, verdict, verdict), Row(ps, verdict));
      F1Between(r.perClass[verdict].precision, r.perClass[verdict].recall);
    }
    MeanBetween(r.perClass[Pass].precision, r.perClass[Fail].precision, r.perClass[Review].precision, 0, ONE);
    MeanBetween(r.perClass[Pass].recall, r.perClass[Fail].recall, r.perClass[Review].recall, 0, ONE);
    MeanBetween(r.perClass[Pass].f1, r.perClass[Fail].f1, r.perClass[Review].f1, 0, ONE);
  }

  /** `rate` is the ten-thousandth nearest to `n` out of `d`, and 0 of nothing. */
  predicate RateOf(rate: nat, n: nat, d: nat) {
    if d == 0 then rate == 0 else Nearest(10000 * n, d, rate, rate * d)
  }

  /** `mean` is nearest to the arithmetic mean of three rates. */
  predicate MeanOf(mean: nat, a: nat, b: nat, c: nat) {
    3 * mean - 1 <= a + b + c <= 3 * mean + 1
  }

  /** `f1` is nearest to `2pr / (p + r)`, and 0 when both rates are. */
  predicate HarmonicOf(f1: nat, p: nat, r: nat) {
    if p + r == 0 then f1 == 0 else Nearest(2 * p * r, p + r, f1, f1 * (p + r))
  }

  lemma RatioIsNearest(n: nat, d: nat)
    ensures RateOf(Ratio(n, d), n, d)
  {
    hide RoundHalfEven, Nearest;
    if d > 0 {
      RoundIsNearest(10000 * n, d, Ratio(n, d));
    }
  }

  lemma F1IsNearest(p: nat, r: nat)
    ensures HarmonicOf(F1(p, r), p, r)
  {
    hide RoundHalfEven, Nearest;
    if p + r > 0 {
      RoundIsNearest(2 * p * r, p + r, F1(p, r));
    }
  }

  lemma MeanIsNearest(a: nat, b: nat, c: nat)
    ensures MeanOf(Mean3(a, b, c), a, b, c)
  {
    hide RoundHalfEven;
    RoundIsNearest(a + b + c, 3, Mean3(a, b, c));
  }

  /**
   What the numbers of a report are: every rate the nearest ten-thousandth of its counts, every F1 the harmonic mean of
   its class's own precision and recall, every macro number the mean over the three classes.
  */
  lemma ReportedRates(ps: seq<Prediction>, r: Report, verdict: Verdict)
    requires Reports(ps, r)
    ensures RateOf(r.accuracy, r.correct, r.eligible)
    ensures RateOf(r.falsePositiveRate, FalsePositives(ps, Fail), Row(ps, Pass) + Row(ps, Review))
    ensures RateOf(r.falseNegativeRate, FalseNegatives(ps, Fail), Row(ps, Fail))
    ensures verdict in r.perClass
            && RateOf(r.perClass[verdict].precision, Cell(ps, verdict, verdict), Column(ps, verdict))
            && RateOf(r.perClass[verdict].recall, Cell(ps, verdict, verdict), Row(ps, verdict))
            && HarmonicOf(r.perClass[verdict].f1, r.perClass[verdict].precision, r.perClass[verdict].recall)
            && r.perClass[verdict].support == Row(ps, verdict)
    ensures Pass in r.perClass && Fail in r.perClass && Review in r.perClass
            && MeanOf(r.macroPrecision, r.perClass[Pass].precision, r.perClass[Fail].precision,
                      r.perClass[Review].precision)
            && MeanOf(r.macroRecall, r.perClass[Pass].recall, r.perClass[Fail].recall, r.perClass[Review].recall)
            && MeanOf(r.macroF1, r.perClass[Pass].f1, r.perClass[Fail].f1, r.perClass[Review].f1)
  {
    hide Cell, Row, Column, Ratio, F1, Mean3, RateOf, HarmonicOf, MeanOf, FalsePositives, FalseNegatives, Confusion;
    RatioIsNearest(r.correct, r.eligible);
    RatioIsNearest(r.falsePositiveCount, Row(ps, Pass) + Row(ps, Review));
    RatioIsNearest(r.falseNegativeCount, Row(ps, Fail));
    Cases(verdict);
    RatioIsNearest(Cell(ps, verdict, verdict), Column(ps, verdict));
    RatioIsNearest(Cell(ps, verdict, verdict), Row(ps, verdict));
    F1IsNearest(r.perClass[verdict].precision, r.perClass[verdict].recall);
    MeanIsNearest(r.perClass[Pass].precision, r.perClass[Fail].precision, r.perClass[Review].precision);
    MeanIsNearest(r.perClass[Pass].recall, r.perClass[Fail].recall, r.perClass[Review].recall);
    MeanIsNearest(r.perClass[Pass].f1, r.perClass[Fail].f1, r.perClass[Review].f1);
  }
}
