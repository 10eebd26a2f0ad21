/** When the curve that oAuto chooses is the best one (google_benchmark/src/complexity.cc). */
module CurveChoice {
  import opened Sums
  import opened Sorting
  import opened Walltime
  import opened LeastSquares

  /** No curve with any coefficient has a smaller residual. */
  ghost predicate IsBestOfAll(ps: seq<Point>, log2: Curve, best: LeastSq) {
    && best.coef.Finite?
    && forall c, coef :: IsCandidate(c) ==>
      Residual(ps, FittingCurve(best.complexity, log2), best.coef.value) <= Residual(ps, FittingCurve(c, log2), coef)
  }

  // ---------------------------------------------------------------- what a curve explains

  /** What fitting the curve takes away from the sum of the squared times, from the sums over the data. */
  function Explained(ps: seq<Point>, g: Curve): real {
    Quotient(SumReal(ps, TimeTimesCurve(g)), SumReal(ps, CurveSquared(g)))
  }

  function Quotient(tg: real, gg: real): real {
    if gg == 0.0 then 0.0 else tg * (tg / gg)
  }

  lemma AtVertex(tt: real, tg: real, gg: real, best: real)
    requires gg != 0.0 && best * gg == tg
    ensures Parabola(tt, tg, gg, best) == tt - Quotient(tg, gg)
  {
    assert best == tg / gg;
    assert (best * best) * gg == best * (best * gg);
    assert Quotient(tg, gg) == tg * best;
  }

  /** The least residual of a curve, where its coefficient is. */
  lemma ResidualAtCoefficient(ps: seq<Point>, g: Curve, coef: real)
    requires !Degenerate(ps, g) && IsCoefficient(ps, g, Finite(coef))
    ensures Residual(ps, g, coef) == SumReal(ps, TimeSquared()) - Explained(ps, g)
  {
    ResidualIsParabola(ps, g, coef);
    AtVertex(SumReal(ps, TimeSquared()), SumReal(ps, TimeTimesCurve(g)), SumReal(ps, CurveSquared(g)), coef);
  }

  lemma ResidualAtZero(ps: seq<Point>, g: Curve)
    ensures Residual(ps, g, 0.0) == SumReal(ps, TimeSquared())
  {
    ResidualIsParabola(ps, g, 0.0);
  }

  lemma CoefficientExists(ps: seq<Point>, g: Curve) returns (coef: real)
    requires !Degenerate(ps, g)
    ensures IsCoefficient(ps, g, Finite(coef))
  {
    coef := SumReal(ps, TimeTimesCurve(g)) / SumReal(ps, CurveSquared(g));
    assert coef * SumReal(ps, CurveSquared(g)) == SumReal(ps, TimeTimesCurve(g));
  }

  /** No coefficient does better than that, and some coefficient attains it. */
  lemma LeastResidual(ps: seq<Point>, g: Curve) returns (coef: real)
    ensures Residual(ps, g, coef) == SumReal(ps, TimeSquared()) - Explained(ps, g)
    ensures forall c :: Residual(ps, g, coef) <= Residual(ps, g, c)
  {
    if Degenerate(ps, g) {
      coef := 0.0;
      ResidualAtZero(ps, g);
      forall c ensures Residual(ps, g, coef) <= Residual(ps, g, c) {
        DegenerateResidual(ps, g, c, g);
      }
    } else {
      coef := CoefficientExists(ps, g);
      ResidualAtCoefficient(ps, g, coef);
      forall c ensures Residual(ps, g, coef) <= Residual(ps, g, c) {
        CoefficientBeats(ps, g, coef, c);
      }
    }
  }

  /** Best over all curves and coefficients means: no candidate explains more. */
  lemma BestExplainsMost(ps: seq<Point>, log2: Curve, best: LeastSq)
    requires ps != [] && Stands(ps, log2, best)
    ensures IsBestOfAll(ps, log2, best) <==>
      forall c :: IsCandidate(c) ==>
        Explained(ps, FittingCurve(c, log2)) <= Explained(ps, FittingCurve(best.complexity, log2))
  {
    var g := FittingCurve(best.complexity, log2);
    ResidualAtCoefficient(ps, g, best.coef.value);
    forall c | IsCandidate(c)
      ensures (forall coef :: Residual(ps, g, best.coef.value) <= Residual(ps, FittingCurve(c, log2), coef))
              <==> Explained(ps, FittingCurve(c, log2)) <= Explained(ps, g)
    {
      var least := LeastResidual(ps, FittingCurve(c, log2));
    }
  }

  // ---------------------------------------------------------------- by the sign of the mean

  /** The order in which the normalized errors put the chosen curve and another one. */
  lemma ChosenAgainst(ps: seq<Point>, log2: Curve, best: LeastSq, c: BigO)
    requires ps != [] && Stands(ps, log2, best) && NotBeaten(ps, FittingCurve(c, log2), best)
    requires !Degenerate(ps, FittingCurve(c, log2))
    ensures var g, h := FittingCurve(best.complexity, log2), FittingCurve(c, log2);
      && (MeanTime(ps) > 0.0 ==> Explained(ps, h) <= Explained(ps, g))
      && (MeanTime(ps) < 0.0 ==> Explained(ps, h) >= Explained(ps, g))
  {
    var g, h := FittingCurve(best.complexity, log2), FittingCurve(c, log2);
    var fit :| IsFit(ps, h, fit) && !Less(fit.rms, best.rms);
    FitsOrdered(ps, h, fit, g, best);
    ResidualAtCoefficient(ps, g, best.coef.value);
    ResidualAtCoefficient(ps, h, fit.coef.value);
  }

  lemma ExplainedNotNegative(ps: seq<Point>, g: Curve)
    ensures Explained(ps, g) >= 0.0
    ensures Explained(ps, g) == 0.0 <==> SumReal(ps, TimeTimesCurve(g)) == 0.0
  {
    CurveSquaresNotNegative(ps, g);
    if Degenerate(ps, g) {
      forall i | 0 <= i < |ps| ensures TimeTimesCurve(g)(ps[i]) == 0.0 {
        assert g(ps[i].n) == 0.0;
      }
      SumOfZeros(ps, TimeTimesCurve(g));
    } else {
      QuotientSign(SumReal(ps, TimeTimesCurve(g)), SumReal(ps, CurveSquared(g)));
    }
  }

  lemma QuotientSign(tg: real, gg: real)
    requires gg > 0.0
    ensures Quotient(tg, gg) >= 0.0 && (Quotient(tg, gg) == 0.0 <==> tg == 0.0)
  {
    var q := tg / gg;
    assert q * gg == tg;
    SquareSign(q);
    if q != 0.0 {
      ProductGrows(0.0, Square(q), gg);
      assert Quotient(tg, gg) == Square(q) * gg;
    } else {
      assert tg == 0.0;
    }
  }

  /** With a positive mean time the choice is best. */
  lemma BestForPositiveMean(ps: seq<Point>, log2: Curve, best: LeastSq)
    requires ps != [] && AutoChosen(ps, log2, best) && MeanTime(ps) > 0.0
    ensures IsBestOfAll(ps, log2, best)
  {
    forall c, coef | IsCandidate(c)
      ensures Residual(ps, FittingCurve(best.complexity, log2), best.coef.value)
              <= Residual(ps, FittingCurve(c, log2), coef)
    {
      AutoIsBest(ps, log2, best, c, coef);
    }
  }

  /** No candidate correlates with the times at all. */
  ghost predicate Uncorrelated(ps: seq<Point>, log2: Curve) {
    forall c :: IsCandidate(c) ==> SumReal(ps, TimeTimesCurve(FittingCurve(c, log2))) == 0.0
  }

  lemma ConstantExplains(ps: seq<Point>, log2: Curve)
    requires ps != [] && MeanTime(ps) == 0.0
    ensures Explained(ps, FittingCurve(O1, log2)) == 0.0
  {
    var g := FittingCurve(O1, log2);
    SumRealSame(ps, TimeTimesCurve(g), ps, TimeOf());
    ZeroQuotient(SumReal(ps, TimeOf()), |ps| as real);
    ExplainedNotNegative(ps, g);
  }

  lemma ZeroQuotient(x: real, n: real)
    requires n > 0.0 && x / n == 0.0
    ensures x == 0.0
  {
    assert x / n * n == x;
  }

  /** With a zero mean the constant curve is kept, and is best exactly when no candidate correlates. */
  lemma BestForZeroMean(ps: seq<Point>, log2: Curve, best: LeastSq)
    requires ps != [] && AutoChosen(ps, log2, best) && MeanTime(ps) == 0.0
    ensures IsBestOfAll(ps, log2, best) <==> Uncorrelated(ps, log2)
  {
    BestExplainsMost(ps, log2, best);
    ConstantExplains(ps, log2);
    forall c | IsCandidate(c)
      ensures Explained(ps, FittingCurve(c, log2)) <= 0.0
              <==> SumReal(ps, TimeTimesCurve(FittingCurve(c, log2))) == 0.0
    {
      ExplainedNotNegative(ps, FittingCurve(c, log2));
    }
  }

  /** All candidates that can be fitted fit equally well. */
  ghost predicate AllFitEqually(ps: seq<Point>, log2: Curve) {
    forall c, d {:trigger FittingCurve(c, log2), FittingCurve(d, log2)} ::
      IsCandidate(c) && IsCandidate(d)
      && !Degenerate(ps, FittingCurve(c, log2)) && !Degenerate(ps, FittingCurve(d, log2)) ==>
        Explained(ps, FittingCurve(c, log2)) == Explained(ps, FittingCurve(d, log2))
  }

  /** With a negative mean the worst curve is chosen, which is best exactly when all fit equally well. */
  lemma BestForNegativeMean(ps: seq<Point>, log2: Curve, best: LeastSq)
    requires ps != [] && AutoChosen(ps, log2, best) && MeanTime(ps) < 0.0
    ensures IsBestOfAll(ps, log2, best) <==> AllFitEqually(ps, log2)
  {
    BestExplainsMost(ps, log2, best);
    var g := FittingCurve(best.complexity, log2);
    ExplainedNotNegative(ps, g);
    forall c | IsCandidate(c)
      ensures Degenerate(ps, FittingCurve(c, log2)) ==> Explained(ps, FittingCurve(c, log2)) <= Explained(ps, g)
      ensures !Degenerate(ps, FittingCurve(c, log2)) ==> Explained(ps, FittingCurve(c, log2)) >= Explained(ps, g)
    {
      if !Degenerate(ps, FittingCurve(c, log2)) {
        ChosenAgainst(ps, log2, best, c);
      }
    }
  }

  /** Exactly when the choice is best over all six curves and all coefficients. */
  lemma BestExactlyWhen(ps: seq<Point>, log2: Curve, best: LeastSq)
    requires ps != [] && AutoChosen(ps, log2, best)
    ensures IsBestOfAll(ps, log2, best) <==>
      || MeanTime(ps) > 0.0
      || (MeanTime(ps) == 0.0 && Uncorrelated(ps, log2))
      || (MeanTime(ps) < 0.0 && AllFitEqually(ps, log2))
  {
    if MeanTime(ps) > 0.0 {
      BestForPositiveMean(ps, log2, best);
    } else if MeanTime(ps) == 0.0 {
      BestForZeroMean(ps, log2, best);
    } else {
      BestForNegativeMean(ps, log2, best);
    }
  }

  // ---------------------------------------------------------------- times that are measured

  lemma {:induction false} NonNegativeSum(ps: seq<Point>)
    requires forall i :: 0 <= i < |ps| ==> ps[i].time >= 0.0
    ensures SumReal(ps, TimeOf()) >= 0.0
    ensures SumReal(ps, TimeOf()) == 0.0 ==> forall i :: 0 <= i < |ps| ==> ps[i].time == 0.0
  {
    if ps != [] {
      var tail := ps[1..];
      forall i | 0 <= i < |tail| ensures tail[i].time >= 0.0 {
        assert tail[i] == ps[i + 1];
      }
      NonNegativeSum(tail);
      assert SumReal(ps, TimeOf()) == ps[0].time + SumReal(tail, TimeOf());
      if SumReal(ps, TimeOf()) == 0.0 {
        forall i | 0 <= i < |ps| ensures ps[i].time == 0.0 {
          if i > 0 {
            assert ps[i] == tail[i - 1] && tail[i - 1].time == 0.0;
          }
        }
      }
    }
  }

  lemma QuotientNonNegative(x: real, n: real)
    requires n > 0.0 && x >= 0.0
    ensures x / n >= 0.0
  {
  }

  /** For times that are not negative, as measured times are, the choice is always best. */
  lemma BestForMeasuredTimes(ps: seq<Point>, log2: Curve, best: LeastSq)
    requires ps != [] && AutoChosen(ps, log2, best)
    requires forall i :: 0 <= i < |ps| ==> ps[i].time >= 0.0
    ensures IsBestOfAll(ps, log2, best)
  {
    NonNegativeSum(ps);
    QuotientNonNegative(SumReal(ps, TimeOf()), |ps| as real);
    BestExactlyWhen(ps, log2, best);
    if MeanTime(ps) == 0.0 {
      ZeroQuotient(SumReal(ps, TimeOf()), |ps| as real);
      forall c | IsCandidate(c) ensures SumReal(ps, TimeTimesCurve(FittingCurve(c, log2))) == 0.0 {
        SumOfZeros(ps, TimeTimesCurve(FittingCurve(c, log2)));
      }
    }
  }

  // ---------------------------------------------------------------- inputs on which it fails

  lemma SumOfPair(ps: seq<Point>, f: Point -> real)
    requires |ps| == 2
    ensures SumReal(ps, f) == f(ps[0]) + f(ps[1])
  {
    var tail := ps[1..];
    assert tail[1..] == [];
    assert SumReal(tail, f) == f(tail[0]);
    assert SumReal(ps, f) == f(ps[0]) + SumReal(tail, f);
  }

  lemma PairSums(ps: seq<Point>, g: Curve)
    requires |ps| == 2
    ensures SumReal(ps, TimeOf()) == ps[0].time + ps[1].time
    ensures SumReal(ps, TimeTimesCurve(g)) == ps[0].time * g(ps[0].n) + ps[1].time * g(ps[1].n)
    ensures SumReal(ps, CurveSquared(g)) == g(ps[0].n) * g(ps[0].n) + g(ps[1].n) * g(ps[1].n)
  {
    SumOfPair(ps, TimeOf());
    SumOfPair(ps, TimeTimesCurve(g));
    SumOfPair(ps, CurveSquared(g));
  }

  /** The times -1 and -2 of the sizes 1 and 2 lie on a line, which oAuto does not choose. */
  lemma NegativeTimesMislead(ps: seq<Point>, log2: Curve, best: LeastSq)
    requires ps == [Point(1, -1.0), Point(2, -2.0)] && AutoChosen(ps, log2, best)
    ensures Residual(ps, FittingCurve(ON, log2), -1.0) == 0.0
    ensures Residual(ps, FittingCurve(best.complexity, log2), best.coef.value) >= 0.5
    ensures !IsBestOfAll(ps, log2, best)
  {
    var line, flat, g := FittingCurve(ON, log2), FittingCurve(O1, log2), FittingCurve(best.complexity, log2);
    SumOfPair(ps, SquaredError(line, -1.0));
    assert Error(ps[0], line, -1.0) == 0.0 && Error(ps[1], line, -1.0) == 0.0;
    PairSums(ps, flat);
    SumOfPair(ps, TimeSquared());
    assert flat(1) == 1.0 && flat(2) == 1.0;
    assert Explained(ps, flat) == 4.5;
    ChosenAgainst(ps, log2, best, O1);
    ResidualAtCoefficient(ps, g, best.coef.value);
    assert Residual(ps, g, best.coef.value) > Residual(ps, line, -1.0);
  }

  /** The times -1 and 1 have mean zero and grow with the size; the constant curve is kept. */
  lemma ZeroMeanMisleads(ps: seq<Point>, log2: Curve, best: LeastSq)
    requires ps == [Point(1, -1.0), Point(2, 1.0)] && AutoChosen(ps, log2, best)
    ensures best.complexity == O1 && !IsBestOfAll(ps, log2, best)
  {
    var line := FittingCurve(ON, log2);
    PairSums(ps, line);
    assert line(1) == 1.0 && line(2) == 2.0;
    assert SumReal(ps, TimeTimesCurve(line)) == 1.0;
    assert MeanTime(ps) == 0.0;
    BestExactlyWhen(ps, log2, best);
    assert IsCandidate(ON);
  }
}
