/** The fit of a complexity curve to measured times (google_benchmark/src/complexity.cc), over the reals. */
module LeastSquares {
  import opened Sums
  import opened Sorting
  import opened Walltime

  datatype BigO = ONone | O1 | ON | ONSquared | ONCubed | OLogN | ONLogN | OAuto | OLambda

  /** A double: dividing by zero leaves the reals. */
  datatype Number = Finite(value: real) | Infinite | NotANumber

  predicate Less(a: Number, b: Number) {
    match (a, b)
    case (Finite(x), Finite(y)) => x < y
    case (Finite(_), Infinite) => true
    case _ => false
  }

  datatype LeastSq = LeastSq(coef: Number, rms: Number, complexity: BigO)

  /** A measurement: the size of the problem and the time it took. */
  datatype Point = Point(n: int, time: real)

  type Curve = int -> real

  function FittingCurve(complexity: BigO, log2: Curve): Curve {
    match complexity
    case ON => (n: int) => n as real
    case ONSquared => (n: int) => n as real * n as real
    case ONCubed => (n: int) => n as real * n as real * n as real
    case OLogN => log2
    case ONLogN => (n: int) => n as real * log2(n)
    case _ => (n: int) => 1.0
  }

  function Points(n: seq<int>, time: seq<real>): (r: seq<Point>)
    requires |n| == |time|
    ensures |r| == |n| && forall i :: 0 <= i < |r| ==> r[i] == Point(n[i], time[i])
  {
    seq(|n|, i requires 0 <= i < |n| => Point(n[i], time[i]))
  }

  // ---------------------------------------------------------------- exact data

  /** The times follow the curve exactly, with factor k. */
  predicate TimesAre(n: seq<int>, time: seq<real>, complexity: BigO, log2: Curve, k: real)
    requires |n| == |time|
  {
    forall i :: 0 <= i < |n| ==> TimeIs(time[i], n[i] as real, log2(n[i]), complexity, k)
  }

  /** The time of a sample of size x with binary logarithm l. */
  predicate TimeIs(t: real, x: real, l: real, complexity: BigO, k: real) {
    match complexity
    case O1 => t == k
    case ON => t == k * x
    case ONSquared => t == k * (x * x)
    case ONCubed => t == k * (x * x * x)
    case OLogN => t == k * l
    case ONLogN => t == k * (x * l)
    case _ => false
  }

  /** Some sample lies where the curve is not zero. */
  predicate CanBeFitted(n: seq<int>, complexity: BigO, log2: Curve) {
    match complexity
    case O1 => n != []
    case OLogN => exists i :: 0 <= i < |n| && log2(n[i]) != 0.0
    case ONLogN => exists i :: 0 <= i < |n| && n[i] != 0 && log2(n[i]) != 0.0
    case _ => exists i :: 0 <= i < |n| && n[i] != 0
  }

  /** Times on the curve, point by point. */
  predicate Passes(ps: seq<Point>, g: Curve, k: real) {
    forall i :: 0 <= i < |ps| ==> OnCurve(ps[i], g, k)
  }

  predicate OnCurve(p: Point, g: Curve, k: real) {
    p.time == k * g(p.n)
  }

  lemma TimesPass(n: seq<int>, time: seq<real>, complexity: BigO, log2: Curve, k: real)
    requires |n| == |time| && IsCandidate(complexity)
    ensures TimesAre(n, time, complexity, log2, k) <==> Passes(Points(n, time), FittingCurve(complexity, log2), k)
  {
    var ps, g := Points(n, time), FittingCurve(complexity, log2);
    forall i | 0 <= i < |n|
      ensures TimeIs(time[i], n[i] as real, log2(n[i]), complexity, k) <==> OnCurve(ps[i], g, k)
    {
      TimeOnCurve(ps[i], complexity, log2, k);
    }
  }

  lemma TimeOnCurve(p: Point, complexity: BigO, log2: Curve, k: real)
    requires IsCandidate(complexity)
    ensures TimeIs(p.time, p.n as real, log2(p.n), complexity, k) <==> OnCurve(p, FittingCurve(complexity, log2), k)
  {
    var x, l := p.n as real, log2(p.n);
    var y := FittingCurve(complexity, log2)(p.n);
    match complexity
    case O1 => assert y == 1.0;
    case ON => assert y == x;
    case ONSquared => assert y == x * x;
    case ONCubed => assert y == x * x * x;
    case OLogN => assert y == l;
    case ONLogN => assert y == x * l;
  }

  lemma FittedWhereNotZero(n: seq<int>, time: seq<real>, complexity: BigO, log2: Curve)
    requires |n| == |time| && IsCandidate(complexity) && CanBeFitted(n, complexity, log2)
    ensures !Degenerate(Points(n, time), FittingCurve(complexity, log2))
  {
    var ps, g := Points(n, time), FittingCurve(complexity, log2);
    CurveSquaresNotNegative(ps, g);
    if complexity == O1 {
      assert g(ps[0].n) == 1.0;
    } else {
      var i :| 0 <= i < |n| && NotZeroAt(n[i], complexity, log2);
      CurveNotZero(n[i], complexity, log2);
      assert ps[i].n == n[i];
    }
  }

  predicate NotZeroAt(x: int, complexity: BigO, log2: Curve) {
    (complexity.OLogN? || x != 0) && (complexity.OLogN? || complexity.ONLogN? ==> log2(x) != 0.0)
  }

  lemma CurveNotZero(x: int, complexity: BigO, log2: Curve)
    requires IsCandidate(complexity) && NotZeroAt(x, complexity, log2)
    ensures FittingCurve(complexity, log2)(x) != 0.0
  {
    var r := x as real;
    ProductNotZero(r, r);
    ProductNotZero(r * r, r);
    ProductNotZero(r, log2(x));
  }

  lemma ProductNotZero(x: real, y: real)
    ensures x != 0.0 && y != 0.0 ==> x * y != 0.0
  {
  }

  lemma {:induction false} ZeroResidual(ps: seq<Point>, g: Curve, k: real)
    ensures Residual(ps, g, k) == 0.0 <==> Passes(ps, g, k)
  {
    if ps != [] {
      var tail, e := ps[1..], Error(ps[0], g, k);
      ZeroResidual(tail, g, k);
      ResidualNotNegative(tail, g, k);
      SquareSign(e);
      assert Residual(ps, g, k) == Square(e) + Residual(tail, g, k);
      assert forall i :: 0 <= i < |tail| ==> tail[i] == ps[i + 1];
      if Passes(tail, g, k) && e == 0.0 {
        forall i | 0 <= i < |ps| ensures OnCurve(ps[i], g, k) {
          assert i > 0 ==> ps[i] == tail[i - 1];
        }
      }
    }
  }

  /** The fit of times that follow a curve exactly is that curve, without an error. */
  lemma ExactFit(ps: seq<Point>, g: Curve, k: real, fit: LeastSq)
    requires ps != [] && IsFit(ps, g, fit) && !Degenerate(ps, g) && Passes(ps, g, k)
    ensures fit.coef == Finite(k)
    ensures fit.rms == if MeanTime(ps) == 0.0 then NotANumber else Finite(0.0)
  {
    var c := fit.coef.value;
    ZeroResidual(ps, g, k);
    ZeroResidual(ps, g, c);
    CoefficientIsOptimal(ps, g, c, k);
    ResidualNotNegative(ps, g, c);
    assert Passes(ps, g, c);
    SameFactor(ps, g, k, c);
    NoError(|ps| as real, MeanTime(ps), fit.rms);
  }

  lemma NoError(n: real, mean: real, rms: Number)
    requires n > 0.0 && IsRms(n, 0.0, mean, rms)
    ensures rms == if mean == 0.0 then NotANumber else Finite(0.0)
  {
    if mean != 0.0 {
      RootIsZero(rms.value * mean, n, 0.0);
      ProductNotZero(rms.value, mean);
    }
  }

  lemma SameFactor(ps: seq<Point>, g: Curve, k: real, c: real)
    requires Passes(ps, g, k) && Passes(ps, g, c) && !Degenerate(ps, g)
    ensures k == c
  {
    CurveSquaresNotNegative(ps, g);
    var i :| 0 <= i < |ps| && g(ps[i].n) != 0.0;
    assert OnCurve(ps[i], g, k) && OnCurve(ps[i], g, c);
    SameQuotient(k, c, g(ps[i].n));
  }

  lemma SameQuotient(k: real, c: real, x: real)
    requires k * x == c * x && x != 0.0
    ensures k == c
  {
    if k != c {
      ProductNotZero(k - c, x);
    }
  }

  lemma ExactTimesFitted(n: seq<int>, time: seq<real>, complexity: BigO, log2: Curve, k: real, fit: LeastSq)
    requires |n| == |time| && n != [] && IsCandidate(complexity) && CanBeFitted(n, complexity, log2)
    requires TimesAre(n, time, complexity, log2, k) && IsFit(Points(n, time), FittingCurve(complexity, log2), fit)
    ensures IsExact(Points(n, time), k, fit)
  {
    TimesPass(n, time, complexity, log2, k);
    FittedWhereNotZero(n, time, complexity, log2);
    ExactFit(Points(n, time), FittingCurve(complexity, log2), k, fit);
  }

  predicate IsExact(ps: seq<Point>, k: real, fit: LeastSq)
    requires ps != []
  {
    fit.coef == Finite(k) && fit.rms == if MeanTime(ps) == 0.0 then NotANumber else Finite(0.0)
  }

  /** When some candidate passes through all times, so does the chosen one. */
  lemma ExactChoice(n: seq<int>, time: seq<real>, log2: Curve, best: LeastSq, c: BigO, k: real)
    requires |n| == |time| && n != [] && AutoChosen(Points(n, time), log2, best) && MeanTime(Points(n, time)) > 0.0
    requires IsCandidate(c) && TimesAre(n, time, c, log2, k)
    ensures best.coef.Finite? && best.rms == Finite(0.0)
    ensures TimesAre(n, time, best.complexity, log2, best.coef.value)
  {
    var ps, g := Points(n, time), FittingCurve(best.complexity, log2);
    assert NotBeaten(ps, FittingCurve(c, log2), best);
    AutoIsBest(ps, log2, best, c, k);
    TimesPass(n, time, c, log2, k);
    ZeroResidual(ps, FittingCurve(c, log2), k);
    ResidualNotNegative(ps, g, best.coef.value);
    ZeroResidual(ps, g, best.coef.value);
    TimesPass(n, time, best.complexity, log2, best.coef.value);
    NoError(|ps| as real, MeanTime(ps), best.rms);
  }

  /** Two measurements fitted with a constant: the coefficient is their mean and the normalized error is half
      their distance over the mean. */
  lemma TwoMeasurements(n: seq<int>, a: real, b: real, log2: Curve, fit: LeastSq)
    requires |n| == 2 && a + b > 0.0 && a >= b
    requires IsFit(Points(n, [a, b]), FittingCurve(O1, log2), fit)
    ensures fit.coef == Finite((a + b) / 2.0) && fit.rms == Finite((a - b) / (a + b))
  {
    var ps, g := Points(n, [a, b]), FittingCurve(O1, log2);
    SumOfTwo(ps, CurveSquared(g));
    SumOfTwo(ps, TimeTimesCurve(g));
    SumOfTwo(ps, TimeOf());
    SumOfTwo(ps, SquaredError(g, (a + b) / 2.0));
    assert MeanTime(ps) == (a + b) / 2.0;
    var m := fit.coef.value;
    assert m == (a + b) / 2.0;
    assert Residual(ps, g, m) == Square(a - m) + Square(b - m);
    HalfDistance(fit.rms.value, m, (a - b) / 2.0);
  }

  lemma SumOfTwo(ps: seq<Point>, f: Point -> real)
    requires |ps| == 2
    ensures SumReal(ps, f) == f(ps[0]) + f(ps[1])
  {
    assert ps[1..] == [ps[1]];
    assert SumReal([ps[1]], f) == f(ps[1]);
  }

  lemma HalfDistance(rms: real, m: real, d: real)
    requires m > 0.0 && d >= 0.0 && IsRoot(rms * m, 2.0, Square(d) + Square(-d))
    ensures rms == (2.0 * d) / (2.0 * m)
  {
    var root := rms * m;
    if root < d {
      SquareMonotone(root, d);
    } else if d < root {
      SquareMonotone(d, root);
    }
    assert root == d;
  }

  // ---------------------------------------------------------------- sums of squares

  function Square(x: real): real {
    x * x
  }

  function CurveSquared(g: Curve): Point -> real {
    (p: Point) => g(p.n) * g(p.n)
  }

  function TimeTimesCurve(g: Curve): Point -> real {
    (p: Point) => p.time * g(p.n)
  }

  function TimeOf(): Point -> real {
    (p: Point) => p.time
  }

  function TimeSquared(): Point -> real {
    (p: Point) => p.time * p.time
  }

  function SquaredError(g: Curve, c: real): Point -> real {
    (p: Point) => Square(Error(p, g, c))
  }

  function Error(p: Point, g: Curve, c: real): real {
    p.time - c * g(p.n)
  }

  /** The sum of squared errors of the curve c * g. */
  function Residual(ps: seq<Point>, g: Curve, c: real): real {
    SumReal(ps, SquaredError(g, c))
  }

  function Parabola(tt: real, tg: real, gg: real, c: real): real {
    Weighted(tt, -2.0 * c, tg, c * c, gg)
  }

  lemma ErrorExpanded(e: real, t: real, x: real, c: real, k: real, l: real)
    requires e == t - c * x && k == -2.0 * c && l == c * c
    ensures Square(e) == Weighted(t * t, k, t * x, l, x * x)
  {
    var y := c * x;
    assert Square(e) == t * t - 2.0 * (t * y) + y * y;
    assert t * y == c * (t * x);
    assert y * y == l * (x * x);
  }

  lemma PointExpanded(p: Point, g: Curve, c: real, k: real, l: real)
    requires k == -2.0 * c && l == c * c
    ensures Combines(p, SquaredError(g, c), TimeSquared(), TimeTimesCurve(g), k, CurveSquared(g), l)
  {
    ErrorExpanded(Error(p, g, c), p.time, g(p.n), c, k, l);
  }

  lemma ResidualExpanded(ps: seq<Point>, g: Curve, c: real, k: real, l: real)
    requires k == -2.0 * c && l == c * c
    ensures Residual(ps, g, c) ==
            Weighted(SumReal(ps, TimeSquared()), k, SumReal(ps, TimeTimesCurve(g)), l, SumReal(ps, CurveSquared(g)))
  {
    forall i | 0 <= i < |ps|
      ensures Combines(ps[i], SquaredError(g, c), TimeSquared(), TimeTimesCurve(g), k, CurveSquared(g), l)
    {
      PointExpanded(ps[i], g, c, k, l);
    }
    SumRealCombination(ps, SquaredError(g, c), TimeSquared(), TimeTimesCurve(g), k, CurveSquared(g), l);
  }

  lemma ResidualIsParabola(ps: seq<Point>, g: Curve, c: real)
    ensures Residual(ps, g, c) ==
            Parabola(SumReal(ps, TimeSquared()), SumReal(ps, TimeTimesCurve(g)), SumReal(ps, CurveSquared(g)), c)
  {
    ResidualExpanded(ps, g, c, -2.0 * c, c * c);
  }

  lemma VertexIsLowest(tt: real, tg: real, gg: real, best: real, c: real)
    requires best * gg == tg && gg >= 0.0
    ensures Parabola(tt, tg, gg, c) - Parabola(tt, tg, gg, best) == (c - best) * (c - best) * gg >= 0.0
  {
    var d := c - best;
    assert d * d >= 0.0;
    assert c == best + d;
    assert c * c == best * best + 2.0 * (best * d) + d * d;
    assert c * tg == best * tg + d * tg;
    assert d * tg == (best * d) * gg;
  }

  lemma {:induction false} CurveSquaresNotNegative(ps: seq<Point>, g: Curve)
    ensures SumReal(ps, CurveSquared(g)) >= 0.0
    ensures SumReal(ps, CurveSquared(g)) == 0.0 <==> forall i :: 0 <= i < |ps| ==> g(ps[i].n) == 0.0
  {
    if ps != [] {
      var tail, x := ps[1..], g(ps[0].n);
      CurveSquaresNotNegative(tail, g);
      SquareSign(x);
      assert SumReal(ps, CurveSquared(g)) == x * x + SumReal(tail, CurveSquared(g));
      if SumReal(ps, CurveSquared(g)) == 0.0 {
        assert SumReal(tail, CurveSquared(g)) == 0.0 && x == 0.0;
        forall i | 0 <= i < |ps| ensures g(ps[i].n) == 0.0 {
          if i > 0 {
            assert ps[i] == tail[i - 1] && g(tail[i - 1].n) == 0.0;
          }
        }
      }
      if forall i :: 0 <= i < |ps| ==> g(ps[i].n) == 0.0 {
        forall i | 0 <= i < |tail| ensures g(tail[i].n) == 0.0 {
          assert tail[i] == ps[i + 1];
        }
      }
    }
  }

  lemma SquareSign(x: real)
    ensures x == 0.0 ==> Square(x) == 0.0
    ensures x != 0.0 ==> Square(x) > 0.0
  {
    if x > 0.0 {
      SquarePositive(x);
    } else if x < 0.0 {
      SquarePositive(-x);
      assert Square(-x) == Square(x);
    }
  }

  lemma SquarePositive(x: real)
    requires x > 0.0
    ensures Square(x) > 0.0
  {
    TimesPositive(x, x);
  }

  function Times(x: real, y: real): real {
    x * y
  }

  lemma TimesPositive(x: real, y: real)
    requires x > 0.0 && y > 0.0
    ensures Times(x, y) > 0.0
  {
  }

  /** The coefficient that a curve is fitted with gives a residual no larger than any other. */
  lemma CoefficientIsOptimal(ps: seq<Point>, g: Curve, best: real, c: real)
    requires best * SumReal(ps, CurveSquared(g)) == SumReal(ps, TimeTimesCurve(g))
    ensures Residual(ps, g, best) <= Residual(ps, g, c)
  {
    ResidualIsParabola(ps, g, best);
    ResidualIsParabola(ps, g, c);
    CurveSquaresNotNegative(ps, g);
    VertexIsLowest(SumReal(ps, TimeSquared()), SumReal(ps, TimeTimesCurve(g)), SumReal(ps, CurveSquared(g)), best, c);
  }

  // ---------------------------------------------------------------- one curve

  /** Every sample lies where the curve is zero: nothing can be fitted. */
  predicate Degenerate(ps: seq<Point>, g: Curve) {
    SumReal(ps, CurveSquared(g)) == 0.0
  }

  /** A coefficient at which the residual is least, when there is one to find. */
  ghost predicate IsCoefficient(ps: seq<Point>, g: Curve, coef: Number) {
    if Degenerate(ps, g) then coef == NotANumber
    else coef.Finite? && coef.value * SumReal(ps, CurveSquared(g)) == SumReal(ps, TimeTimesCurve(g))
  }

  /** The root of the mean squared error, divided by the mean time. */
  ghost predicate IsRms(n: real, residual: real, mean: real, rms: Number) {
    if mean == 0.0 then rms == if residual == 0.0 then NotANumber else Infinite
    else rms.Finite? && IsRoot(rms.value * mean, n, residual)
  }

  ghost predicate IsRoot(root: real, n: real, residual: real) {
    root >= 0.0 && Square(root) * n == residual
  }

  function MeanTime(ps: seq<Point>): real
    requires ps != []
  {
    SumReal(ps, TimeOf()) / |ps| as real
  }

  ghost predicate IsFit(ps: seq<Point>, g: Curve, fit: LeastSq)
    requires ps != []
  {
    && IsCoefficient(ps, g, fit.coef)
    && (Degenerate(ps, g) ==> fit.rms == NotANumber)
    && (!Degenerate(ps, g) ==> IsRms(|ps| as real, Residual(ps, g, fit.coef.value), MeanTime(ps), fit.rms))
  }

  method MinimalLeastSqOfCurve(n: seq<int>, time: seq<real>, g: Curve, sqrt: real -> real) returns (result: LeastSq)
    requires |n| == |time| && |n| > 0 && IsSqrt(sqrt)
    ensures IsFit(Points(n, time), g, result) && result.complexity == OLambda
  {
    ghost var ps := Points(n, time);
    var gg, tt, tg := RunningSums(n, time, g);
    if gg == 0.0 {
      return LeastSq(NotANumber, NotANumber, OLambda);
    }
    var coef := tg / gg;
    assert coef * gg == tg;
    var rms := SumOfErrors(n, time, g, coef);
    ResidualNotNegative(ps, g, coef);
    var number := NormalizedRms(|n| as real, rms, tt / |n| as real, sqrt);
    result := LeastSq(Finite(coef), number, OLambda);
  }

  method RunningSums(n: seq<int>, time: seq<real>, g: Curve) returns (gg: real, tt: real, tg: real)
    requires |n| == |time|
    ensures gg == SumReal(Points(n, time), CurveSquared(g))
    ensures tt == SumReal(Points(n, time), TimeOf())
    ensures tg == SumReal(Points(n, time), TimeTimesCurve(g))
  {
    ghost var ps := Points(n, time);
    gg, tt, tg := 0.0, 0.0, 0.0;
    var i := 0;
    while i < |n|
      invariant 0 <= i <= |n|
      invariant gg == SumReal(ps[..i], CurveSquared(g))
      invariant tt == SumReal(ps[..i], TimeOf())
      invariant tg == SumReal(ps[..i], TimeTimesCurve(g))
    {
      assert ps[..i + 1] == ps[..i] + [ps[i]];
      SumRealAppend(ps[..i], CurveSquared(g), ps[i]);
      SumRealAppend(ps[..i], TimeOf(), ps[i]);
      SumRealAppend(ps[..i], TimeTimesCurve(g), ps[i]);
      var x := g(n[i]);
      gg, tt, tg := gg + x * x, tt + time[i], tg + time[i] * x;
      i := i + 1;
    }
    assert ps[..i] == ps;
  }

  method SumOfErrors(n: seq<int>, time: seq<real>, g: Curve, coef: real) returns (rms: real)
    requires |n| == |time|
    ensures rms == Residual(Points(n, time), g, coef)
  {
    ghost var ps := Points(n, time);
    rms := 0.0;
    var i := 0;
    while i < |n|
      invariant 0 <= i <= |n| && rms == Residual(ps[..i], g, coef)
    {
      assert ps[..i + 1] == ps[..i] + [ps[i]];
      SumRealAppend(ps[..i], SquaredError(g, coef), ps[i]);
      rms := rms + Square(Error(Point(n[i], time[i]), g, coef));
      i := i + 1;
    }
    assert ps[..i] == ps;
  }

  method NormalizedRms(n: real, residual: real, mean: real, sqrt: real -> real) returns (rms: Number)
    requires n > 0.0 && residual >= 0.0 && IsSqrt(sqrt)
    ensures IsRms(n, residual, mean, rms)
  {
    QuotientNotNegative(residual, n);
    var root := sqrt(residual / n);
    assert IsRoot(root, n, residual) by {
      assert residual / n * n == residual;
    }
    if mean == 0.0 {
      RootIsZero(root, n, residual);
      rms := if root == 0.0 then NotANumber else Infinite;
    } else {
      rms := Finite(root / mean);
      assert rms.value * mean == root;
    }
  }

  lemma RootIsZero(root: real, n: real, residual: real)
    requires n > 0.0 && IsRoot(root, n, residual)
    ensures root == 0.0 <==> residual == 0.0
  {
    if root != 0.0 {
      SquareSign(root);
      ProductGrows(0.0, Square(root), n);
    }
  }

  lemma {:induction false} ResidualNotNegative(ps: seq<Point>, g: Curve, c: real)
    ensures Residual(ps, g, c) >= 0.0
  {
    if ps != [] {
      ResidualNotNegative(ps[1..], g, c);
      SquareSign(ps[0].time - c * g(ps[0].n));
    }
  }

  // ---------------------------------------------------------------- the best of six curves

  lemma RootOrder(r: real, s: real, n: real, x: real, y: real)
    requires n > 0.0 && IsRoot(r, n, x) && IsRoot(s, n, y)
    ensures r < s ==> x < y
    ensures r == s ==> x == y
  {
    if r < s {
      SquareMonotone(r, s);
      ProductGrows(Square(r), Square(s), n);
    }
  }

  /** With a positive mean the normalized error orders curves by their residuals, with a negative one the
      other way round, and with zero not at all. */
  lemma RmsOrder(n: real, mean: real, x: real, a: Number, y: real, b: Number)
    requires n > 0.0 && IsRms(n, x, mean, a) && IsRms(n, y, mean, b)
    ensures mean > 0.0 ==> (Less(a, b) <==> x < y)
    ensures mean < 0.0 ==> (Less(a, b) <==> x > y)
    ensures mean == 0.0 ==> !Less(a, b)
  {
    if mean != 0.0 {
      RootOrder(a.value * mean, b.value * mean, n, x, y);
      RootOrder(b.value * mean, a.value * mean, n, y, x);
      ValueOrder(a.value, b.value, mean);
      ValueOrder(b.value, a.value, mean);
    }
  }

  lemma ValueOrder(a: real, b: real, mean: real)
    ensures a < b && mean > 0.0 ==> b * mean - a * mean > 0.0
    ensures a < b && mean < 0.0 ==> a * mean - b * mean > 0.0
  {
    if a < b && mean > 0.0 {
      ProductGrows(a, b, mean);
    } else if a < b && mean < 0.0 {
      ProductGrows(a, b, -mean);
    }
  }

  lemma LessIsTransitive(a: Number, b: Number, c: Number)
    requires Less(a, b) && Less(b, c)
    ensures Less(a, c)
  {
  }

  /** The best fit so far is one of a curve that is not degenerate. */
  ghost predicate Stands(ps: seq<Point>, log2: Curve, best: LeastSq)
    requires ps != []
  {
    var g := FittingCurve(best.complexity, log2);
    IsFit(ps, g, best) && !Degenerate(ps, g)
  }

  /** The curve has been fitted, and the fit is not less than the best. */
  ghost predicate NotBeaten(ps: seq<Point>, g: Curve, best: LeastSq)
    requires ps != []
  {
    exists fit :: IsFit(ps, g, fit) && !Less(fit.rms, best.rms)
  }

  predicate IsCandidate(c: BigO) {
    c.O1? || c.ON? || c.ONSquared? || c.ONCubed? || c.OLogN? || c.ONLogN?
  }

  /** What oAuto chooses: a fitted candidate that no candidate beats; the constant curve when the mean is zero. */
  ghost predicate AutoChosen(ps: seq<Point>, log2: Curve, best: LeastSq)
    requires ps != []
  {
    && IsCandidate(best.complexity) && Stands(ps, log2, best)
    && (MeanTime(ps) == 0.0 ==> best.complexity == O1)
    && forall c {:trigger FittingCurve(c, log2)} :: IsCandidate(c) ==> NotBeaten(ps, FittingCurve(c, log2), best)
  }

  lemma ConstantNotDegenerate(ps: seq<Point>, log2: Curve)
    requires ps != []
    ensures !Degenerate(ps, FittingCurve(O1, log2))
  {
    var g := FittingCurve(O1, log2);
    CurveSquaresNotNegative(ps, g);
    assert g(ps[0].n) == 1.0;
  }

  method MinimalLeastSq(n: seq<int>, time: seq<real>, complexity: BigO, log2: Curve, sqrt: real -> real)
    returns (best: LeastSq)
    requires |n| == |time| && |n| >= 2 && complexity != ONone && IsSqrt(sqrt)
    ensures complexity != OAuto ==> best.complexity == complexity
    ensures IsFit(Points(n, time), FittingCurve(best.complexity, log2), best)
    ensures complexity == OAuto ==> AutoChosen(Points(n, time), log2, best)
    ensures forall k :: TimesAre(n, time, complexity, log2, k) && CanBeFitted(n, complexity, log2) ==>
      IsExact(Points(n, time), k, best)
    ensures complexity == OAuto && MeanTime(Points(n, time)) > 0.0 ==>
      forall c, k :: IsCandidate(c) && TimesAre(n, time, c, log2, k) ==>
        best.coef.Finite? && best.rms == Finite(0.0) && TimesAre(n, time, best.complexity, log2, best.coef.value)
  {
    if complexity != OAuto {
      best := MinimalLeastSqOfCurve(n, time, FittingCurve(complexity, log2), sqrt);
      best := best.(complexity := complexity);
      forall k | TimesAre(n, time, complexity, log2, k) && CanBeFitted(n, complexity, log2)
        ensures IsExact(Points(n, time), k, best)
      {
        ExactTimesFitted(n, time, complexity, log2, k, best);
      }
      return;
    }
    best := BestOfSix(n, time, log2, sqrt);
    if MeanTime(Points(n, time)) > 0.0 {
      forall c, k | IsCandidate(c) && TimesAre(n, time, c, log2, k)
        ensures best.coef.Finite? && best.rms == Finite(0.0)
        ensures TimesAre(n, time, best.complexity, log2, best.coef.value)
      {
        ExactChoice(n, time, log2, best, c, k);
      }
    }
  }

  /** The constant curve by default, and every other one that is better. */
  method BestOfSix(n: seq<int>, time: seq<real>, log2: Curve, sqrt: real -> real) returns (best: LeastSq)
    requires |n| == |time| && |n| >= 2 && IsSqrt(sqrt)
    ensures AutoChosen(Points(n, time), log2, best)
  {
    ghost var ps := Points(n, time);
    var fits := [OLogN, ON, ONLogN, ONSquared, ONCubed];
    best := MinimalLeastSqOfCurve(n, time, FittingCurve(O1, log2), sqrt);
    best := best.(complexity := O1);
    ghost var tried := [O1];
    ConstantStarts(ps, log2, best);
    var k := 0;
    while k < |fits|
      invariant 0 <= k <= |fits| && tried == [O1] + fits[..k]
      invariant BestSoFar(ps, log2, tried, best)
    {
      var current := MinimalLeastSqOfCurve(n, time, FittingCurve(fits[k], log2), sqrt);
      current := current.(complexity := fits[k]);
      CurveTried(ps, log2, tried, best, current);
      if Less(current.rms, best.rms) {
        best := current;
      }
      tried := tried + [fits[k]];
      k := k + 1;
    }
    AllCurvesTried(ps, log2, tried, best);
  }

  /** What the loop over the curves keeps. */
  ghost predicate BestSoFar(ps: seq<Point>, log2: Curve, tried: seq<BigO>, best: LeastSq)
    requires ps != []
  {
    && IsCandidate(best.complexity) && Stands(ps, log2, best)
    && (MeanTime(ps) == 0.0 ==> best.complexity == O1)
    && NoneBeats(ps, log2, tried, best)
  }

  lemma ConstantStarts(ps: seq<Point>, log2: Curve, best: LeastSq)
    requires ps != [] && best.complexity == O1 && IsFit(ps, FittingCurve(O1, log2), best)
    ensures BestSoFar(ps, log2, [O1], best)
  {
    ConstantNotDegenerate(ps, log2);
    NotLessThanItself(best.rms);
    assert NotBeaten(ps, FittingCurve(O1, log2), best);
  }

  lemma NotLessThanItself(a: Number)
    ensures !Less(a, a)
  {
  }

  /** One more curve fitted and compared. */
  lemma CurveTried(ps: seq<Point>, log2: Curve, tried: seq<BigO>, best: LeastSq, current: LeastSq)
    requires ps != [] && BestSoFar(ps, log2, tried, best) && IsCandidate(current.complexity)
    requires IsFit(ps, FittingCurve(current.complexity, log2), current)
    ensures BestSoFar(ps, log2, tried + [current.complexity], if Less(current.rms, best.rms) then current else best)
  {
    var c, next := current.complexity, if Less(current.rms, best.rms) then current else best;
    NotLessThanItself(current.rms);
    if Less(current.rms, best.rms) {
      CurrentStands(ps, log2, current, best);
      BetterKeeps(ps, log2, tried, best, current);
    }
    assert NotBeaten(ps, FittingCurve(c, log2), next);
    OneMoreTried(ps, log2, tried, c, next);
  }

  lemma OneMoreTried(ps: seq<Point>, log2: Curve, tried: seq<BigO>, c: BigO, best: LeastSq)
    requires ps != [] && NoneBeats(ps, log2, tried, best) && NotBeaten(ps, FittingCurve(c, log2), best)
    ensures NoneBeats(ps, log2, tried + [c], best)
  {
  }

  lemma AllCurvesTried(ps: seq<Point>, log2: Curve, tried: seq<BigO>, best: LeastSq)
    requires ps != [] && BestSoFar(ps, log2, tried, best) && tried == [O1, OLogN, ON, ONLogN, ONSquared, ONCubed]
    ensures AutoChosen(ps, log2, best)
  {
    forall c {:trigger FittingCurve(c, log2)} | IsCandidate(c) ensures NotBeaten(ps, FittingCurve(c, log2), best) {
      assert tried[0] == O1 && tried[1] == OLogN && tried[2] == ON && tried[3] == ONLogN
          && tried[4] == ONSquared && tried[5] == ONCubed;
    }
  }

  ghost predicate NoneBeats(ps: seq<Point>, log2: Curve, tried: seq<BigO>, best: LeastSq)
    requires ps != []
  {
    forall j :: 0 <= j < |tried| ==> NotBeaten(ps, FittingCurve(tried[j], log2), best)
  }

  lemma BetterKeeps(ps: seq<Point>, log2: Curve, tried: seq<BigO>, best: LeastSq, better: LeastSq)
    requires ps != [] && NoneBeats(ps, log2, tried, best) && Less(better.rms, best.rms)
    ensures NoneBeats(ps, log2, tried, better)
  {
    forall j | 0 <= j < |tried| ensures NotBeaten(ps, FittingCurve(tried[j], log2), better) {
      BeatenByBetter(ps, FittingCurve(tried[j], log2), best, better);
    }
  }

  /** A fit that is less than another is one of a curve that is not degenerate; with a zero mean no fit is. */
  lemma CurrentStands(ps: seq<Point>, log2: Curve, current: LeastSq, best: LeastSq)
    requires ps != [] && IsFit(ps, FittingCurve(current.complexity, log2), current)
    requires Stands(ps, log2, best) && Less(current.rms, best.rms)
    ensures Stands(ps, log2, current) && MeanTime(ps) != 0.0
  {
  }

  lemma BeatenByBetter(ps: seq<Point>, g: Curve, best: LeastSq, better: LeastSq)
    requires ps != [] && NotBeaten(ps, g, best) && Less(better.rms, best.rms)
    ensures NotBeaten(ps, g, better)
  {
    var fit :| IsFit(ps, g, fit) && !Less(fit.rms, best.rms);
    if Less(fit.rms, better.rms) {
      LessIsTransitive(fit.rms, better.rms, best.rms);
    }
  }

  // ---------------------------------------------------------------- optimality

  lemma DegenerateResidual(ps: seq<Point>, g: Curve, c: real, h: Curve)
    requires Degenerate(ps, g)
    ensures Residual(ps, g, c) == Residual(ps, h, 0.0)
  {
    CurveSquaresNotNegative(ps, g);
    forall i | 0 <= i < |ps| ensures SquaredError(g, c)(ps[i]) == SquaredError(h, 0.0)(ps[i]) {
      assert g(ps[i].n) == 0.0;
    }
    SumRealSame(ps, SquaredError(g, c), ps, SquaredError(h, 0.0));
  }

  /** A fitted curve: no other coefficient does better. */
  lemma FitIsOptimal(ps: seq<Point>, g: Curve, fit: LeastSq, c: real)
    requires ps != [] && IsFit(ps, g, fit) && !Degenerate(ps, g)
    ensures fit.coef.Finite? && Residual(ps, g, fit.coef.value) <= Residual(ps, g, c)
  {
    CoefficientIsOptimal(ps, g, fit.coef.value, c);
  }

  lemma FitsOrdered(ps: seq<Point>, g: Curve, a: LeastSq, h: Curve, b: LeastSq)
    requires ps != [] && IsFit(ps, g, a) && !Degenerate(ps, g) && IsFit(ps, h, b) && !Degenerate(ps, h)
    requires !Less(a.rms, b.rms)
    ensures MeanTime(ps) > 0.0 ==> Residual(ps, h, b.coef.value) <= Residual(ps, g, a.coef.value)
    ensures MeanTime(ps) < 0.0 ==> Residual(ps, h, b.coef.value) >= Residual(ps, g, a.coef.value)
  {
    RmsOrder(|ps| as real, MeanTime(ps), Residual(ps, g, a.coef.value), a.rms, Residual(ps, h, b.coef.value), b.rms);
  }

  /** With a positive mean time the chosen curve and coefficient are best over all six curves and all
      coefficients, also those of curves that are zero at every sample. */
  lemma AutoIsBest(ps: seq<Point>, log2: Curve, best: LeastSq, c: BigO, coef: real)
    requires ps != [] && Stands(ps, log2, best) && NotBeaten(ps, FittingCurve(c, log2), best)
    requires MeanTime(ps) > 0.0
    ensures Residual(ps, FittingCurve(best.complexity, log2), best.coef.value)
            <= Residual(ps, FittingCurve(c, log2), coef)
  {
    var g, h := FittingCurve(best.complexity, log2), FittingCurve(c, log2);
    if Degenerate(ps, h) {
      DegenerateResidual(ps, h, coef, g);
      FitIsOptimal(ps, g, best, 0.0);
    } else {
      var fit :| IsFit(ps, h, fit) && !Less(fit.rms, best.rms);
      FitsOrdered(ps, h, fit, g, best);
      FitIsOptimal(ps, h, fit, coef);
    }
  }

  /** With a negative mean time it is the worst of the fitted curves that is chosen. */
  lemma AutoIsWorst(ps: seq<Point>, log2: Curve, best: LeastSq, c: BigO, coef: real)
    requires ps != [] && Stands(ps, log2, best) && NotBeaten(ps, FittingCurve(c, log2), best)
    requires MeanTime(ps) < 0.0 && !Degenerate(ps, FittingCurve(c, log2))
    requires IsCoefficient(ps, FittingCurve(c, log2), Finite(coef))
    ensures Residual(ps, FittingCurve(best.complexity, log2), best.coef.value)
            >= Residual(ps, FittingCurve(c, log2), coef)
  {
    var g, h := FittingCurve(best.complexity, log2), FittingCurve(c, log2);
    var fit :| IsFit(ps, h, fit) && !Less(fit.rms, best.rms);
    FitsOrdered(ps, h, fit, g, best);
    CoefficientBeats(ps, h, coef, fit.coef.value);
  }

  lemma CoefficientBeats(ps: seq<Point>, g: Curve, coef: real, other: real)
    requires !Degenerate(ps, g) && IsCoefficient(ps, g, Finite(coef))
    ensures Residual(ps, g, coef) <= Residual(ps, g, other)
  {
    CoefficientIsOptimal(ps, g, coef, other);
  }
}
