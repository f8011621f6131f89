/** The exact algebra of the Bezier experiment in the footprint scripting
    plugins: cubic Bernstein evaluation, De Casteljau splitting, the
    inflection polynomial and its quadratic solver, splitting a curve into a
    chain of pieces, and implicit lines through two points.

    Python floats are modelled as reals, so every identity below is exact.
    `math.sqrt` is a call into the runtime: its value for the discriminant is
    passed in as `root`, constrained by `IsSqrt` exactly where the source
    calls it. */
module BezierConverter {
  import opened Wrappers
  import opened Geometry

  /** A cubic Bezier curve `[bez[0], bez[1], bez[2], bez[3]]`: start point,
      two control points, end point. */
  datatype Bezier = Bezier(p0: Point, p1: Point, p2: Point, p3: Point)

  /** An implicit line `a*x + b*y == c`. */
  datatype Line = Line(a: real, b: real, c: real)

  /** Coefficients of `a*t*t + b*t + c`. */
  datatype Quadratic = Quadratic(a: real, b: real, c: real)

  // ---------------------------------------------------------------------
  // Evaluation

  /** The cubic Bernstein blend of four scalars, term by term as in
      `pointOnBezier`. */
  function Bernstein(a: real, b: real, c: real, d: real, t: real): real {
    (1.0 - t) * (1.0 - t) * (1.0 - t) * a + 3.0 * (1.0 - t) * (1.0 - t) * t * b
      + 3.0 * (1.0 - t) * t * t * c + t * t * t * d
  }

  /** The point of the curve at parameter `t`; the curve starts at its first
      control point and ends at its last. */
  function PointOnBezier(bez: Bezier, t: real): (p: Point)
    ensures t == 0.0 ==> p == bez.p0
    ensures t == 1.0 ==> p == bez.p3
  {
    Point(Bernstein(bez.p0.x, bez.p1.x, bez.p2.x, bez.p3.x, t),
          Bernstein(bez.p0.y, bez.p1.y, bez.p2.y, bez.p3.y, t))
  }

  // ---------------------------------------------------------------------
  // De Casteljau splitting

  /** Splits `bez` at `t` into the piece before and the piece after, by the
      three rounds of interpolation of `splitBezier`. The first piece starts
      where the curve starts, the second ends where it ends, and the two
      meet. */
  function SplitBezier(bez: Bezier, t: real): (halves: (Bezier, Bezier))
    ensures halves.0.p0 == bez.p0 && halves.1.p3 == bez.p3
    ensures halves.0.p3 == halves.1.p0
  {
    var p12 := LerpPoint(bez.p0, bez.p1, t);
    var p23 := LerpPoint(bez.p1, bez.p2, t);
    var p34 := LerpPoint(bez.p2, bez.p3, t);
    var p123 := LerpPoint(p12, p23, t);
    var p234 := LerpPoint(p23, p34, t);
    var p1234 := LerpPoint(p123, p234, t);
    (Bezier(bez.p0, p12, p123, p1234), Bezier(p1234, p234, p34, bez.p3))
  }

  /** The cubic in power form `c0 + 3*c1*t + 3*c2*t^2 + c3*t^3`. */
  function PowerForm(c0: real, c1: real, c2: real, c3: real, t: real): real {
    c0 + 3.0 * t * c1 + 3.0 * (t * t) * c2 + (t * t * t) * c3
  }

  lemma BernsteinPowerForm(a: real, b: real, c: real, d: real, t: real)
    ensures Bernstein(a, b, c, d, t) == PowerForm(a, b - a, a - 2.0 * b + c, d - 3.0 * c + 3.0 * b - a, t)
  {
    var u := 1.0 - t;
    assert u * u == 1.0 - 2.0 * t + t * t;
    assert u * u * u == 1.0 - 3.0 * t + 3.0 * (t * t) - t * t * t;
    assert u * u * t == t - 2.0 * (t * t) + t * t * t;
    assert u * t * t == t * t - t * t * t;
  }

  lemma LerpOfLerps(p: real, q: real, r: real, t: real)
    ensures Lerp(Lerp(p, q, t), Lerp(q, r, t), t) == p + 2.0 * t * (q - p) + (t * t) * (p - 2.0 * q + r)
  {
    var d := Lerp(q, r, t) - Lerp(p, q, t);
    assert d == (q - p) + t * (p - 2.0 * q + r);
    assert t * d == t * (q - p) + (t * t) * (p - 2.0 * q + r);
  }

  /** The three interpolation rounds in power form. */
  lemma DeCasteljauPowerForm(a: real, b: real, c: real, d: real, t: real)
    ensures Lerp(Lerp(a, b, t), Lerp(b, c, t), t) == a + 2.0 * t * (b - a) + (t * t) * (a - 2.0 * b + c)
    ensures Lerp(Lerp(b, c, t), Lerp(c, d, t), t) == b + 2.0 * t * (c - b) + (t * t) * (b - 2.0 * c + d)
    ensures Lerp(Lerp(Lerp(a, b, t), Lerp(b, c, t), t), Lerp(Lerp(b, c, t), Lerp(c, d, t), t), t)
         == PowerForm(a, b - a, a - 2.0 * b + c, d - 3.0 * c + 3.0 * b - a, t)
  {
    LerpOfLerps(a, b, c, t);
    LerpOfLerps(b, c, d, t);
    var x123 := a + 2.0 * t * (b - a) + (t * t) * (a - 2.0 * b + c);
    var x234 := b + 2.0 * t * (c - b) + (t * t) * (b - 2.0 * c + d);
    assert Lerp(x123, x234, t) == x123 + t * (x234 - x123);
    assert x234 - x123 == (b - a) + 2.0 * t * (a - 2.0 * b + c) + (t * t) * (d - 3.0 * c + 3.0 * b - a);
  }

  /** The scalar De Casteljau join point is the Bernstein value at `t`. */
  lemma {:induction false} JoinIsBernstein(a: real, b: real, c: real, d: real, t: real)
    ensures Lerp(Lerp(Lerp(a, b, t), Lerp(b, c, t), t), Lerp(Lerp(b, c, t), Lerp(c, d, t), t), t)
         == Bernstein(a, b, c, d, t)
  {
    DeCasteljauPowerForm(a, b, c, d, t);
    BernsteinPowerForm(a, b, c, d, t);
  }

  /** The power-form coefficients of the first piece are those of the whole
      curve scaled by `t`, `t^2`, `t^3`. */
  lemma LeftCoefficients(a: real, b: real, c: real, d: real, t: real)
    ensures Lerp(a, b, t) - a == t * (b - a)
    ensures a - 2.0 * Lerp(a, b, t) + Lerp(Lerp(a, b, t), Lerp(b, c, t), t) == (t * t) * (a - 2.0 * b + c)
    ensures Lerp(Lerp(Lerp(a, b, t), Lerp(b, c, t), t), Lerp(Lerp(b, c, t), Lerp(c, d, t), t), t)
            - 3.0 * Lerp(Lerp(a, b, t), Lerp(b, c, t), t) + 3.0 * Lerp(a, b, t) - a
         == (t * t * t) * (d - 3.0 * c + 3.0 * b - a)
  {
    DeCasteljauPowerForm(a, b, c, d, t);
  }

  lemma PowerFormScale(c0: real, c1: real, c2: real, c3: real, t: real, s: real)
    ensures PowerForm(c0, t * c1, (t * t) * c2, (t * t * t) * c3, s) == PowerForm(c0, c1, c2, c3, s * t)
  {
    assert s * (t * c1) == (s * t) * c1;
    assert (s * s) * ((t * t) * c2) == ((s * t) * (s * t)) * c2;
    assert (s * s * s) * ((t * t * t) * c3) == ((s * t) * (s * t) * (s * t)) * c3;
  }

  /** Scalar form of: the first piece at `s` is the whole curve at `s*t`. */
  lemma {:induction false} LeftPieceRetraces(a: real, b: real, c: real, d: real, t: real, s: real)
    ensures Bernstein(a, Lerp(a, b, t), Lerp(Lerp(a, b, t), Lerp(b, c, t), t),
                      Lerp(Lerp(Lerp(a, b, t), Lerp(b, c, t), t), Lerp(Lerp(b, c, t), Lerp(c, d, t), t), t), s)
         == Bernstein(a, b, c, d, s * t)
  {
    LeftCoefficients(a, b, c, d, t);
    BernsteinPowerForm(a, Lerp(a, b, t), Lerp(Lerp(a, b, t), Lerp(b, c, t), t),
                       Lerp(Lerp(Lerp(a, b, t), Lerp(b, c, t), t), Lerp(Lerp(b, c, t), Lerp(c, d, t), t), t), s);
    PowerFormScale(a, b - a, a - 2.0 * b + c, d - 3.0 * c + 3.0 * b - a, t, s);
    BernsteinPowerForm(a, b, c, d, s * t);
  }

  /** Running a cubic backwards: reversing the control points and the
      parameter gives the same value. */
  lemma BernsteinReverse(a: real, b: real, c: real, d: real, t: real, t': real)
    requires t' == 1.0 - t
    ensures Bernstein(a, b, c, d, t) == Bernstein(d, c, b, a, t')
  {
  }

  /** The second piece's control points are those of the first piece of the
      reversed curve split at `1 - t`, in reverse order. */
  lemma RightPiecePoints(a: real, b: real, c: real, d: real, t: real, t': real)
    requires t' == 1.0 - t
    ensures Lerp(c, d, t) == Lerp(d, c, t')
    ensures Lerp(Lerp(b, c, t), Lerp(c, d, t), t) == Lerp(Lerp(d, c, t'), Lerp(c, b, t'), t')
    ensures Lerp(Lerp(Lerp(a, b, t), Lerp(b, c, t), t), Lerp(Lerp(b, c, t), Lerp(c, d, t), t), t)
         == Lerp(Lerp(Lerp(d, c, t'), Lerp(c, b, t'), t'), Lerp(Lerp(c, b, t'), Lerp(b, a, t'), t'), t')
  {
    LerpReverse(c, d, t, t');
    LerpReverse(b, c, t, t');
    LerpReverse(a, b, t, t');
    LerpReverse(Lerp(b, c, t), Lerp(c, d, t), t, t');
    LerpReverse(Lerp(a, b, t), Lerp(b, c, t), t, t');
    LerpReverse(Lerp(Lerp(a, b, t), Lerp(b, c, t), t), Lerp(Lerp(b, c, t), Lerp(c, d, t), t), t, t');
  }

  /** Scalar form of: the second piece at `s` is the whole curve at
      `t + s*(1-t)`. */
  lemma {:induction false} RightPieceRetraces(a: real, b: real, c: real, d: real, t: real, s: real)
    ensures Bernstein(Lerp(Lerp(Lerp(a, b, t), Lerp(b, c, t), t), Lerp(Lerp(b, c, t), Lerp(c, d, t), t), t),
                      Lerp(Lerp(b, c, t), Lerp(c, d, t), t), Lerp(c, d, t), d, s)
         == Bernstein(a, b, c, d, t + s * (1.0 - t))
  {
    var t', s' := 1.0 - t, 1.0 - s;
    var u := t + s * (1.0 - t);
    var u' := s' * t';
    calc {
      Bernstein(Lerp(Lerp(Lerp(a, b, t), Lerp(b, c, t), t), Lerp(Lerp(b, c, t), Lerp(c, d, t), t), t),
                Lerp(Lerp(b, c, t), Lerp(c, d, t), t), Lerp(c, d, t), d, s);
    == { BernsteinReverse(Lerp(Lerp(Lerp(a, b, t), Lerp(b, c, t), t), Lerp(Lerp(b, c, t), Lerp(c, d, t), t), t),
                          Lerp(Lerp(b, c, t), Lerp(c, d, t), t), Lerp(c, d, t), d, s, s'); }
      Bernstein(d, Lerp(c, d, t), Lerp(Lerp(b, c, t), Lerp(c, d, t), t),
                Lerp(Lerp(Lerp(a, b, t), Lerp(b, c, t), t), Lerp(Lerp(b, c, t), Lerp(c, d, t), t), t), s');
    == { RightPiecePoints(a, b, c, d, t, t'); }
      Bernstein(d, Lerp(d, c, t'), Lerp(Lerp(d, c, t'), Lerp(c, b, t'), t'),
                Lerp(Lerp(Lerp(d, c, t'), Lerp(c, b, t'), t'), Lerp(Lerp(c, b, t'), Lerp(b, a, t'), t'), t'), s');
    == { LeftPieceRetraces(d, c, b, a, t', s'); }
      Bernstein(d, c, b, a, u');
    == { assert u' == 1.0 - u; BernsteinReverse(a, b, c, d, u, u'); }
      Bernstein(a, b, c, d, u);
    }
  }

  /** The join point of `splitBezier(bez, t)`, `(x1234, y1234)`, is the point
      of the curve at `t`. */
  lemma SplitJoinIsOnCurve(bez: Bezier, t: real)
    ensures SplitBezier(bez, t).0.p3 == PointOnBezier(bez, t)
    ensures SplitBezier(bez, t).1.p0 == PointOnBezier(bez, t)
  {
    JoinIsBernstein(bez.p0.x, bez.p1.x, bez.p2.x, bez.p3.x, t);
    JoinIsBernstein(bez.p0.y, bez.p1.y, bez.p2.y, bez.p3.y, t);
  }

  /** The two pieces exactly retrace the curve: the first piece over
      `[0, 1]` is the curve over `[0, t]`, the second is the curve over
      `[t, 1]`. */
  lemma SplitRetracesCurve(bez: Bezier, t: real, s: real)
    ensures PointOnBezier(SplitBezier(bez, t).0, s) == PointOnBezier(bez, s * t)
    ensures PointOnBezier(SplitBezier(bez, t).1, s) == PointOnBezier(bez, t + s * (1.0 - t))
  {
    LeftPieceRetraces(bez.p0.x, bez.p1.x, bez.p2.x, bez.p3.x, t, s);
    LeftPieceRetraces(bez.p0.y, bez.p1.y, bez.p2.y, bez.p3.y, t, s);
    RightPieceRetraces(bez.p0.x, bez.p1.x, bez.p2.x, bez.p3.x, t, s);
    RightPieceRetraces(bez.p0.y, bez.p1.y, bez.p2.y, bez.p3.y, t, s);
  }

  /** Splitting at 0 leaves the whole curve as the second piece; splitting
      at 1 leaves it as the first. */
  lemma SplitAtEnds(bez: Bezier)
    ensures SplitBezier(bez, 0.0).1 == bez
    ensures SplitBezier(bez, 1.0).0 == bez
  {
  }

  // ---------------------------------------------------------------------
  // Quadratic solver

  function Discriminant(q: Quadratic): real {
    q.b * q.b - 4.0 * q.a * q.c
  }

  predicate IsRoot(q: Quadratic, x: real) {
    q.a * x * x + q.b * x + q.c == 0.0
  }

  /** `r` is what `math.sqrt(d)` returns. */
  predicate IsSqrt(r: real, d: real) {
    r >= 0.0 && r * r == d
  }

  /** What the quadratic solver needs of `math.sqrt`: it is called only when
      `a` is not zero and the discriminant is positive. */
  predicate RootSupplied(q: Quadratic, root: real) {
    q.a != 0.0 && Discriminant(q) > 0.0 ==> IsSqrt(root, Discriminant(q))
  }

  predicate StrictlyIncreasing(s: seq<real>) {
    forall i, j :: 0 <= i < j < |s| ==> s[i] < s[j]
  }

  /** Python's `sorted` on a two-element list. */
  function Sorted2(u: real, v: real): (r: seq<real>)
    ensures multiset(r) == multiset{u, v}
    ensures r[0] <= r[1]
  {
    if u <= v then [u, v] else [v, u]
  }

  /** `solveQuadraticReal` as written. The test for `a == 0 and b == 0` is
      followed by `if a == 0`, not `elif`, so a constant polynomial reaches
      `-c / b` with `b == 0` and raises; otherwise it returns the same roots
      as the intended solver. */
  function SolveQuadraticReal(q: Quadratic, root: real): (r: Result<seq<real>>)
    requires RootSupplied(q, root)
    ensures r.Err? <==> q.a == 0.0 && q.b == 0.0
    ensures r.Err? ==> r.error == ZeroDivisionError
  {
    var dis := Discriminant(q);
    if q.a == 0.0 then
      if q.b == 0.0 then Err(ZeroDivisionError) else Ok([-q.c / q.b])
    else if dis == 0.0 then Ok([-q.b / (2.0 * q.a)])
    else if dis < 0.0 then Ok([])
    else Ok(Sorted2((-q.b - root) / (2.0 * q.a), (-q.b + root) / (2.0 * q.a)))
  }

  /** Away from the constant polynomials, the solver as written and the
      intended solver agree. */
  lemma SolveQuadraticRealAgreesWithIntended(q: Quadratic, root: real)
    requires RootSupplied(q, root)
    requires q.a != 0.0 || q.b != 0.0
    ensures SolveQuadraticReal(q, root) == Ok(SolveQuadraticRealIntended(q, root))
  {
    if q.a == 0.0 {
    } else if Discriminant(q) == 0.0 {
    } else if Discriminant(q) < 0.0 {
    }
  }

  /** The example that exhibits the division by zero: `0*t^2 + 0*t + 1`. */
  lemma SolveQuadraticRealRaisesOnConstant()
    ensures SolveQuadraticReal(Quadratic(0.0, 0.0, 1.0), 0.0) == Err(ZeroDivisionError)
  {
  }

  /** The solver with the evidently intended `elif`: a constant polynomial
      gives no roots. The roots come back sorted, at most two. */
  function SolveQuadraticRealIntended(q: Quadratic, root: real): (roots: seq<real>)
    requires RootSupplied(q, root)
    ensures |roots| <= 2
  {
    var dis := Discriminant(q);
    if q.a == 0.0 && q.b == 0.0 then []
    else if q.a == 0.0 then [-q.c / q.b]
    else if dis == 0.0 then [-q.b / (2.0 * q.a)]
    else if dis < 0.0 then []
    else Sorted2((-q.b - root) / (2.0 * q.a), (-q.b + root) / (2.0 * q.a))
  }

  /** Completing the square: for `a != 0`, `x` is a root exactly when
      `(2ax + b)^2` equals the discriminant. */
  lemma CompletedSquare(q: Quadratic, x: real)
    requires q.a != 0.0
    ensures IsRoot(q, x) <==> (2.0 * q.a * x + q.b) * (2.0 * q.a * x + q.b) == Discriminant(q)
  {
    var a, b, c := q.a, q.b, q.c;
    assert (2.0 * a * x + b) * (2.0 * a * x + b) - (b * b - 4.0 * a * c) == 4.0 * a * (a * x * x + b * x + c);
  }

  /** `x` solves `2ax + b == s` exactly when it is `(-b + s) / (2a)`. */
  lemma QuotientSquare(q: Quadratic, s: real, x: real)
    requires q.a != 0.0
    ensures x == (-q.b + s) / (2.0 * q.a) <==> 2.0 * q.a * x + q.b == s
  {
  }

  lemma ZeroProduct(u: real, v: real)
    requires u * v == 0.0
    ensures u == 0.0 || v == 0.0
  {
  }

  lemma SquareIsZero(y: real)
    requires y * y == 0.0
    ensures y == 0.0
  {
    ZeroProduct(y, y);
  }

  lemma SquareNonNegative(y: real)
    ensures y * y >= 0.0
  {
    if y < 0.0 {
      assert y * y == (-y) * (-y);
    }
  }

  /** The single root `-c / b` of a linear polynomial. */
  lemma LinearRoot(q: Quadratic, x: real)
    requires q.a == 0.0 && q.b != 0.0
    ensures IsRoot(q, x) <==> x == -q.c / q.b
  {
  }

  /** The double root `-b / (2a)` when the discriminant is zero. */
  lemma DoubleRoot(q: Quadratic, x: real)
    requires q.a != 0.0 && Discriminant(q) == 0.0
    ensures IsRoot(q, x) <==> x == -q.b / (2.0 * q.a)
  {
    CompletedSquare(q, x);
    QuotientSquare(q, 0.0, x);
    if IsRoot(q, x) {
      SquareIsZero(2.0 * q.a * x + q.b);
    }
  }

  /** The two roots `(-b -+ sqrt(dis)) / (2a)` when the discriminant is
      positive, and nothing else. */
  lemma TwoRoots(q: Quadratic, root: real, x: real)
    requires q.a != 0.0 && Discriminant(q) > 0.0 && IsSqrt(root, Discriminant(q))
    ensures IsRoot(q, x) <==> x == (-q.b - root) / (2.0 * q.a) || x == (-q.b + root) / (2.0 * q.a)
  {
    CompletedSquare(q, x);
    QuotientSquare(q, root, x);
    QuotientSquare(q, -root, x);
    var y := 2.0 * q.a * x + q.b;
    assert y * y - root * root == (y - root) * (y + root);
  }

  /** The two roots are distinct. */
  lemma TwoRootsDiffer(q: Quadratic, root: real)
    requires q.a != 0.0 && Discriminant(q) > 0.0 && IsSqrt(root, Discriminant(q))
    ensures (-q.b - root) / (2.0 * q.a) != (-q.b + root) / (2.0 * q.a)
  {
    QuotientSquare(q, root, (-q.b + root) / (2.0 * q.a));
    QuotientSquare(q, -root, (-q.b - root) / (2.0 * q.a));
  }

  /** The intended solver returns its roots strictly increasing. */
  lemma QuadraticRootsIncrease(q: Quadratic, root: real)
    requires RootSupplied(q, root)
    ensures StrictlyIncreasing(SolveQuadraticRealIntended(q, root))
  {
    if q.a != 0.0 && Discriminant(q) > 0.0 {
      TwoRootsDiffer(q, root);
    }
  }

  /** Every value the intended solver returns is a root. */
  lemma QuadraticRootsSound(q: Quadratic, root: real)
    requires RootSupplied(q, root)
    ensures forall x :: x in SolveQuadraticRealIntended(q, root) ==> IsRoot(q, x)
  {
    var dis := Discriminant(q);
    if q.a == 0.0 && q.b == 0.0 {
    } else if q.a == 0.0 {
      LinearRoot(q, -q.c / q.b);
    } else if dis == 0.0 {
      DoubleRoot(q, -q.b / (2.0 * q.a));
    } else if dis < 0.0 {
    } else {
      TwoRoots(q, root, (-q.b - root) / (2.0 * q.a));
      TwoRoots(q, root, (-q.b + root) / (2.0 * q.a));
    }
  }

  /** Every root is found, unless the polynomial is constant. */
  lemma QuadraticRootsComplete(q: Quadratic, root: real, x: real)
    requires RootSupplied(q, root)
    requires !(q.a == 0.0 && q.b == 0.0)
    requires IsRoot(q, x)
    ensures x in SolveQuadraticRealIntended(q, root)
  {
    var dis := Discriminant(q);
    if q.a == 0.0 {
      LinearRoot(q, x);
    } else if dis == 0.0 {
      DoubleRoot(q, x);
    } else if dis < 0.0 {
      CompletedSquare(q, x);
      SquareNonNegative(2.0 * q.a * x + q.b);
    } else {
      TwoRoots(q, root, x);
    }
  }

  // ---------------------------------------------------------------------
  // Inflections

  /** The coefficients `qa, qb, qc` that `findInflections` builds from the
      curve's power-basis vectors `v = p1 - p0`, `w = p2 - 2 p1 + p0` and
      `z = p3 - 3 p2 + 3 p1 - p0` (the `c1, c2, c3` of `BernsteinPowerForm`). */
  function InflectionQuadratic(bz: Bezier): Quadratic {
    var vx := bz.p1.x - bz.p0.x;
    var vy := bz.p1.y - bz.p0.y;
    var wx := bz.p2.x - bz.p1.x - vx;
    var wy := bz.p2.y - bz.p1.y - vy;
    var zx := bz.p3.x - bz.p2.x - vx - 2.0 * wx;
    var zy := bz.p3.y - bz.p2.y - vy - 2.0 * wy;
    Quadratic(wx * zy - wy * zx, vx * zy - vy * zx, vx * wy - vy * wx)
  }

  /** For the power form `c0 + 3t c1 + 3t^2 c2 + t^3 c3`: a third of its
      derivative at `t`, and a sixth of its second derivative. */
  function Slope(c1: real, c2: real, c3: real, t: real): real {
    c1 + 2.0 * t * c2 + (t * t) * c3
  }

  function Bend(c2: real, c3: real, t: real): real {
    c2 + t * c3
  }

  /** The Taylor expansion of the power form about `t`: `3 Slope` and
      `6 Bend` are its first and second derivatives there. */
  lemma SlopeIsDerivative(c0: real, c1: real, c2: real, c3: real, t: real, s: real)
    ensures PowerForm(c0, c1, c2, c3, s) - PowerForm(c0, c1, c2, c3, t)
         == 3.0 * (s - t) * Slope(c1, c2, c3, t) + 3.0 * ((s - t) * (s - t)) * Bend(c2, c3, t)
            + ((s - t) * (s - t) * (s - t)) * c3
  {
    var h := s - t;
    assert s * s == t * t + 2.0 * t * h + h * h;
    assert s * s * s == t * t * t + 3.0 * (t * t) * h + 3.0 * t * (h * h) + h * h * h;
  }

  /** The curve's velocity at `t`, divided by 3. */
  function Velocity(bz: Bezier, t: real): Point {
    var v := Difference(bz.p0, bz.p1);
    var w := Point(bz.p2.x - 2.0 * bz.p1.x + bz.p0.x, bz.p2.y - 2.0 * bz.p1.y + bz.p0.y);
    var z := Point(bz.p3.x - 3.0 * bz.p2.x + 3.0 * bz.p1.x - bz.p0.x, bz.p3.y - 3.0 * bz.p2.y + 3.0 * bz.p1.y - bz.p0.y);
    Point(Slope(v.x, w.x, z.x, t), Slope(v.y, w.y, z.y, t))
  }

  /** The curve's acceleration at `t`, divided by 6. */
  function Acceleration(bz: Bezier, t: real): Point {
    var w := Point(bz.p2.x - 2.0 * bz.p1.x + bz.p0.x, bz.p2.y - 2.0 * bz.p1.y + bz.p0.y);
    var z := Point(bz.p3.x - 3.0 * bz.p2.x + 3.0 * bz.p1.x - bz.p0.x, bz.p3.y - 3.0 * bz.p2.y + 3.0 * bz.p1.y - bz.p0.y);
    Point(Bend(w.x, z.x, t), Bend(w.y, z.y, t))
  }

  /** `Velocity` and `Acceleration` are the curve's derivatives: the
      Taylor expansion of `pointOnBezier` about `t`, in `x` ... */
  lemma VelocityIsDerivativeX(bz: Bezier, t: real, s: real)
    ensures PointOnBezier(bz, s).x - PointOnBezier(bz, t).x
            == 3.0 * (s - t) * Velocity(bz, t).x + 3.0 * ((s - t) * (s - t)) * Acceleration(bz, t).x
               + ((s - t) * (s - t) * (s - t)) * (bz.p3.x - 3.0 * bz.p2.x + 3.0 * bz.p1.x - bz.p0.x)
  {
    CoordinateTaylor(bz.p0.x, bz.p1.x, bz.p2.x, bz.p3.x, t, s, Velocity(bz, t).x, Acceleration(bz, t).x);
  }

  /** ... and in `y`. */
  lemma VelocityIsDerivativeY(bz: Bezier, t: real, s: real)
    ensures PointOnBezier(bz, s).y - PointOnBezier(bz, t).y
            == 3.0 * (s - t) * Velocity(bz, t).y + 3.0 * ((s - t) * (s - t)) * Acceleration(bz, t).y
               + ((s - t) * (s - t) * (s - t)) * (bz.p3.y - 3.0 * bz.p2.y + 3.0 * bz.p1.y - bz.p0.y)
  {
    CoordinateTaylor(bz.p0.y, bz.p1.y, bz.p2.y, bz.p3.y, t, s, Velocity(bz, t).y, Acceleration(bz, t).y);
  }

  /** One coordinate of `VelocityIsDerivativeX` and `VelocityIsDerivativeY`, with the slope and bend at
      `t` passed in. */
  lemma CoordinateTaylor(a: real, b: real, c: real, d: real, t: real, s: real, slope: real, bend: real)
    requires slope == Slope(b - a, c - 2.0 * b + a, d - 3.0 * c + 3.0 * b - a, t)
    requires bend == Bend(c - 2.0 * b + a, d - 3.0 * c + 3.0 * b - a, t)
    ensures var h := s - t;
            Bernstein(a, b, c, d, s) - Bernstein(a, b, c, d, t)
            == 3.0 * h * slope + 3.0 * (h * h) * bend + (h * h * h) * (d - 3.0 * c + 3.0 * b - a)
  {
    BernsteinPowerForm(a, b, c, d, s);
    BernsteinPowerForm(a, b, c, d, t);
    assert c - 2.0 * b + a == a - 2.0 * b + c;
    SlopeIsDerivative(a, b - a, a - 2.0 * b + c, d - 3.0 * c + 3.0 * b - a, t, s);
  }

  /** The cross product `u.x * v.y - u.y * v.x`. */
  function Cross(u: Point, v: Point): real {
    u.x * v.y - u.y * v.x
  }

  /** The inflection polynomial at `t` is the cross product of the curve's
      velocity and acceleration there, so its roots are exactly the
      parameters where the curve's curvature vanishes. */
  lemma InflectionQuadraticIsCross(bz: Bezier, t: real)
    ensures var q := InflectionQuadratic(bz);
            q.a * t * t + q.b * t + q.c == Cross(Velocity(bz, t), Acceleration(bz, t))
    ensures IsRoot(InflectionQuadratic(bz), t) <==> Cross(Velocity(bz, t), Acceleration(bz, t)) == 0.0
  {
    var v := Difference(bz.p0, bz.p1);
    var w := Point(bz.p2.x - 2.0 * bz.p1.x + bz.p0.x, bz.p2.y - 2.0 * bz.p1.y + bz.p0.y);
    var z := Point(bz.p3.x - 3.0 * bz.p2.x + 3.0 * bz.p1.x - bz.p0.x, bz.p3.y - 3.0 * bz.p2.y + 3.0 * bz.p1.y - bz.p0.y);
    CrossExpansion(v.x, v.y, w.x, w.y, z.x, z.y, t);
  }

  /** The algebra of `InflectionQuadraticIsCross`. */
  lemma CrossExpansion(vx: real, vy: real, wx: real, wy: real, zx: real, zy: real, t: real)
    ensures (vx + 2.0 * t * wx + (t * t) * zx) * (wy + t * zy) - (vy + 2.0 * t * wy + (t * t) * zy) * (wx + t * zx)
         == (wx * zy - wy * zx) * t * t + (vx * zy - vy * zx) * t + (vx * wy - vy * wx)
  {
  }

  lemma PrependIncreasing(s: seq<real>, rest: seq<real>)
    requires s != []
    requires StrictlyIncreasing(s[1..]) ==> StrictlyIncreasing(rest)
    requires forall x :: x in rest ==> x in s[1..]
    ensures StrictlyIncreasing(s) ==> StrictlyIncreasing([s[0]] + rest)
  {
    if StrictlyIncreasing(s) {
      assert StrictlyIncreasing(s[1..]);
      forall i, j | 0 <= i < j < |[s[0]] + rest| ensures ([s[0]] + rest)[i] < ([s[0]] + rest)[j] {
        if i == 0 {
          assert rest[j - 1] in rest;
          var k :| 0 <= k < |s[1..]| && s[1..][k] == rest[j - 1];
          assert s[k + 1] == rest[j - 1];
        }
      }
    }
  }

  /** The list comprehension keeping the values strictly between 0 and 1,
      in their original order. */
  function InsideUnitInterval(s: seq<real>): (r: seq<real>)
    ensures forall x :: x in r <==> x in s && 0.0 < x < 1.0
    ensures StrictlyIncreasing(s) ==> StrictlyIncreasing(r)
  {
    if s == [] then []
    else if 0.0 < s[0] < 1.0 then
      var rest := InsideUnitInterval(s[1..]);
      PrependIncreasing(s, rest);
      [s[0]] + rest
    else InsideUnitInterval(s[1..])
  }

  /** `findInflections`: the roots of the inflection polynomial strictly
      inside the curve, increasing. It uses the solver with the intended
      `elif`; the solver as written raises for a curve whose inflection
      polynomial is constant. */
  function FindInflections(bz: Bezier, root: real): (ts: seq<real>)
    requires RootSupplied(InflectionQuadratic(bz), root)
    ensures forall t :: t in ts ==> 0.0 < t < 1.0 && IsRoot(InflectionQuadratic(bz), t)
    ensures StrictlyIncreasing(ts)
  {
    QuadraticRootsSound(InflectionQuadratic(bz), root);
    QuadraticRootsIncrease(InflectionQuadratic(bz), root);
    InsideUnitInterval(SolveQuadraticRealIntended(InflectionQuadratic(bz), root))
  }

  /** `findInflections` as written: the solver as written raises
      `ZeroDivisionError` when the inflection polynomial is constant;
      otherwise the result is that of `FindInflections`. */
  function FindInflectionsAsWritten(bz: Bezier, root: real): (r: Result<seq<real>>)
    requires RootSupplied(InflectionQuadratic(bz), root)
    ensures r.Err? <==> InflectionQuadratic(bz).a == 0.0 && InflectionQuadratic(bz).b == 0.0
    ensures r.Err? ==> r.error == ZeroDivisionError
    ensures r.Ok? ==> r.value == FindInflections(bz, root)
  {
    match SolveQuadraticReal(InflectionQuadratic(bz), root)
    case Err(e) => Err(e)
    case Ok(sol) =>
      SolveQuadraticRealAgreesWithIntended(InflectionQuadratic(bz), root);
      Ok(InsideUnitInterval(sol))
  }

  /** A straight-line cubic has a constant (zero) inflection polynomial,
      so `findInflections` as written raises on it. */
  lemma FindInflectionsRaisesOnStraightLine()
    ensures var bez := Bezier(Point(0.0, 0.0), Point(1.0, 0.0), Point(2.0, 0.0), Point(3.0, 0.0));
            RootSupplied(InflectionQuadratic(bez), 0.0)
            && FindInflectionsAsWritten(bez, 0.0) == Err(ZeroDivisionError)
  {
  }

  /** No inflection strictly inside the curve is missed, unless the
      inflection polynomial is constant. */
  lemma FindInflectionsComplete(bz: Bezier, root: real, t: real)
    requires RootSupplied(InflectionQuadratic(bz), root)
    requires !(InflectionQuadratic(bz).a == 0.0 && InflectionQuadratic(bz).b == 0.0)
    requires 0.0 < t < 1.0 && IsRoot(InflectionQuadratic(bz), t)
    ensures t in FindInflections(bz, root)
  {
    QuadraticRootsComplete(InflectionQuadratic(bz), root, t);
  }

  // ---------------------------------------------------------------------
  // Splitting a curve into a chain of pieces

  /** The pieces `splitBezierAtInflections` produces for parameters `ts`:
      each parameter is applied to what is left of the curve after the
      previous split. The pieces form a chain from the curve's start to its
      end. */
  function SplitChain(b: Bezier, ts: seq<real>): (curves: seq<Bezier>)
    ensures |curves| == |ts| + 1
    ensures curves[0].p0 == b.p0 && curves[|ts|].p3 == b.p3
    ensures forall i :: 0 <= i < |ts| ==> curves[i].p3 == curves[i + 1].p0
    decreases |ts|
  {
    if ts == [] then [b]
    else
      var halves := SplitBezier(b, ts[0]);
      [halves.0] + SplitChain(halves.1, ts[1..])
  }

  /** `splitBezierAtInflections` as written: find the inflections with the
      solver as written, which raises `ZeroDivisionError` for a constant
      inflection polynomial; then split at each inflection in turn, keeping
      the first piece and carrying on with the second. */
  method SplitBezierAtInflections(bez: Bezier, root: real) returns (r: Result<seq<Bezier>>)
    requires RootSupplied(InflectionQuadratic(bez), root)
    ensures r.Err? <==> InflectionQuadratic(bez).a == 0.0 && InflectionQuadratic(bez).b == 0.0
    ensures r.Err? ==> r.error == ZeroDivisionError
    ensures r.Ok? ==> r.value == SplitChain(bez, FindInflections(bez, root))
  {
    var found := FindInflectionsAsWritten(bez, root);
    if found.Err? {
      return Err(found.error);
    }
    var infl := found.value;
    var curves: seq<Bezier>;
    if |infl| == 0 {
      curves := [bez];
    } else {
      curves := [];
      var b2 := bez;
      for i := 0 to |infl|
        invariant curves + SplitChain(b2, infl[i..]) == SplitChain(bez, infl)
      {
        var halves := SplitBezier(b2, infl[i]);
        assert infl[i..][1..] == infl[i + 1..];
        curves := curves + [halves.0];
        b2 := halves.1;
      }
      curves := curves + [b2];
    }
    r := Ok(curves);
  }

  /** A curve with inflections at 1/4 and 3/4 (discriminant 64, square root
      8). Splitting it as written puts the second cut at the curve's
      parameter 1/4 + 3/4 * 3/4 = 13/16, not at its second inflection. */
  lemma SplitBezierAtInflectionsMissesSecondInflection()
    ensures var bez := Bezier(Point(0.0, 0.0), Point(0.0, 16.0), Point(-3.0 / 16.0, 16.0), Point(7.0 / 16.0, 0.0));
            && RootSupplied(InflectionQuadratic(bez), 8.0)
            && FindInflections(bez, 8.0) == [0.25, 0.75]
            && SplitChain(bez, [0.25, 0.75])[1].p3 == PointOnBezier(bez, 13.0 / 16.0)
            && SplitChain(bez, [0.25, 0.75])[1].p3 != PointOnBezier(bez, 0.75)
  {
    var bez := Bezier(Point(0.0, 0.0), Point(0.0, 16.0), Point(-3.0 / 16.0, 16.0), Point(7.0 / 16.0, 0.0));
    var q := InflectionQuadratic(bez);
    assert q == Quadratic(16.0, -16.0, 3.0);
    assert Discriminant(q) == 64.0;
    assert SolveQuadraticRealIntended(q, 8.0) == [0.25, 0.75];
    assert FindInflections(bez, 8.0) == [0.25, 0.75];
    var first := SplitBezier(bez, 0.25);
    var second := SplitBezier(first.1, 0.75);
    assert SplitChain(bez, [0.25, 0.75])[1] == second.0;
    SplitJoinIsOnCurve(first.1, 0.75);
    SplitRetracesCurve(bez, 0.25, 0.75);
    assert second.0.p3 == PointOnBezier(bez, 13.0 / 16.0);
    assert PointOnBezier(bez, 13.0 / 16.0).x == 676.0 / 4096.0;
    assert PointOnBezier(bez, 0.75).x == 432.0 / 4096.0;
  }

  /** The chain with each parameter rescaled onto what is left of the curve:
      after cutting at `prev`, the original parameter `t` lies at
      `(t - prev) / (1 - prev)` of the remaining piece. */
  function SplitChainRescaled(b: Bezier, ts: seq<real>, prev: real): (curves: seq<Bezier>)
    requires prev < 1.0
    requires forall t :: t in ts ==> t < 1.0
    ensures |curves| == |ts| + 1
    ensures curves[0].p0 == b.p0 && curves[|ts|].p3 == b.p3
    ensures forall i :: 0 <= i < |ts| ==> curves[i].p3 == curves[i + 1].p0
    decreases |ts|
  {
    if ts == [] then [b]
    else
      var halves := SplitBezier(b, (ts[0] - prev) / (1.0 - prev));
      assert ts[0] in ts && forall t :: t in ts[1..] ==> t in ts;
      [halves.0] + SplitChainRescaled(halves.1, ts[1..], ts[0])
  }

  /** Splitting at the inflections with the evident intent: every cut lands
      on the curve's own inflection parameter. */
  function SplitBezierAtInflectionsRescaled(bez: Bezier, root: real): (curves: seq<Bezier>)
    requires RootSupplied(InflectionQuadratic(bez), root)
    ensures |curves| == |FindInflections(bez, root)| + 1
    ensures curves[0].p0 == bez.p0 && curves[|curves| - 1].p3 == bez.p3
    ensures forall i :: 0 <= i < |curves| - 1 ==> curves[i].p3 == curves[i + 1].p0
  {
    SplitChainRescaled(bez, FindInflections(bez, root), 0.0)
  }

  /** The rescaled parameter, mapped back through the remaining piece, is the
      original parameter, and the rest of the piece maps onto the rest of the
      curve. */
  lemma RescaleAlgebra(prev: real, t: real, s: real)
    requires prev < 1.0
    ensures prev + ((t - prev) / (1.0 - prev)) * (1.0 - prev) == t
    ensures prev + ((t - prev) / (1.0 - prev) + s * (1.0 - (t - prev) / (1.0 - prev))) * (1.0 - prev)
         == t + s * (1.0 - t)
  {
    var u := (t - prev) / (1.0 - prev);
    assert u * (1.0 - prev) == t - prev;
    assert (u + s * (1.0 - u)) * (1.0 - prev) == u * (1.0 - prev) + s * ((1.0 - prev) - u * (1.0 - prev));
  }

  /** `piece` over `[0, 1]` is `bez` over `[prev, 1]`. */
  ghost predicate Retraces(piece: Bezier, bez: Bezier, prev: real) {
    forall s :: PointOnBezier(piece, s) == PointOnBezier(bez, prev + s * (1.0 - prev))
  }

  lemma RetracesAt(piece: Bezier, bez: Bezier, prev: real, s: real)
    requires Retraces(piece, bez, prev)
    ensures PointOnBezier(piece, s) == PointOnBezier(bez, prev + s * (1.0 - prev))
  {
  }

  /** Cutting a retracing piece at the rescaled parameter of `t` cuts the
      curve at `t`. */
  lemma RescaledCutOnCurve(bez: Bezier, b: Bezier, prev: real, t: real)
    requires prev < 1.0
    requires Retraces(b, bez, prev)
    ensures SplitBezier(b, (t - prev) / (1.0 - prev)).0.p3 == PointOnBezier(bez, t)
  {
    var u := (t - prev) / (1.0 - prev);
    SplitJoinIsOnCurve(b, u);
    RescaleAlgebra(prev, t, 0.0);
    RetracesAt(b, bez, prev, u);
  }

  /** What remains after that cut retraces the curve from `t` on. */
  lemma RescaledRemainderRetraces(bez: Bezier, b: Bezier, prev: real, t: real)
    requires prev < 1.0
    requires Retraces(b, bez, prev)
    ensures Retraces(SplitBezier(b, (t - prev) / (1.0 - prev)).1, bez, t)
  {
    var u := (t - prev) / (1.0 - prev);
    forall s ensures PointOnBezier(SplitBezier(b, u).1, s) == PointOnBezier(bez, t + s * (1.0 - t)) {
      var v := u + s * (1.0 - u);
      RetracesAt(b, bez, prev, v);
      RescaledRemainderAt(bez, b, prev, t, u, s, v);
    }
  }

  /** One point of `RescaledRemainderRetraces`: `u` is the rescaled cut and
      `v` the parameter of `b` that the remainder's `s` lands on. */
  lemma RescaledRemainderAt(bez: Bezier, b: Bezier, prev: real, t: real, u: real, s: real, v: real)
    requires prev < 1.0 && u == (t - prev) / (1.0 - prev) && v == u + s * (1.0 - u)
    requires PointOnBezier(b, v) == PointOnBezier(bez, prev + v * (1.0 - prev))
    ensures PointOnBezier(SplitBezier(b, u).1, s) == PointOnBezier(bez, t + s * (1.0 - t))
  {
    SplitRetracesCurve(b, u, s);
    RescaleAlgebra(prev, t, s);
    ChainedPoints(SplitBezier(b, u).1, b, bez, s, v, prev + v * (1.0 - prev), t + s * (1.0 - t));
  }

  lemma ChainedPoints(rest: Bezier, b: Bezier, bez: Bezier, s: real, v: real, w: real, target: real)
    requires PointOnBezier(rest, s) == PointOnBezier(b, v)
    requires PointOnBezier(b, v) == PointOnBezier(bez, w)
    requires w == target
    ensures PointOnBezier(rest, s) == PointOnBezier(bez, target)
  {
  }

  lemma {:induction false} RescaledChainJoins(bez: Bezier, b: Bezier, ts: seq<real>, prev: real, i: nat)
    requires prev < 1.0
    requires forall t :: t in ts ==> t < 1.0
    requires Retraces(b, bez, prev)
    requires i < |ts|
    ensures SplitChainRescaled(b, ts, prev)[i].p3 == PointOnBezier(bez, ts[i])
    decreases i
  {
    var halves := SplitBezier(b, (ts[0] - prev) / (1.0 - prev));
    assert ts[0] in ts && forall t :: t in ts[1..] ==> t in ts;
    var chain := SplitChainRescaled(b, ts, prev);
    assert chain == [halves.0] + SplitChainRescaled(halves.1, ts[1..], ts[0]);
    if i == 0 {
      RescaledCutOnCurve(bez, b, prev, ts[0]);
    } else {
      RescaledRemainderRetraces(bez, b, prev, ts[0]);
      RescaledChainJoins(bez, halves.1, ts[1..], ts[0], i - 1);
      assert ts[1..][i - 1] == ts[i];
    }
  }

  /** With the parameters rescaled, the `i`-th cut is the curve's point at
      the `i`-th inflection. */
  lemma RescaledSplitCutsAtInflections(bez: Bezier, root: real, i: nat)
    requires RootSupplied(InflectionQuadratic(bez), root)
    requires i < |FindInflections(bez, root)|
    ensures SplitBezierAtInflectionsRescaled(bez, root)[i].p3 == PointOnBezier(bez, FindInflections(bez, root)[i])
  {
    var ts := FindInflections(bez, root);
    forall s ensures PointOnBezier(bez, s) == PointOnBezier(bez, 0.0 + s * (1.0 - 0.0)) {
      assert 0.0 + s * (1.0 - 0.0) == s;
    }
    assert Retraces(bez, bez, 0.0);
    assert forall t :: t in ts ==> t < 1.0;
    RescaledChainJoins(bez, bez, ts, 0.0, i);
  }

  // ---------------------------------------------------------------------
  // Lines

  predicate OnLine(l: Line, p: Point) {
    l.a * p.x + l.b * p.y == l.c
  }

  /** `difference(p1, p2)`: the vector from `p1` to `p2`. */
  function Difference(p1: Point, p2: Point): (v: Point)
    ensures Point(p1.x + v.x, p1.y + v.y) == p2
  {
    Point(p2.x - p1.x, p2.y - p1.y)
  }

  /** `dot(v1, v2)`. */
  function Dot(v1: Point, v2: Point): real {
    v1.x * v2.x + v1.y * v2.y
  }

  /** The dot product is symmetric. */
  lemma DotIsSymmetric(v1: Point, v2: Point)
    ensures Dot(v1, v2) == Dot(v2, v1)
  {
  }

  /** A vector's dot product with itself is its squared length: never
      negative, and zero only for the zero vector. */
  lemma DotWithItself(v: Point)
    ensures Dot(v, v) >= 0.0
    ensures Dot(v, v) == 0.0 <==> v == Point(0.0, 0.0)
  {
    SquareNonNegative(v.x);
    SquareNonNegative(v.y);
    if Dot(v, v) == 0.0 {
      SquareIsZero(v.x);
      SquareIsZero(v.y);
    }
  }

  /** `lineFromPoints`: a line `a*x + b*y == c` through both points, which
      is a proper line (not `0 == c`) when the points differ. */
  function LineFromPoints(p1: Point, p2: Point): (l: Line)
    ensures OnLine(l, p1) && OnLine(l, p2)
    ensures p1 != p2 ==> l.a != 0.0 || l.b != 0.0
  {
    Line(p1.y - p2.y, p2.x - p1.x, p2.x * p1.y - p1.x * p2.y)
  }

  /** The coefficients `(a, b)` of the line are a normal to it: orthogonal to
      the direction from one point to the other. */
  lemma LineNormalIsPerpendicular(p1: Point, p2: Point)
    ensures var l := LineFromPoints(p1, p2); Dot(Point(l.a, l.b), Difference(p1, p2)) == 0.0
  {
  }

  function Determinant(l1: Line, l2: Line): real {
    l1.a * l2.b - l1.b * l2.a
  }

  /** Cramer's rule solves the two line equations. */
  lemma CramerSolves(a1: real, b1: real, c1: real, a2: real, b2: real, c2: real)
    requires a1 * b2 - b1 * a2 != 0.0
    ensures a1 * ((c1 * b2 - b1 * c2) / (a1 * b2 - b1 * a2)) + b1 * ((a1 * c2 - c1 * a2) / (a1 * b2 - b1 * a2)) == c1
    ensures a2 * ((c1 * b2 - b1 * c2) / (a1 * b2 - b1 * a2)) + b2 * ((a1 * c2 - c1 * a2) / (a1 * b2 - b1 * a2)) == c2
  {
    var det := a1 * b2 - b1 * a2;
    var x, y := (c1 * b2 - b1 * c2) / det, (a1 * c2 - c1 * a2) / det;
    assert x * det == c1 * b2 - b1 * c2;
    assert y * det == a1 * c2 - c1 * a2;
    assert (a1 * x + b1 * y) * det == c1 * det;
    assert (a2 * x + b2 * y) * det == c2 * det;
  }

  /** `intersectionOfLines`: `None` exactly for parallel lines (zero
      determinant), otherwise a point on both lines. */
  function IntersectionOfLines(l1: Line, l2: Line): (r: Option<Point>)
    ensures r.None? <==> Determinant(l1, l2) == 0.0
    ensures r.Some? ==> OnLine(l1, r.value) && OnLine(l2, r.value)
  {
    var det := Determinant(l1, l2);
    if det == 0.0 then None
    else
      CramerSolves(l1.a, l1.b, l1.c, l2.a, l2.b, l2.c);
      Some(Point((l1.c * l2.b - l1.b * l2.c) / det, (l1.a * l2.c - l1.c * l2.a) / det))
  }

  /** The intersection point is the only point on both lines. */
  lemma IntersectionIsUnique(l1: Line, l2: Line, p: Point)
    requires Determinant(l1, l2) != 0.0
    requires OnLine(l1, p) && OnLine(l2, p)
    ensures IntersectionOfLines(l1, l2) == Some(p)
  {
    var q := IntersectionOfLines(l1, l2).value;
    var dx, dy := p.x - q.x, p.y - q.y;
    assert l1.a * dx + l1.b * dy == 0.0;
    assert l2.a * dx + l2.b * dy == 0.0;
    assert Determinant(l1, l2) * dx == 0.0 by {
      assert Determinant(l1, l2) * dx == l2.b * (l1.a * dx + l1.b * dy) - l1.b * (l2.a * dx + l2.b * dy);
    }
    assert Determinant(l1, l2) * dy == 0.0 by {
      assert Determinant(l1, l2) * dy == l1.a * (l2.a * dx + l2.b * dy) - l2.a * (l1.a * dx + l1.b * dy);
    }
  }
}
