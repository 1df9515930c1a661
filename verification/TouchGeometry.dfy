/** Points, affine maps and the three-point solver of lv_tc.c.

    Touch-panel and screen points are integers; coefficients are exact reals. A `Coeff` says which
    affine map is installed. The solver divides by `Divisor`; when that is zero the program still
    marks the result as valid, but its coefficients are infinite or NaN: the `NonFinite` value. */
module TouchGeometry {
  import opened Wrappers
  import opened Numbers

  datatype Point = Point(x: int, y: int)
  datatype RPoint = RPoint(x: real, y: real)

  /** One output axis of an affine map, kx * x + ky * y + k: the program's (a, b, c) or (d, e, f). */
  datatype Row = Row(kx: real, ky: real, k: real)

  datatype Affine = Affine(x: Row, y: Row)

  datatype Coeff = Invalid | NonFinite | Valid(affine: Affine)

  datatype Triple = Triple(p0: RPoint, p1: RPoint, p2: RPoint)

  function ToReal(p: Point): RPoint {
    RPoint(p.x as real, p.y as real)
  }

  function ToTriple(ps: seq<Point>): Triple
    requires |ps| == 3
  {
    Triple(ToReal(ps[0]), ToReal(ps[1]), ToReal(ps[2]))
  }

  function RowAt(r: Row, p: RPoint): real {
    p.x * r.kx + p.y * r.ky + r.k
  }

  function Apply(m: Affine, p: RPoint): RPoint {
    RPoint(RowAt(m.x, p), RowAt(m.y, p))
  }

  function ApplyAll(m: Affine, t: Triple): Triple {
    Triple(Apply(m, t.p0), Apply(m, t.p1), Apply(m, t.p2))
  }

  function Determinant(m: Affine): real {
    m.x.kx * m.y.ky - m.x.ky * m.y.kx
  }

  // ---------------------------------------------------------------- the solver

  function Divisor(t: Triple): real {
    t.p0.x * (t.p2.y - t.p1.y) - t.p1.x * t.p2.y + t.p1.y * t.p2.x + t.p0.y * (t.p1.x - t.p2.x)
  }

  // The three numerators of one output axis; s0, s1, s2 are that axis of the screen points.
  function NumX(t: Triple, s0: real, s1: real, s2: real): real {
    s0 * (t.p2.y - t.p1.y) - s1 * t.p2.y + s2 * t.p1.y + (s1 - s2) * t.p0.y
  }

  function NumY(t: Triple, s0: real, s1: real, s2: real): real {
    -(s0 * (t.p2.x - t.p1.x) - s1 * t.p2.x + s2 * t.p1.x + (s1 - s2) * t.p0.x)
  }

  function NumC(t: Triple, s0: real, s1: real, s2: real): real {
    s0 * (t.p1.y * t.p2.x - t.p1.x * t.p2.y)
    + t.p0.x * (s1 * t.p2.y - s2 * t.p1.y)
    + t.p0.y * (s2 * t.p1.x - s1 * t.p2.x)
  }

  function SolveAxis(t: Triple, s0: real, s1: real, s2: real): Row
    requires Divisor(t) != 0.0
  {
    Row(NumX(t, s0, s1, s2) / Divisor(t), NumY(t, s0, s1, s2) / Divisor(t), NumC(t, s0, s1, s2) / Divisor(t))
  }

  function Solve(scr: Triple, tch: Triple): Affine
    requires Divisor(tch) != 0.0
  {
    Affine(SolveAxis(tch, scr.p0.x, scr.p1.x, scr.p2.x), SolveAxis(tch, scr.p0.y, scr.p1.y, scr.p2.y))
  }

  /** What the program installs; a zero divisor is not rejected. */
  function ComputeCoeff(scr: seq<Point>, tch: seq<Point>): Coeff
    requires |scr| == 3 && |tch| == 3
  {
    if Divisor(ToTriple(tch)) == 0.0 then NonFinite else Valid(Solve(ToTriple(scr), ToTriple(tch)))
  }

  // One axis at a time: the numerators reproduce the screen coordinates, scaled by the divisor ...
  lemma AxisReproduced(t: Triple, s0: real, s1: real, s2: real)
    ensures t.p0.x * NumX(t, s0, s1, s2) + t.p0.y * NumY(t, s0, s1, s2) + NumC(t, s0, s1, s2) == s0 * Divisor(t)
    ensures t.p1.x * NumX(t, s0, s1, s2) + t.p1.y * NumY(t, s0, s1, s2) + NumC(t, s0, s1, s2) == s1 * Divisor(t)
    ensures t.p2.x * NumX(t, s0, s1, s2) + t.p2.y * NumY(t, s0, s1, s2) + NumC(t, s0, s1, s2) == s2 * Divisor(t)
  {
  }

  // ... and they are forced: an affine function with those values has those coefficients.
  lemma AxisForced(t: Triple, a: real, b: real, c: real)
    ensures var s0, s1, s2 := t.p0.x * a + t.p0.y * b + c, t.p1.x * a + t.p1.y * b + c, t.p2.x * a + t.p2.y * b + c;
            && NumX(t, s0, s1, s2) == a * Divisor(t)
            && NumY(t, s0, s1, s2) == b * Divisor(t)
            && NumC(t, s0, s1, s2) == c * Divisor(t)
  {
  }

  // Dividing such an identity by a nonzero divisor.
  lemma DivideThrough(x: real, y: real, p: real, q: real, r: real, d: real, s: real)
    requires d != 0.0 && x * p + y * q + r == s * d
    ensures x * (p / d) + y * (q / d) + r / d == s
  {
    var u, v, w := p / d, q / d, r / d;
    assert p == u * d && q == v * d && r == w * d;
    assert (x * u + y * v + w) * d == s * d;
  }

  lemma AxisExact(t: Triple, s0: real, s1: real, s2: real)
    requires Divisor(t) != 0.0
    ensures var r := SolveAxis(t, s0, s1, s2); RowAt(r, t.p0) == s0 && RowAt(r, t.p1) == s1 && RowAt(r, t.p2) == s2
  {
    AxisReproduced(t, s0, s1, s2);
    var d, p, q, r := Divisor(t), NumX(t, s0, s1, s2), NumY(t, s0, s1, s2), NumC(t, s0, s1, s2);
    DivideThrough(t.p0.x, t.p0.y, p, q, r, d, s0);
    DivideThrough(t.p1.x, t.p1.y, p, q, r, d, s1);
    DivideThrough(t.p2.x, t.p2.y, p, q, r, d, s2);
  }

  /** For touch points that are not collinear, `Solve` sends every touch point exactly to its screen
      point. */
  lemma SolveExact(scr: Triple, tch: Triple)
    requires Divisor(tch) != 0.0
    ensures ApplyAll(Solve(scr, tch), tch) == scr
  {
    AxisExact(tch, scr.p0.x, scr.p1.x, scr.p2.x);
    AxisExact(tch, scr.p0.y, scr.p1.y, scr.p2.y);
  }

  lemma CancelDivisor(a: real, d: real, num: real)
    requires d != 0.0 && num == a * d
    ensures num / d == a
  {
  }

  lemma AxisRecovered(t: Triple, r: Row, s0: real, s1: real, s2: real)
    requires Divisor(t) != 0.0
    requires RowAt(r, t.p0) == s0 && RowAt(r, t.p1) == s1 && RowAt(r, t.p2) == s2
    ensures SolveAxis(t, s0, s1, s2) == r
  {
    AxisForced(t, r.kx, r.ky, r.k);
    CancelDivisor(r.kx, Divisor(t), NumX(t, s0, s1, s2));
    CancelDivisor(r.ky, Divisor(t), NumY(t, s0, s1, s2));
    CancelDivisor(r.k, Divisor(t), NumC(t, s0, s1, s2));
  }

  /** An affine map that agrees with the calibration on the three touch points is the calibration:
      `Solve` recovers any affine map from three of its samples. */
  lemma SolveRecovers(m: Affine, scr: Triple, tch: Triple)
    requires Divisor(tch) != 0.0
    requires ApplyAll(m, tch) == scr
    ensures Solve(scr, tch) == m
  {
    AxisRecovered(tch, m.x, scr.p0.x, scr.p1.x, scr.p2.x);
    AxisRecovered(tch, m.y, scr.p0.y, scr.p1.y, scr.p2.y);
  }

  /** Both together: being the calibration and interpolating the three pairs are the same thing. */
  lemma SolveCharacterized(scr: Triple, tch: Triple, m: Affine)
    requires Divisor(tch) != 0.0
    ensures m == Solve(scr, tch) <==> ApplyAll(m, tch) == scr
  {
    SolveExact(scr, tch);
    if ApplyAll(m, tch) == scr {
      SolveRecovers(m, scr, tch);
    }
  }

  // A line through three points with a zero divisor: a nonzero functional that vanishes on all three.
  lemma ZeroDivisorLine(t: Triple) returns (a: real, b: real, c: real)
    requires Divisor(t) == 0.0
    ensures a != 0.0 || b != 0.0
    ensures a * t.p0.x + b * t.p0.y + c == 0.0
    ensures a * t.p1.x + b * t.p1.y + c == 0.0
    ensures a * t.p2.x + b * t.p2.y + c == 0.0
  {
    DivisorAsCross(t);
    a, b := 1.0, 0.0;
    if t.p0 != t.p1 {
      a, b := t.p0.y - t.p1.y, t.p1.x - t.p0.x;
    } else if t.p0 != t.p2 {
      a, b := t.p0.y - t.p2.y, t.p2.x - t.p0.x;
    }
    c := -(a * t.p0.x + b * t.p0.y);
  }

  lemma AxisShift(p: RPoint, r: Row, a: real, b: real, c: real)
    requires a * p.x + b * p.y + c == 0.0
    ensures RowAt(Row(r.kx + a, r.ky + b, r.k + c), p) == RowAt(r, p)
  {
    assert p.x * (r.kx + a) + p.y * (r.ky + b) + (r.k + c) == RowAt(r, p) + (a * p.x + b * p.y + c);
  }

  /** When the divisor is zero there is nothing to recover: every interpolating map has a rival. So a
      unique calibration exists only if the divisor is nonzero. */
  lemma ZeroDivisorNotUnique(scr: Triple, tch: Triple, m: Affine) returns (rival: Affine)
    requires Divisor(tch) == 0.0 && ApplyAll(m, tch) == scr
    ensures rival != m && ApplyAll(rival, tch) == scr
  {
    var a, b, c := ZeroDivisorLine(tch);
    rival := m.(x := Row(m.x.kx + a, m.x.ky + b, m.x.k + c));
    AxisShift(tch.p0, m.x, a, b, c);
    AxisShift(tch.p1, m.x, a, b, c);
    AxisShift(tch.p2, m.x, a, b, c);
  }

  function Pick(t: Triple, i: nat): RPoint
    requires i < 3
  {
    if i == 0 then t.p0 else if i == 1 then t.p1 else t.p2
  }

  function Permuted(t: Triple, i: nat, j: nat, k: nat): Triple
    requires i < 3 && j < 3 && k < 3
  {
    Triple(Pick(t, i), Pick(t, j), Pick(t, k))
  }

  /** The order in which the three pairs are touched does not matter. */
  lemma PermutationIrrelevant(scr: Triple, tch: Triple, i: nat, j: nat, k: nat)
    requires i < 3 && j < 3 && k < 3 && i != j && j != k && i != k
    requires Divisor(tch) != 0.0
    ensures Divisor(Permuted(tch, i, j, k)) != 0.0
    ensures Solve(Permuted(scr, i, j, k), Permuted(tch, i, j, k)) == Solve(scr, tch)
  {
    var t := Permuted(tch, i, j, k);
    assert Divisor(t) == Divisor(tch) || Divisor(t) == -Divisor(tch);
    SolveExact(scr, tch);
    SolveRecovers(Solve(scr, tch), Permuted(scr, i, j, k), t);
  }

  /** An affine map scales the divisor of three points by its determinant. */
  lemma DivisorScales(m: Affine, t: Triple)
    ensures Divisor(ApplyAll(m, t)) == Determinant(m) * Divisor(t)
  {
    var p, q, r := t.p0, t.p1, t.p2;
    var ux, uy, vx, vy := q.x - p.x, q.y - p.y, r.x - p.x, r.y - p.y;
    DivisorAsCross(t);
    DivisorAsCross(ApplyAll(m, t));
    assert Apply(m, q).x - Apply(m, p).x == ux * m.x.kx + uy * m.x.ky;
    assert Apply(m, q).y - Apply(m, p).y == ux * m.y.kx + uy * m.y.ky;
    assert Apply(m, r).x - Apply(m, p).x == vx * m.x.kx + vy * m.x.ky;
    assert Apply(m, r).y - Apply(m, p).y == vx * m.y.kx + vy * m.y.ky;
  }

  // The divisor is minus the cross product of the two sides that leave the first point.
  lemma DivisorAsCross(t: Triple)
    ensures Divisor(t) == (t.p1.y - t.p0.y) * (t.p2.x - t.p0.x) - (t.p1.x - t.p0.x) * (t.p2.y - t.p0.y)
  {
  }

  /** The calibration is invertible exactly when the screen points are not collinear. */
  lemma CalibrationInvertible(scr: Triple, tch: Triple)
    requires Divisor(tch) != 0.0
    ensures Determinant(Solve(scr, tch)) * Divisor(tch) == Divisor(scr)
    ensures Determinant(Solve(scr, tch)) != 0.0 <==> Divisor(scr) != 0.0
  {
    SolveExact(scr, tch);
    DivisorScales(Solve(scr, tch), tch);
  }

  // ---------------------------------------------------------------- barycentric combinations

  function Blend(l0: real, l1: real, l2: real, a: real, b: real, c: real): real {
    l0 * a + l1 * b + l2 * c
  }

  function Mix(l0: real, l1: real, l2: real, t: Triple): RPoint {
    RPoint(Blend(l0, l1, l2, t.p0.x, t.p1.x, t.p2.x), Blend(l0, l1, l2, t.p0.y, t.p1.y, t.p2.y))
  }

  lemma MixIdentity(kx: real, ky: real, k: real, l0: real, l1: real, l2: real, t: Triple)
    ensures (l0 * t.p0.x + l1 * t.p1.x + l2 * t.p2.x) * kx + (l0 * t.p0.y + l1 * t.p1.y + l2 * t.p2.y) * ky
              + (l0 + l1 + l2) * k
         == l0 * (t.p0.x * kx + t.p0.y * ky + k) + l1 * (t.p1.x * kx + t.p1.y * ky + k)
              + l2 * (t.p2.x * kx + t.p2.y * ky + k)
  {
  }

  lemma MixAxis(r: Row, l0: real, l1: real, l2: real, t: Triple)
    requires l0 + l1 + l2 == 1.0
    ensures RowAt(r, Mix(l0, l1, l2, t)) == Blend(l0, l1, l2, RowAt(r, t.p0), RowAt(r, t.p1), RowAt(r, t.p2))
  {
    MixIdentity(r.kx, r.ky, r.k, l0, l1, l2, t);
    assert (l0 + l1 + l2) * r.k == r.k;
  }

  lemma AffineKeepsMix(m: Affine, l0: real, l1: real, l2: real, t: Triple)
    requires l0 + l1 + l2 == 1.0
    ensures Apply(m, Mix(l0, l1, l2, t)) == Mix(l0, l1, l2, ApplyAll(m, t))
  {
    MixAxis(m.x, l0, l1, l2, t);
    MixAxis(m.y, l0, l1, l2, t);
  }

  /** A touch anywhere in the plane of the touched triangle lands at the same combination of the
      screen triangle (before rounding); weights that are all non-negative are the inside. */
  lemma CalibrationKeepsMix(scr: Triple, tch: Triple, l0: real, l1: real, l2: real)
    requires Divisor(tch) != 0.0 && l0 + l1 + l2 == 1.0
    ensures Apply(Solve(scr, tch), Mix(l0, l1, l2, tch)) == Mix(l0, l1, l2, scr)
  {
    SolveExact(scr, tch);
    AffineKeepsMix(Solve(scr, tch), l0, l1, l2, tch);
  }

  /** Per axis at most `eps` apart. */
  ghost predicate Near(p: RPoint, q: RPoint, eps: real) {
    && -eps <= p.x - q.x <= eps
    && -eps <= p.y - q.y <= eps
  }

  lemma WeightedSlack(l0: real, l1: real, l2: real, e0: real, e1: real, e2: real, eps: real)
    ensures l0 * (eps - e0) + l1 * (eps - e1) + l2 * (eps - e2) == (l0 + l1 + l2) * eps - (l0 * e0 + l1 * e1 + l2 * e2)
  {
  }

  // A convex combination does not exceed a bound on its parts.
  lemma ConvexAtMost(l0: real, l1: real, l2: real, e0: real, e1: real, e2: real, eps: real)
    requires l0 >= 0.0 && l1 >= 0.0 && l2 >= 0.0 && l0 + l1 + l2 == 1.0
    requires e0 <= eps && e1 <= eps && e2 <= eps
    ensures l0 * e0 + l1 * e1 + l2 * e2 <= eps
  {
    WeightedSlack(l0, l1, l2, e0, e1, e2, eps);
    assert l0 * (eps - e0) >= 0.0;
    assert l1 * (eps - e1) >= 0.0;
    assert l2 * (eps - e2) >= 0.0;
  }

  lemma MixNegated(l0: real, l1: real, l2: real, s0: real, s1: real, s2: real, t0: real, t1: real, t2: real)
    ensures l0 * (t0 - s0) + l1 * (t1 - s1) + l2 * (t2 - s2)
         == (l0 * t0 + l1 * t1 + l2 * t2) - (l0 * s0 + l1 * s1 + l2 * s2)
  {
  }

  // One axis of two convex combinations whose parts differ by at most eps.
  lemma MixNearAxis(l0: real, l1: real, l2: real, s0: real, s1: real, s2: real, t0: real, t1: real, t2: real, eps: real)
    requires l0 >= 0.0 && l1 >= 0.0 && l2 >= 0.0 && l0 + l1 + l2 == 1.0
    requires t0 - s0 <= eps && t1 - s1 <= eps && t2 - s2 <= eps
    ensures Blend(l0, l1, l2, t0, t1, t2) - Blend(l0, l1, l2, s0, s1, s2) <= eps
  {
    ConvexAtMost(l0, l1, l2, t0 - s0, t1 - s1, t2 - s2, eps);
    MixNegated(l0, l1, l2, s0, s1, s2, t0, t1, t2);
  }

  lemma NearMix(s: Triple, t: Triple, eps: real, l0: real, l1: real, l2: real)
    requires Near(t.p0, s.p0, eps) && Near(t.p1, s.p1, eps) && Near(t.p2, s.p2, eps)
    requires l0 >= 0.0 && l1 >= 0.0 && l2 >= 0.0 && l0 + l1 + l2 == 1.0
    ensures Near(Mix(l0, l1, l2, s), Mix(l0, l1, l2, t), eps)
  {
    MixNearAxis(l0, l1, l2, s.p0.x, s.p1.x, s.p2.x, t.p0.x, t.p1.x, t.p2.x, eps);
    MixNearAxis(l0, l1, l2, t.p0.x, t.p1.x, t.p2.x, s.p0.x, s.p1.x, s.p2.x, eps);
    MixNearAxis(l0, l1, l2, s.p0.y, s.p1.y, s.p2.y, t.p0.y, t.p1.y, t.p2.y, eps);
    MixNearAxis(l0, l1, l2, t.p0.y, t.p1.y, t.p2.y, s.p0.y, s.p1.y, s.p2.y, eps);
  }

  /** The touches miss their cursors by at most `eps`, as the true map of the panel sees it. */
  ghost predicate NearCursors(truth: Affine, scr: Triple, tch: Triple, eps: real) {
    && Near(Apply(truth, tch.p0), scr.p0, eps)
    && Near(Apply(truth, tch.p1), scr.p1, eps)
    && Near(Apply(truth, tch.p2), scr.p2, eps)
  }

  /** Sloppy touches: suppose `truth` says which screen position a panel reading really is, and each
      cursor was missed by at most `eps` pixels per axis. Then inside the touched triangle the
      calibrated position is never wrong by more than `eps` either. */
  lemma CursorErrorBoundsError(truth: Affine, scr: Triple, tch: Triple, eps: real, l0: real, l1: real, l2: real)
    requires Divisor(tch) != 0.0 && NearCursors(truth, scr, tch, eps)
    requires l0 >= 0.0 && l1 >= 0.0 && l2 >= 0.0 && l0 + l1 + l2 == 1.0
    ensures var touch := Mix(l0, l1, l2, tch);
            Near(Apply(Solve(scr, tch), touch), Apply(truth, touch), eps)
  {
    var t := ApplyAll(truth, tch);
    NearMix(scr, t, eps, l0, l1, l2);
    CalibrationKeepsMix(scr, tch, l0, l1, l2);
    AffineKeepsMix(truth, l0, l1, l2, tch);
  }

  // ---------------------------------------------------------------- cursor positions

  /** The three cursors for a display of `hor` by `ver` pixels. */
  function AutoPoints(hor: int, ver: int): (points: seq<Point>)
    ensures |points| == 3
  {
    var marginH := Trunc(hor as real * 0.15);
    var marginV := Trunc(ver as real * 0.15);
    var margin := if marginH < marginV then marginH else marginV;
    [Point(margin, Trunc(ver as real * 0.3)),
     Point(Trunc(hor as real * 0.4), ver - margin),
     Point(hor - margin, margin)]
  }

  lemma TruncBounds(r: real)
    requires r >= 0.0
    ensures 0 <= Trunc(r) && Trunc(r) as real <= r < Trunc(r) as real + 1.0
  {
  }

  lemma TruncMonotone(r: real, s: real)
    requires 0.0 <= r <= s
    ensures Trunc(r) <= Trunc(s)
  {
  }

  /** What is needed of the automatic cursors: a margin of at most 15% on all sides, and the first two
      cursors between the margin and 30% of the height, or 40% of the width. */
  lemma AutoPointsPlaced(hor: int, ver: int)
    requires hor >= 1 && ver >= 1
    ensures var pts := AutoPoints(hor, ver); var m := pts[0].x;
            && 0 <= m && m as real <= 0.15 * hor as real && m as real <= 0.15 * ver as real
            && m <= pts[0].y && pts[0].y as real <= 0.3 * ver as real
            && m <= pts[1].x && pts[1].x as real <= 0.4 * hor as real
            && pts[1].y == ver - m && pts[2] == Point(hor - m, m)
  {
    var h, v := hor as real, ver as real;
    TruncBounds(h * 0.15);
    TruncBounds(v * 0.15);
    TruncBounds(v * 0.3);
    TruncBounds(h * 0.4);
    TruncMonotone(v * 0.15, v * 0.3);
    TruncMonotone(h * 0.15, h * 0.4);
  }

  /** Where they are: a margin of 15% of the shorter side, 30% of the height and 40% of the width, each cut
      down to whole pixels. */
  lemma AutoPointsMeaning(hor: int, ver: int)
    requires hor >= 1 && ver >= 1
    ensures var pts := AutoPoints(hor, ver); var m, short := pts[0].x, if hor < ver then hor else ver;
            && 0 <= 15 * short - 100 * m < 100
            && 0 <= 3 * ver - 10 * pts[0].y < 10
            && 0 <= 4 * hor - 10 * pts[1].x < 10
            && pts[1].y == ver - m && pts[2] == Point(hor - m, m)
  {
    var h, v := hor as real, ver as real;
    TruncBounds(h * 0.15);
    TruncBounds(v * 0.15);
    TruncBounds(v * 0.3);
    TruncBounds(h * 0.4);
    if hor < ver {
      TruncMonotone(h * 0.15, v * 0.15);
    } else {
      TruncMonotone(v * 0.15, h * 0.15);
    }
  }

  /** At every resolution the three automatic cursors are not collinear. */
  lemma AutoPointsNotCollinear(hor: int, ver: int)
    requires hor >= 1 && ver >= 1
    ensures Divisor(ToTriple(AutoPoints(hor, ver))) > 0.0
  {
    AutoPointsPlaced(hor, ver);
    var t := ToTriple(AutoPoints(hor, ver));
    DivisorAsCross(t);
    SignsOfCross(t.p1.y - t.p0.y, t.p2.x - t.p0.x, t.p1.x - t.p0.x, t.p2.y - t.p0.y);
  }

  predicate OnDisplay(p: Point, hor: int, ver: int) {
    0 <= p.x < hor && 0 <= p.y < ver
  }

  /** They are all on the display exactly if both sides have at least 7 pixels; below that the margin is 0
      and the second and third cursor lie one past the far edge. */
  lemma AutoPointsOnDisplay(hor: int, ver: int)
    requires hor >= 1 && ver >= 1
    ensures (forall p <- AutoPoints(hor, ver) :: OnDisplay(p, hor, ver)) <==> hor >= 7 && ver >= 7
  {
    AutoPointsPlaced(hor, ver);
    var pts := AutoPoints(hor, ver);
    TruncBounds(hor as real * 0.15);
    TruncBounds(ver as real * 0.15);
    assert pts[0].x > 0 <==> hor >= 7 && ver >= 7;
    assert pts[1] in pts && pts[2] in pts;
  }

  lemma SignsOfCross(a: real, b: real, c: real, d: real)
    requires a > 0.0 && b > 0.0 && c >= 0.0 && d <= 0.0
    ensures a * b - c * d > 0.0
  {
    assert c * -d >= 0.0;
  }

  // ---------------------------------------------------------------- rounding and rotation

  datatype Rotation = Rot0 | Rot90 | Rot180 | Rot270

  datatype Display = Display(rotation: Rotation, hor: int, ver: int)

  function Rotate(d: Display, p: Point): Point {
    match d.rotation
    case Rot0 => p
    case Rot180 => Point(d.hor - p.x, d.ver - p.y)
    case _ => Point(d.ver - p.y - 1, p.x)
  }

  /** lv_tc_transform_point. Without a calibration the point is returned as it is, not even rotated;
      with infinite or NaN coefficients the conversion back to an integer has no defined value. */
  function Transform(c: Coeff, d: Display, p: Point): Option<Point> {
    match c
    case Invalid => Some(p)
    case NonFinite => None
    case Valid(m) =>
      var q := Apply(m, ToReal(p));
      Some(Rotate(d, Point(Round(q.x), Round(q.y))))
  }

  /** Rounding goes to the nearest integer, and from the middle away from zero. */
  lemma RoundMeaning(r: real, i: int)
    ensures r - 0.5 < i as real < r + 0.5 ==> Round(r) == i
    ensures r == i as real + 0.5 ==> Round(r) == if i >= 0 then i + 1 else i
  {
  }

  /** A quarter turn takes the origin to the end of the other axis; one to the right becomes one down, and
      one down becomes one to the left. A half turn takes the origin to the far corner and turns both. */
  lemma RotationDirection(d: Display, p: Point)
    ensures d.rotation.Rot90? || d.rotation.Rot270? ==>
              && Rotate(d, Point(0, 0)) == Point(d.ver - 1, 0)
              && Rotate(d, Point(p.x + 1, p.y)) == Point(Rotate(d, p).x, Rotate(d, p).y + 1)
              && Rotate(d, Point(p.x, p.y + 1)) == Point(Rotate(d, p).x - 1, Rotate(d, p).y)
    ensures d.rotation.Rot180? ==>
              && Rotate(d, Point(0, 0)) == Point(d.hor, d.ver)
              && Rotate(d, Point(p.x + 1, p.y)) == Point(Rotate(d, p).x - 1, Rotate(d, p).y)
              && Rotate(d, Point(p.x, p.y + 1)) == Point(Rotate(d, p).x, Rotate(d, p).y - 1)
  {
  }

  // The same rotation applied to an exact, unrounded position.
  function RotateExact(d: Display, p: RPoint): RPoint {
    match d.rotation
    case Rot0 => p
    case Rot180 => RPoint(d.hor as real - p.x, d.ver as real - p.y)
    case _ => RPoint(d.ver as real - p.y - 1.0, p.x)
  }

  /** At every rotation the reported point is within half a pixel, per axis, of the exactly
      rotated affine image. */
  lemma WithinHalfPixel(m: Affine, d: Display, p: Point)
    ensures var r := Transform(Valid(m), d, p);
            r.Some? && Near(ToReal(r.value), RotateExact(d, Apply(m, ToReal(p))), 0.5)
  {
    var q := Apply(m, ToReal(p));
    var x, y := Round(q.x), Round(q.y);
    assert Near(RPoint(x as real, y as real), q, 0.5);
    var r := Rotate(d, Point(x, y));
    assert ToReal(r) == RotateExact(d, RPoint(x as real, y as real));
  }

  /** A point of the touched triangle. */
  ghost predicate InTriangle(p: Point, tch: Triple, l0: real, l1: real, l2: real) {
    l0 >= 0.0 && l1 >= 0.0 && l2 >= 0.0 && l0 + l1 + l2 == 1.0 && ToReal(p) == Mix(l0, l1, l2, tch)
  }

  /** Sloppy touches, as reported: inside the touched triangle the reported pixel is within `eps` and half
      a pixel of the true position, rotated as the display is. */
  lemma ReportedErrorBounded(truth: Affine, scr: seq<Point>, tch: seq<Point>, eps: real,
                             l0: real, l1: real, l2: real, p: Point, d: Display)
    requires |scr| == 3 && |tch| == 3
    requires Divisor(ToTriple(tch)) != 0.0 && NearCursors(truth, ToTriple(scr), ToTriple(tch), eps)
    requires InTriangle(p, ToTriple(tch), l0, l1, l2)
    ensures var r := Transform(ComputeCoeff(scr, tch), d, p);
            r.Some? && Near(ToReal(r.value), RotateExact(d, Apply(truth, ToReal(p))), eps + 0.5)
  {
    var s, t := ToTriple(scr), ToTriple(tch);
    CursorErrorBoundsError(truth, s, t, eps, l0, l1, l2);
    WithinHalfPixel(Solve(s, t), d, p);
    var r := Transform(ComputeCoeff(scr, tch), d, p).value;
    var computed, exact := Apply(Solve(s, t), ToReal(p)), Apply(truth, ToReal(p));
    NearRotated(d, computed, exact, eps);
    NearTriangle(ToReal(r), RotateExact(d, computed), RotateExact(d, exact), 0.5, eps);
  }

  lemma NearRotated(d: Display, p: RPoint, q: RPoint, eps: real)
    requires Near(p, q, eps)
    ensures Near(RotateExact(d, p), RotateExact(d, q), eps)
  {
  }

  lemma NearTriangle(p: RPoint, q: RPoint, r: RPoint, a: real, b: real)
    requires Near(p, q, a) && Near(q, r, b)
    ensures Near(p, r, b + a)
  {
  }

  function SquaredDistance(p: Point, q: Point): int {
    (p.x - q.x) * (p.x - q.x) + (p.y - q.y) * (p.y - q.y)
  }

  /** Rotations are rigid; a quarter turn done four times, or a half turn done twice, is nothing. */
  lemma RotationLaws(d: Display, p: Point, q: Point)
    ensures SquaredDistance(Rotate(d, p), Rotate(d, q)) == SquaredDistance(p, q)
    ensures d.rotation.Rot180? ==> Rotate(d, Rotate(d, p)) == p
    ensures Rotate(d, Rotate(d, Rotate(d, Rotate(d, p)))) == p
  {
    var dx, dy := p.x - q.x, p.y - q.y;
    var r, s := Rotate(d, p), Rotate(d, q);
    assert || (r.x - s.x == dx && r.y - s.y == dy)
           || (r.x - s.x == -dx && r.y - s.y == -dy)
           || (r.x - s.x == -dy && r.y - s.y == dx);
    assert (-dx) * (-dx) == dx * dx && (-dy) * (-dy) == dy * dy;
  }

  /** Rotation keeps on-screen points on the screen except at 180 degrees, where the missing `- 1`
      pushes exactly the first column and the first row off the far edge. */
  lemma RotationRange(d: Display, p: Point)
    requires 0 <= p.x < d.hor && 0 <= p.y < d.ver
    ensures var r := Rotate(d, p);
            match d.rotation
            case Rot0 => 0 <= r.x < d.hor && 0 <= r.y < d.ver
            case Rot180 => (0 <= r.x < d.hor && 0 <= r.y < d.ver) <==> (p.x != 0 && p.y != 0)
            case _ => 0 <= r.x < d.ver && 0 <= r.y < d.hor
  {
  }

  /** A point is reported where it was touched, all over the screen, exactly if the display is not rotated;
      a single pixel also survives a quarter turn. */
  lemma RotationIsIdentity(d: Display)
    requires d.hor >= 1 && d.ver >= 1
    ensures (forall p: Point | OnDisplay(p, d.hor, d.ver) :: Rotate(d, p) == p) <==>
            d.rotation.Rot0? || (!d.rotation.Rot180? && d.hor == 1 && d.ver == 1)
  {
    var corner, far := Point(0, 0), Point(d.hor - 1, 0);
    assert OnDisplay(corner, d.hor, d.ver) && OnDisplay(far, d.hor, d.ver);
    assert Rotate(d, corner) == corner && Rotate(d, far) == far ==>
             d.rotation.Rot0? || (!d.rotation.Rot180? && d.hor == 1 && d.ver == 1);
  }

  // ---------------------------------------------------------------- calibrating a panel

  function ComposeRow(r: Row, m: Affine): Row {
    Row(r.kx * m.x.kx + r.ky * m.y.kx, r.kx * m.x.ky + r.ky * m.y.ky, r.kx * m.x.k + r.ky * m.y.k + r.k)
  }

  // First `inner`, then `outer`.
  function Compose(outer: Affine, inner: Affine): Affine {
    Affine(ComposeRow(outer.x, inner), ComposeRow(outer.y, inner))
  }

  lemma ComposeRowAt(r: Row, m: Affine, p: RPoint)
    ensures RowAt(ComposeRow(r, m), p) == RowAt(r, Apply(m, p))
  {
  }

  lemma ComposeApply(outer: Affine, inner: Affine, p: RPoint)
    ensures Apply(Compose(outer, inner), p) == Apply(outer, Apply(inner, p))
  {
    ComposeRowAt(outer.x, inner, p);
    ComposeRowAt(outer.y, inner, p);
  }

  const IDENTITY := Affine(Row(1.0, 0.0, 0.0), Row(0.0, 1.0, 0.0))

  /** If the panel reads `panel(q)` when the screen is touched at q, then the calibration computed from
      the readings of three non-collinear cursors undoes the panel everywhere. */
  lemma CalibrationUndoesPanel(panel: Affine, scr: Triple, p: RPoint)
    requires Determinant(panel) != 0.0 && Divisor(scr) != 0.0
    ensures Divisor(ApplyAll(panel, scr)) != 0.0
    ensures Apply(Solve(scr, ApplyAll(panel, scr)), Apply(panel, p)) == p
  {
    var tch := ApplyAll(panel, scr);
    DivisorScales(panel, scr);
    SolveExact(scr, tch);
    var c := Solve(scr, tch);
    var both := Compose(c, panel);
    ComposeApply(c, panel, scr.p0);
    ComposeApply(c, panel, scr.p1);
    ComposeApply(c, panel, scr.p2);
    SolveRecovers(both, scr, scr);
    SolveRecovers(IDENTITY, scr, scr);
    ComposeApply(c, panel, p);
  }

  /** From touches on one line no point can be computed. */
  lemma DegenerateTransform(scr: seq<Point>, tch: seq<Point>, d: Display, p: Point)
    requires |scr| == 3 && |tch| == 3
    ensures Transform(ComputeCoeff(scr, tch), d, p) == None <==> Divisor(ToTriple(tch)) == 0.0
  {
  }

  lemma RoundInteger(i: int)
    ensures Round(i as real) == i
  {
  }

  /** The same, for the integer points the program reads and reports. */
  lemma CalibrationUndoesPanelInteger(panel: Affine, scr: seq<Point>, tch: seq<Point>, d: Display, q: Point, raw: Point)
    requires |scr| == 3 && |tch| == 3
    requires Determinant(panel) != 0.0 && Divisor(ToTriple(scr)) != 0.0
    requires ToTriple(tch) == ApplyAll(panel, ToTriple(scr))
    requires ToReal(raw) == Apply(panel, ToReal(q))
    ensures Transform(ComputeCoeff(scr, tch), d, raw) == Some(Rotate(d, q))
  {
    CalibrationUndoesPanel(panel, ToTriple(scr), ToReal(q));
    RoundInteger(q.x);
    RoundInteger(q.y);
  }

  /** A touched cursor is reported exactly where it was drawn. */
  lemma CursorLandsOnItself(scr: seq<Point>, tch: seq<Point>, d: Display, i: nat)
    requires |scr| == 3 && |tch| == 3 && i < 3
    requires Divisor(ToTriple(tch)) != 0.0
    ensures Transform(ComputeCoeff(scr, tch), d, tch[i]) == Some(Rotate(d, scr[i]))
  {
    SolveExact(ToTriple(scr), ToTriple(tch));
    RoundInteger(scr[i].x);
    RoundInteger(scr[i].y);
  }
}
