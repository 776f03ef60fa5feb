/** The quadrilateral test of the distance relays, Algoritmos/Distancia21_A.c:69-88 and the
    same lines of Distancia21_B.c: four cross products of one sign. For a strictly convex
    quadrilateral this is proved to be membership in the convex hull of the vertices. */
module QuadrilateralZone {

  datatype Impedance = Impedance(R: real, X: real)

  datatype Quadrilateral = Quadrilateral(p1: Impedance, p2: Impedance, p3: Impedance, p4: Impedance)

  function VectorProduct(p1: Impedance, p2: Impedance, p: Impedance): real
  {
    (p2.R - p1.R) * (p.X - p1.X) - (p2.X - p1.X) * (p.R - p1.R)
  }

  predicate IsInside(z: Impedance, q: Quadrilateral)
  {
    var prod1 := VectorProduct(q.p1, q.p2, z);
    var prod2 := VectorProduct(q.p2, q.p3, z);
    var prod3 := VectorProduct(q.p3, q.p4, z);
    var prod4 := VectorProduct(q.p4, q.p1, z);
    || (prod1 >= 0.0 && prod2 >= 0.0 && prod3 >= 0.0 && prod4 >= 0.0)
    || (prod1 <= 0.0 && prod2 <= 0.0 && prod3 <= 0.0 && prod4 <= 0.0)
  }

  // ----- what the test is meant to decide -----

  function Blend(q: Quadrilateral, a: real, b: real, c: real, d: real): Impedance
  {
    Impedance(a * q.p1.R + b * q.p2.R + c * q.p3.R + d * q.p4.R,
              a * q.p1.X + b * q.p2.X + c * q.p3.X + d * q.p4.X)
  }

  ghost predicate IsBlend(z: Impedance, q: Quadrilateral, a: real, b: real, c: real, d: real)
  {
    && a >= 0.0 && b >= 0.0 && c >= 0.0 && d >= 0.0
    && a + b + c + d == 1.0
    && z == Blend(q, a, b, c, d)
  }

  /** `z` is a convex combination of the four vertices. */
  ghost predicate InHull(z: Impedance, q: Quadrilateral)
  {
    exists a, b, c, d :: IsBlend(z, q, a, b, c, d)
  }

  /** Every corner turns left. */
  ghost predicate TurnsLeft(q: Quadrilateral)
  {
    && VectorProduct(q.p1, q.p2, q.p3) > 0.0
    && VectorProduct(q.p2, q.p3, q.p4) > 0.0
    && VectorProduct(q.p3, q.p4, q.p1) > 0.0
    && VectorProduct(q.p4, q.p1, q.p2) > 0.0
  }

  function Reversed(q: Quadrilateral): Quadrilateral
  {
    Quadrilateral(q.p4, q.p3, q.p2, q.p1)
  }

  function Rotated(q: Quadrilateral): Quadrilateral
  {
    Quadrilateral(q.p2, q.p3, q.p4, q.p1)
  }

  ghost predicate StrictlyConvex(q: Quadrilateral)
  {
    TurnsLeft(q) || TurnsLeft(Reversed(q))
  }

  function DoubledArea(q: Quadrilateral): real
  {
    (q.p3.R - q.p1.R) * (q.p4.X - q.p2.X) - (q.p3.X - q.p1.X) * (q.p4.R - q.p2.R)
  }

  // ----- algebra of the cross product -----

  lemma ProductSymmetries(p: Impedance, q: Impedance, z: Impedance)
    ensures VectorProduct(q, p, z) == -VectorProduct(p, q, z)
    ensures VectorProduct(p, q, z) == VectorProduct(q, z, p) == VectorProduct(z, p, q)
    ensures VectorProduct(p, q, p) == 0.0 == VectorProduct(p, q, q)
  {}

  lemma TriangleArea(p: Impedance, q: Impedance, r: Impedance, z: Impedance)
    ensures VectorProduct(p, q, z) + VectorProduct(q, r, z) + VectorProduct(r, p, z) == VectorProduct(p, q, r)
  {}

  /** Whatever the impedance, the four products add up to twice the signed area. */
  lemma ProductsSumToArea(z: Impedance, q: Quadrilateral)
    ensures VectorProduct(q.p1, q.p2, z) + VectorProduct(q.p2, q.p3, z)
            + VectorProduct(q.p3, q.p4, z) + VectorProduct(q.p4, q.p1, z) == DoubledArea(q)
  {}

  lemma AreaOfTurns(q: Quadrilateral)
    ensures DoubledArea(q) == VectorProduct(q.p1, q.p2, q.p3) + VectorProduct(q.p3, q.p4, q.p1)
    ensures DoubledArea(Reversed(q)) == -DoubledArea(q)
  {}

  /** Barycentric coordinates, before dividing by the area of the triangle. */
  lemma Barycentric(p: Impedance, q: Impedance, r: Impedance, z: Impedance)
    ensures VectorProduct(q, r, z) * p.R + VectorProduct(r, p, z) * q.R + VectorProduct(p, q, z) * r.R
            == VectorProduct(p, q, r) * z.R
    ensures VectorProduct(q, r, z) * p.X + VectorProduct(r, p, z) * q.X + VectorProduct(p, q, z) * r.X
            == VectorProduct(p, q, r) * z.X
  {}

  lemma ProductOfBlend(q: Quadrilateral, p: Impedance, p': Impedance, a: real, b: real, c: real, d: real)
    requires a + b + c + d == 1.0
    ensures VectorProduct(p, p', Blend(q, a, b, c, d))
         == a * VectorProduct(p, p', q.p1) + b * VectorProduct(p, p', q.p2)
            + c * VectorProduct(p, p', q.p3) + d * VectorProduct(p, p', q.p4)
  {
    assert a == 1.0 - b - c - d;
  }

  // ----- the test decides membership in the hull -----

  lemma ScaledSign(a: real, t: real)
    requires a >= 0.0 && t >= 0.0
    ensures a * t >= 0.0
  {}

  lemma BlendIsLeftOfEdge(q: Quadrilateral, a: real, b: real, c: real, d: real)
    requires TurnsLeft(q) && a + b + c + d == 1.0 && c >= 0.0 && d >= 0.0
    ensures VectorProduct(q.p1, q.p2, Blend(q, a, b, c, d)) >= 0.0
  {
    hide VectorProduct, Blend;
    ProductOfBlend(q, q.p1, q.p2, a, b, c, d);
    ProductSymmetries(q.p1, q.p2, q.p1);
    ProductSymmetries(q.p1, q.p2, q.p4);
    WeighedSum(a, b, c, d, VectorProduct(q.p1, q.p2, q.p1), VectorProduct(q.p1, q.p2, q.p2),
               VectorProduct(q.p1, q.p2, q.p3), VectorProduct(q.p1, q.p2, q.p4));
  }

  lemma WeighedSum(a: real, b: real, c: real, d: real, p: real, q: real, r: real, s: real)
    requires p == 0.0 && q == 0.0 && c >= 0.0 && d >= 0.0 && r >= 0.0 && s >= 0.0
    ensures a * p + b * q + c * r + d * s >= 0.0
  {
    assert a * p == 0.0 && b * q == 0.0;
    ScaledSign(c, r);
    ScaledSign(d, s);
  }

  lemma BlendIsInside(z: Impedance, q: Quadrilateral, a: real, b: real, c: real, d: real)
    requires TurnsLeft(q) && IsBlend(z, q, a, b, c, d)
    ensures IsInside(z, q)
  {
    var q2 := Rotated(q);
    var q3 := Rotated(q2);
    var q4 := Rotated(q3);
    assert z == Blend(q2, b, c, d, a) == Blend(q3, c, d, a, b) == Blend(q4, d, a, b, c);
    hide VectorProduct, Blend;
    BlendIsLeftOfEdge(q, a, b, c, d);
    BlendIsLeftOfEdge(q2, b, c, d, a);
    BlendIsLeftOfEdge(q3, c, d, a, b);
    BlendIsLeftOfEdge(q4, d, a, b, c);
  }

  lemma InTriangle(p: Impedance, q: Impedance, r: Impedance, z: Impedance) returns (a: real, b: real, c: real)
    requires VectorProduct(p, q, r) > 0.0
    requires VectorProduct(p, q, z) >= 0.0 && VectorProduct(q, r, z) >= 0.0 && VectorProduct(r, p, z) >= 0.0
    ensures a >= 0.0 && b >= 0.0 && c >= 0.0 && a + b + c == 1.0
    ensures z == Impedance(a * p.R + b * q.R + c * r.R, a * p.X + b * q.X + c * r.X)
  {
    hide VectorProduct;
    var t := VectorProduct(p, q, r);
    var a', b', c' := VectorProduct(q, r, z), VectorProduct(r, p, z), VectorProduct(p, q, z);
    TriangleArea(p, q, r, z);
    Barycentric(p, q, r, z);
    a, b, c := a' / t, b' / t, c' / t;
    assert a + b + c == (a' + b' + c') / t == 1.0;
    DividedSum(a', b', c', t, p.R, q.R, r.R, z.R);
    DividedSum(a', b', c', t, p.X, q.X, r.X, z.X);
  }

  lemma DividedSum(a: real, b: real, c: real, t: real, x: real, y: real, z: real, s: real)
    requires t > 0.0 && a * x + b * y + c * z == t * s
    ensures (a / t) * x + (b / t) * y + (c / t) * z == s
  {
    assert (a / t) * x + (b / t) * y + (c / t) * z == (a * x + b * y + c * z) / t;
    assert t * s / t == s;
  }

  lemma InsideIsBlend(z: Impedance, q: Quadrilateral) returns (a: real, b: real, c: real, d: real)
    requires TurnsLeft(q) && IsInside(z, q)
    ensures IsBlend(z, q, a, b, c, d)
  {
    ProductsSumToArea(z, q);
    AreaOfTurns(q);
    ProductSymmetries(q.p1, q.p3, z);
    ProductSymmetries(q.p3, q.p4, q.p1);
    hide VectorProduct, DoubledArea;
    if VectorProduct(q.p1, q.p3, z) <= 0.0 {
      a, b, c := InTriangle(q.p1, q.p2, q.p3, z);
      d := 0.0;
    } else {
      a, c, d := InTriangle(q.p1, q.p3, q.p4, z);
      b := 0.0;
    }
  }

  lemma ReversalInvariance(z: Impedance, q: Quadrilateral)
    ensures IsInside(z, Reversed(q)) == IsInside(z, q)
    ensures IsInside(z, Rotated(q)) == IsInside(z, q)
  {
    ProductSymmetries(q.p1, q.p2, z);
    ProductSymmetries(q.p2, q.p3, z);
    ProductSymmetries(q.p3, q.p4, z);
    ProductSymmetries(q.p4, q.p1, z);
    hide VectorProduct;
  }

  lemma LeftTurningInsideIsHull(z: Impedance, q: Quadrilateral)
    requires TurnsLeft(q)
    ensures IsInside(z, q) <==> InHull(z, q)
  {
    hide IsInside, IsBlend, TurnsLeft;
    if IsInside(z, q) {
      var a, b, c, d := InsideIsBlend(z, q);
    }
    if InHull(z, q) {
      var a, b, c, d :| IsBlend(z, q, a, b, c, d);
      BlendIsInside(z, q, a, b, c, d);
    }
  }

  /** The zone test is exact: it accepts the convex combinations of the vertices and
      nothing else, whichever way round the vertices are listed. */
  lemma InsideIsHull(z: Impedance, q: Quadrilateral)
    requires StrictlyConvex(q)
    ensures IsInside(z, q) <==> InHull(z, q)
  {
    hide IsInside, InHull, TurnsLeft;
    if TurnsLeft(q) {
      LeftTurningInsideIsHull(z, q);
    } else {
      LeftTurningInsideIsHull(z, Reversed(q));
      ReversalInvariance(z, q);
      assert Reversed(Reversed(q)) == q;
      if InHull(z, q) {
        HullOfReversed(z, q);
      } else if InHull(z, Reversed(q)) {
        HullOfReversed(z, Reversed(q));
      }
    }
  }

  lemma HullOfReversed(z: Impedance, q: Quadrilateral)
    requires InHull(z, q)
    ensures InHull(z, Reversed(q))
  {
    hide IsBlend;
    var a, b, c, d :| IsBlend(z, q, a, b, c, d);
    BlendOfReversed(z, q, a, b, c, d);
  }

  lemma BlendOfReversed(z: Impedance, q: Quadrilateral, a: real, b: real, c: real, d: real)
    requires IsBlend(z, q, a, b, c, d)
    ensures IsBlend(z, Reversed(q), d, c, b, a)
  {}

  /** With an area of one sign, only the disjunct of that sign can ever hold. */
  lemma OneDisjunctIsUnreachable(z: Impedance, q: Quadrilateral)
    requires IsInside(z, q)
    ensures DoubledArea(q) > 0.0 ==> VectorProduct(q.p1, q.p2, z) >= 0.0 && VectorProduct(q.p2, q.p3, z) >= 0.0
                                     && VectorProduct(q.p3, q.p4, z) >= 0.0 && VectorProduct(q.p4, q.p1, z) >= 0.0
    ensures DoubledArea(q) < 0.0 ==> VectorProduct(q.p1, q.p2, z) <= 0.0 && VectorProduct(q.p2, q.p3, z) <= 0.0
                                     && VectorProduct(q.p3, q.p4, z) <= 0.0 && VectorProduct(q.p4, q.p1, z) <= 0.0
  {
    ProductsSumToArea(z, q);
    hide VectorProduct, DoubledArea;
  }
}
