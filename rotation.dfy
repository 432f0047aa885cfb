/** Rotation of a vector about an arbitrary axis through the origin
    (Hyper.math3D.rotateVector). The angle enters only through its cosine
    c and sine s, which are parameters of the model. */
module Rotation {
  import opened Vectors

  /** Hyper.math3D.rotateVector: the rotatee is split into its part along
      the rotater and the part perpendicular to it; the perpendicular part
      is turned by mixing it with its cross product with the rotater. */
  function RotateVector(rotatee: V, rotater: V, c: real, s: real): V
  {
    var dotScale := Dot(rotatee, rotater);
    var rotaterScaled := Scale(dotScale, rotater);
    var vPerpAxis := Perp(rotatee, rotater);
    var comp1 := Scale(c, vPerpAxis);
    var vPerpPerpAxis := Cross(rotater, vPerpAxis);
    var comp2 := Scale(s, vPerpPerpAxis);
    SumOf([rotaterScaled, comp1, comp2])
  }

  /** vPerpAxis of rotateVector: v less its part along the axis. */
  function Perp(v: V, axis: V): V
  {
    Sub(v, Scale(Dot(v, axis), axis))
  }

  /** The three summands of RotateVector as one expression. */
  lemma Decompose(v: V, axis: V, c: real, s: real)
    ensures RotateVector(v, axis, c, s)
         == Add(Add(Scale(Dot(v, axis), axis), Scale(c, Perp(v, axis))),
                Scale(s, Cross(axis, Perp(v, axis))))
  {
    var p := Perp(v, axis);
    SumOfThree(Scale(Dot(v, axis), axis), Scale(c, p), Scale(s, Cross(axis, p)));
  }

  /** Component form of RotateByZero: the axial part plus the perpendicular part
      is the vector. */
  lemma IdentityAt(v: V, along: V, p: V, c1: V, c2: V, r: V)
    requires along == Scale(Dot(v, p), p)
    requires c1 == Scale(1.0, Sub(v, along))
    requires c2 == Scale(0.0, Cross(p, Sub(v, along)))
    requires r == Add(Add(along, c1), c2)
    ensures r == v
  {
  }

  /** Rotating by the angle whose cosine is 1 and sine 0 changes nothing. */
  lemma RotateByZero(v: V, axis: V)
    ensures RotateVector(v, axis, 1.0, 0.0) == v
  {
    Decompose(v, axis, 1.0, 0.0);
    var along := Scale(Dot(v, axis), axis);
    IdentityAt(v, along, axis, Scale(1.0, Sub(v, along)), Scale(0.0, Cross(axis, Sub(v, along))),
      RotateVector(v, axis, 1.0, 0.0));
  }

  /** Component form of PerpIsPerpendicular. */
  lemma PerpAt(v: V, axis: V, d: real, p: V)
    requires d == v.x * axis.x + v.y * axis.y + v.z * axis.z
    requires p == Sub(v, Scale(d, axis))
    requires axis.x * axis.x + axis.y * axis.y + axis.z * axis.z == 1.0
    ensures p.x * axis.x + p.y * axis.y + p.z * axis.z == 0.0
  {
  }

  /** For a unit axis, the perpendicular part is perpendicular to it. */
  lemma PerpIsPerpendicular(v: V, axis: V)
    requires IsUnit(axis)
    ensures Dot(Perp(v, axis), axis) == 0.0
    ensures Dot(axis, Perp(v, axis)) == 0.0
  {
    PerpAt(v, axis, Dot(v, axis), Perp(v, axis));
  }

  /** Real-arithmetic step of RotatePreservesAxial: the perpendicular summands
      contribute nothing along a unit axis. */
  lemma Combine(r: real, d: real, e1: real, c: real, e2: real, s: real, e3: real)
    requires r == d * e1 + c * e2 + s * e3
    requires e1 == 1.0 && e2 == 0.0 && e3 == 0.0
    ensures r == d
  {
  }

  /** About a unit axis, the component along the axis is left as it is. */
  lemma RotatePreservesAxial(v: V, axis: V, c: real, s: real)
    requires IsUnit(axis)
    ensures Dot(RotateVector(v, axis, c, s), axis) == Dot(v, axis)
  {
    var d, p := Dot(v, axis), Perp(v, axis);
    var q := Cross(axis, p);
    Decompose(v, axis, c, s);
    DotCombo(d, axis, c, p, s, q, axis);
    PerpIsPerpendicular(v, axis);
    CrossPerpendicular(axis, p);
    Combine(Dot(RotateVector(v, axis, c, s), axis), d, Dot(axis, axis), c, Dot(p, axis), s, Dot(q, axis));
  }

  /** Component form of SplitDot, with the axial components and the
      perpendicular parts passed as plain parameters. */
  lemma SplitDotAt(u: V, w: V, axis: V, du: real, dw: real, pu: V, pw: V)
    requires pu == Sub(u, Scale(du, axis)) && pw == Sub(w, Scale(dw, axis))
    ensures u.x * w.x + u.y * w.y + u.z * w.z
         == du * dw * (axis.x * axis.x + axis.y * axis.y + axis.z * axis.z)
          + dw * (pu.x * axis.x + pu.y * axis.y + pu.z * axis.z)
          + du * (axis.x * pw.x + axis.y * pw.y + axis.z * pw.z)
          + (pu.x * pw.x + pu.y * pw.y + pu.z * pw.z)
  {
  }

  /** Real-arithmetic step of SplitDot, once the perpendicular parts are known
      to be orthogonal to the axis. */
  lemma SplitDotFinish(r: real, du: real, dw: real, aa: real, e1: real, e2: real, p: real)
    requires r == du * dw * aa + dw * e1 + du * e2 + p
    requires aa == 1.0 && e1 == 0.0 && e2 == 0.0
    ensures r == du * dw + p
  {
  }

  /** For a unit axis, the dot product of two vectors is the product of
      their axial components du and dw plus the dot product of their
      perpendicular parts. */
  lemma SplitDot(u: V, w: V, axis: V, du: real, dw: real)
    requires IsUnit(axis)
    requires du == Dot(u, axis) && dw == Dot(w, axis)
    ensures Dot(u, w) == du * dw + Dot(Perp(u, axis), Perp(w, axis))
  {
    var pu, pw := Perp(u, axis), Perp(w, axis);
    SplitDotAt(u, w, axis, du, dw, pu, pw);
    PerpIsPerpendicular(u, axis);
    PerpIsPerpendicular(w, axis);
    SplitDotFinish(Dot(u, w), du, dw, Dot(axis, axis), Dot(pu, axis), Dot(axis, pw), Dot(pu, pw));
  }

  /** Real-arithmetic step of MixedDot: the dot product of two rotated vectors
      expanded into its nine terms. */
  lemma RotationDotAt(r: real, du: real, dw: real, c: real, s: real,
                      y1: real, y2: real, y3: real,
                      aa: real, apw: real, aqw: real, pua: real, qua: real,
                      p: real, t1: real, t2: real, q: real)
    requires r == du * y1 + c * y2 + s * y3
    requires y1 == dw * aa + c * apw + s * aqw
    requires y2 == dw * pua + c * p + s * t1
    requires y3 == dw * qua + c * t2 + s * q
    requires aa == 1.0 && apw == 0.0 && aqw == 0.0 && pua == 0.0 && qua == 0.0
    requires q == p && t1 + t2 == 0.0
    requires c * c + s * s == 1.0
    ensures r == du * dw + p
  {
    MulRight(t1 + t2, 0.0, c * s);
    MulRight(c * c + s * s, 1.0, p);
  }

  /** Two combinations of a unit axis a with perpendicular pairs (pu, qu)
      and (pw, qw) that behave like a vector and its quarter turn, mixed
      with the same c and s, c*c + s*s == 1: their dot product ignores the
      mixing. */
  lemma MixedDot(du: real, dw: real, c: real, s: real, a: V, pu: V, qu: V, pw: V, qw: V)
    requires IsUnit(a)
    requires Dot(a, pw) == 0.0 && Dot(a, qw) == 0.0 && Dot(pu, a) == 0.0 && Dot(qu, a) == 0.0
    requires Dot(qu, qw) == Dot(pu, pw) && Dot(pu, qw) + Dot(qu, pw) == 0.0
    requires c * c + s * s == 1.0
    ensures Dot(Add(Add(Scale(du, a), Scale(c, pu)), Scale(s, qu)),
                Add(Add(Scale(dw, a), Scale(c, pw)), Scale(s, qw)))
         == du * dw + Dot(pu, pw)
  {
    var rw := Add(Add(Scale(dw, a), Scale(c, pw)), Scale(s, qw));
    DotCombo(du, a, c, pu, s, qu, rw);
    DotComboRight(a, dw, a, c, pw, s, qw);
    DotComboRight(pu, dw, a, c, pw, s, qw);
    DotComboRight(qu, dw, a, c, pw, s, qw);
    RotationDotAt(Dot(Add(Add(Scale(du, a), Scale(c, pu)), Scale(s, qu)), rw), du, dw, c, s,
      Dot(a, rw), Dot(pu, rw), Dot(qu, rw),
      Dot(a, a), Dot(a, pw), Dot(a, qw), Dot(pu, a), Dot(qu, a),
      Dot(pu, pw), Dot(pu, qw), Dot(qu, pw), Dot(qu, qw));
  }

  /** Real-arithmetic step of TurnPreservesDot, after BinetCauchy. */
  lemma TurnAt(q: real, aa: real, p: real, e1: real, e2: real)
    requires q == aa * p - e1 * e2
    requires aa == 1.0 && e1 == 0.0
    ensures q == p
  {
  }

  /** Turning two vectors perpendicular to a unit axis by a quarter turn
      about it keeps their dot product. */
  lemma TurnPreservesDot(axis: V, pu: V, pw: V)
    requires IsUnit(axis)
    requires Dot(axis, pw) == 0.0
    ensures Dot(Cross(axis, pu), Cross(axis, pw)) == Dot(pu, pw)
  {
    BinetCauchy(axis, pu, axis, pw);
    TurnAt(Dot(Cross(axis, pu), Cross(axis, pw)), Dot(axis, axis), Dot(pu, pw), Dot(axis, pw), Dot(pu, axis));
  }

  /** The perpendicular parts of two vectors and their quarter turns about
      a unit axis: all perpendicular to the axis, and turning both keeps
      their dot product while turning one changes its sign. */
  lemma PerpPairFacts(u: V, w: V, axis: V, pu: V, pw: V)
    requires IsUnit(axis)
    requires pu == Perp(u, axis) && pw == Perp(w, axis)
    ensures Dot(axis, pw) == 0.0 && Dot(axis, Cross(axis, pw)) == 0.0
    ensures Dot(pu, axis) == 0.0 && Dot(Cross(axis, pu), axis) == 0.0
    ensures Dot(Cross(axis, pu), Cross(axis, pw)) == Dot(pu, pw)
    ensures Dot(pu, Cross(axis, pw)) + Dot(Cross(axis, pu), pw) == 0.0
  {
    PerpIsPerpendicular(u, axis);
    PerpIsPerpendicular(w, axis);
    CrossPerpendicular(axis, pu);
    CrossPerpendicular(axis, pw);
    TurnPreservesDot(axis, pu, pw);
    TripleSwap(axis, pu, pw);
  }

  /** Step of RotatePreservesDot on the decomposed vectors, with every fact it
      needs passed as a requires. */
  lemma MixedPairAt(du: real, dw: real, axis: V, c: real, s: real, pu: V, pw: V, ru: V, rw: V)
    requires IsUnit(axis)
    requires c * c + s * s == 1.0
    requires ru == Add(Add(Scale(du, axis), Scale(c, pu)), Scale(s, Cross(axis, pu)))
    requires rw == Add(Add(Scale(dw, axis), Scale(c, pw)), Scale(s, Cross(axis, pw)))
    requires Dot(axis, pw) == 0.0 && Dot(axis, Cross(axis, pw)) == 0.0
    requires Dot(pu, axis) == 0.0 && Dot(Cross(axis, pu), axis) == 0.0
    requires Dot(Cross(axis, pu), Cross(axis, pw)) == Dot(pu, pw)
    requires Dot(pu, Cross(axis, pw)) + Dot(Cross(axis, pu), pw) == 0.0
    ensures Dot(ru, rw) == du * dw + Dot(pu, pw)
  {
    MixedDot(du, dw, c, s, axis, pu, Cross(axis, pu), pw, Cross(axis, pw));
  }

  /** About a unit axis and by a genuine angle (c*c + s*s == 1), rotation
      preserves dot products: lengths and the angles between vectors. */
  lemma RotatePreservesDot(u: V, w: V, axis: V, c: real, s: real)
    requires IsUnit(axis)
    requires c * c + s * s == 1.0
    ensures Dot(RotateVector(u, axis, c, s), RotateVector(w, axis, c, s)) == Dot(u, w)
  {
    var du, dw := Dot(u, axis), Dot(w, axis);
    var pu, pw := Perp(u, axis), Perp(w, axis);
    var ru, rw := RotateVector(u, axis, c, s), RotateVector(w, axis, c, s);
    Decompose(u, axis, c, s);
    Decompose(w, axis, c, s);
    PerpPairFacts(u, w, axis, pu, pw);
    MixedPairAt(du, dw, axis, c, s, pu, pw, ru, rw);
    SplitDot(u, w, axis, du, dw);
  }

  /** In particular rotation preserves length. */
  lemma RotatePreservesLength(v: V, axis: V, c: real, s: real)
    requires IsUnit(axis)
    requires c * c + s * s == 1.0
    ensures Dot(RotateVector(v, axis, c, s), RotateVector(v, axis, c, s)) == Dot(v, v)
  {
    RotatePreservesDot(v, v, axis, c, s);
  }

  /** Scaling by the literal 0 gives zero, scaling by 1 gives the vector. */
  lemma ScaleByZeroOrOne(k: real, v: V)
    ensures k == 0.0 ==> Scale(k, v) == Zero()
    ensures k == 1.0 ==> Scale(k, v) == v
  {
  }

  /** Step of QuarterTurn: a zero summand plus another zero summand leave the
      third. */
  lemma QuarterTurnAt(r: V, s1: V, s2: V, s3: V)
    requires s1 == Zero() && s2 == Zero()
    requires r == Add(Add(s1, s2), s3)
    ensures r == s3
  {
  }

  /** A vector perpendicular to the axis is its own perpendicular part. */
  lemma PerpOfPerpendicular(v: V, axis: V)
    requires Dot(v, axis) == 0.0
    ensures Perp(v, axis) == v
  {
  }

  /** A quarter turn (cosine 0, sine 1) of a vector perpendicular to the
      axis is its cross product with the axis. */
  lemma QuarterTurn(v: V, axis: V)
    requires Dot(v, axis) == 0.0
    ensures RotateVector(v, axis, 0.0, 1.0) == Cross(axis, v)
  {
    Decompose(v, axis, 0.0, 1.0);
    PerpOfPerpendicular(v, axis);
    ScaleByZeroOrOne(Dot(v, axis), axis);
    ScaleByZeroOrOne(0.0, v);
    ScaleByZeroOrOne(1.0, Cross(axis, v));
    QuarterTurnAt(RotateVector(v, axis, 0.0, 1.0), Scale(Dot(v, axis), axis), Scale(0.0, v), Scale(1.0, Cross(axis, v)));
  }

  /** A quarter turn of the east vector about the up axis gives north:
      positive angles turn counterclockwise seen from the tip of the axis. */
  lemma EastAboutUpIsNorth()
    ensures RotateVector(V(1.0, 0.0, 0.0), V(0.0, 0.0, 1.0), 0.0, 1.0) == V(0.0, 1.0, 0.0)
  {
    QuarterTurn(V(1.0, 0.0, 0.0), V(0.0, 0.0, 1.0));
  }

  /** Step of RotateCompose: the rotated vector less its axial part is the
      turned perpendicular part. */
  lemma RemoveAxialAt(r: V, d: real, a: V, c: real, p: V, s: real, q: V)
    requires r == Add(Add(Scale(d, a), Scale(c, p)), Scale(s, q))
    ensures Sub(r, Scale(d, a)) == Add(Scale(c, p), Scale(s, q))
  {
  }

  /** Component form of CrossCombo. */
  lemma CrossComboAt(a: V, c: real, p: V, s: real, q: V, u: V, cp: V, cq: V)
    requires u == Add(Scale(c, p), Scale(s, q))
    requires cp == Cross(a, p) && cq == Cross(a, q)
    ensures a.y * u.z - a.z * u.y == c * cp.x + s * cq.x
    ensures a.z * u.x - a.x * u.z == c * cp.y + s * cq.y
    ensures a.x * u.y - a.y * u.x == c * cp.z + s * cq.z
  {
  }

  /** The cross product is linear in its second argument. */
  lemma CrossCombo(a: V, c: real, p: V, s: real, q: V)
    ensures Cross(a, Add(Scale(c, p), Scale(s, q))) == Add(Scale(c, Cross(a, p)), Scale(s, Cross(a, q)))
  {
    CrossComboAt(a, c, p, s, q, Add(Scale(c, p), Scale(s, q)), Cross(a, p), Cross(a, q));
  }

  /** Component form of DoubleTurn, after TripleProduct. */
  lemma DoubleTurnAt(a: V, p: V, t: V, ap: real, aa: real)
    requires t == Sub(Scale(ap, a), Scale(aa, p))
    requires ap == 0.0 && aa == 1.0
    ensures t == Reverse(p)
  {
  }

  /** Two quarter turns about a unit axis reverse a vector perpendicular
      to it. */
  lemma DoubleTurn(a: V, p: V)
    requires IsUnit(a) && Dot(a, p) == 0.0
    ensures Cross(a, Cross(a, p)) == Reverse(p)
  {
    TripleProduct(a, a, p);
    DoubleTurnAt(a, p, Cross(a, Cross(a, p)), Dot(a, p), Dot(a, a));
  }

  /** Real-arithmetic step of Compose for one coordinate: the angle-addition
      formulas with the summed cosine k1 and sine k2 passed as parameters. */
  lemma ComposeComponentAt(r: real, da: real, c1: real, s1: real, c2: real, s2: real, k1: real, k2: real,
                            p: real, q: real, pr: real, qr: real)
    requires k1 == c1 * c2 - s1 * s2 && k2 == s1 * c2 + c1 * s2
    requires pr == c1 * p + s1 * q
    requires qr == c1 * q + s1 * -p
    requires r == da + c2 * pr + s2 * qr
    ensures r == da + k1 * p + k2 * q
  {
    MulRight(pr, c1 * p + s1 * q, c2);
    MulRight(qr, c1 * q + s1 * -p, s2);
    MulRight(k1, c1 * c2 - s1 * s2, p);
    MulRight(k2, s1 * c2 + c1 * s2, q);
  }

  /** The x coordinate of Compose. */
  lemma ComposeX(d: real, c1: real, s1: real, c2: real, s2: real, k1: real, k2: real,
                  a: V, p: V, q: V, pr: V, qr: V, r2: V)
    requires k1 == c1 * c2 - s1 * s2 && k2 == s1 * c2 + c1 * s2
    requires pr == Add(Scale(c1, p), Scale(s1, q))
    requires qr == Add(Scale(c1, q), Scale(s1, Reverse(p)))
    requires r2 == Add(Add(Scale(d, a), Scale(c2, pr)), Scale(s2, qr))
    ensures r2.x == d * a.x + k1 * p.x + k2 * q.x
  {
    ComposeComponentAt(r2.x, d * a.x, c1, s1, c2, s2, k1, k2, p.x, q.x, pr.x, qr.x);
  }

  /** The y coordinate of Compose. */
  lemma ComposeY(d: real, c1: real, s1: real, c2: real, s2: real, k1: real, k2: real,
                  a: V, p: V, q: V, pr: V, qr: V, r2: V)
    requires k1 == c1 * c2 - s1 * s2 && k2 == s1 * c2 + c1 * s2
    requires pr == Add(Scale(c1, p), Scale(s1, q))
    requires qr == Add(Scale(c1, q), Scale(s1, Reverse(p)))
    requires r2 == Add(Add(Scale(d, a), Scale(c2, pr)), Scale(s2, qr))
    ensures r2.y == d * a.y + k1 * p.y + k2 * q.y
  {
    ComposeComponentAt(r2.y, d * a.y, c1, s1, c2, s2, k1, k2, p.y, q.y, pr.y, qr.y);
  }

  /** The z coordinate of Compose. */
  lemma ComposeZ(d: real, c1: real, s1: real, c2: real, s2: real, k1: real, k2: real,
                  a: V, p: V, q: V, pr: V, qr: V, r2: V)
    requires k1 == c1 * c2 - s1 * s2 && k2 == s1 * c2 + c1 * s2
    requires pr == Add(Scale(c1, p), Scale(s1, q))
    requires qr == Add(Scale(c1, q), Scale(s1, Reverse(p)))
    requires r2 == Add(Add(Scale(d, a), Scale(c2, pr)), Scale(s2, qr))
    ensures r2.z == d * a.z + k1 * p.z + k2 * q.z
  {
    ComposeComponentAt(r2.z, d * a.z, c1, s1, c2, s2, k1, k2, p.z, q.z, pr.z, qr.z);
  }

  /** Rotating a combination of the axis, a perpendicular vector p and its
      quarter turn q by (c1, s1) and then by (c2, s2) mixes p and q with
      the cosine k1 and sine k2 of the summed angle. */
  lemma Compose(d: real, c1: real, s1: real, c2: real, s2: real, k1: real, k2: real,
                a: V, p: V, q: V, pr: V, qr: V, r2: V)
    requires k1 == c1 * c2 - s1 * s2 && k2 == s1 * c2 + c1 * s2
    requires pr == Add(Scale(c1, p), Scale(s1, q))
    requires qr == Add(Scale(c1, q), Scale(s1, Reverse(p)))
    requires r2 == Add(Add(Scale(d, a), Scale(c2, pr)), Scale(s2, qr))
    ensures r2 == Add(Add(Scale(d, a), Scale(k1, p)), Scale(k2, q))
  {
    ComposeX(d, c1, s1, c2, s2, k1, k2, a, p, q, pr, qr, r2);
    ComposeY(d, c1, s1, c2, s2, k1, k2, a, p, q, pr, qr, r2);
    ComposeZ(d, c1, s1, c2, s2, k1, k2, a, p, q, pr, qr, r2);
  }

  /** Rotating twice about the same unit axis is one rotation by the sum
      of the angles: its cosine and sine follow the angle-addition rules. */
  lemma RotateCompose(v: V, axis: V, c1: real, s1: real, c2: real, s2: real)
    requires IsUnit(axis)
    ensures RotateVector(RotateVector(v, axis, c1, s1), axis, c2, s2)
         == RotateVector(v, axis, c1 * c2 - s1 * s2, s1 * c2 + c1 * s2)
  {
    var d, p := Dot(v, axis), Perp(v, axis);
    var q := Cross(axis, p);
    var r1 := RotateVector(v, axis, c1, s1);
    var pr := Perp(r1, axis);
    assert Dot(r1, axis) == d by {
      RotatePreservesAxial(v, axis, c1, s1);
    }
    assert pr == Add(Scale(c1, p), Scale(s1, q)) by {
      Decompose(v, axis, c1, s1);
      RemoveAxialAt(r1, d, axis, c1, p, s1, q);
    }
    assert Cross(axis, pr) == Add(Scale(c1, q), Scale(s1, Reverse(p))) by {
      CrossCombo(axis, c1, p, s1, q);
      PerpIsPerpendicular(v, axis);
      DoubleTurn(axis, p);
    }
    assert RotateVector(r1, axis, c2, s2) == Add(Add(Scale(d, axis), Scale(c2, pr)), Scale(s2, Cross(axis, pr))) by {
      Decompose(r1, axis, c2, s2);
    }
    var c, s := c1 * c2 - s1 * s2, s1 * c2 + c1 * s2;
    Compose(d, c1, s1, c2, s2, c, s, axis, p, q, pr, Cross(axis, pr), RotateVector(r1, axis, c2, s2));
    Decompose(v, axis, c, s);
  }
}
