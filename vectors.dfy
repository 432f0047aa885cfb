/** The three-component vectors of Hyper.math3D (Hyper/PI_HyperMath.js),
    over exact reals: x points east, y north, z up.

    Throughout the project a lemma whose name ends in At is the component
    form of the lemma named without it: it takes every compound vector or
    product as a plain parameter, tied to its definition by a requires, so
    that the solver meets each product only once. */
module Vectors {

  /** A Cartesian3 value. */
  datatype V = V(x: real, y: real, z: real)

  /** The zero vector, (0,0,0). */
  function Zero(): V { V(0.0, 0.0, 0.0) }

  /** Hyper.math3D.dot */
  function Dot(a: V, b: V): real { a.x * b.x + a.y * b.y + a.z * b.z }

  /** A unit vector: squared length one. */
  predicate IsUnit(v: V) { Dot(v, v) == 1.0 }

  /** Cartesian3.add: the sum of two vectors. */
  function Add(a: V, b: V): V { V(a.x + b.x, a.y + b.y, a.z + b.z) }

  /** Cartesian3.subtract: the difference of two vectors. */
  function Sub(a: V, b: V): V { V(a.x - b.x, a.y - b.y, a.z - b.z) }

  /** Hyper.math3D.cross */
  function Cross(a: V, b: V): V
  {
    V(a.y * b.z - a.z * b.y, a.z * b.x - a.x * b.z, a.x * b.y - a.y * b.x)
  }

  /** Hyper.math3D.reverse: the additive inverse. */
  function Reverse(v: V): (r: V)
    ensures Add(v, r) == Zero() && Add(r, v) == Zero()
  {
    V(-v.x, -v.y, -v.z)
  }

  /** Hyper.math3D.scaleVector, scalar first. */
  function Scale(k: real, v: V): V
  {
    V(k * v.x, k * v.y, k * v.z)
  }

  /** The sum of a list of vectors, accumulated from the front as
      Hyper.math3D.addVectors does. */
  function SumOf(vectors: seq<V>): V
  {
    if |vectors| == 0 then Zero()
    else Add(SumOf(vectors[..|vectors| - 1]), vectors[|vectors| - 1])
  }

  /** Hyper.math3D.addVectors: accumulates every vector of the list into a
      resultant that starts at (0,0,0), one component at a time. */
  method AddVectors(vectors: seq<V>) returns (resultant: V)
    ensures resultant == SumOf(vectors)
  {
    resultant := V(0.0, 0.0, 0.0);
    var i := 0;
    while i < |vectors|
      invariant 0 <= i <= |vectors|
      invariant resultant == SumOf(vectors[..i])
    {
      assert vectors[..i + 1][..i] == vectors[..i];
      resultant := resultant.(x := resultant.x + vectors[i].x);
      resultant := resultant.(y := resultant.y + vectors[i].y);
      resultant := resultant.(z := resultant.z + vectors[i].z);
      i := i + 1;
    }
    assert vectors[..i] == vectors;
  }

  /** Hyper.math3D.hasMagnitude: false exactly for the zero vector. */
  function HasMagnitude(v: V): (r: bool)
    ensures r <==> v != Zero()
  {
    v.x != 0.0 || v.y != 0.0 || v.z != 0.0
  }

  /** Hyper.math3D.vectorUnitize. The library's normalize is a parameter
      that need only accept non-zero vectors: the hasMagnitude guard keeps
      the zero vector away from it and answers (0,0,0) instead. */
  function Unitize(v: V, normalize: V --> V): (r: V)
    requires v != Zero() ==> normalize.requires(v)
    ensures v == Zero() ==> r == Zero()
    ensures v != Zero() ==> r == normalize(v)
  {
    if HasMagnitude(v) then normalize(v) else V(0.0, 0.0, 0.0)
  }

  /** Hyper.math3D.isOrthogonal, an exact test: two vectors are orthogonal
      exactly when Pythagoras' theorem holds for their sum. */
  function IsOrthogonal(a: V, b: V): (r: bool)
    ensures r <==> Dot(Add(a, b), Add(a, b)) == Dot(a, a) + Dot(b, b)
  {
    Dot(a, b) == 0.0
  }

  // ---------------------------------------------------------------------
  // Lists of vectors

  lemma SumOfThree(a: V, b: V, c: V)
    ensures SumOf([a, b, c]) == Add(Add(a, b), c)
  {
    assert [a][..0] == [];
    assert SumOf([a]) == a;
    assert [a, b][..1] == [a];
    assert SumOf([a, b]) == Add(a, b);
    assert [a, b, c][..2] == [a, b];
  }

  /** Appending one vector adds it to the sum. */
  lemma SumOfSnoc(u: seq<V>, v: V)
    ensures SumOf(u + [v]) == Add(SumOf(u), v)
  {
    assert (u + [v])[..|u|] == u;
  }

  /** Adding a concatenation is adding the sums of its parts. */
  lemma {:induction false} SumOfConcat(s: seq<V>, t: seq<V>)
    ensures SumOf(s + t) == Add(SumOf(s), SumOf(t))
    decreases |t|
  {
    if |t| == 0 {
      assert s + t == s;
    } else {
      var t', last := t[..|t| - 1], t[|t| - 1];
      assert t == t' + [last];
      assert s + t == (s + t') + [last];
      SumOfSnoc(s + t', last);
      SumOfSnoc(t', last);
      SumOfConcat(s, t');
    }
  }

  /** The order in which two lists are handed over does not matter. */
  lemma SumOfSwap(s: seq<V>, t: seq<V>)
    ensures SumOf(s + t) == SumOf(t + s)
  {
    SumOfConcat(s, t);
    SumOfConcat(t, s);
  }

  // ---------------------------------------------------------------------
  // Algebra of the primitives

  lemma ReverseInvolution(v: V)
    ensures Reverse(Reverse(v)) == v
    ensures Reverse(v) == Scale(-1.0, v)
  {
  }

  /** Swapping the factors of a cross product reverses it. */
  lemma CrossAnticommutes(a: V, b: V)
    ensures Cross(a, b) == Reverse(Cross(b, a))
    ensures Cross(a, a) == Zero()
  {
  }

  /** The cross product is perpendicular to both factors. */
  lemma CrossPerpendicular(a: V, b: V)
    ensures Dot(Cross(a, b), a) == 0.0 && Dot(Cross(a, b), b) == 0.0
    ensures Dot(a, Cross(a, b)) == 0.0 && Dot(b, Cross(a, b)) == 0.0
  {
  }

  /** Swapping two factors of a scalar triple product changes its sign. */
  lemma TripleSwap(a: V, b: V, c: V)
    ensures Dot(b, Cross(a, c)) + Dot(Cross(a, b), c) == 0.0
  {
  }

  /** Scaling multiplies the squared length by the square of the factor. */
  lemma ScaleSquaredLength(k: real, v: V)
    ensures Dot(Scale(k, v), Scale(k, v)) == k * k * Dot(v, v)
  {
  }

  /** The dot product is symmetric. */
  lemma DotSymmetric(a: V, b: V)
    ensures Dot(a, b) == Dot(b, a)
  {
  }

  /** Component form of DotCombo. */
  lemma DotComboAt(k1: real, u1: V, k2: real, u2: V, k3: real, u3: V, w: V, r: V)
    requires r == Add(Add(Scale(k1, u1), Scale(k2, u2)), Scale(k3, u3))
    ensures r.x * w.x + r.y * w.y + r.z * w.z
         == k1 * (u1.x * w.x + u1.y * w.y + u1.z * w.z)
          + k2 * (u2.x * w.x + u2.y * w.y + u2.z * w.z)
          + k3 * (u3.x * w.x + u3.y * w.y + u3.z * w.z)
  {
  }

  /** The dot product is linear in its first argument. */
  lemma DotCombo(k1: real, u1: V, k2: real, u2: V, k3: real, u3: V, w: V)
    ensures Dot(Add(Add(Scale(k1, u1), Scale(k2, u2)), Scale(k3, u3)), w)
         == k1 * Dot(u1, w) + k2 * Dot(u2, w) + k3 * Dot(u3, w)
  {
    DotComboAt(k1, u1, k2, u2, k3, u3, w, Add(Add(Scale(k1, u1), Scale(k2, u2)), Scale(k3, u3)));
  }

  /** Component form of DotComboRight. */
  lemma DotComboRightAt(w: V, k1: real, u1: V, k2: real, u2: V, k3: real, u3: V, r: V)
    requires r == Add(Add(Scale(k1, u1), Scale(k2, u2)), Scale(k3, u3))
    ensures w.x * r.x + w.y * r.y + w.z * r.z
         == k1 * (w.x * u1.x + w.y * u1.y + w.z * u1.z)
          + k2 * (w.x * u2.x + w.y * u2.y + w.z * u2.z)
          + k3 * (w.x * u3.x + w.y * u3.y + w.z * u3.z)
  {
  }

  /** The dot product is linear in its second argument. */
  lemma DotComboRight(w: V, k1: real, u1: V, k2: real, u2: V, k3: real, u3: V)
    ensures Dot(w, Add(Add(Scale(k1, u1), Scale(k2, u2)), Scale(k3, u3)))
         == k1 * Dot(w, u1) + k2 * Dot(w, u2) + k3 * Dot(w, u3)
  {
    DotComboRightAt(w, k1, u1, k2, u2, k3, u3, Add(Add(Scale(k1, u1), Scale(k2, u2)), Scale(k3, u3)));
  }

  /** Component form of TripleProduct. */
  lemma TripleProductAt(a: V, b: V, c: V, bc: V, ac: real, ab: real)
    requires bc == Cross(b, c) && ac == Dot(a, c) && ab == Dot(a, b)
    ensures a.y * bc.z - a.z * bc.y == ac * b.x - ab * c.x
    ensures a.z * bc.x - a.x * bc.z == ac * b.y - ab * c.y
    ensures a.x * bc.y - a.y * bc.x == ac * b.z - ab * c.z
  {
  }

  /** The vector triple product expansion. */
  lemma TripleProduct(a: V, b: V, c: V)
    ensures Cross(a, Cross(b, c)) == Sub(Scale(Dot(a, c), b), Scale(Dot(a, b), c))
  {
    TripleProductAt(a, b, c, Cross(b, c), Dot(a, c), Dot(a, b));
  }

  /** Component form of BinetCauchy. */
  lemma BinetCauchyAt(a: V, b: V, c: V, d: V, p: V, q: V)
    requires p == Cross(a, b) && q == Cross(c, d)
    ensures p.x * q.x + p.y * q.y + p.z * q.z
         == (a.x * c.x + a.y * c.y + a.z * c.z) * (b.x * d.x + b.y * d.y + b.z * d.z)
          - (a.x * d.x + a.y * d.y + a.z * d.z) * (b.x * c.x + b.y * c.y + b.z * c.z)
  {
  }

  /** The Binet-Cauchy identity. */
  lemma BinetCauchy(a: V, b: V, c: V, d: V)
    ensures Dot(Cross(a, b), Cross(c, d)) == Dot(a, c) * Dot(b, d) - Dot(a, d) * Dot(b, c)
  {
    BinetCauchyAt(a, b, c, d, Cross(a, b), Cross(c, d));
  }

  /** Component form of UnitCross. */
  lemma UnitCrossAt(a: V, b: V, p: V)
    requires p == Cross(a, b)
    requires a.x * a.x + a.y * a.y + a.z * a.z == 1.0
    requires b.x * b.x + b.y * b.y + b.z * b.z == 1.0
    requires a.x * b.x + a.y * b.y + a.z * b.z == 0.0
    ensures p.x * p.x + p.y * p.y + p.z * p.z == 1.0
  {
  }

  /** The cross product of two orthogonal unit vectors is a unit vector. */
  lemma UnitCross(a: V, b: V)
    requires IsUnit(a) && IsUnit(b) && Dot(a, b) == 0.0
    ensures IsUnit(Cross(a, b))
  {
    UnitCrossAt(a, b, Cross(a, b));
  }

  /** Component form of PerpBoth. */
  lemma PerpBothAt(w: V, a: V, b: V, p: V)
    requires p == Cross(a, b)
    requires w.x * a.x + w.y * a.y + w.z * a.z == 0.0
    requires w.x * b.x + w.y * b.y + w.z * b.z == 0.0
    ensures w.y * p.z - w.z * p.y == 0.0
    ensures w.z * p.x - w.x * p.z == 0.0
    ensures w.x * p.y - w.y * p.x == 0.0
  {
  }

  /** A vector orthogonal to both a and b is parallel to their cross
      product. */
  lemma PerpBoth(w: V, a: V, b: V)
    requires Dot(w, a) == 0.0 && Dot(w, b) == 0.0
    ensures Cross(w, Cross(a, b)) == Zero()
  {
    PerpBothAt(w, a, b, Cross(a, b));
  }

  /** Multiplying equal reals by the same factor; a hint for nonlinear steps. */
  lemma MulRight(a: real, b: real, k: real)
    requires a == b
    ensures a * k == b * k
  {
  }

  /** Component form of ParallelToUnit. */
  lemma ParallelAt(ux: real, uy: real, uz: real, nx: real, ny: real, nz: real)
    requires nx * nx + ny * ny + nz * nz == 1.0
    requires uy * nz == uz * ny && uz * nx == ux * nz && ux * ny == uy * nx
    ensures (ux * nx + uy * ny + uz * nz) * nx == ux
    ensures (ux * nx + uy * ny + uz * nz) * ny == uy
    ensures (ux * nx + uy * ny + uz * nz) * nz == uz
  {
    MulRight(uy * nx, ux * ny, ny);
    MulRight(uz * nx, ux * nz, nz);
    MulRight(nx * nx + ny * ny + nz * nz, 1.0, ux);
    MulRight(uy * nz, uz * ny, nz);
    MulRight(ux * ny, uy * nx, nx);
    MulRight(nx * nx + ny * ny + nz * nz, 1.0, uy);
    MulRight(uz * nx, ux * nz, nx);
    MulRight(uy * nz, uz * ny, ny);
    MulRight(nx * nx + ny * ny + nz * nz, 1.0, uz);
  }

  /** A vector whose cross product with a unit vector vanishes is its own
      projection on that unit vector. */
  lemma ParallelToUnit(u: V, n: V)
    requires IsUnit(n)
    requires Cross(u, n) == Zero()
    ensures u == Scale(Dot(u, n), n)
  {
    ParallelAt(u.x, u.y, u.z, n.x, n.y, n.z);
  }
}
