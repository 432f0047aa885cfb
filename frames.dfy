/** Changes of frame (Hyper.math3D.vectorToTransform and friends). A frame
    is a 3x3 matrix whose columns are its axes, all given in the same
    outer coordinates as the vectors being converted. */
module Frames {
  import opened Vectors
  import opened Matrices

  /** Hyper.math3D.vectorToTransform: the transformee in terms of the
      transformer's axes, one dot product per column. */
  function VectorToTransform(transformee: V, transformer: Matrix3): V
  {
    V(Dot(transformee, Column(transformer, 0)),
      Dot(transformee, Column(transformer, 1)),
      Dot(transformee, Column(transformer, 2)))
  }

  /** Hyper.math3D.vectorFromTransform: coordinates relative to the
      transformer's axes back in outer terms, as the sum of the columns
      weighted by those coordinates. */
  function VectorFromTransform(transformee: V, transformer: Matrix3): V
  {
    SumOf([Scale(transformee.x, Column(transformer, 0)),
           Scale(transformee.y, Column(transformer, 1)),
           Scale(transformee.z, Column(transformer, 2))])
  }

  /** Real-arithmetic step of FromDotColumns: against an orthonormal axis only
      one weight survives. */
  lemma PickAt(r: real, k1: real, e1: real, k2: real, e2: real, k3: real, e3: real)
    requires r == k1 * e1 + k2 * e2 + k3 * e3
    requires e1 == 1.0 && e2 == 0.0 && e3 == 0.0
    ensures r == k1
  {
  }

  /** Against an axis of an orthonormal frame, a weighted sum of the axes
      keeps only that axis' weight. */
  lemma FromDotColumns(t: V, m: Matrix3)
    requires Orthonormal(m)
    ensures Dot(VectorFromTransform(t, m), Column(m, 0)) == t.x
    ensures Dot(VectorFromTransform(t, m), Column(m, 1)) == t.y
    ensures Dot(VectorFromTransform(t, m), Column(m, 2)) == t.z
  {
    var c0, c1, c2 := Column(m, 0), Column(m, 1), Column(m, 2);
    var f := VectorFromTransform(t, m);
    SumOfThree(Scale(t.x, c0), Scale(t.y, c1), Scale(t.z, c2));
    DotCombo(t.x, c0, t.y, c1, t.z, c2, c0);
    DotCombo(t.x, c0, t.y, c1, t.z, c2, c1);
    DotCombo(t.x, c0, t.y, c1, t.z, c2, c2);
    DotSymmetric(c1, c0);
    DotSymmetric(c2, c0);
    DotSymmetric(c2, c1);
    PickAt(Dot(f, c0), t.x, Dot(c0, c0), t.y, Dot(c1, c0), t.z, Dot(c2, c0));
    PickAt(Dot(f, c1), t.y, Dot(c1, c1), t.x, Dot(c0, c1), t.z, Dot(c2, c1));
    PickAt(Dot(f, c2), t.z, Dot(c2, c2), t.x, Dot(c0, c2), t.y, Dot(c1, c2));
  }

  /** Converting into an orthonormal frame undoes converting out of it. */
  lemma ToAfterFrom(t: V, m: Matrix3)
    requires Orthonormal(m)
    ensures VectorToTransform(VectorFromTransform(t, m), m) == t
  {
    FromDotColumns(t, m);
  }

  /** Component form of the last step of OrthogonalToOrthonormalIsZero: two
      multiples of one unit vector, one of them a unit vector orthogonal to the
      other, leave the other zero. */
  lemma CommonAxisAt(w: V, c: V, n: V, a: real, b: real)
    requires w == Scale(a, n) && c == Scale(b, n)
    requires n.x * n.x + n.y * n.y + n.z * n.z == 1.0
    requires c.x * c.x + c.y * c.y + c.z * c.z == 1.0
    requires w.x * c.x + w.y * c.y + w.z * c.z == 0.0
    ensures w.x == 0.0 && w.y == 0.0 && w.z == 0.0
  {
    assert b * b == 1.0;
    assert a * b == 0.0;
    assert a == a * (b * b) == (a * b) * b;
  }

  /** Three orthonormal vectors span space: only the zero vector is
      orthogonal to all of them. */
  lemma OrthogonalToOrthonormalIsZero(w: V, c0: V, c1: V, c2: V)
    requires IsUnit(c0) && IsUnit(c1) && IsUnit(c2)
    requires Dot(c0, c1) == 0.0 && Dot(c0, c2) == 0.0 && Dot(c1, c2) == 0.0
    requires Dot(w, c0) == 0.0 && Dot(w, c1) == 0.0 && Dot(w, c2) == 0.0
    ensures w == Zero()
  {
    var n := Cross(c0, c1);
    UnitCross(c0, c1);
    PerpBoth(w, c0, c1);
    ParallelToUnit(w, n);
    DotSymmetric(c2, c0);
    DotSymmetric(c2, c1);
    PerpBoth(c2, c0, c1);
    ParallelToUnit(c2, n);
    CommonAxisAt(w, c2, n, Dot(w, n), Dot(c2, n));
  }

  /** Component form of SameCoordinates: the dot product distributes over a
      difference. */
  lemma DiffAt(a: V, b: V, c: V, w: V)
    requires w == Sub(a, b)
    ensures w.x * c.x + w.y * c.y + w.z * c.z
         == (a.x * c.x + a.y * c.y + a.z * c.z) - (b.x * c.x + b.y * c.y + b.z * c.z)
    ensures w == Zero() ==> a == b
  {
  }

  /** Vectors with the same dot product against every axis of an
      orthonormal frame are equal. */
  lemma SameCoordinates(a: V, b: V, m: Matrix3)
    requires Orthonormal(m)
    requires Dot(a, Column(m, 0)) == Dot(b, Column(m, 0))
    requires Dot(a, Column(m, 1)) == Dot(b, Column(m, 1))
    requires Dot(a, Column(m, 2)) == Dot(b, Column(m, 2))
    ensures a == b
  {
    var w := Sub(a, b);
    DiffAt(a, b, Column(m, 0), w);
    DiffAt(a, b, Column(m, 1), w);
    DiffAt(a, b, Column(m, 2), w);
    OrthogonalToOrthonormalIsZero(w, Column(m, 0), Column(m, 1), Column(m, 2));
  }

  /** Hyper.math3D.vectorFromTransform "does the reverse of
      vectorToTransform": for an orthonormal frame, converting out of it
      undoes converting into it. */
  lemma FromAfterTo(v: V, m: Matrix3)
    requires Orthonormal(m)
    ensures VectorFromTransform(VectorToTransform(v, m), m) == v
  {
    var t := VectorToTransform(v, m);
    FromDotColumns(t, m);
    SameCoordinates(VectorFromTransform(t, m), v, m);
  }

  /** Each axis of an orthonormal frame, in terms of that frame, is the
      corresponding unit coordinate vector. */
  lemma AxesInOwnFrame(m: Matrix3)
    requires Orthonormal(m)
    ensures VectorToTransform(Column(m, 0), m) == V(1.0, 0.0, 0.0)
    ensures VectorToTransform(Column(m, 1), m) == V(0.0, 1.0, 0.0)
    ensures VectorToTransform(Column(m, 2), m) == V(0.0, 0.0, 1.0)
  {
    DotSymmetric(Column(m, 1), Column(m, 0));
    DotSymmetric(Column(m, 2), Column(m, 0));
    DotSymmetric(Column(m, 2), Column(m, 1));
  }

  /** One step of matrixToTransform's counters: after i moves on, j is
      still the start of column i / 3 and k the start of column i % 3. */
  lemma CounterStep(i: int, j: int, k: int)
    requires 0 <= i < 9
    requires j == 3 * (i / 3) && k == 3 * (i % 3)
    ensures (i + 1) % 3 == 0 ==> j + 3 == 3 * ((i + 1) / 3) && 0 == 3 * ((i + 1) % 3)
    ensures (i + 1) % 3 != 0 ==> j == 3 * ((i + 1) / 3) && k + 3 == 3 * ((i + 1) % 3)
  {
  }

  /** Entry 3 * c + r of a matrix is entry r of column c. */
  lemma ColumnEntries(c: int)
    requires 0 <= c < 3
    ensures (3 * c) / 3 == c && (3 * c) % 3 == 0
    ensures (3 * c + 1) / 3 == c && (3 * c + 1) % 3 == 1
    ensures (3 * c + 2) / 3 == c && (3 * c + 2) % 3 == 2
  {
  }

  /** Hyper.math3D.matrixToTransform: the three columns of the transformee
      converted into the transformer's frame at once. Counter i walks the
      nine entries of the result, j the start of the transformee column
      being converted and k the start of the transformer column it is
      dotted with. */
  method MatrixToTransform(transformee: Matrix3, transformer: Matrix3) returns (transformed: Matrix3)
    ensures forall c :: 0 <= c < 3 ==>
      Column(transformed, c) == VectorToTransform(Column(transformee, c), transformer)
  {
    var t := new real[9](_ => 0.0);
    var i, j, k := 0, 0, 0;
    while i < 9
      invariant 0 <= i <= 9
      invariant j == 3 * (i / 3) && k == 3 * (i % 3)
      invariant forall n :: 0 <= n < i ==>
        t[n] == Dot(Column(transformee, n / 3), Column(transformer, n % 3))
    {
      t[i] := transformee[j] * transformer[k] + transformee[j + 1] * transformer[k + 1]
            + transformee[j + 2] * transformer[k + 2];
      CounterStep(i, j, k);
      i := i + 1;
      k := k + 3;
      if i % 3 == 0 {
        j := j + 3;
        k := 0;
      }
    }
    transformed := t[..];
    forall c | 0 <= c < 3
      ensures Column(transformed, c) == VectorToTransform(Column(transformee, c), transformer)
    {
      ColumnEntries(c);
    }
  }
}
