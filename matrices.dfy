/** 3x3 rotation matrices of Hyper.math3D: nine entries stored column by
    column, so that entry r of column c sits at index 3*c + r. Column 0 is
    east (right), column 1 north (forward), column 2 up. */
module Matrices {
  import opened Vectors
  import opened Rotation

  /** A Cesium Matrix3 as its nine entries in column-major order. */
  type Matrix3 = m: seq<real> | |m| == 9
    witness [0.0, 0.0, 0.0, 0.0, 0.0, 0.0, 0.0, 0.0, 0.0]

  /** Matrix3.getColumn */
  function Column(m: Matrix3, c: nat): V
    requires c < 3
  {
    V(m[3 * c], m[3 * c + 1], m[3 * c + 2])
  }

  /** The matrix whose columns are the three given vectors. */
  function FromColumns(first: V, second: V, third: V): (m: Matrix3)
    ensures Column(m, 0) == first && Column(m, 1) == second && Column(m, 2) == third
  {
    [first.x, first.y, first.z, second.x, second.y, second.z, third.x, third.y, third.z]
  }

  /** The columns of a matrix are unit vectors, pairwise orthogonal: the
      matrix describes a frame (a rotation matrix). */
  predicate Orthonormal(m: Matrix3)
  {
    IsUnit(Column(m, 0)) && IsUnit(Column(m, 1)) && IsUnit(Column(m, 2))
    && Dot(Column(m, 0), Column(m, 1)) == 0.0
    && Dot(Column(m, 0), Column(m, 2)) == 0.0
    && Dot(Column(m, 1), Column(m, 2)) == 0.0
  }

  /** Matrix3.setColumn on a matrix under construction: writes the three
      entries of column c and leaves the other six alone. */
  method SetColumn(a: array<real>, c: nat, v: V)
    requires a.Length == 9 && c < 3
    modifies a
    ensures a[3 * c] == v.x && a[3 * c + 1] == v.y && a[3 * c + 2] == v.z
    ensures forall i :: 0 <= i < 9 && i / 3 != c ==> a[i] == old(a[i])
  {
    a[3 * c] := v.x;
    a[3 * c + 1] := v.y;
    a[3 * c + 2] := v.z;
  }

  /** Hyper.math3D.vectorsToMatrix: a fresh matrix whose columns are, in
      order, the three vectors given. */
  method VectorsToMatrix(first: V, second: V, third: V) returns (m: Matrix3)
    ensures Column(m, 0) == first && Column(m, 1) == second && Column(m, 2) == third
    ensures m == FromColumns(first, second, third)
  {
    var temp := new real[9](_ => 0.0);
    SetColumn(temp, 0, first);
    SetColumn(temp, 1, second);
    SetColumn(temp, 2, third);
    m := temp[..];
  }

  /** Hyper.math3D.matrixToVectors: the three columns, in order. */
  function MatrixToVectors(inMatrix: Matrix3): (vs: seq<V>)
    ensures |vs| == 3
    ensures forall c :: 0 <= c < 3 ==> vs[c] == Column(inMatrix, c)
  {
    [Column(inMatrix, 0), Column(inMatrix, 1), Column(inMatrix, 2)]
  }

  /** matrixToVectors undoes vectorsToMatrix. */
  lemma UngroupAfterGroup(first: V, second: V, third: V)
    ensures MatrixToVectors(FromColumns(first, second, third)) == [first, second, third]
  {
    var vs := MatrixToVectors(FromColumns(first, second, third));
    assert vs[0] == first && vs[1] == second && vs[2] == third;
  }

  /** vectorsToMatrix undoes matrixToVectors. */
  lemma GroupAfterUngroup(m: Matrix3)
    ensures var vs := MatrixToVectors(m); FromColumns(vs[0], vs[1], vs[2]) == m
  {
    var vs := MatrixToVectors(m);
    assert vs[0] == Column(m, 0) && vs[1] == Column(m, 1) && vs[2] == Column(m, 2);
    ColumnsDetermine(FromColumns(vs[0], vs[1], vs[2]), m);
  }

  /** Two matrices with the same columns are the same matrix. */
  lemma ColumnsDetermine(m: Matrix3, n: Matrix3)
    requires Column(m, 0) == Column(n, 0) && Column(m, 1) == Column(n, 1)
    requires Column(m, 2) == Column(n, 2)
    ensures m == n
  {
    forall i | 0 <= i < 9
      ensures m[i] == n[i]
    {
      var c := i / 3;
      assert Column(m, c) == Column(n, c);
    }
  }

  /** Hyper.math3D.rotateMatrix: each column of the rotatee is rotated
      about the same axis by the same angle (cosine c, sine s), into a
      matrix that starts out all zeros. */
  method RotateMatrix(rotatee: Matrix3, rotater: V, c: real, s: real) returns (rotated: Matrix3)
    ensures forall k :: 0 <= k < 3 ==> Column(rotated, k) == RotateVector(Column(rotatee, k), rotater, c, s)
  {
    var temp := new real[9](_ => 0.0);
    SetColumn(temp, 0, RotateVector(Column(rotatee, 0), rotater, c, s));
    SetColumn(temp, 1, RotateVector(Column(rotatee, 1), rotater, c, s));
    SetColumn(temp, 2, RotateVector(Column(rotatee, 2), rotater, c, s));
    rotated := temp[..];
  }

  /** Rotating every column of a frame about a unit axis by a genuine
      angle gives a frame again. */
  lemma RotatedFrame(m: Matrix3, r: Matrix3, axis: V, c: real, s: real)
    requires Orthonormal(m)
    requires IsUnit(axis) && c * c + s * s == 1.0
    requires forall k :: 0 <= k < 3 ==> Column(r, k) == RotateVector(Column(m, k), axis, c, s)
    ensures Orthonormal(r)
  {
    var m0, m1, m2 := Column(m, 0), Column(m, 1), Column(m, 2);
    assert Column(r, 0) == RotateVector(m0, axis, c, s);
    assert Column(r, 1) == RotateVector(m1, axis, c, s);
    assert Column(r, 2) == RotateVector(m2, axis, c, s);
    RotatePreservesDot(m0, m0, axis, c, s);
    RotatePreservesDot(m1, m1, axis, c, s);
    RotatePreservesDot(m2, m2, axis, c, s);
    RotatePreservesDot(m0, m1, axis, c, s);
    RotatePreservesDot(m0, m2, axis, c, s);
    RotatePreservesDot(m1, m2, axis, c, s);
  }
}
