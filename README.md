# Hyper.math3D: exact vector and frame arithmetic

This project models the exact-arithmetic part of `Hyper.math3D` in
`Hyper/PI_HyperMath.js`. That part is the vector and 3x3-matrix layer that
the camera code builds on:

- the vector primitives `dot`, `cross`, `reverse`, `scaleVector`,
  `addVectors`, `hasMagnitude`, `vectorUnitize`, `isOrthogonal` and
  `isColinear`;
- rotation about an arbitrary axis (`rotateVector`, `rotateMatrix`);
- the change-of-frame conversions (`vectorToTransform`,
  `vectorFromTransform`, `matrixToTransform`);
- grouping three vectors into a matrix and back (`vectorsToMatrix`,
  `matrixToVectors`).

Every one of these except `normalize`, which `vectorUnitize` calls and the
model takes as a parameter, is a polynomial in the x/y/z components, so the model
works over Dafny's `real`, with no rounding. A vector is the datatype
`Vectors.V(x, y, z)`. A matrix is `Matrices.Matrix3`, a sequence of nine
reals stored column by column: entry `r` of column `c` sits at index
`3*c + r`, as the header of the file lays it out (columns east, north, up).
`rotateVector` takes an angle and computes `Math.cos` and `Math.sin` of it.
The model takes those two values as the parameters `c` and `s`. Where a
property needs a genuine angle, it requires `c*c + s*s == 1`.

Modules:

- `Vectors`: the vector primitives and the algebra the proofs need.
- `Rotation`: `rotateVector` and its properties.
  - Rotation fixes the axial component and preserves dot products and
    lengths.
  - A zero angle is the identity and a quarter turn is a cross product.
  - Two rotations about one axis compose by angle addition.
- `Matrices`: the matrix layout, `vectorsToMatrix`, `matrixToVectors` and
  `rotateMatrix`. Rotating every column of an orthonormal frame gives an
  orthonormal frame.
- `Frames`: the change-of-frame conversions and their round trips.
- `Colinear`: `isColinear` over mutable `Cartesian3` objects, because the
  source negates its second argument in place.

The code's own operations are modelled in the code's form:

- The pure expressions are functions.
- `addVectors` and `matrixToTransform` are methods with the source's
  loops.
- `vectorsToMatrix` and `rotateMatrix` fill a fresh nine-entry array one
  column at a time.
- `isColinear` is a method that `modifies` its second argument.

`isColinear` recognises only vectors that are equal or opposite. For
unit vectors that is exactly the pairs whose cross product is zero, the
pairs its comment says cannot be crossed. Vectors of different lengths
along one line, such as (1,0,0) and (2,0,0), also have a zero cross
product, yet the check answers false for them.

The code's comment on `rotateVector` calls both arguments unit vectors.
Only the axis (`rotater`) needs to be a unit vector. Every rotation
property here holds for a rotatee of any length.

## Model

| member | source | states |
|---|---|---|
| Vectors.Dot | Hyper/PI_HyperMath.js:59 | the dot product; DotSymmetric, IsOrthogonal and SplitDot state what it means, and ScaleSquaredLength how scaling changes it |
| Vectors.Cross | Hyper/PI_HyperMath.js:60-67 | the cross product; CrossPerpendicular, CrossAnticommutes, TripleProduct, BinetCauchy, UnitCross and ParallelToUnit state its properties |
| Vectors.Scale | Hyper/PI_HyperMath.js:295-301 | scaleVector, scalar first; ScaleSquaredLength states its effect on length, and ReverseInvolution that scaling by -1 is reverse |
| Vectors.SumOf | Hyper/PI_HyperMath.js:283-294 | the sum addVectors computes, from the front; AddVectors is proved equal to it, and SumOfConcat and SumOfSwap state that joining and reordering lists does not change the total |
| Vectors.Reverse | Hyper/PI_HyperMath.js:68-75 | the reverse of v is its additive inverse: v + reverse(v) and reverse(v) + v are both (0,0,0) |
| Vectors.ReverseInvolution | Hyper/PI_HyperMath.js:68-75 | reversing twice gives the vector back; reversing is scaling by -1 |
| Vectors.CrossPerpendicular | Hyper/PI_HyperMath.js:60-67 | cross(a,b) is orthogonal to both a and b, with the dot product taken in either order |
| Vectors.CrossAnticommutes | Hyper/PI_HyperMath.js:60-67 | cross(a,b) is the reverse of cross(b,a), and cross(a,a) is zero |
| Vectors.TripleProduct | Hyper/PI_HyperMath.js:59-67 | a x (b x c) = (a.c) b - (a.b) c, which is the identity rotateVector relies on |
| Vectors.BinetCauchy | Hyper/PI_HyperMath.js:59-67 | (a x b).(c x d) = (a.c)(b.d) - (a.d)(b.c) |
| Vectors.UnitCross | Hyper/PI_HyperMath.js:60-67 | the cross product of two orthogonal unit vectors is a unit vector |
| Vectors.ParallelToUnit | Hyper/PI_HyperMath.js:59-67 | a vector whose cross product with a unit vector n vanishes is (u.n) n, a multiple of n |
| Vectors.ScaleSquaredLength | Hyper/PI_HyperMath.js:295-301 | scaling by k multiplies the squared length by k*k |
| Vectors.AddVectors | Hyper/PI_HyperMath.js:283-294 | the loop leaves the resultant equal to the sum of every vector in the list; an empty list gives (0,0,0) |
| Vectors.SumOfConcat | Hyper/PI_HyperMath.js:283-294 | the sum of two lists joined end to end is the sum of their sums |
| Vectors.SumOfSwap | Hyper/PI_HyperMath.js:283-294 | the order in which lists are joined does not change addVectors' result |
| Vectors.HasMagnitude | Hyper/PI_HyperMath.js:302-303 | true exactly when the vector is not (0,0,0) |
| Vectors.Unitize | Hyper/PI_HyperMath.js:304-309 | the zero vector gives (0,0,0) without calling normalize; any other vector gives normalize's result |
| Vectors.IsOrthogonal | Hyper/PI_HyperMath.js:315-316 | true exactly when Pythagoras' theorem holds for the two vectors: the squared length of their sum is the sum of their squared lengths |
| Rotation.RotateVector | Hyper/PI_HyperMath.js:84-97 | the rotation itself, with c and s for the cosine and sine; its promises are stated by RotateByZero (no turn is the identity), RotatePreservesAxial, RotatePreservesDot and RotatePreservesLength (a rigid turn about a unit axis), QuarterTurn and EastAboutUpIsNorth (the counter-clockwise sense) and RotateCompose (turns add) |
| Rotation.PerpIsPerpendicular | Hyper/PI_HyperMath.js:92 | for a unit axis, vPerpAxis (the rotatee less its axial part) is orthogonal to the axis |
| Rotation.RotateByZero | Hyper/PI_HyperMath.js:84-97 | with c = 1 and s = 0 the rotatee comes back unchanged, for any axis |
| Rotation.RotatePreservesAxial | Hyper/PI_HyperMath.js:84-97 | for a unit axis, the component along the axis is the same before and after, whatever c and s are |
| Rotation.SplitDot | Hyper/PI_HyperMath.js:90-92 | for a unit axis, u.w is the product of the axial components plus the dot product of the perpendicular parts |
| Rotation.TurnPreservesDot | Hyper/PI_HyperMath.js:94 | crossing with a unit axis preserves dot products of vectors perpendicular to it |
| Rotation.RotatePreservesDot | Hyper/PI_HyperMath.js:84-97 | for a unit axis and c*c + s*s = 1, rotating two vectors keeps their dot product |
| Rotation.RotatePreservesLength | Hyper/PI_HyperMath.js:84-97 | for a unit axis and c*c + s*s = 1, rotation keeps the squared length |
| Rotation.QuarterTurn | Hyper/PI_HyperMath.js:84-97 | with c = 0 and s = 1, a vector perpendicular to the axis turns into axis x v (counter-clockwise seen from the tip of the axis) |
| Rotation.EastAboutUpIsNorth | Hyper/PI_HyperMath.js:84-97 | a quarter turn of east about up gives north |
| Rotation.DoubleTurn | Hyper/PI_HyperMath.js:94 | for a unit axis, crossing a perpendicular vector with the axis twice reverses it |
| Rotation.CrossCombo | Hyper/PI_HyperMath.js:94 | the cross product with the axis is linear in the perpendicular part |
| Rotation.RotateCompose | Hyper/PI_HyperMath.js:84-97 | two rotations about one unit axis are one rotation by the summed angle: its cosine is c1*c2 - s1*s2 and its sine s1*c2 + c1*s2 |
| Matrices.Column | Hyper/PI_HyperMath.js:14-19 | Matrix3.getColumn in the column-major layout; FromColumns, ColumnsDetermine and GroupAfterUngroup state that the three columns are the matrix |
| Matrices.FromColumns | Hyper/PI_HyperMath.js:14-19 | the column-major layout: the three vectors are columns 0, 1 and 2 |
| Matrices.SetColumn | Hyper/PI_HyperMath.js:261-268 | setColumn writes the three entries of column c and leaves the other six unchanged |
| Matrices.VectorsToMatrix | Hyper/PI_HyperMath.js:261-268 | the new matrix's columns are first, second and third, in that order |
| Matrices.MatrixToVectors | Hyper/PI_HyperMath.js:269-277 | three vectors, the columns of the matrix in order |
| Matrices.UngroupAfterGroup | Hyper/PI_HyperMath.js:269-277 | matrixToVectors undoes vectorsToMatrix |
| Matrices.GroupAfterUngroup | Hyper/PI_HyperMath.js:261-277 | vectorsToMatrix undoes matrixToVectors |
| Matrices.ColumnsDetermine | Hyper/PI_HyperMath.js:14-19 | two matrices with the same three columns are equal |
| Matrices.RotateMatrix | Hyper/PI_HyperMath.js:98-107 | column k of the result is column k of the rotatee rotated about the rotater, for k = 0, 1, 2 |
| Matrices.RotatedFrame | Hyper/PI_HyperMath.js:98-107 | rotating each column of an orthonormal matrix about a unit axis by a genuine angle gives an orthonormal matrix |
| Frames.VectorToTransform | Hyper/PI_HyperMath.js:189-198 | the transformee's coordinates in the transformer's frame; ToAfterFrom and FromAfterTo state that vectorFromTransform undoes it for an orthonormal frame, and AxesInOwnFrame what it gives for the frame's own axes |
| Frames.VectorFromTransform | Hyper/PI_HyperMath.js:199-207 | coordinates in a frame back in outer terms; FromDotColumns, ToAfterFrom and FromAfterTo state that it is the reverse of vectorToTransform for an orthonormal frame |
| Frames.FromDotColumns | Hyper/PI_HyperMath.js:199-207 | against axis k of an orthonormal frame, vectorFromTransform(t) keeps only coordinate k of t |
| Frames.ToAfterFrom | Hyper/PI_HyperMath.js:189-207 | for an orthonormal frame, vectorToTransform undoes vectorFromTransform |
| Frames.FromAfterTo | Hyper/PI_HyperMath.js:189-207 | for an orthonormal frame, vectorFromTransform undoes vectorToTransform, as the comment on line 199 says |
| Frames.OrthogonalToOrthonormalIsZero | Hyper/PI_HyperMath.js:189-198 | only the zero vector is orthogonal to all three axes of an orthonormal frame, so vectorToTransform loses nothing |
| Frames.SameCoordinates | Hyper/PI_HyperMath.js:189-198 | vectors with the same coordinates in an orthonormal frame are equal |
| Frames.AxesInOwnFrame | Hyper/PI_HyperMath.js:189-198 | in its own orthonormal frame each axis has coordinates (1,0,0), (0,1,0) and (0,0,1) |
| Frames.MatrixToTransform | Hyper/PI_HyperMath.js:208-224 | the i/j/k loop fills all nine entries; column c of the result is vectorToTransform of column c of the transformee |
| Colinear.Cartesian3.constructor | Hyper/PI_HyperMath.js:317-323 | a new Cartesian3 holds the given components |
| Colinear.Cartesian3.Negate | Hyper/PI_HyperMath.js:320 | Cartesian3.negate(v, v) replaces the object's value with its reverse |
| Colinear.SelfAndReverse | Hyper/PI_HyperMath.js:317-323 | every vector is colinear, in this sense, with itself and with its reverse |
| Colinear.IsColinear | Hyper/PI_HyperMath.js:317-323 | answers true exactly when the second vector equals the first or its reverse; vector1 is unchanged; vector2 is left reversed whenever the first test failed |
| Colinear.NegationLeaks | Hyper/PI_HyperMath.js:317-323 | for east and north the answer is false, and the caller's north vector now points south |
| Colinear.ParallelMissed | Hyper/PI_HyperMath.js:317-323 | for (1,0,0) and (2,0,0), whose cross product is zero, the check answers false |
| Colinear.IsColinearOnCopy | Hyper/PI_HyperMath.js:317-323 | the same answer as isColinear, negating a fresh copy, so that neither argument is modified |
| Colinear.ColinearIffCrossZero | Hyper/PI_HyperMath.js:317-323 | for unit vectors the check answers true exactly when their cross product is zero, the case in which crossing them cannot give a third axis |

## Left out

- Heading/pitch/roll conversions (`matrixToHPR`, `HPRtoMatrix`, `vectorToHP`, lines 123-179): they rest on `atan2`, `acos`, `sin` and `cos` of floating-point angles. Note that the singular branch returns pitch as 90 or -90, in degrees, while the regular branch returns radians (lines 134-135 against line 140); the model does not capture or correct this.
- `Math.cos` and `Math.sin` in `rotateVector` (line 89): the model takes the two values as parameters `c` and `s`. Properties that need a real angle require `c*c + s*s == 1`. No trigonometry is modelled.
- `distP2P_2D` (lines 310-314): square root and power over floating point.
- Vectors.Unitize: `Cesium.Cartesian3.normalize` is a library call with a square root. It is a parameter of the model, so only the `hasMagnitude` guard and the zero-vector branch are stated, not that the result has unit length.
- The empty stubs `rotateAroundPoint`, `HPtoVector`, `matrixFromTransform` and `setView` (lines 108-117, 180-183, 225-255, 324-334) contain only comments.
- The namespace set-up and `Hyper.math2D` (lines 41-54) are module plumbing.
- Cesium allocation: `new Cesium.Cartesian3()`, `Matrix3.getColumn` and `Matrix3.setColumn` become the datatype, the sequence layout and `Matrices.SetColumn`. The source calls bare `scaleVector`, `addVectors` and `rotateVector` (lines 91, 96, 103-105); the model takes these to be the `Hyper.math3D` functions.
- Floating point: rounding, NaN, infinities and negative zero are not modelled. The exact comparisons in `hasMagnitude`, `isOrthogonal` and `isColinear` are exact over the reals too.
- Matrices.RotateMatrix, Matrices.VectorsToMatrix and Frames.MatrixToTransform return the filled nine entries as a value. The Cesium `Matrix3` object that the source returns, and any aliasing of it, are not modelled.
- Vectors.IsOrthogonal: its contract relates the exact test to Pythagoras' theorem. It makes no statement with an epsilon, which the source leaves as a TODO.

## Findings

| source | as written | input that shows it | evidently intended | confidence | as-written member | corrected member |
|---|---|---|---|---|---|---|
| Hyper/PI_HyperMath.js:317-323 | `isColinear` negates its second argument in place (`Cesium.Cartesian3.negate(vector2, vector2)`) whenever the two vectors are not equal | vector1 = (1,0,0), vector2 = (0,1,0): the answer is false and the caller's vector2 is now (0,-1,0) | a check with no side effect, negating a copy of vector2 | not executed | Colinear.NegationLeaks | Colinear.IsColinearOnCopy |
