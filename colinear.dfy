/** Hyper.math3D.isColinear, the check made before crossing two vectors.
    Its arguments are Cesium Cartesian3 objects, and the check negates its
    second argument in place, so they are modelled as mutable objects. */
module Colinear {
  import opened Vectors

  /** A Cesium Cartesian3: three mutable components. */
  class Cartesian3 {
    var x: real
    var y: real
    var z: real

    /** The vector the object holds now. */
    function Value(): V
      reads this
    {
      V(x, y, z)
    }

    constructor (v: V)
      ensures Value() == v
    {
      x, y, z := v.x, v.y, v.z;
    }

    /** Cartesian3.negate(v, v): the object becomes its own reverse. */
    method Negate()
      modifies this
      ensures Value() == Reverse(old(Value()))
    {
      x, y, z := -x, -y, -z;
    }
  }

  /** Two vectors point along the same line with the same length: equal,
      or one the reverse of the other. */
  predicate EqualOrOpposite(a: V, b: V)
  {
    b == a || Reverse(b) == a
  }

  /** A vector is colinear with itself and with its reverse. */
  lemma SelfAndReverse(v: V)
    ensures EqualOrOpposite(v, v) && EqualOrOpposite(v, Reverse(v))
  {
    ReverseInvolution(v);
  }

  /** Hyper.math3D.isColinear as written: the first test compares the two
      vectors; when it fails the second vector is negated in place and
      compared again. The answer is right, but the caller's second vector
      is left reversed whenever the first test failed. */
  method IsColinear(vector1: Cartesian3, vector2: Cartesian3) returns (r: bool)
    modifies vector2
    ensures r <==> EqualOrOpposite(old(vector1.Value()), old(vector2.Value()))
    ensures vector1.Value() == old(vector1.Value())
    ensures vector2.Value()
         == if old(vector1.Value()) == old(vector2.Value()) then old(vector2.Value())
            else Reverse(old(vector2.Value()))
  {
    if vector1.x == vector2.x && vector1.y == vector2.y && vector1.z == vector2.z {
      return true;
    }
    vector2.Negate();
    if vector1.x == vector2.x && vector1.y == vector2.y && vector1.z == vector2.z {
      return true;
    }
    return false;
  }

  /** The facts about east and north that NegationLeaks relies on. */
  lemma EastNorthFacts()
    ensures V(1.0, 0.0, 0.0) != V(0.0, 1.0, 0.0)
    ensures !EqualOrOpposite(V(1.0, 0.0, 0.0), V(0.0, 1.0, 0.0))
    ensures Reverse(V(0.0, 1.0, 0.0)) == V(0.0, -1.0, 0.0)
  {
  }

  /** Two different unit vectors that are not colinear: east and north.
      Asking whether they are colinear answers no, and leaves the caller's
      north vector pointing south. */
  method NegationLeaks() returns (answer: bool, after: V)
    ensures !answer
    ensures after == V(0.0, -1.0, 0.0)
  {
    EastNorthFacts();
    var east := new Cartesian3(V(1.0, 0.0, 0.0));
    var north := new Cartesian3(V(0.0, 1.0, 0.0));
    answer := IsColinear(east, north);
    after := north.Value();
  }

  /** East is neither twice east nor its reverse. */
  lemma EastTwiceFacts()
    ensures !EqualOrOpposite(V(1.0, 0.0, 0.0), V(2.0, 0.0, 0.0))
  {
  }

  /** The reverse of twice east. */
  lemma TwiceEastReversed()
    ensures Reverse(V(2.0, 0.0, 0.0)) == V(-2.0, 0.0, 0.0)
  {
  }

  /** East and twice east are parallel: their cross product is zero. */
  lemma EastTwiceParallel()
    ensures Cross(V(1.0, 0.0, 0.0), V(2.0, 0.0, 0.0)) == Zero()
  {
  }

  /** The check recognises only equal or opposite vectors, not every pair
      that cannot be crossed: east and twice east are parallel, so their
      cross product is zero, yet the check answers no. */
  method ParallelMissed() returns (answer: bool, cross: V)
    ensures !answer
    ensures cross == Zero()
  {
    EastTwiceFacts();
    TwiceEastReversed();
    EastTwiceParallel();
    cross := Cross(V(1.0, 0.0, 0.0), V(2.0, 0.0, 0.0));
    var east := new Cartesian3(V(1.0, 0.0, 0.0));
    var twice := new Cartesian3(V(2.0, 0.0, 0.0));
    answer := IsColinear(east, twice);
  }

  /** isColinear with the negation applied to a copy: same answer, and
      neither argument changes. */
  method IsColinearOnCopy(vector1: Cartesian3, vector2: Cartesian3) returns (r: bool)
    ensures r <==> EqualOrOpposite(vector1.Value(), vector2.Value())
  {
    if vector1.x == vector2.x && vector1.y == vector2.y && vector1.z == vector2.z {
      return true;
    }
    var negated := new Cartesian3(vector2.Value());
    negated.Negate();
    if vector1.x == negated.x && vector1.y == negated.y && vector1.z == negated.z {
      return true;
    }
    return false;
  }

  /** The only reals whose square is one are 1 and -1. */
  lemma UnitRoot(d: real)
    requires d * d == 1.0
    ensures d == 1.0 || d == -1.0
  {
    assert (d - 1.0) * (d + 1.0) == 0.0;
  }

  /** Component form of UnitMultiple: a multiple d of a unit vector that is
      itself a unit vector has d*d == 1. */
  lemma UnitMultipleAt(a: V, b: V, d: real)
    requires b == Scale(d, a)
    requires a.x * a.x + a.y * a.y + a.z * a.z == 1.0
    requires b.x * b.x + b.y * b.y + b.z * b.z == 1.0
    ensures d * d == 1.0
  {
    assert b.x * b.x + b.y * b.y + b.z * b.z == d * d * (a.x * a.x + a.y * a.y + a.z * a.z);
  }

  /** Scaling by 1 copies a vector; scaling by -1 reverses it. */
  lemma SignedCopyAt(a: V, b: V, d: real)
    requires b == Scale(d, a)
    ensures d == 1.0 ==> b == a
    ensures d == -1.0 ==> Reverse(b) == a
  {
  }

  /** Colinear vectors have no cross product. */
  lemma ColinearCrossZero(a: V, b: V)
    requires EqualOrOpposite(a, b)
    ensures Cross(a, b) == Zero()
  {
    if b != a {
      ReverseInvolution(b);
      assert b == Reverse(a);
    }
  }

  /** A unit vector that is a multiple of another unit vector is that
      vector or its reverse. */
  lemma UnitMultiple(a: V, b: V, d: real)
    requires IsUnit(a) && IsUnit(b)
    requires b == Scale(d, a)
    ensures EqualOrOpposite(a, b)
  {
    UnitMultipleAt(a, b, d);
    UnitRoot(d);
    SignedCopyAt(a, b, d);
  }

  /** Unit vectors with no cross product are equal or opposite. */
  lemma CrossZeroColinear(a: V, b: V)
    requires IsUnit(a) && IsUnit(b)
    requires Cross(a, b) == Zero()
    ensures EqualOrOpposite(a, b)
  {
    CrossAnticommutes(a, b);
    ParallelToUnit(b, a);
    UnitMultiple(a, b, Dot(b, a));
  }

  /** For unit vectors the check is exact: it answers yes precisely for
      the pairs whose cross product vanishes, the pairs that cannot be
      crossed to get a third axis. */
  lemma ColinearIffCrossZero(a: V, b: V)
    requires IsUnit(a) && IsUnit(b)
    ensures EqualOrOpposite(a, b) <==> Cross(a, b) == Zero()
  {
    if Cross(a, b) == Zero() {
      CrossZeroColinear(a, b);
    } else if EqualOrOpposite(a, b) {
      ColinearCrossZero(a, b);
    }
  }
}
