/**
 * Three-dimensional vector arithmetic used by every evaluator of the game
 * store (`vectorAdd`, `vectorSub`, `magnitude`).
 *
 * Components are mathematical reals. `magnitude` calls the platform's square
 * root, which is not visible here, so it takes that function as a parameter;
 * `IsRootOf` says when such a value really is the square root, and the lemmas
 * at the end let the rest of the model compare magnitudes by their squares.
 */
module VectorMath {

  datatype Vector3 = Vector3(x: real, y: real, z: real)

  const Zero: Vector3 := Vector3(0.0, 0.0, 0.0)

  function Add(a: Vector3, b: Vector3): Vector3 {
    Vector3(a.x + b.x, a.y + b.y, a.z + b.z)
  }

  function Sub(a: Vector3, b: Vector3): Vector3 {
    Vector3(a.x - b.x, a.y - b.y, a.z - b.z)
  }

  /** The squared Euclidean length, the argument the source hands to the square root. */
  function NormSq(v: Vector3): real {
    v.x * v.x + v.y * v.y + v.z * v.z
  }

  /** `magnitude(v)`: the platform square root applied to the squared length. */
  function Magnitude(sqrt: real -> real, v: Vector3): real {
    sqrt(NormSq(v))
  }

  /** `r` is the (non-negative) square root of `s`. */
  predicate IsRootOf(r: real, s: real) {
    r >= 0.0 && r * r == s
  }

  /** Subtraction undoes addition, and adding the zero vector changes nothing. */
  lemma AddSubInverse(a: Vector3, b: Vector3)
    ensures Sub(Add(a, b), b) == a
    ensures Add(Sub(a, b), b) == a
    ensures Add(Zero, a) == a && Add(a, Zero) == a
  {
  }

  /** The squared length is never negative, so the platform square root is always applied inside its domain. */
  lemma NormSqNonNegative(v: Vector3)
    ensures NormSq(v) >= 0.0
  {
  }

  lemma ProductPositive(a: real, d: real)
    requires a > 0.0 && d > 0.0
    ensures a * d > 0.0
  {
  }

  /** For non-negative reals, comparing values is the same as comparing their squares. */
  lemma SquareOrder(a: real, b: real)
    requires a >= 0.0 && b >= 0.0
    ensures a <= b <==> a * a <= b * b
  {
    if a < b {
      ProductPositive(b - a, b + a);
      assert (b - a) * (b + a) == b * b - a * a;
    } else if b < a {
      ProductPositive(a - b, a + b);
      assert (a - b) * (a + b) == a * a - b * b;
    }
  }

  /** A true root lies within a non-negative bound exactly when its square lies within the bound squared. */
  lemma RootWithin(a: real, s: real, bound: real)
    requires IsRootOf(a, s) && bound >= 0.0
    ensures a <= bound <==> s <= bound * bound
  {
    SquareOrder(a, bound);
  }

  /** Left-to-right sum of a list of vectors, starting from the zero vector (the `forEach` accumulations). */
  function SumVectors(vs: seq<Vector3>): Vector3
  {
    if vs == [] then Zero else Add(SumVectors(vs[..|vs| - 1]), vs[|vs| - 1])
  }

  /** The sum of a single vector is that vector. */
  lemma SumVectorsSingle(v: Vector3)
    ensures SumVectors([v]) == v
  {
    assert [v][..0] == [];
  }

  /** The sum of a concatenation is the sum of the sums. */
  lemma {:induction false} SumVectorsAppend(a: seq<Vector3>, b: seq<Vector3>)
    ensures SumVectors(a + b) == Add(SumVectors(a), SumVectors(b))
    decreases |b|
  {
    if b == [] {
      assert a + b == a;
    } else {
      var b' := b[..|b| - 1];
      assert (a + b)[..|a + b| - 1] == a + b';
      SumVectorsAppend(a, b');
    }
  }

  /** The accumulating loop of the evaluators: `resultant = vectorAdd(resultant, v)` for each `v`. */
  method Accumulate(vs: seq<Vector3>) returns (r: Vector3)
    ensures r == SumVectors(vs)
  {
    r := Zero;
    for i := 0 to |vs|
      invariant r == SumVectors(vs[..i])
    {
      assert vs[..i + 1][..i] == vs[..i];
      r := Add(r, vs[i]);
    }
    assert vs[..|vs|] == vs;
  }
}
