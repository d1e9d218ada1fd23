/**
 * The numpy values a quantity holds: a 0-d array (a scalar) or a 1-d
 * array, with elementwise maps and numpy broadcasting for binary
 * operations.
 */
module Arrays {
  import opened Wrappers
  import opened RealMath

  datatype Array = Scalar(x: real) | Vector(xs: seq<real>)

  /** The elements, a scalar counting as one. */
  function Elements(a: Array): seq<real> {
    match a
    case Scalar(x) => [x]
    case Vector(xs) => xs
  }

  /** Same rank and same number of elements. */
  predicate SameShape(a: Array, b: Array) {
    a.Scalar? == b.Scalar? && |Elements(a)| == |Elements(b)|
  }

  /** `f` applied to every element, shape kept. */
  function Map(a: Array, f: real -> real): (r: Array)
    ensures SameShape(r, a)
    ensures forall i :: 0 <= i < |Elements(a)| ==> Elements(r)[i] == f(Elements(a)[i])
  {
    match a
    case Scalar(x) => Scalar(f(x))
    case Vector(xs) => Vector(seq(|xs|, i requires 0 <= i < |xs| => f(xs[i])))
  }

  /** Maps that undo each other give back the array. */
  lemma MapInverse(a: Array, f: real -> real, g: real -> real)
    requires forall x :: g(f(x)) == x
    ensures Map(Map(a, f), g) == a
  {
    if a.Vector? {
      var m := Map(a, f);
      var n := Map(m, g);
      assert Elements(m) == m.xs && Elements(n) == n.xs;
      forall i | 0 <= i < |a.xs|
        ensures n.xs[i] == a.xs[i]
      {
        assert n.xs[i] == g(m.xs[i]) && m.xs[i] == f(a.xs[i]);
      }
    }
  }

  /** A map that changes no element gives back the array. */
  lemma MapIdentity(a: Array, f: real -> real)
    requires forall x :: f(x) == x
    ensures Map(a, f) == a
  {
    if a.Vector? {
      var m := Map(a, f);
      assert Elements(m) == m.xs;
      forall i | 0 <= i < |a.xs|
        ensures m.xs[i] == a.xs[i]
      {
        assert m.xs[i] == f(a.xs[i]);
      }
    }
  }

  /** numpy broadcasting for ranks up to one: a scalar, a length-1 array or equal lengths. */
  predicate Broadcastable(a: Array, b: Array) {
    a.Scalar? || b.Scalar? || |a.xs| == |b.xs| || |a.xs| == 1 || |b.xs| == 1
  }

  /** The number of elements of the broadcast result. */
  function Size(a: Array, b: Array): nat {
    if a.Scalar? && b.Scalar? then 1
    else if a.Scalar? then |b.xs|
    else if b.Scalar? then |a.xs|
    else if |a.xs| == 1 then |b.xs|
    else |a.xs|
  }

  /** Element `i` of `a` stretched to the broadcast size: a scalar or a length-1 array repeats its element. */
  function At(a: Array, i: int): real {
    match a
    case Scalar(x) => x
    case Vector(xs) => if |xs| == 1 then xs[0] else if 0 <= i < |xs| then xs[i] else 0.0
  }

  /** A binary numpy operation: ValueError when the shapes do not broadcast, else `f` elementwise. */
  function Zip(a: Array, b: Array, f: (real, real) -> real): (r: Result<Array>)
    ensures r.Ok? <==> Broadcastable(a, b)
    ensures r.Err? ==> r.error == ValueError
    ensures r.Ok? ==> r.value.Scalar? == (a.Scalar? && b.Scalar?) && |Elements(r.value)| == Size(a, b)
    ensures r.Ok? ==> forall i :: 0 <= i < Size(a, b) ==> Elements(r.value)[i] == f(At(a, i), At(b, i))
  {
    if !Broadcastable(a, b) then Err(ValueError)
    else if a.Scalar? && b.Scalar? then Ok(Scalar(f(a.x, b.x)))
    else
      var n := Size(a, b);
      Ok(Vector(seq(n, i requires 0 <= i < n => f(At(a, i), At(b, i)))))
  }

  /** On two scalars a binary operation is `f` on the one pair. */
  lemma ZipScalars(x: real, y: real, f: (real, real) -> real)
    ensures Zip(Scalar(x), Scalar(y), f) == Ok(Scalar(f(x, y)))
  {
  }

  /** Arrays of the same shape broadcast to that shape, element for element. */
  lemma SameShapeAt(a: Array, b: Array)
    requires SameShape(a, b)
    ensures Broadcastable(a, b) && Size(a, b) == |Elements(a)|
    ensures forall i :: 0 <= i < |Elements(a)| ==> At(a, i) == Elements(a)[i] && At(b, i) == Elements(b)[i]
  {
  }

  /** A binary operation on arrays of one shape keeps the shape and pairs the elements up. */
  lemma ZipSameShape(a: Array, b: Array, f: (real, real) -> real)
    requires SameShape(a, b)
    ensures Zip(a, b, f).Ok? && SameShape(Zip(a, b, f).value, a)
    ensures forall i :: 0 <= i < |Elements(a)| ==> Elements(Zip(a, b, f).value)[i] == f(Elements(a)[i], Elements(b)[i])
  {
    SameShapeAt(a, b);
  }

  /** Element `i` of a same-shape `Zip`, read off a result already in hand. */
  lemma ZipAt(a: Array, b: Array, f: (real, real) -> real, s: Array, i: int)
    requires SameShape(a, b) && Zip(a, b, f) == Ok(s) && 0 <= i < |Elements(a)|
    ensures |Elements(s)| == |Elements(a)| && Elements(s)[i] == f(Elements(a)[i], Elements(b)[i])
  {
    ZipSameShape(a, b, f);
  }

  /** Element `i` of a same-shape product, given the two factors at `i`. */
  lemma TimesAt(a: Array, b: Array, s: Array, i: int, x: real, y: real)
    requires SameShape(a, b) && Zip(a, b, Times) == Ok(s) && 0 <= i < |Elements(a)|
    requires Elements(a)[i] == x && Elements(b)[i] == y
    ensures Elements(s)[i] == x * y
  {
    ZipAt(a, b, Times, s, i);
  }

  /** Combining `u` with the absolute values of a same-shape `v`, element by element. */
  lemma WithAbsolute(u: Array, v: Array, f: (real, real) -> real, s: Array)
    requires SameShape(u, v) && Zip(u, Map(v, Abs), f) == Ok(s)
    ensures SameShape(s, u)
    ensures forall i :: 0 <= i < |Elements(u)| ==> Elements(s)[i] == f(Elements(u)[i], Abs(Elements(v)[i]))
  {
    ZipSameShape(u, Map(v, Abs), f);
  }

  /** `|v| * w` element by element, for `v` and `w` of one shape, read off a result in hand. */
  lemma AbsTimesEach(v: Array, w: Array, s: Array)
    requires SameShape(v, w) && Zip(Map(v, Abs), w, Times) == Ok(s)
    ensures SameShape(s, v)
    ensures forall i :: 0 <= i < |Elements(v)| ==> Elements(s)[i] == Abs(Elements(v)[i]) * Elements(w)[i]
  {
    ZipSameShape(Map(v, Abs), w, Times);
  }

  /** Element `i` of `|v| * w`, for `v` and `w` of one shape, read off a result in hand. */
  lemma AbsTimesAt(v: Array, w: Array, s: Array, i: int)
    requires SameShape(v, w) && Zip(Map(v, Abs), w, Times) == Ok(s) && 0 <= i < |Elements(v)|
    ensures |Elements(s)| == |Elements(v)| && Elements(s)[i] == Abs(Elements(v)[i]) * Elements(w)[i]
  {
    AbsTimesEach(v, w, s);
  }

  /** A scalar on the left is paired with every element on the right, whose shape the result keeps. */
  lemma ZipScalarLeft(k: real, b: Array, f: (real, real) -> real)
    ensures Zip(Scalar(k), b, f).Ok? && SameShape(Zip(Scalar(k), b, f).value, b)
    ensures forall i :: 0 <= i < |Elements(b)| ==> Elements(Zip(Scalar(k), b, f).value)[i] == f(k, Elements(b)[i])
  {
    if b.Vector? {
      forall i | 0 <= i < |b.xs|
        ensures At(b, i) == b.xs[i]
      {
      }
    }
  }

  /** No element is negative. */
  predicate NonNegative(a: Array) {
    forall i :: 0 <= i < |Elements(a)| ==> Elements(a)[i] >= 0.0
  }

  /** Stretching a non-negative array yields non-negative elements. */
  lemma AtNonNegative(a: Array, i: int)
    requires NonNegative(a)
    ensures At(a, i) >= 0.0
  {
    if a.Scalar? {
      assert Elements(a)[0] == a.x;
    } else if |a.xs| == 1 {
      assert Elements(a)[0] == a.xs[0];
    } else if 0 <= i < |a.xs| {
      assert Elements(a)[i] == a.xs[i];
    }
  }

  /** Absolute values are never negative. */
  lemma AbsNonNegative(a: Array)
    ensures NonNegative(Map(a, Abs))
  {
  }

  /** The elementwise product of non-negative arrays is non-negative. */
  lemma TimesNonNegative(a: Array, b: Array)
    requires NonNegative(a) && NonNegative(b) && Zip(a, b, Times).Ok?
    ensures NonNegative(Zip(a, b, Times).value)
  {
    var r := Zip(a, b, Times).value;
    forall i | 0 <= i < |Elements(r)|
      ensures Elements(r)[i] >= 0.0
    {
      AtNonNegative(a, i);
      AtNonNegative(b, i);
      MulNonNegative(At(a, i), At(b, i));
    }
  }

  /** The elementwise quotient of non-negative arrays is non-negative. */
  lemma OverNonNegative(a: Array, b: Array)
    requires NonNegative(a) && NonNegative(b) && Zip(a, b, Over).Ok?
    ensures NonNegative(Zip(a, b, Over).value)
  {
    var r := Zip(a, b, Over).value;
    forall i | 0 <= i < |Elements(r)|
      ensures Elements(r)[i] >= 0.0
    {
      AtNonNegative(a, i);
      AtNonNegative(b, i);
      DivNonNegative(At(a, i), At(b, i));
    }
  }

  /** Applying `f` with `b` and then `g` with `b` gives back `a` when `g` undoes `f` on every pair of elements. */
  lemma ZipUndo(a: Array, b: Array, f: (real, real) -> real, g: (real, real) -> real)
    requires SameShape(a, b)
    requires forall i :: 0 <= i < |Elements(a)| ==> g(f(Elements(a)[i], Elements(b)[i]), Elements(b)[i]) == Elements(a)[i]
    ensures Zip(a, b, f).Ok? && Zip(Zip(a, b, f).value, b, g) == Ok(a)
  {
    SameShapeAt(a, b);
    var m := Zip(a, b, f).value;
    assert SameShape(m, b);
    SameShapeAt(m, b);
    var n := Zip(m, b, g).value;
    if a.Vector? {
      assert Elements(n) == n.xs && Elements(m) == m.xs;
      forall i | 0 <= i < |a.xs|
        ensures n.xs[i] == a.xs[i]
      {
        assert n.xs[i] == g(m.xs[i], b.xs[i]);
      }
      assert n.xs == a.xs;
    } else {
      assert Elements(a)[0] == a.x && Elements(b)[0] == b.x;
      assert n == Scalar(g(m.x, b.x));
    }
  }

  /** `np.all(p(a, b))` after broadcasting; true for an empty result. */
  function All(a: Array, b: Array, p: (real, real) -> bool): (r: Result<bool>)
    ensures r.Ok? <==> Broadcastable(a, b)
    ensures r.Err? ==> r.error == ValueError
  {
    if !Broadcastable(a, b) then Err(ValueError)
    else Ok(forall i :: 0 <= i < Size(a, b) ==> p(At(a, i), At(b, i)))
  }

  /** On two scalars `np.all` is the test of the one pair. */
  lemma AllScalars(x: real, y: real, p: (real, real) -> bool)
    ensures All(Scalar(x), Scalar(y), p) == Ok(p(x, y))
  {
    assert Size(Scalar(x), Scalar(y)) == 1;
    assert At(Scalar(x), 0) == x && At(Scalar(y), 0) == y;
  }

  /** Some element of the broadcast divisor `b` is zero. */
  predicate ZeroDivisor(a: Array, b: Array) {
    exists i :: 0 <= i < Size(a, b) && At(b, i) == 0.0
  }

  function Plus(x: real, y: real): real { x + y }
  function Minus(x: real, y: real): real { x - y }
  function Times(x: real, y: real): real { x * y }

  /** `x / y`; the model uses it only where no divisor is zero, and gives 0 there. */
  function Over(x: real, y: real): real {
    if y == 0.0 then 0.0 else x / y
  }

  function Negate(x: real): real { -x }

  /** Multiplication by a fixed factor. */
  function ScaleBy(f: real): real -> real {
    x => x * f
  }

  /** Scaling every element by `f` and then by its inverse `g` restores the array. */
  lemma ScaleRoundTrip(a: Array, f: real, g: real)
    requires Inverses(f, g)
    ensures Map(Map(a, ScaleBy(f)), ScaleBy(g)) == a
  {
    forall x
      ensures ScaleBy(g)(ScaleBy(f)(x)) == x
    {
      assert x * f * g == x * (f * g);
    }
    MapInverse(a, ScaleBy(f), ScaleBy(g));
  }

  /** `np.allclose` tolerances. */
  const RelativeTolerance: real := 0.00001
  const AbsoluteTolerance: real := 0.00000001

  /** numpy's closeness test of `x` against the reference `y`. */
  predicate Close(x: real, y: real) {
    Abs(x - y) <= AbsoluteTolerance + RelativeTolerance * Abs(y)
  }

  /** Every value is close to itself. */
  lemma CloseReflexive(x: real)
    ensures Close(x, x)
  {
  }

  /** `np.allclose(a, b)`: ValueError when the shapes do not broadcast. */
  function AllClose(a: Array, b: Array): Result<bool> {
    All(a, b, Close)
  }

  /** An array is close to itself. */
  lemma AllCloseReflexive(a: Array)
    ensures AllClose(a, a) == Ok(true)
  {
    forall i | 0 <= i < Size(a, a)
      ensures Close(At(a, i), At(a, i))
    {
      CloseReflexive(At(a, i));
    }
  }
}
