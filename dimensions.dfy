/**
 * Dimension: the exponents of a unit over the seven SI base quantities
 * (length, mass, time, current, temperature, amount, luminosity), with the
 * addition, subtraction and scaling the unit algebra uses.
 */
module Dimensions {

  datatype Dimension = Dimension(
    length: int, mass: int, time: int, current: int,
    temperature: int, amount: int, luminosity: int)

  /** `Dimension()`: the dimension of a dimensionless unit. */
  const Zero := Dimension(0, 0, 0, 0, 0, 0, 0)

  const Length := Zero.(length := 1)
  const Mass := Zero.(mass := 1)
  const Time := Zero.(time := 1)
  const Current := Zero.(current := 1)
  const Temperature := Zero.(temperature := 1)
  const Amount := Zero.(amount := 1)
  const Luminosity := Zero.(luminosity := 1)

  function Add(a: Dimension, b: Dimension): Dimension {
    Dimension(a.length + b.length, a.mass + b.mass, a.time + b.time, a.current + b.current,
              a.temperature + b.temperature, a.amount + b.amount, a.luminosity + b.luminosity)
  }

  function Sub(a: Dimension, b: Dimension): Dimension {
    Dimension(a.length - b.length, a.mass - b.mass, a.time - b.time, a.current - b.current,
              a.temperature - b.temperature, a.amount - b.amount, a.luminosity - b.luminosity)
  }

  /** `dim * k`: every exponent multiplied by `k`. */
  function Scale(a: Dimension, k: int): Dimension {
    Dimension(a.length * k, a.mass * k, a.time * k, a.current * k,
              a.temperature * k, a.amount * k, a.luminosity * k)
  }

  /** Scaling distributes over a sum of exponents, which makes power bookkeeping additive. */
  lemma ScaleAdd(a: Dimension, p: int, q: int)
    ensures Scale(a, p + q) == Add(Scale(a, p), Scale(a, q))
  {
    assert a.length * (p + q) == a.length * p + a.length * q;
    assert a.mass * (p + q) == a.mass * p + a.mass * q;
    assert a.time * (p + q) == a.time * p + a.time * q;
    assert a.current * (p + q) == a.current * p + a.current * q;
    assert a.temperature * (p + q) == a.temperature * p + a.temperature * q;
    assert a.amount * (p + q) == a.amount * p + a.amount * q;
    assert a.luminosity * (p + q) == a.luminosity * p + a.luminosity * q;
  }

  lemma ScaleMul(a: Dimension, p: int, q: int)
    ensures Scale(Scale(a, p), q) == Scale(a, p * q)
  {
    assert a.length * p * q == a.length * (p * q);
    assert a.mass * p * q == a.mass * (p * q);
    assert a.time * p * q == a.time * (p * q);
    assert a.current * p * q == a.current * (p * q);
    assert a.temperature * p * q == a.temperature * (p * q);
    assert a.amount * p * q == a.amount * (p * q);
    assert a.luminosity * p * q == a.luminosity * (p * q);
  }

  lemma ScaleDistributes(a: Dimension, b: Dimension, k: int)
    ensures Scale(Add(a, b), k) == Add(Scale(a, k), Scale(b, k))
  {
    assert (a.length + b.length) * k == a.length * k + b.length * k;
    assert (a.mass + b.mass) * k == a.mass * k + b.mass * k;
    assert (a.time + b.time) * k == a.time * k + b.time * k;
    assert (a.current + b.current) * k == a.current * k + b.current * k;
    assert (a.temperature + b.temperature) * k == a.temperature * k + b.temperature * k;
    assert (a.amount + b.amount) * k == a.amount * k + b.amount * k;
    assert (a.luminosity + b.luminosity) * k == a.luminosity * k + b.luminosity * k;
  }

  /** Taking `x` away and adding `x + y` back adds `y`. */
  lemma AddSubCancel(a: Dimension, x: Dimension, y: Dimension, r: Dimension)
    ensures Add(Add(Sub(a, x), Add(x, y)), r) == Add(a, Add(y, r))
  {
  }

  /** Adding `b` scaled by -1 is subtracting `b`. */
  lemma AddNegated(a: Dimension, b: Dimension)
    ensures Add(a, Scale(b, -1)) == Sub(a, b)
  {
  }

  lemma ScaleOne(a: Dimension)
    ensures Scale(a, 1) == a
  {
  }
}
