/**
 * `UncertainQuantity`: a quantity carrying an absolute uncertainty array,
 * propagated through conversion and arithmetic by the first-order rules
 * for independent errors. The square root numpy takes is a parameter
 * `sqrt`; the lemmas that need its values ask `IsSqrt(sqrt)`.
 */
module Uncertainties {
  import opened Wrappers
  import opened RealMath
  import opened Units
  import opened Arrays
  import Q = Quantities

  datatype UncertainQuantity = UncertainQuantity(value: Array, unit: Unit, uncertainty: Array)

  /** The right operand: an uncertain quantity, a plain quantity, or a number or array. */
  datatype Operand = Uncertain(u: UncertainQuantity) | Certain(q: Q.Quantity) | Number(x: Array)

  /** The quantity without its uncertainty (what the `Quantity` base class sees). */
  function Nominal(u: UncertainQuantity): Q.Quantity {
    Q.Quantity(u.value, u.unit)
  }

  /** How the `Quantity` base-class operator sees the right operand. */
  function AsQuantityOperand(other: Operand): Q.Operand {
    match other
    case Uncertain(u) => Q.OfQuantity(Nominal(u))
    case Certain(q) => Q.OfQuantity(q)
    case Number(x) => Q.Plain(x)
  }

  function AbsTimes(rel: real): real -> real {
    x => Abs(x) * rel
  }

  function ZeroOf(x: real): real { 0.0 }

  /**
   * The constructor: an explicit uncertainty is taken as given; else a
   * relative one is multiplied into `|value|`; else the uncertainty is zero.
   */
  function Construct(value: Array, unit: Unit, uncertainty: Option<Array>, relative: Option<real>): (r: UncertainQuantity)
    ensures Nominal(r) == Q.Quantity(value, unit)
    ensures uncertainty.Some? ==> r.uncertainty == uncertainty.value
    ensures uncertainty.None? ==> SameShape(r.uncertainty, value)
    ensures uncertainty.None? && relative.Some? ==>
      forall i :: 0 <= i < |Elements(value)| ==> Elements(r.uncertainty)[i] == Abs(Elements(value)[i]) * relative.value
    ensures uncertainty.None? && relative.None? ==>
      forall i :: 0 <= i < |Elements(value)| ==> Elements(r.uncertainty)[i] == 0.0
  {
    var sigma :=
      if uncertainty.Some? then uncertainty.value
      else if relative.Some? then Map(value, AbsTimes(relative.value))
      else Map(value, ZeroOf);
    UncertainQuantity(value, unit, sigma)
  }

  /** `s / |v|` with numpy's infinities and NaNs (from `v == 0`) replaced by 0. */
  function RelativeOf(s: real, v: real): real {
    if v == 0.0 then 0.0 else s / Abs(v)
  }

  /** The `relative_uncertainty` property: elementwise `σ / |value|`, 0 where the value is 0. */
  function RelativeUncertainty(u: UncertainQuantity): (r: Result<Array>)
    ensures r.Ok? <==> Broadcastable(u.uncertainty, u.value)
    ensures r.Err? ==> r.error == ValueError
    ensures r.Ok? && SameShape(u.uncertainty, u.value) ==>
      SameShape(r.value, u.value) &&
      forall i :: 0 <= i < |Elements(u.value)| ==>
        Elements(r.value)[i] == RelativeOf(Elements(u.uncertainty)[i], Elements(u.value)[i])
  {
    if SameShape(u.uncertainty, u.value) then
      SameShapeAt(u.uncertainty, u.value);
      Zip(u.uncertainty, u.value, RelativeOf)
    else Zip(u.uncertainty, u.value, RelativeOf)
  }

  /** A relative uncertainty given to the constructor is read back, except at zero values. */
  lemma RelativeRoundTrip(value: Array, unit: Unit, rel: real)
    ensures RelativeUncertainty(Construct(value, unit, None, Some(rel))).Ok?
    ensures forall i :: 0 <= i < |Elements(value)| ==>
      Elements(RelativeUncertainty(Construct(value, unit, None, Some(rel))).value)[i] ==
        if Elements(value)[i] == 0.0 then 0.0 else rel
  {
    var u := Construct(value, unit, None, Some(rel));
    assert SameShape(u.uncertainty, u.value);
    forall i | 0 <= i < |Elements(value)|
      ensures RelativeOf(Elements(u.uncertainty)[i], Elements(value)[i]) == if Elements(value)[i] == 0.0 then 0.0 else rel
    {
      RelativeOfScaled(Elements(value)[i], rel);
    }
  }

  /** `σ = |v| * rel` read back as a relative uncertainty is `rel`, or 0 at a zero value. */
  lemma RelativeOfScaled(v: real, rel: real)
    ensures RelativeOf(Abs(v) * rel, v) == if v == 0.0 then 0.0 else rel
  {
    if v != 0.0 {
      MulDivCancel(Abs(v), rel);
    }
  }

  /** One hundred with a relative uncertainty of 1% carries an uncertainty of 1 and reads back 1%. */
  lemma PercentExample(unit: Unit)
    ensures Construct(Scalar(100.0), unit, None, Some(0.01)).uncertainty == Scalar(1.0)
    ensures RelativeUncertainty(Construct(Scalar(100.0), unit, None, Some(0.01))) == Ok(Scalar(0.01))
  {
  }

  /**
   * `u.to(target)`: the value as `Quantity.to` converts it; the uncertainty
   * multiplied by the conversion factor, which is computed even on the
   * temperature path, so there the offset is not applied to it.
   */
  function To(u: UncertainQuantity, target: Unit): (r: Result<UncertainQuantity>)
    ensures r.Ok? <==> Compatible(u.unit, target) && target.scale != 0.0
    ensures r.Err? ==> r.error == (if Compatible(u.unit, target) then ZeroDivisionError else ValueError)
    ensures r.Ok? ==> Q.To(Nominal(u), target).Ok? && Nominal(r.value) == Q.To(Nominal(u), target).value
    ensures r.Ok? ==> SameShape(r.value.uncertainty, u.uncertainty)
    ensures r.Ok? ==> forall i :: 0 <= i < |Elements(u.uncertainty)| ==>
      Elements(r.value.uncertainty)[i] == Elements(u.uncertainty)[i] * ConversionFactor(u.unit, target).value
  {
    if !Compatible(u.unit, target) then Err(ValueError)
    else if target.scale == 0.0 then Err(ZeroDivisionError)
    else
      var c := Q.To(Nominal(u), target).value;
      Ok(UncertainQuantity(c.value, c.unit, Map(u.uncertainty, ScaleBy(ConversionFactor(u.unit, target).value))))
  }

  /** Converting to a compatible unit and back restores value and uncertainty. */
  lemma ToRoundTrip(u: UncertainQuantity, target: Unit)
    requires Compatible(u.unit, target) && u.unit.scale != 0.0 && target.scale != 0.0
    ensures To(u, target).Ok? && To(To(u, target).value, u.unit) == Ok(u)
  {
    Q.ToRoundTrip(Nominal(u), target);
    ConversionFactorInverse(u.unit, target);
    ScaleRoundTrip(u.uncertainty, ConversionFactor(u.unit, target).value, ConversionFactor(target, u.unit).value);
    var c := To(u, target).value;
    assert Compatible(target, u.unit);
    assert Nominal(c) == Q.To(Nominal(u), target).value;
  }

  /** Converting to its own unit changes nothing. */
  lemma ToSelf(u: UncertainQuantity)
    requires u.unit.scale != 0.0
    ensures To(u, u.unit) == Ok(u)
  {
    Q.ToSelf(Nominal(u));
    ConversionFactorSelf(u.unit);
    MapIdentity(u.uncertainty, ScaleBy(1.0));
  }

  function SumOfSquares(x: real, y: real): (r: real)
    ensures r >= 0.0
  {
    x * x + y * y
  }

  /** The uncertainties of independent terms combine in quadrature. */
  function Quadrature(sqrt: real -> real): (real, real) -> real {
    (x, y) => sqrt(SumOfSquares(x, y))
  }

  /**
   * `a + other` (with `f` Plus) and `a - other` (with `f` Minus): the value
   * is the base-class result. An uncertain operand, converted into `a`'s
   * unit, contributes its uncertainty in quadrature; a plain quantity or
   * number contributes none.
   */
  function Additive(a: UncertainQuantity, other: Operand, f: (real, real) -> real, sqrt: real -> real): (r: Result<UncertainQuantity>)
    ensures r.Ok? ==> r.value.unit == a.unit
    ensures r.Ok? ==> Q.Additive(Nominal(a), AsQuantityOperand(other), f) == Ok(Nominal(r.value))
    ensures other.Uncertain? && !Compatible(a.unit, other.u.unit) ==> r == Err(ValueError)
    ensures !other.Uncertain? ==> r.Ok? == Q.Additive(Nominal(a), AsQuantityOperand(other), f).Ok?
    ensures !other.Uncertain? && r.Ok? ==> r.value.uncertainty == a.uncertainty
    ensures other.Uncertain? && r.Ok? ==>
      To(other.u, a.unit).Ok? &&
      Zip(a.uncertainty, To(other.u, a.unit).value.uncertainty, Quadrature(sqrt)) == Ok(r.value.uncertainty)
  {
    match other
    case Uncertain(b) =>
      if !Compatible(a.unit, b.unit) then Err(ValueError)
      else
        var c :- To(b, a.unit);
        var v :- Zip(a.value, c.value, f);
        var s :- Zip(a.uncertainty, c.uncertainty, Quadrature(sqrt));
        Ok(UncertainQuantity(v, a.unit, s))
    case Certain(q) =>
      var r :- Q.Additive(Nominal(a), Q.OfQuantity(q), f);
      Ok(UncertainQuantity(r.value, r.unit, a.uncertainty))
    case Number(x) =>
      var r :- Q.Additive(Nominal(a), Q.Plain(x), f);
      Ok(UncertainQuantity(r.value, r.unit, a.uncertainty))
  }

  /** `a + other`: the base-class sum, with `σ` combined in quadrature against an uncertain operand and kept otherwise. */
  function Add(a: UncertainQuantity, other: Operand, sqrt: real -> real): (r: Result<UncertainQuantity>)
    ensures r.Ok? ==> r.value.unit == a.unit
    ensures r.Ok? ==> Q.Add(Nominal(a), AsQuantityOperand(other)) == Ok(Nominal(r.value))
    ensures other.Uncertain? && !Compatible(a.unit, other.u.unit) ==> r == Err(ValueError)
    ensures !other.Uncertain? ==> (r.Ok? <==> Q.Add(Nominal(a), AsQuantityOperand(other)).Ok?)
    ensures !other.Uncertain? && r.Ok? ==> r.value.uncertainty == a.uncertainty
    ensures other.Uncertain? && r.Ok? ==>
      To(other.u, a.unit).Ok? &&
      |Elements(r.value.uncertainty)| == Size(a.uncertainty, To(other.u, a.unit).value.uncertainty) &&
      forall i :: 0 <= i < Size(a.uncertainty, To(other.u, a.unit).value.uncertainty) ==>
        Elements(r.value.uncertainty)[i] ==
          sqrt(SumOfSquares(At(a.uncertainty, i), At(To(other.u, a.unit).value.uncertainty, i)))
  {
    Additive(a, other, Plus, sqrt)
  }

  /** `a - other`: the base-class difference; `σ` propagates exactly as for a sum. */
  function Sub(a: UncertainQuantity, other: Operand, sqrt: real -> real): (r: Result<UncertainQuantity>)
    ensures r.Ok? ==> r.value.unit == a.unit
    ensures r.Ok? ==> Q.Sub(Nominal(a), AsQuantityOperand(other)) == Ok(Nominal(r.value))
    ensures other.Uncertain? && !Compatible(a.unit, other.u.unit) ==> r == Err(ValueError)
    ensures !other.Uncertain? ==> (r.Ok? <==> Q.Sub(Nominal(a), AsQuantityOperand(other)).Ok?)
    ensures !other.Uncertain? && r.Ok? ==> r.value.uncertainty == a.uncertainty
    ensures other.Uncertain? && r.Ok? ==>
      To(other.u, a.unit).Ok? &&
      |Elements(r.value.uncertainty)| == Size(a.uncertainty, To(other.u, a.unit).value.uncertainty) &&
      forall i :: 0 <= i < Size(a.uncertainty, To(other.u, a.unit).value.uncertainty) ==>
        Elements(r.value.uncertainty)[i] ==
          sqrt(SumOfSquares(At(a.uncertainty, i), At(To(other.u, a.unit).value.uncertainty, i)))
  {
    Additive(a, other, Minus, sqrt)
  }

  /** A sum or difference of uncertain quantities has a non-negative uncertainty everywhere. */
  lemma AdditiveUncertaintyNonNegative(a: UncertainQuantity, b: UncertainQuantity, f: (real, real) -> real, sqrt: real -> real)
    requires IsSqrt(sqrt)
    ensures Additive(a, Uncertain(b), f, sqrt).Ok? ==>
      forall i :: 0 <= i < |Elements(Additive(a, Uncertain(b), f, sqrt).value.uncertainty)| ==>
        Elements(Additive(a, Uncertain(b), f, sqrt).value.uncertainty)[i] >= 0.0
  {
    if Additive(a, Uncertain(b), f, sqrt).Ok? {
      var c := To(b, a.unit).value;
      var s := Additive(a, Uncertain(b), f, sqrt).value.uncertainty;
      assert Zip(a.uncertainty, c.uncertainty, Quadrature(sqrt)) == Ok(s);
      assert |Elements(s)| == Size(a.uncertainty, c.uncertainty);
      forall i | 0 <= i < |Elements(s)|
        ensures Elements(s)[i] >= 0.0
      {
        var x, y := At(a.uncertainty, i), At(c.uncertainty, i);
        assert Elements(s)[i] == Quadrature(sqrt)(x, y) == sqrt(SumOfSquares(x, y));
      }
    }
  }

  /** 100 ± 1 plus 50 ± 0.5 in one unit is 150 with uncertainty √1.25, within 0.001 of 1.118. */
  lemma AdditionExample(unit: Unit, sqrt: real -> real)
    requires unit.scale != 0.0 && IsSqrt(sqrt)
    ensures var a := UncertainQuantity(Scalar(100.0), unit, Scalar(1.0));
            var b := UncertainQuantity(Scalar(50.0), unit, Scalar(0.5));
            Add(a, Uncertain(b), sqrt) == Ok(UncertainQuantity(Scalar(150.0), unit, Scalar(sqrt(1.25))))
    ensures 1.117 < sqrt(1.25) < 1.119
  {
    var a := UncertainQuantity(Scalar(100.0), unit, Scalar(1.0));
    var b := UncertainQuantity(Scalar(50.0), unit, Scalar(0.5));
    ToSelf(b);
    assert Zip(a.value, b.value, Plus) == Ok(Scalar(150.0));
    assert SumOfSquares(1.0, 0.5) == 1.25;
    assert Zip(a.uncertainty, b.uncertainty, Quadrature(sqrt)) == Ok(Scalar(sqrt(1.25)));
    SquareBetween(sqrt(1.25), 1.117, 1.119);
  }

  /**
   * `sqrt(ra² + rb²)` elementwise for the relative uncertainties `ra` and
   * `rb` of the two operands, the factor shared by `*` and `/`.
   */
  function CombinedRelative(a: UncertainQuantity, b: UncertainQuantity, sqrt: real -> real): (r: Result<Array>)
    ensures r.Ok? <==> RelativeUncertainty(a).Ok? && RelativeUncertainty(b).Ok? &&
                       Broadcastable(RelativeUncertainty(a).value, RelativeUncertainty(b).value)
    ensures r.Err? ==> r.error == ValueError
    ensures r.Ok? ==> r.value.Scalar? == (RelativeUncertainty(a).value.Scalar? && RelativeUncertainty(b).value.Scalar?)
    ensures r.Ok? ==> |Elements(r.value)| == Size(RelativeUncertainty(a).value, RelativeUncertainty(b).value)
    ensures r.Ok? ==> forall i :: 0 <= i < Size(RelativeUncertainty(a).value, RelativeUncertainty(b).value) ==>
      Elements(r.value)[i] == sqrt(SumOfSquares(At(RelativeUncertainty(a).value, i), At(RelativeUncertainty(b).value, i)))
  {
    var ra :- RelativeUncertainty(a);
    var rb :- RelativeUncertainty(b);
    Zip(ra, rb, Quadrature(sqrt))
  }

  /**
   * `a * other`: the value is the base-class product. With an uncertain
   * operand the relative uncertainties combine in quadrature and are
   * scaled by `|result|`; with a plain quantity or number `σ` is scaled
   * by the operand's absolute value.
   */
  function Mul(a: UncertainQuantity, other: Operand, sqrt: real -> real): (r: Result<UncertainQuantity>)
    ensures r.Ok? ==> Q.Mul(Nominal(a), AsQuantityOperand(other)) == Ok(Nominal(r.value))
    ensures !Broadcastable(a.value, Q.OperandValue(AsQuantityOperand(other))) ==> r == Err(ValueError)
    ensures r.Err? ==> r.error == ValueError
    ensures other.Uncertain? && r.Ok? ==>
      CombinedRelative(a, other.u, sqrt).Ok? &&
      Zip(Map(r.value.value, Abs), CombinedRelative(a, other.u, sqrt).value, Times) == Ok(r.value.uncertainty)
    ensures other.Certain? ==>
      (r.Ok? <==> Broadcastable(a.value, other.q.value) && Broadcastable(a.uncertainty, other.q.value))
    ensures other.Certain? && r.Ok? ==> Zip(a.uncertainty, Map(other.q.value, Abs), Times) == Ok(r.value.uncertainty)
    ensures other.Number? ==>
      (r.Ok? <==> Broadcastable(a.value, other.x) && Broadcastable(a.uncertainty, other.x))
    ensures other.Number? && r.Ok? ==> Zip(a.uncertainty, Map(other.x, Abs), Times) == Ok(r.value.uncertainty)
  {
    match other
    case Uncertain(b) =>
      var p :- Q.Mul(Nominal(a), Q.OfQuantity(Nominal(b)));
      var rr :- CombinedRelative(a, b, sqrt);
      var s :- Zip(Map(p.value, Abs), rr, Times);
      Ok(UncertainQuantity(p.value, p.unit, s))
    case Certain(q) =>
      var p :- Q.Mul(Nominal(a), Q.OfQuantity(q));
      var s :- Zip(a.uncertainty, Map(q.value, Abs), Times);
      Ok(UncertainQuantity(p.value, p.unit, s))
    case Number(x) =>
      var p :- Q.Mul(Nominal(a), Q.Plain(x));
      var s :- Zip(a.uncertainty, Map(x, Abs), Times);
      Ok(UncertainQuantity(p.value, p.unit, s))
  }

  /**
   * `a / other`: the value is the base-class quotient. With an uncertain
   * operand the relative uncertainties combine as for a product; with a
   * plain quantity or number `σ` is divided by the operand's absolute value.
   */
  function Div(a: UncertainQuantity, other: Operand, sqrt: real -> real): (r: Result<UncertainQuantity>)
    ensures r.Ok? ==> Q.Div(Nominal(a), AsQuantityOperand(other)) == Ok(Nominal(r.value))
    ensures !Broadcastable(a.value, Q.OperandValue(AsQuantityOperand(other))) ==> r == Err(ValueError)
    ensures other.Uncertain? && r.Ok? ==>
      CombinedRelative(a, other.u, sqrt).Ok? &&
      Zip(Map(r.value.value, Abs), CombinedRelative(a, other.u, sqrt).value, Times) == Ok(r.value.uncertainty)
    ensures other.Certain? ==>
      (r.Ok? <==> Q.Div(Nominal(a), Q.OfQuantity(other.q)).Ok? && Broadcastable(a.uncertainty, other.q.value))
    ensures other.Certain? && r.Ok? ==> Zip(a.uncertainty, Map(other.q.value, Abs), Over) == Ok(r.value.uncertainty)
    ensures other.Number? ==>
      (r.Ok? <==> Q.Div(Nominal(a), Q.Plain(other.x)).Ok? && Broadcastable(a.uncertainty, other.x))
    ensures other.Number? && r.Ok? ==> Zip(a.uncertainty, Map(other.x, Abs), Over) == Ok(r.value.uncertainty)
  {
    match other
    case Uncertain(b) =>
      var p :- Q.Div(Nominal(a), Q.OfQuantity(Nominal(b)));
      var rr :- CombinedRelative(a, b, sqrt);
      var s :- Zip(Map(p.value, Abs), rr, Times);
      Ok(UncertainQuantity(p.value, p.unit, s))
    case Certain(q) =>
      var p :- Q.Div(Nominal(a), Q.OfQuantity(q));
      var s :- Zip(a.uncertainty, Map(q.value, Abs), Over);
      Ok(UncertainQuantity(p.value, p.unit, s))
    case Number(x) =>
      var p :- Q.Div(Nominal(a), Q.Plain(x));
      var s :- Zip(a.uncertainty, Map(x, Abs), Over);
      Ok(UncertainQuantity(p.value, p.unit, s))
  }

  /** `a ** n`: the value is the base-class power and `σ = |result| * |n| * σ / |value|`. */
  function Pow(a: UncertainQuantity, n: int): (r: Result<UncertainQuantity>)
    ensures r.Ok? ==> Q.Pow(Nominal(a), n) == Ok(Nominal(r.value))
    ensures Q.Pow(Nominal(a), n).Ok? && SameShape(a.uncertainty, a.value) ==> r.Ok?
    ensures r.Ok? ==>
      RelativeUncertainty(a).Ok? &&
      Zip(Map(r.value.value, Abs), Zip(Scalar(Abs(n as real)), RelativeUncertainty(a).value, Times).value, Times)
        == Ok(r.value.uncertainty)
  {
    var p :- Q.Pow(Nominal(a), n);
    var rel :- RelativeUncertainty(a);
    var scaled := Zip(Scalar(Abs(n as real)), rel, Times).value;
    var s :- Zip(Map(p.value, Abs), scaled, Times);
    Ok(UncertainQuantity(p.value, p.unit, s))
  }

  /** Scaling by a number scales the uncertainty by its absolute value: 100 ± 0.5 times 2 is 200 ± 1. */
  lemma MulByNumber(a: UncertainQuantity, k: real, sqrt: real -> real)
    requires SameShape(a.uncertainty, a.value)
    ensures Mul(a, Number(Scalar(k)), sqrt).Ok?
    ensures var r := Mul(a, Number(Scalar(k)), sqrt).value;
            r.unit == a.unit && SameShape(r.value, a.value) && SameShape(r.uncertainty, a.uncertainty) &&
            forall i :: 0 <= i < |Elements(a.value)| ==>
              Elements(r.value)[i] == Elements(a.value)[i] * k &&
              Elements(r.uncertainty)[i] == Elements(a.uncertainty)[i] * Abs(k)
  {
    var r := Mul(a, Number(Scalar(k)), sqrt).value;
    assert Map(Scalar(k), Abs) == Scalar(Abs(k));
  }

  /** Dividing by a nonzero number divides the uncertainty by its absolute value. */
  lemma DivByNumber(a: UncertainQuantity, k: real, sqrt: real -> real)
    requires SameShape(a.uncertainty, a.value) && k != 0.0
    ensures Div(a, Number(Scalar(k)), sqrt).Ok?
    ensures var r := Div(a, Number(Scalar(k)), sqrt).value;
            r.unit == a.unit && SameShape(r.value, a.value) && SameShape(r.uncertainty, a.uncertainty) &&
            forall i :: 0 <= i < |Elements(a.value)| ==>
              Elements(r.value)[i] == Elements(a.value)[i] / k &&
              Elements(r.uncertainty)[i] == Elements(a.uncertainty)[i] / Abs(k)
  {
    assert !ZeroDivisor(a.value, Scalar(k));
    assert Map(Scalar(k), Abs) == Scalar(Abs(k));
  }

  /** `|x^n| * |n| * σ / |x|`, the first-order uncertainty of a power, given `p = x^n`. */
  function PowerUncertainty(p: real, x: real, sx: real, n: int): real {
    Times(Abs(p), Times(Abs(n as real), RelativeOf(sx, x)))
  }

  /** For a scalar, a power carries the first-order power uncertainty (0 at a zero value). */
  lemma PowScalar(x: real, sx: real, u: Unit, n: int)
    requires x != 0.0 && (n >= 0 || u.scale != 0.0)
    ensures Pow(UncertainQuantity(Scalar(x), u, Scalar(sx)), n) ==
      Ok(UncertainQuantity(Scalar(IntPow(x, n)), Power(u, n).value, Scalar(PowerUncertainty(IntPow(x, n), x, sx, n))))
  {
    var a := UncertainQuantity(Scalar(x), u, Scalar(sx));
    assert Q.Pow(Nominal(a), n) == Ok(Q.Quantity(Scalar(IntPow(x, n)), Power(u, n).value));
    PowScalarFrom(a, n, IntPow(x, n), Power(u, n).value);
  }

  lemma PowScalarFrom(a: UncertainQuantity, n: int, p: real, unit: Unit)
    requires a.value.Scalar? && a.uncertainty.Scalar?
    requires Q.Pow(Nominal(a), n) == Ok(Q.Quantity(Scalar(p), unit))
    ensures Pow(a, n) == Ok(UncertainQuantity(Scalar(p), unit, Scalar(PowerUncertainty(p, a.value.x, a.uncertainty.x, n))))
  {
    var x, sx := a.value.x, a.uncertainty.x;
    ZipScalars(sx, x, RelativeOf);
    assert RelativeUncertainty(a) == Ok(Scalar(RelativeOf(sx, x)));
    var rel := Times(Abs(n as real), RelativeOf(sx, x));
    ZipScalars(Abs(n as real), RelativeOf(sx, x), Times);
    assert Map(Scalar(p), Abs) == Scalar(Abs(p));
    ZipScalars(Abs(p), rel, Times);
    assert Zip(Scalar(Abs(n as real)), Scalar(RelativeOf(sx, x)), Times).value == Scalar(rel);
    assert Zip(Map(Scalar(p), Abs), Scalar(rel), Times) == Ok(Scalar(PowerUncertainty(p, x, sx, n)));
  }

  lemma DocumentedScaling(unit: Unit, sqrt: real -> real)
    ensures Mul(UncertainQuantity(Scalar(100.0), unit, Scalar(0.5)), Number(Scalar(2.0)), sqrt)
         == Ok(UncertainQuantity(Scalar(200.0), unit, Scalar(1.0)))
  {
  }

  /** `|x y| * sqrt((σx/|x|)² + (σy/|y|)²)`, the first-order uncertainty of a product (a ratio at a zero value counting 0). */
  function ProductUncertainty(x: real, sx: real, y: real, sy: real, sqrt: real -> real): real {
    Abs(x * y) * sqrt(SumOfSquares(RelativeOf(sx, x), RelativeOf(sy, y)))
  }

  /** `|x / y| * sqrt((σx/|x|)² + (σy/|y|)²)`, the first-order uncertainty of a quotient. */
  function QuotientUncertainty(x: real, sx: real, y: real, sy: real, sqrt: real -> real): real
    requires y != 0.0
  {
    Abs(x / y) * sqrt(SumOfSquares(RelativeOf(sx, x), RelativeOf(sy, y)))
  }

  /** `|x * y|` times the combined relative uncertainty is the product uncertainty. */
  lemma ProductUncertaintyFrom(x: real, sx: real, y: real, sy: real, sqrt: real -> real, p: real, c: real, s: real)
    requires p == x * y
    requires c == sqrt(SumOfSquares(RelativeOf(sx, x), RelativeOf(sy, y)))
    requires s == Abs(p) * c
    ensures s == ProductUncertainty(x, sx, y, sy, sqrt)
  {
  }

  /** `|x / y|` times the combined relative uncertainty is the quotient uncertainty. */
  lemma QuotientUncertaintyFrom(x: real, sx: real, y: real, sy: real, sqrt: real -> real, p: real, c: real, s: real)
    requires y != 0.0
    requires p == x / y
    requires c == sqrt(SumOfSquares(RelativeOf(sx, x), RelativeOf(sy, y)))
    requires s == Abs(p) * c
    ensures s == QuotientUncertainty(x, sx, y, sy, sqrt)
  {
  }

  /** For two scalars with nonzero values, the product carries the first-order product uncertainty. */
  lemma MulScalars(x: real, sx: real, ux: Unit, y: real, sy: real, uy: Unit, sqrt: real -> real)
    requires x != 0.0 && y != 0.0
    ensures Mul(UncertainQuantity(Scalar(x), ux, Scalar(sx)), Uncertain(UncertainQuantity(Scalar(y), uy, Scalar(sy))), sqrt) ==
      Ok(UncertainQuantity(Scalar(x * y), Product(ux, uy), Scalar(ProductUncertainty(x, sx, y, sy, sqrt))))
  {
    var a := UncertainQuantity(Scalar(x), ux, Scalar(sx));
    var b := UncertainQuantity(Scalar(y), uy, Scalar(sy));
    var rx := sx / Abs(x);
    var ry := sy / Abs(y);
    var t := sqrt(SumOfSquares(rx, ry));
    ZipScalars(x, y, Times);
    assert Q.Mul(Nominal(a), Q.OfQuantity(Nominal(b))) == Ok(Q.Quantity(Scalar(x * y), Product(ux, uy)));
    assert RelativeUncertainty(a) == Ok(Scalar(rx));
    assert RelativeUncertainty(b) == Ok(Scalar(ry));
    ZipScalars(rx, ry, Quadrature(sqrt));
    assert Quadrature(sqrt)(rx, ry) == t;
    assert Map(Scalar(x * y), Abs) == Scalar(Abs(x * y));
    ZipScalars(Abs(x * y), t, Times);
    assert Times(Abs(x * y), t) == Abs(x * y) * t;
    assert Mul(a, Uncertain(b), sqrt) == Ok(UncertainQuantity(Scalar(x * y), Product(ux, uy), Scalar(Abs(x * y) * t)));
    assert ProductUncertainty(x, sx, y, sy, sqrt) == Abs(x * y) * t;
  }

  /**
   * 10 ± 0.1 times 5 ± 0.05 is 50 with uncertainty √0.5 ≈ 0.707, which is
   * more than 0.1 away from 0.559, the value the library's own test expects.
   */
  lemma MultiplicationExample(ux: Unit, uy: Unit, sqrt: real -> real)
    requires IsSqrt(sqrt)
    ensures var a := UncertainQuantity(Scalar(10.0), ux, Scalar(0.1));
            var b := UncertainQuantity(Scalar(5.0), uy, Scalar(0.05));
            var r := Mul(a, Uncertain(b), sqrt);
            r.Ok? && r.value.value == Scalar(50.0) && r.value.uncertainty.Scalar? &&
            r.value.uncertainty.x * r.value.uncertainty.x == 0.5 &&
            r.value.uncertainty.x - 0.559 > 0.1
  {
    MulScalars(10.0, 0.1, ux, 5.0, 0.05, uy, sqrt);
    ExampleProductUncertainty(sqrt);
  }

  /** The arithmetic of the example: `|10 * 5| * sqrt(0.01² + 0.01²)` squares to 0.5 and lies between 0.7 and 0.71. */
  lemma ExampleProductUncertainty(sqrt: real -> real)
    requires IsSqrt(sqrt)
    ensures var s := ProductUncertainty(10.0, 0.1, 5.0, 0.05, sqrt); s * s == 0.5 && s - 0.559 > 0.1
  {
    var t := sqrt(0.0002);
    assert SumOfSquares(RelativeOf(0.1, 10.0), RelativeOf(0.05, 5.0)) == 0.0002;
    assert t >= 0.0 && t * t == 0.0002;
    var s := 50.0 * t;
    assert s * s == 2500.0 * (t * t);
    SquareBetween(s, 0.7, 0.71);
  }

  // ------------------------------------------------ propagation on arrays

  /** With value and uncertainty of one shape, the relative uncertainty has that shape too. */
  lemma RelativeSameShape(u: UncertainQuantity)
    requires SameShape(u.uncertainty, u.value)
    ensures RelativeUncertainty(u).Ok? && SameShape(RelativeUncertainty(u).value, u.value)
    ensures forall i :: 0 <= i < |Elements(u.value)| ==>
      Elements(RelativeUncertainty(u).value)[i] == RelativeOf(Elements(u.uncertainty)[i], Elements(u.value)[i])
  {
    SameShapeAt(u.uncertainty, u.value);
  }

  /** On operands of one shape, the combined relative uncertainty pairs the elements up. */
  lemma CombinedSameShape(a: UncertainQuantity, b: UncertainQuantity, sqrt: real -> real)
    requires SameShape(a.uncertainty, a.value) && SameShape(b.value, a.value) && SameShape(b.uncertainty, a.value)
    ensures CombinedRelative(a, b, sqrt).Ok? && SameShape(CombinedRelative(a, b, sqrt).value, a.value)
    ensures forall i :: 0 <= i < |Elements(a.value)| ==>
      Elements(CombinedRelative(a, b, sqrt).value)[i] ==
        sqrt(SumOfSquares(RelativeOf(Elements(a.uncertainty)[i], Elements(a.value)[i]),
                          RelativeOf(Elements(b.uncertainty)[i], Elements(b.value)[i])))
  {
    RelativeSameShape(a);
    RelativeSameShape(b);
    var ra, rb := RelativeUncertainty(a).value, RelativeUncertainty(b).value;
    SameShapeAt(ra, rb);
  }

  /**
   * A product of uncertain quantities of one shape: each element is the
   * product of the values, with the first-order product uncertainty.
   */
  lemma MulUncertainElements(a: UncertainQuantity, b: UncertainQuantity, sqrt: real -> real)
    requires SameShape(a.uncertainty, a.value) && SameShape(b.value, a.value) && SameShape(b.uncertainty, a.value)
    ensures Mul(a, Uncertain(b), sqrt).Ok?
    ensures SameShape(Mul(a, Uncertain(b), sqrt).value.uncertainty, a.value)
    ensures forall i :: 0 <= i < |Elements(a.value)| ==>
      Elements(Mul(a, Uncertain(b), sqrt).value.value)[i] == Elements(a.value)[i] * Elements(b.value)[i]
    ensures forall i :: 0 <= i < |Elements(a.value)| ==>
      Elements(Mul(a, Uncertain(b), sqrt).value.uncertainty)[i] ==
        ProductUncertainty(Elements(a.value)[i], Elements(a.uncertainty)[i], Elements(b.value)[i], Elements(b.uncertainty)[i], sqrt)
  {
    SameShapeAt(a.value, b.value);
    CombinedSameShape(a, b, sqrt);
    var p := Q.Mul(Nominal(a), Q.OfQuantity(Nominal(b))).value;
    ZipSameShape(Map(p.value, Abs), CombinedRelative(a, b, sqrt).value, Times);
    assert Mul(a, Uncertain(b), sqrt).Ok?;
    var r := Mul(a, Uncertain(b), sqrt).value;
    ProductValuesFrom(a, b, r);
    ProductUncertaintiesFrom(a.value, a.uncertainty, b.value, b.uncertainty, r.value, CombinedRelative(a, b, sqrt).value, r.uncertainty, sqrt);
  }

  /** The values of a product of one shape, read off a result in hand. */
  lemma ProductValuesFrom(a: UncertainQuantity, b: UncertainQuantity, r: UncertainQuantity)
    requires SameShape(b.value, a.value)
    requires Q.Mul(Nominal(a), Q.OfQuantity(Nominal(b))) == Ok(Nominal(r))
    ensures SameShape(r.value, a.value)
    ensures forall i :: 0 <= i < |Elements(a.value)| ==> Elements(r.value)[i] == Elements(a.value)[i] * Elements(b.value)[i]
  {
    SameShapeAt(a.value, b.value);
  }

  /** The uncertainty of a product of one shape, element by element, from the arrays involved. */
  lemma ProductUncertaintiesFrom(av: Array, au: Array, bv: Array, bu: Array, rv: Array, rr: Array, ru: Array, sqrt: real -> real)
    requires SameShape(au, av) && SameShape(bv, av) && SameShape(bu, av) && SameShape(rv, av) && SameShape(rr, av)
    requires forall i :: 0 <= i < |Elements(av)| ==> Elements(rv)[i] == Elements(av)[i] * Elements(bv)[i]
    requires forall i :: 0 <= i < |Elements(av)| ==>
      Elements(rr)[i] == sqrt(SumOfSquares(RelativeOf(Elements(au)[i], Elements(av)[i]), RelativeOf(Elements(bu)[i], Elements(bv)[i])))
    requires Zip(Map(rv, Abs), rr, Times) == Ok(ru)
    ensures SameShape(ru, av)
    ensures forall i :: 0 <= i < |Elements(av)| ==>
      Elements(ru)[i] == ProductUncertainty(Elements(av)[i], Elements(au)[i], Elements(bv)[i], Elements(bu)[i], sqrt)
  {
    ZipSameShape(Map(rv, Abs), rr, Times);
    forall i | 0 <= i < |Elements(av)|
      ensures Elements(ru)[i] == ProductUncertainty(Elements(av)[i], Elements(au)[i], Elements(bv)[i], Elements(bu)[i], sqrt)
    {
      ProductElementAt(av, au, bv, bu, rv, rr, ru, sqrt, i);
    }
  }

  /** Element `i` of the uncertainty of a product of one shape, from the arrays involved. */
  lemma ProductElementAt(av: Array, au: Array, bv: Array, bu: Array, rv: Array, rr: Array, ru: Array, sqrt: real -> real, i: int)
    requires SameShape(au, av) && SameShape(bv, av) && SameShape(bu, av)
    requires SameShape(rv, rr) && SameShape(rr, av) && 0 <= i < |Elements(av)|
    requires Elements(rv)[i] == Elements(av)[i] * Elements(bv)[i]
    requires Elements(rr)[i] == sqrt(SumOfSquares(RelativeOf(Elements(au)[i], Elements(av)[i]), RelativeOf(Elements(bu)[i], Elements(bv)[i])))
    requires Zip(Map(rv, Abs), rr, Times) == Ok(ru)
    ensures Elements(ru)[i] == ProductUncertainty(Elements(av)[i], Elements(au)[i], Elements(bv)[i], Elements(bu)[i], sqrt)
  {
    AbsTimesAt(rv, rr, ru, i);
    ProductUncertaintyFrom(Elements(av)[i], Elements(au)[i], Elements(bv)[i], Elements(bu)[i], sqrt,
      Elements(rv)[i], Elements(rr)[i], Elements(ru)[i]);
  }

  /** A product with a plain quantity or number of the same shape: `σ * |y|` element by element. */
  lemma MulCertainElements(a: UncertainQuantity, other: Operand, sqrt: real -> real)
    requires !other.Uncertain? && SameShape(a.uncertainty, a.value)
    requires SameShape(Q.OperandValue(AsQuantityOperand(other)), a.value)
    ensures Mul(a, other, sqrt).Ok?
    ensures SameShape(Mul(a, other, sqrt).value.uncertainty, a.value)
    ensures forall i :: 0 <= i < |Elements(a.value)| ==>
      var y := Elements(Q.OperandValue(AsQuantityOperand(other)))[i];
      Elements(Mul(a, other, sqrt).value.value)[i] == Elements(a.value)[i] * y &&
      Elements(Mul(a, other, sqrt).value.uncertainty)[i] == Elements(a.uncertainty)[i] * Abs(y)
  {
    var v := Q.OperandValue(AsQuantityOperand(other));
    assert v == (if other.Certain? then other.q.value else other.x);
    SameShapeAt(a.value, v);
    SameShapeAt(a.uncertainty, v);
    ZipSameShape(a.uncertainty, Map(v, Abs), Times);
    assert Mul(a, other, sqrt).Ok?;
    var r := Mul(a, other, sqrt).value;
    WithAbsolute(a.uncertainty, v, Times, r.uncertainty);
    var p := Q.Mul(Nominal(a), AsQuantityOperand(other)).value;
    assert Nominal(r) == p;
  }

  /** A quotient of uncertain quantities of one shape, with no zero divisor and a divisor unit of non-zero scale. */
  lemma DivUncertainElements(a: UncertainQuantity, b: UncertainQuantity, sqrt: real -> real)
    requires SameShape(a.uncertainty, a.value) && SameShape(b.value, a.value) && SameShape(b.uncertainty, a.value)
    requires b.unit.scale != 0.0 && 0.0 !in Elements(b.value)
    ensures Div(a, Uncertain(b), sqrt).Ok?
    ensures SameShape(Div(a, Uncertain(b), sqrt).value.uncertainty, a.value)
    ensures forall i :: 0 <= i < |Elements(a.value)| ==>
      Elements(Div(a, Uncertain(b), sqrt).value.value)[i] == Elements(a.value)[i] / Elements(b.value)[i]
    ensures forall i :: 0 <= i < |Elements(a.value)| ==>
      Elements(Div(a, Uncertain(b), sqrt).value.uncertainty)[i] ==
        QuotientUncertainty(Elements(a.value)[i], Elements(a.uncertainty)[i], Elements(b.value)[i], Elements(b.uncertainty)[i], sqrt)
  {
    SameShapeAt(a.value, b.value);
    assert !ZeroDivisor(a.value, b.value);
    CombinedSameShape(a, b, sqrt);
    var p := Q.Div(Nominal(a), Q.OfQuantity(Nominal(b))).value;
    ZipSameShape(Map(p.value, Abs), CombinedRelative(a, b, sqrt).value, Times);
    assert Div(a, Uncertain(b), sqrt).Ok?;
    var r := Div(a, Uncertain(b), sqrt).value;
    QuotientValuesFrom(a, b, r);
    QuotientUncertaintiesFrom(a.value, a.uncertainty, b.value, b.uncertainty, r.value, CombinedRelative(a, b, sqrt).value, r.uncertainty, sqrt);
  }

  /** The values of a quotient of one shape, read off a result in hand. */
  lemma QuotientValuesFrom(a: UncertainQuantity, b: UncertainQuantity, r: UncertainQuantity)
    requires SameShape(b.value, a.value)
    requires 0.0 !in Elements(b.value)
    requires Q.Div(Nominal(a), Q.OfQuantity(Nominal(b))) == Ok(Nominal(r))
    ensures SameShape(r.value, a.value)
    ensures forall i :: 0 <= i < |Elements(a.value)| ==> Elements(r.value)[i] == Elements(a.value)[i] / Elements(b.value)[i]
  {
    SameShapeAt(a.value, b.value);
  }

  /** The uncertainty of a quotient of one shape, element by element, from the arrays involved. */
  lemma QuotientUncertaintiesFrom(av: Array, au: Array, bv: Array, bu: Array, rv: Array, rr: Array, ru: Array, sqrt: real -> real)
    requires SameShape(au, av) && SameShape(bv, av) && SameShape(bu, av) && SameShape(rv, av) && SameShape(rr, av)
    requires 0.0 !in Elements(bv)
    requires forall i :: 0 <= i < |Elements(av)| ==> Elements(rv)[i] == Elements(av)[i] / Elements(bv)[i]
    requires forall i :: 0 <= i < |Elements(av)| ==>
      Elements(rr)[i] == sqrt(SumOfSquares(RelativeOf(Elements(au)[i], Elements(av)[i]), RelativeOf(Elements(bu)[i], Elements(bv)[i])))
    requires Zip(Map(rv, Abs), rr, Times) == Ok(ru)
    ensures SameShape(ru, av)
    ensures forall i :: 0 <= i < |Elements(av)| ==>
      Elements(ru)[i] == QuotientUncertainty(Elements(av)[i], Elements(au)[i], Elements(bv)[i], Elements(bu)[i], sqrt)
  {
    ZipSameShape(Map(rv, Abs), rr, Times);
    forall i | 0 <= i < |Elements(av)|
      ensures Elements(ru)[i] == QuotientUncertainty(Elements(av)[i], Elements(au)[i], Elements(bv)[i], Elements(bu)[i], sqrt)
    {
      assert Elements(bv)[i] in Elements(bv);
      QuotientElementAt(av, au, bv, bu, rv, rr, ru, sqrt, i);
    }
  }

  /** Element `i` of the uncertainty of a quotient of one shape, from the arrays involved. */
  lemma QuotientElementAt(av: Array, au: Array, bv: Array, bu: Array, rv: Array, rr: Array, ru: Array, sqrt: real -> real, i: int)
    requires SameShape(au, av) && SameShape(bv, av) && SameShape(bu, av)
    requires SameShape(rv, rr) && SameShape(rr, av) && 0 <= i < |Elements(av)|
    requires Elements(bv)[i] != 0.0
    requires Elements(rv)[i] == Elements(av)[i] / Elements(bv)[i]
    requires Elements(rr)[i] == sqrt(SumOfSquares(RelativeOf(Elements(au)[i], Elements(av)[i]), RelativeOf(Elements(bu)[i], Elements(bv)[i])))
    requires Zip(Map(rv, Abs), rr, Times) == Ok(ru)
    ensures Elements(ru)[i] == QuotientUncertainty(Elements(av)[i], Elements(au)[i], Elements(bv)[i], Elements(bu)[i], sqrt)
  {
    AbsTimesAt(rv, rr, ru, i);
    QuotientUncertaintyFrom(Elements(av)[i], Elements(au)[i], Elements(bv)[i], Elements(bu)[i], sqrt,
      Elements(rv)[i], Elements(rr)[i], Elements(ru)[i]);
  }

  /** A quotient by a plain quantity or number of the same shape with no zero: `σ / |y|` element by element. */
  lemma DivCertainElements(a: UncertainQuantity, other: Operand, sqrt: real -> real)
    requires !other.Uncertain? && SameShape(a.uncertainty, a.value)
    requires SameShape(Q.OperandValue(AsQuantityOperand(other)), a.value)
    requires 0.0 !in Elements(Q.OperandValue(AsQuantityOperand(other)))
    requires other.Certain? ==> other.q.unit.scale != 0.0
    ensures Div(a, other, sqrt).Ok?
    ensures SameShape(Div(a, other, sqrt).value.uncertainty, a.value)
    ensures forall i :: 0 <= i < |Elements(a.value)| ==>
      var y := Elements(Q.OperandValue(AsQuantityOperand(other)))[i];
      y != 0.0 &&
      Elements(Div(a, other, sqrt).value.value)[i] == Elements(a.value)[i] / y &&
      Elements(Div(a, other, sqrt).value.uncertainty)[i] == Elements(a.uncertainty)[i] / Abs(y)
  {
    var v := Q.OperandValue(AsQuantityOperand(other));
    SameShapeAt(a.value, v);
    SameShapeAt(a.uncertainty, v);
    assert !ZeroDivisor(a.value, v);
    var m := Map(v, Abs);
    ZipSameShape(a.uncertainty, m, Over);
    assert Div(a, other, sqrt).value.uncertainty == Zip(a.uncertainty, m, Over).value;
    forall i | 0 <= i < |Elements(a.value)|
      ensures Elements(v)[i] != 0.0 && Elements(m)[i] == Abs(Elements(v)[i]) != 0.0
    {
    }
  }

  /** A power of an uncertain quantity whose uncertainty has the value's shape: the power uncertainty element by element. */
  lemma PowElements(a: UncertainQuantity, n: int)
    requires SameShape(a.uncertainty, a.value)
    requires n >= 0 || (a.unit.scale != 0.0 && 0.0 !in Elements(a.value))
    ensures Pow(a, n).Ok?
    ensures SameShape(Pow(a, n).value.uncertainty, a.value)
    ensures forall i :: 0 <= i < |Elements(a.value)| ==>
      (n >= 0 || Elements(a.value)[i] != 0.0) &&
      Elements(Pow(a, n).value.value)[i] == IntPow(Elements(a.value)[i], n) &&
      Elements(Pow(a, n).value.uncertainty)[i] ==
        PowerUncertainty(IntPow(Elements(a.value)[i], n), Elements(a.value)[i], Elements(a.uncertainty)[i], n)
  {
    var p := Q.Pow(Nominal(a), n).value.value;
    RelativeSameShape(a);
    var rel := RelativeUncertainty(a).value;
    ZipScalarLeft(Abs(n as real), rel, Times);
    var scaled := Zip(Scalar(Abs(n as real)), rel, Times).value;
    var m := Map(p, Abs);
    ZipSameShape(m, scaled, Times);
    var r := Pow(a, n).value;
    assert r.uncertainty == Zip(m, scaled, Times).value;
    forall i | 0 <= i < |Elements(a.value)|
      ensures n >= 0 || Elements(a.value)[i] != 0.0
      ensures Elements(r.value)[i] == IntPow(Elements(a.value)[i], n)
      ensures Elements(r.uncertainty)[i] ==
        PowerUncertainty(IntPow(Elements(a.value)[i], n), Elements(a.value)[i], Elements(a.uncertainty)[i], n)
    {
      assert n < 0 ==> Elements(a.value)[i] in Elements(a.value);
      assert Elements(p)[i] == Q.PowerOf(n)(Elements(a.value)[i]);
      assert Elements(m)[i] == Abs(Elements(p)[i]);
    }
  }

  /**
   * Propagation never makes an uncertainty negative: a product, quotient
   * or power of an uncertain quantity whose uncertainty is non-negative
   * has a non-negative uncertainty, whatever the shapes and the operand.
   */
  lemma PropagationNonNegative(a: UncertainQuantity, other: Operand, n: int, sqrt: real -> real)
    requires IsSqrt(sqrt) && NonNegative(a.uncertainty)
    ensures Mul(a, other, sqrt).Ok? ==> NonNegative(Mul(a, other, sqrt).value.uncertainty)
    ensures Div(a, other, sqrt).Ok? ==> NonNegative(Div(a, other, sqrt).value.uncertainty)
    ensures Pow(a, n).Ok? ==> NonNegative(Pow(a, n).value.uncertainty)
  {
    if Mul(a, other, sqrt).Ok? {
      ProductKeepsNonNegative(a, other, sqrt);
    }
    if Div(a, other, sqrt).Ok? {
      QuotientKeepsNonNegative(a, other, sqrt);
    }
    if Pow(a, n).Ok? {
      PowerKeepsNonNegative(a, n);
    }
  }

  lemma CombinedNonNegative(a: UncertainQuantity, b: UncertainQuantity, sqrt: real -> real)
    requires IsSqrt(sqrt) && CombinedRelative(a, b, sqrt).Ok?
    ensures NonNegative(CombinedRelative(a, b, sqrt).value)
  {
  }

  lemma ProductKeepsNonNegative(a: UncertainQuantity, other: Operand, sqrt: real -> real)
    requires IsSqrt(sqrt) && NonNegative(a.uncertainty) && Mul(a, other, sqrt).Ok?
    ensures NonNegative(Mul(a, other, sqrt).value.uncertainty)
  {
    var r := Mul(a, other, sqrt).value;
    match other
    case Uncertain(b) =>
      CombinedNonNegative(a, b, sqrt);
      AbsNonNegative(r.value);
      TimesNonNegative(Map(r.value, Abs), CombinedRelative(a, b, sqrt).value);
    case Certain(q) =>
      AbsNonNegative(q.value);
      TimesNonNegative(a.uncertainty, Map(q.value, Abs));
    case Number(x) =>
      AbsNonNegative(x);
      TimesNonNegative(a.uncertainty, Map(x, Abs));
  }

  lemma QuotientKeepsNonNegative(a: UncertainQuantity, other: Operand, sqrt: real -> real)
    requires IsSqrt(sqrt) && NonNegative(a.uncertainty) && Div(a, other, sqrt).Ok?
    ensures NonNegative(Div(a, other, sqrt).value.uncertainty)
  {
    var r := Div(a, other, sqrt).value;
    match other
    case Uncertain(b) =>
      CombinedNonNegative(a, b, sqrt);
      AbsNonNegative(r.value);
      TimesNonNegative(Map(r.value, Abs), CombinedRelative(a, b, sqrt).value);
    case Certain(q) =>
      AbsNonNegative(q.value);
      OverNonNegative(a.uncertainty, Map(q.value, Abs));
    case Number(x) =>
      AbsNonNegative(x);
      OverNonNegative(a.uncertainty, Map(x, Abs));
  }

  lemma PowerKeepsNonNegative(a: UncertainQuantity, n: int)
    requires NonNegative(a.uncertainty) && Pow(a, n).Ok?
    ensures NonNegative(Pow(a, n).value.uncertainty)
  {
    var r := Pow(a, n).value;
    var rel := RelativeUncertainty(a).value;
    assert NonNegative(rel) by {
      forall i | 0 <= i < |Elements(rel)|
        ensures Elements(rel)[i] >= 0.0
      {
        AtNonNegative(a.uncertainty, i);
        DivNonNegative(At(a.uncertainty, i), Abs(At(a.value, i)));
      }
    }
    assert NonNegative(Scalar(Abs(n as real)));
    TimesNonNegative(Scalar(Abs(n as real)), rel);
    AbsNonNegative(r.value);
    TimesNonNegative(Map(r.value, Abs), Zip(Scalar(Abs(n as real)), rel, Times).value);
  }
}
