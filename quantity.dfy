/**
 * `Quantity`: a numpy value paired with a Unit. Conversion (`to`) with its
 * dimensional check, its linear path and its affine temperature path; the
 * arithmetic, in which the left operand's unit wins; the comparisons;
 * indexing; and `__setitem__`, the one operation that writes in place.
 */
module Quantities {
  import opened Wrappers
  import opened RealMath
  import Dimensions
  import opened UnitTables
  import opened Units
  import opened Arrays

  datatype Quantity = Quantity(value: Array, unit: Unit)

  /** The right operand of an operator: another quantity, or a plain number or array. */
  datatype Operand = OfQuantity(q: Quantity) | Plain(x: Array)

  function OperandValue(other: Operand): Array {
    match other
    case OfQuantity(o) => o.value
    case Plain(x) => x
  }

  // ------------------------------------------------------------ conversion

  const CelsiusNames: seq<string> := ["celsius", "C", "degC"]
  const FahrenheitNames: seq<string> := ["fahrenheit", "F", "degF"]

  /**
   * `Unit._is_temperature_unit`, which unit.py does not define: taken to
   * hold for a unit of a single component named in the temperature list.
   */
  predicate IsTemperatureUnit(u: Unit) {
    |u.components| == 1 && u.components[0].0 in TemperatureUnits
  }

  /** Both ends of a conversion are temperature units, so `to` takes the offset path. */
  predicate TemperaturePath(a: Unit, b: Unit) {
    IsTemperatureUnit(a) && IsTemperatureUnit(b)
  }

  /**
   * The kelvin value of `v` given in the temperature unit `name`; other
   * names count as kelvin. The Fahrenheit branch agrees with the usual
   * `K = (F - 32) * 5/9 + 273.15`.
   */
  function ToKelvin(name: string, v: real): (r: real)
    ensures name in CelsiusNames ==> r - 273.15 == v
    ensures name !in CelsiusNames && name in FahrenheitNames ==> r - 273.15 == (v - 32.0) * 5.0 / 9.0
    ensures name !in CelsiusNames && name !in FahrenheitNames ==> r == v
  {
    if name in CelsiusNames then v + 273.15
    else if name in FahrenheitNames then (v + 459.67) * 5.0 / 9.0
    else v
  }

  /** The value in the temperature unit `name` of `k` kelvin, agreeing with `F = (K - 273.15) * 9/5 + 32`. */
  function FromKelvin(name: string, k: real): (r: real)
    ensures name in CelsiusNames ==> r + 273.15 == k
    ensures name !in CelsiusNames && name in FahrenheitNames ==> r == (k - 273.15) * 9.0 / 5.0 + 32.0
    ensures name !in CelsiusNames && name !in FahrenheitNames ==> r == k
  {
    if name in CelsiusNames then k - 273.15
    else if name in FahrenheitNames then k * 9.0 / 5.0 - 459.67
    else k
  }

  /** Each scale's conversions to and from kelvin undo each other. */
  lemma KelvinRoundTrip(name: string, v: real)
    ensures FromKelvin(name, ToKelvin(name, v)) == v
    ensures ToKelvin(name, FromKelvin(name, v)) == v
  {
  }

  /** Water freezes at 0 C = 32 F = 273.15 K and boils at 100 C = 212 F; -40 is the same in C and F. */
  lemma TemperatureFixedPoints()
    ensures ToKelvin("celsius", 0.0) == 273.15
    ensures FromKelvin("fahrenheit", ToKelvin("celsius", 0.0)) == 32.0
    ensures FromKelvin("fahrenheit", ToKelvin("celsius", 100.0)) == 212.0
    ensures FromKelvin("celsius", ToKelvin("fahrenheit", -40.0)) == -40.0
  {
    assert "celsius" in CelsiusNames && "fahrenheit" in FahrenheitNames;
    assert "fahrenheit" !in CelsiusNames;
  }

  /** A value read in temperature unit `from` and written in temperature unit `to`. */
  function TemperatureMap(from: string, to: string): real -> real {
    v => FromKelvin(to, ToKelvin(from, v))
  }

  /** `_convert_temperature`: every element through kelvin, between the first names of the two units. */
  function ConvertTemperature(q: Quantity, target: Unit): (r: Quantity)
    requires TemperaturePath(q.unit, target)
    ensures r.unit == target && SameShape(r.value, q.value)
    ensures forall i :: 0 <= i < |Elements(q.value)| ==>
      Elements(r.value)[i] == FromKelvin(target.components[0].0, ToKelvin(q.unit.components[0].0, Elements(q.value)[i]))
  {
    Quantity(Map(q.value, TemperatureMap(q.unit.components[0].0, target.components[0].0)), target)
  }

  /** The linear path of `to`: every element multiplied by the factor `f`. */
  function ConvertLinear(q: Quantity, target: Unit, f: real): (r: Quantity)
    ensures r.unit == target && SameShape(r.value, q.value)
    ensures forall i :: 0 <= i < |Elements(q.value)| ==> Elements(r.value)[i] == Elements(q.value)[i] * f
  {
    Quantity(Map(q.value, ScaleBy(f)), target)
  }

  /**
   * `q.to(target)`: ValueError for incompatible units; the temperature path
   * between two temperature units; otherwise every element multiplied by
   * the conversion factor (ZeroDivisionError for a target of scale 0).
   * The result is in the target unit and keeps the shape.
   */
  function To(q: Quantity, target: Unit): (r: Result<Quantity>)
    ensures r.Ok? <==> Compatible(q.unit, target) && (TemperaturePath(q.unit, target) || target.scale != 0.0)
    ensures r.Err? ==> r.error == (if Compatible(q.unit, target) then ZeroDivisionError else ValueError)
    ensures r.Ok? && TemperaturePath(q.unit, target) ==> r.value == ConvertTemperature(q, target)
    ensures r.Ok? && !TemperaturePath(q.unit, target) ==>
      r.value == ConvertLinear(q, target, ConversionFactor(q.unit, target).value)
  {
    if !Compatible(q.unit, target) then Err(ValueError)
    else if TemperaturePath(q.unit, target) then Ok(ConvertTemperature(q, target))
    else
      match ConversionFactor(q.unit, target)
      case Err(e) => Err(e)
      case Ok(f) => Ok(ConvertLinear(q, target, f))
  }

  /** Converting a quantity to its own unit changes nothing. */
  lemma ToSelf(q: Quantity)
    requires q.unit.scale != 0.0
    ensures To(q, q.unit) == Ok(q)
  {
    if TemperaturePath(q.unit, q.unit) {
      var n := q.unit.components[0].0;
      forall x
        ensures TemperatureMap(n, n)(x) == x
      {
        KelvinRoundTrip(n, x);
      }
      MapIdentity(q.value, TemperatureMap(n, n));
    } else {
      ConversionFactorSelf(q.unit);
      MapIdentity(q.value, ScaleBy(1.0));
    }
  }

  /** Converting to a compatible unit and back gives the quantity back exactly, on either path. */
  lemma ToRoundTrip(q: Quantity, target: Unit)
    requires Compatible(q.unit, target) && q.unit.scale != 0.0 && target.scale != 0.0
    ensures To(q, target).Ok? && To(To(q, target).value, q.unit) == Ok(q)
  {
    assert Compatible(target, q.unit);
    if TemperaturePath(q.unit, target) {
      TemperatureToRoundTrip(q, target);
    } else {
      LinearToRoundTrip(q, target);
    }
  }

  lemma TemperatureToRoundTrip(q: Quantity, target: Unit)
    requires Compatible(q.unit, target) && Compatible(target, q.unit) && TemperaturePath(q.unit, target)
    ensures To(q, target).Ok? && To(To(q, target).value, q.unit) == Ok(q)
  {
    var c := ConvertTemperature(q, target);
    assert To(q, target) == Ok(c);
    TemperatureRoundTrip(q, target);
  }

  lemma LinearToRoundTrip(q: Quantity, target: Unit)
    requires Compatible(q.unit, target) && Compatible(target, q.unit) && !TemperaturePath(q.unit, target)
    requires q.unit.scale != 0.0 && target.scale != 0.0
    ensures To(q, target).Ok? && To(To(q, target).value, q.unit) == Ok(q)
  {
    ConversionFactorInverse(q.unit, target);
    LinearRoundTrip(q, target, ConversionFactor(q.unit, target).value, ConversionFactor(target, q.unit).value);
    var f, g := ConversionFactor(q.unit, target).value, ConversionFactor(target, q.unit).value;
    var c := ConvertLinear(q, target, f);
    LinearStep(q, target, f);
    LinearStep(c, q.unit, g);
  }

  /** Off the temperature path, a conversion with factor `f` scales every element by `f`. */
  lemma LinearStep(q: Quantity, target: Unit, f: real)
    requires Compatible(q.unit, target) && !TemperaturePath(q.unit, target)
    requires ConversionFactor(q.unit, target) == Ok(f)
    ensures To(q, target) == Ok(ConvertLinear(q, target, f))
  {
  }

  /** Through kelvin to another temperature unit and back is the identity. */
  lemma TemperatureRoundTrip(q: Quantity, target: Unit)
    requires TemperaturePath(q.unit, target)
    ensures ConvertTemperature(ConvertTemperature(q, target), q.unit) == q
  {
    var a, b := q.unit.components[0].0, target.components[0].0;
    forall x
      ensures TemperatureMap(b, a)(TemperatureMap(a, b)(x)) == x
    {
      KelvinRoundTrip(b, ToKelvin(a, x));
      KelvinRoundTrip(a, x);
    }
    MapInverse(q.value, TemperatureMap(a, b), TemperatureMap(b, a));
  }

  /** Scaling by `f` and then by its inverse `g` is the identity. */
  lemma LinearRoundTrip(q: Quantity, target: Unit, f: real, g: real)
    requires Inverses(f, g)
    ensures ConvertLinear(ConvertLinear(q, target, f), q.unit, g) == q
  {
    ScaleRoundTrip(q.value, f, g);
  }

  /** `to_base_units` as written: conversion to the unit parsed back from the rendered base-unit text. */
  function InBaseUnitsAsWritten(q: Quantity): (r: Result<Quantity>)
    ensures r.Ok? <==> Compatible(q.unit, Units.ToBaseUnitsAsWritten(q.unit))
    ensures r.Err? ==> r.error == ValueError
    ensures r.Ok? ==> r.value.unit == Units.ToBaseUnitsAsWritten(q.unit) && SameShape(r.value.value, q.value)
  {
    To(q, Units.ToBaseUnitsAsWritten(q.unit))
  }

  /**
   * `to_base_units` as intended: conversion to the base-unit dictionary
   * itself, which always succeeds and keeps the dimension.
   */
  function InBaseUnits(q: Quantity): (r: Result<Quantity>)
    ensures r.Ok?
    ensures r.value.unit == Units.ToBaseUnits(q.unit) && SameShape(r.value.value, q.value)
    ensures DimOf(r.value.unit.components) == DimOf(q.unit.components)
  {
    ToBaseUnitsKeepsDimension(q.unit);
    To(q, Units.ToBaseUnits(q.unit))
  }

  /** As written, converting a quantity in `meter * meter` to base units raises ValueError. */
  lemma InBaseUnitsAsWrittenFails()
    ensures var m := FromString("meter", 1.0);
            InBaseUnitsAsWritten(Quantity(Scalar(1.0), Product(m, m))) == Err(ValueError)
  {
    ToBaseUnitsAsWrittenLosesDimension();
    assert Dimensions.Scale(Dimensions.Length, 2) != Dimensions.Zero;
  }

  // ------------------------------------------------------------ arithmetic

  /** The quantity with its values combined elementwise with `x` by `f`, its unit kept. */
  function Elementwise(q: Quantity, x: Array, f: (real, real) -> real): (r: Result<Quantity>)
    ensures r.Ok? <==> Broadcastable(q.value, x)
    ensures r.Err? ==> r.error == ValueError
    ensures r.Ok? ==> r.value.unit == q.unit && |Elements(r.value.value)| == Size(q.value, x)
    ensures r.Ok? ==> forall i :: 0 <= i < Size(q.value, x) ==> Elements(r.value.value)[i] == f(At(q.value, i), At(x, i))
  {
    match Zip(q.value, x, f)
    case Err(e) => Err(e)
    case Ok(v) => Ok(Quantity(v, q.unit))
  }

  /**
   * `q + other` (with `f` Plus) and `q - other` (with `f` Minus): a
   * quantity must be compatible and is converted into the left unit; a
   * plain number is accepted only by a dimensionless quantity. The result
   * has the left operand's unit.
   */
  function Additive(q: Quantity, other: Operand, f: (real, real) -> real): (r: Result<Quantity>)
    ensures r.Ok? ==> r.value.unit == q.unit
    ensures other.OfQuantity? && !Compatible(q.unit, other.q.unit) ==> r == Err(ValueError)
    ensures other.Plain? && !IsDimensionless(q.unit) ==> r == Err(ValueError)
    ensures other.Plain? && IsDimensionless(q.unit) ==> r == Elementwise(q, other.x, f)
    ensures other.OfQuantity? && Compatible(q.unit, other.q.unit) ==>
      r == (match To(other.q, q.unit)
            case Ok(c) => Elementwise(q, c.value, f)
            case Err(e) => Err(e))
  {
    match other
    case OfQuantity(o) =>
      if !Compatible(q.unit, o.unit) then Err(ValueError)
      else
        (match To(o, q.unit)
         case Err(e) => Err(e)
         case Ok(c) => Elementwise(q, c.value, f))
    case Plain(x) =>
      if IsDimensionless(q.unit) then Elementwise(q, x, f) else Err(ValueError)
  }

  /** `q + other`: the left values plus the other's, converted into the left unit when it is a quantity. */
  function Add(q: Quantity, other: Operand): (r: Result<Quantity>)
    ensures r.Ok? ==> r.value.unit == q.unit
    ensures other.OfQuantity? && !Compatible(q.unit, other.q.unit) ==> r == Err(ValueError)
    ensures other.Plain? ==> (r.Ok? <==> IsDimensionless(q.unit) && Broadcastable(q.value, other.x))
    ensures other.Plain? && r.Ok? ==>
      |Elements(r.value.value)| == Size(q.value, other.x) &&
      forall i :: 0 <= i < Size(q.value, other.x) ==>
        Elements(r.value.value)[i] == At(q.value, i) + At(other.x, i)
    ensures other.OfQuantity? && r.Ok? ==>
      To(other.q, q.unit).Ok? && |Elements(r.value.value)| == Size(q.value, To(other.q, q.unit).value.value) &&
      forall i :: 0 <= i < Size(q.value, To(other.q, q.unit).value.value) ==>
        Elements(r.value.value)[i] == At(q.value, i) + At(To(other.q, q.unit).value.value, i)
  {
    Additive(q, other, Plus)
  }

  /** `q - other`: the left values minus the other's, converted into the left unit when it is a quantity. */
  function Sub(q: Quantity, other: Operand): (r: Result<Quantity>)
    ensures r.Ok? ==> r.value.unit == q.unit
    ensures other.OfQuantity? && !Compatible(q.unit, other.q.unit) ==> r == Err(ValueError)
    ensures other.Plain? ==> (r.Ok? <==> IsDimensionless(q.unit) && Broadcastable(q.value, other.x))
    ensures other.Plain? && r.Ok? ==>
      |Elements(r.value.value)| == Size(q.value, other.x) &&
      forall i :: 0 <= i < Size(q.value, other.x) ==>
        Elements(r.value.value)[i] == At(q.value, i) - At(other.x, i)
    ensures other.OfQuantity? && r.Ok? ==>
      To(other.q, q.unit).Ok? && |Elements(r.value.value)| == Size(q.value, To(other.q, q.unit).value.value) &&
      forall i :: 0 <= i < Size(q.value, To(other.q, q.unit).value.value) ==>
        Elements(r.value.value)[i] == At(q.value, i) - At(To(other.q, q.unit).value.value, i)
  {
    Additive(q, other, Minus)
  }

  /** A compatible quantity is added in the left unit: its values converted by the conversion factor. */
  lemma AddConverts(q: Quantity, o: Quantity)
    requires Compatible(q.unit, o.unit) && q.unit.scale != 0.0 && !TemperaturePath(o.unit, q.unit)
    requires SameShape(q.value, o.value)
    ensures Add(q, OfQuantity(o)).Ok?
    ensures |Elements(Add(q, OfQuantity(o)).value.value)| == |Elements(q.value)|
    ensures forall i :: 0 <= i < |Elements(q.value)| ==>
      Elements(Add(q, OfQuantity(o)).value.value)[i] ==
        Elements(q.value)[i] + Elements(o.value)[i] * ConversionFactor(o.unit, q.unit).value
  {
    var c := To(o, q.unit).value;
    SameShapeAt(q.value, c.value);
  }

  /** Between temperature units, the added values are the other's converted through kelvin, offsets included. */
  lemma AddTemperature(q: Quantity, o: Quantity)
    requires Compatible(q.unit, o.unit) && TemperaturePath(o.unit, q.unit)
    requires SameShape(q.value, o.value)
    ensures Add(q, OfQuantity(o)).Ok?
    ensures forall i :: 0 <= i < |Elements(q.value)| ==>
      Elements(Add(q, OfQuantity(o)).value.value)[i] ==
        Elements(q.value)[i] + FromKelvin(q.unit.components[0].0, ToKelvin(o.unit.components[0].0, Elements(o.value)[i]))
  {
    var c := ConvertTemperature(o, q.unit);
    assert To(o, q.unit) == Ok(c);
    SameShapeAt(q.value, c.value);
  }

  /** Adding a quantity of the same unit and shape, then subtracting it, gives the quantity back. */
  lemma AddThenSubtract(q: Quantity, o: Quantity)
    requires o.unit == q.unit && q.unit.scale != 0.0 && SameShape(q.value, o.value)
    ensures Add(q, OfQuantity(o)).Ok?
    ensures Sub(Add(q, OfQuantity(o)).value, OfQuantity(o)) == Ok(q)
  {
    ToSelf(o);
    ZipUndo(q.value, o.value, Plus, Minus);
  }

  /** `q * other`: values multiplied elementwise; with a quantity the units multiply, with a number the unit stays. */
  function Mul(q: Quantity, other: Operand): (r: Result<Quantity>)
    ensures r.Ok? <==> Broadcastable(q.value, OperandValue(other))
    ensures r.Ok? && other.OfQuantity? ==> r.value.unit == Product(q.unit, other.q.unit)
    ensures r.Ok? && other.Plain? ==> r.value.unit == q.unit
    ensures r.Ok? ==> r.value.value.Scalar? == (q.value.Scalar? && OperandValue(other).Scalar?)
    ensures r.Ok? ==> |Elements(r.value.value)| == Size(q.value, OperandValue(other))
    ensures r.Ok? ==> forall i :: 0 <= i < Size(q.value, OperandValue(other)) ==>
      Elements(r.value.value)[i] == At(q.value, i) * At(OperandValue(other), i)
  {
    match Zip(q.value, OperandValue(other), Times)
    case Err(e) => Err(e)
    case Ok(v) => Ok(Quantity(v, if other.OfQuantity? then Product(q.unit, other.q.unit) else q.unit))
  }

  /**
   * `q / other`: a shape mismatch raises first, then a divisor unit of
   * scale 0; a zero divisor element makes numpy produce a non-finite value.
   */
  function Div(q: Quantity, other: Operand): (r: Result<Quantity>)
    ensures !Broadcastable(q.value, OperandValue(other)) ==> r == Err(ValueError)
    ensures Broadcastable(q.value, OperandValue(other)) && other.OfQuantity? && other.q.unit.scale == 0.0 ==>
      r == Err(ZeroDivisionError)
    ensures r.Ok? <==> Broadcastable(q.value, OperandValue(other)) &&
                       (other.OfQuantity? ==> other.q.unit.scale != 0.0) && !ZeroDivisor(q.value, OperandValue(other))
    ensures (Broadcastable(q.value, OperandValue(other)) && (other.OfQuantity? ==> other.q.unit.scale != 0.0)
             && ZeroDivisor(q.value, OperandValue(other))) ==> r == Err(NotFinite)
    ensures r.Ok? && other.OfQuantity? ==> r.value.unit == Quotient(q.unit, other.q.unit).value
    ensures r.Ok? && other.Plain? ==> r.value.unit == q.unit
    ensures r.Ok? ==> r.value.value.Scalar? == (q.value.Scalar? && OperandValue(other).Scalar?)
    ensures r.Ok? ==> |Elements(r.value.value)| == Size(q.value, OperandValue(other))
    ensures r.Ok? ==> forall i :: 0 <= i < Size(q.value, OperandValue(other)) ==>
      Elements(r.value.value)[i] == At(q.value, i) / At(OperandValue(other), i)
  {
    var x := OperandValue(other);
    match Zip(q.value, x, Over)
    case Err(e) => Err(e)
    case Ok(v) =>
      var unit := if other.OfQuantity? then Quotient(q.unit, other.q.unit) else Ok(q.unit);
      match unit
      case Err(e) => Err(e)
      case Ok(u) => if ZeroDivisor(q.value, x) then Err(NotFinite) else Ok(Quantity(v, u))
  }

  /** Multiplying by a number and dividing by it again gives the quantity back. */
  lemma MulThenDivide(q: Quantity, x: Array)
    requires SameShape(q.value, x) && 0.0 !in Elements(x)
    ensures Mul(q, Plain(x)).Ok?
    ensures Div(Mul(q, Plain(x)).value, Plain(x)) == Ok(q)
  {
    forall i | 0 <= i < |Elements(q.value)|
      ensures Over(Times(Elements(q.value)[i], Elements(x)[i]), Elements(x)[i]) == Elements(q.value)[i]
    {
      assert Elements(x)[i] != 0.0;
    }
    ZipUndo(q.value, x, Times, Over);
    var m := Mul(q, Plain(x)).value;
    SameShapeAt(m.value, x);
  }

  /** The units of a product and a quotient of quantities have the summed and subtracted dimensions. */
  lemma MulDivDimensions(q: Quantity, o: Quantity)
    ensures Mul(q, OfQuantity(o)).Ok? ==>
      DimOf(Mul(q, OfQuantity(o)).value.unit.components) == Dimensions.Add(DimOf(q.unit.components), DimOf(o.unit.components))
    ensures Div(q, OfQuantity(o)).Ok? ==>
      DimOf(Div(q, OfQuantity(o)).value.unit.components) == Dimensions.Sub(DimOf(q.unit.components), DimOf(o.unit.components))
  {
    ProductDim(q.unit, o.unit);
    if o.unit.scale != 0.0 {
      QuotientDim(q.unit, o.unit);
    }
  }

  /** `x ** n` for the elements; a zero raised to a negative power is left to the error path. */
  function PowerOf(n: int): real -> real {
    x => if x == 0.0 && n < 0 then 0.0 else IntPow(x, n)
  }

  /**
   * `q ** n` for a whole exponent: the unit raised (ZeroDivisionError for
   * a unit of scale 0 and n < 0), then the elements; a zero element under
   * a negative power gives numpy's infinity.
   */
  function Pow(q: Quantity, n: int): (r: Result<Quantity>)
    ensures r.Err? <==> n < 0 && (q.unit.scale == 0.0 || 0.0 in Elements(q.value))
    ensures r.Ok? ==> r.value.unit == Power(q.unit, n).value && SameShape(r.value.value, q.value)
  {
    match Power(q.unit, n)
    case Err(e) => Err(e)
    case Ok(u) =>
      if n < 0 && 0.0 in Elements(q.value) then Err(NotFinite)
      else Ok(Quantity(Map(q.value, PowerOf(n)), u))
  }

  /** A power multiplies the dimension and raises every element. */
  lemma PowDimension(q: Quantity, n: int)
    requires n >= 0 || (q.unit.scale != 0.0 && 0.0 !in Elements(q.value))
    ensures Pow(q, n).Ok?
    ensures DimOf(Pow(q, n).value.unit.components) == Dimensions.Scale(DimOf(q.unit.components), n)
    ensures forall i :: 0 <= i < |Elements(q.value)| ==>
      Elements(Pow(q, n).value.value)[i] == IntPow(Elements(q.value)[i], n)
  {
    PowerContents(q.unit, n, "");
  }

  /** `other + q` for a plain number: `q.__add__(other)`. */
  function RAdd(q: Quantity, x: Array): (r: Result<Quantity>)
    ensures !IsDimensionless(q.unit) ==> r == Err(ValueError)
    ensures IsDimensionless(q.unit) ==> (r.Ok? <==> Broadcastable(x, q.value))
    ensures r.Ok? ==> r.value.unit == q.unit && |Elements(r.value.value)| == Size(q.value, x)
    ensures r.Ok? ==> forall i :: 0 <= i < Size(q.value, x) ==>
      Elements(r.value.value)[i] == At(x, i) + At(q.value, i)
  {
    Add(q, Plain(x))
  }

  /** `other - q` for a plain number: the difference in `q`'s unit, with no dimension check. */
  function RSub(q: Quantity, x: Array): (r: Result<Quantity>)
    ensures r.Ok? <==> Broadcastable(x, q.value)
    ensures r.Ok? ==> r.value.unit == q.unit && |Elements(r.value.value)| == Size(x, q.value)
    ensures r.Ok? ==> forall i :: 0 <= i < Size(x, q.value) ==>
      Elements(r.value.value)[i] == At(x, i) - At(q.value, i)
  {
    match Zip(x, q.value, Minus)
    case Err(e) => Err(e)
    case Ok(v) => Ok(Quantity(v, q.unit))
  }

  /** `other * q` for a plain number: `q.__mul__(other)`. */
  function RMul(q: Quantity, x: Array): (r: Result<Quantity>)
    ensures r.Ok? <==> Broadcastable(x, q.value)
    ensures r.Ok? ==> r.value.unit == q.unit && |Elements(r.value.value)| == Size(q.value, x)
    ensures r.Ok? ==> forall i :: 0 <= i < Size(q.value, x) ==>
      Elements(r.value.value)[i] == At(x, i) * At(q.value, i)
  {
    Mul(q, Plain(x))
  }

  /** `Unit("dimensionless") / u`, the unit of a number divided by a quantity. */
  function Reciprocal(u: Unit): (r: Result<Unit>)
    ensures r.Ok? <==> u.scale != 0.0
    ensures r.Ok? ==> DimOf(r.value.components) == Dimensions.Sub(Dimensions.Zero, DimOf(u.components))
    ensures r.Ok? ==> r.value.scale == 1.0 / u.scale
  {
    var one := DimensionlessUnit();
    if u.scale == 0.0 then Quotient(one, u)
    else
      QuotientDim(one, u);
      Quotient(one, u)
  }

  /** `other / q` for a plain number: the unit is `Unit("dimensionless") / q.unit`. */
  function RTrueDiv(q: Quantity, x: Array): (r: Result<Quantity>)
    ensures !Broadcastable(x, q.value) ==> r == Err(ValueError)
    ensures Broadcastable(x, q.value) && q.unit.scale == 0.0 ==> r == Err(ZeroDivisionError)
    ensures r.Ok? <==> Broadcastable(x, q.value) && q.unit.scale != 0.0 && !ZeroDivisor(x, q.value)
    ensures Broadcastable(x, q.value) && q.unit.scale != 0.0 && ZeroDivisor(x, q.value) ==> r == Err(NotFinite)
    ensures r.Ok? ==> r.value.unit == Reciprocal(q.unit).value && |Elements(r.value.value)| == Size(x, q.value)
    ensures r.Ok? ==> forall i :: 0 <= i < Size(x, q.value) ==>
      Elements(r.value.value)[i] == At(x, i) / At(q.value, i)
  {
    match Zip(x, q.value, Over)
    case Err(e) => Err(e)
    case Ok(v) =>
      match Reciprocal(q.unit)
      case Err(e) => Err(e)
      case Ok(u) => if ZeroDivisor(x, q.value) then Err(NotFinite) else Ok(Quantity(v, u))
  }

  /** For a dimensionless quantity, `x - q` is the negation of `q - x`. */
  lemma RSubNegatesSub(q: Quantity, x: Array)
    requires IsDimensionless(q.unit) && SameShape(q.value, x)
    ensures Sub(q, Plain(x)).Ok? && RSub(q, x).Ok?
    ensures RSub(q, x).value == Negation(Sub(q, Plain(x)).value)
  {
    SameShapeAt(q.value, x);
    SameShapeAt(x, q.value);
    var a := RSub(q, x).value.value;
    var b := Map(Sub(q, Plain(x)).value.value, Negate);
    if a.Vector? {
      assert Elements(a) == a.xs && Elements(b) == b.xs;
      assert a.xs == b.xs;
    }
  }

  /** `-q`: every element negated, unit kept. */
  function Negation(q: Quantity): (r: Quantity)
    ensures r.unit == q.unit && SameShape(r.value, q.value)
    ensures forall i :: 0 <= i < |Elements(q.value)| ==> Elements(r.value)[i] == -Elements(q.value)[i]
  {
    Quantity(Map(q.value, Negate), q.unit)
  }

  /** `abs(q)`: every element's absolute value, unit kept. */
  function Absolute(q: Quantity): (r: Quantity)
    ensures r.unit == q.unit && SameShape(r.value, q.value)
    ensures forall i :: 0 <= i < |Elements(q.value)| ==> Elements(r.value)[i] == Abs(Elements(q.value)[i])
    ensures forall i :: 0 <= i < |Elements(q.value)| ==> Elements(r.value)[i] >= 0.0
  {
    Quantity(Map(q.value, Abs), q.unit)
  }

  /** Negating twice gives the quantity back; the absolute value ignores a negation. */
  lemma NegationAndAbsolute(q: Quantity)
    ensures Negation(Negation(q)) == q
    ensures Absolute(Negation(q)) == Absolute(q)
  {
    MapInverse(q.value, Negate, Negate);
    var a := Absolute(Negation(q)).value;
    var b := Absolute(q).value;
    if a.Vector? {
      assert Elements(a) == a.xs && Elements(b) == b.xs;
      assert a.xs == b.xs;
    }
  }

  // ----------------------------------------------------------- comparison

  function Less(x: real, y: real): bool { x < y }

  /**
   * `q == other`: False, never an exception, for a non-quantity (None) or
   * an incompatible unit; otherwise `np.allclose` after converting `other`
   * into `q`'s unit.
   */
  function Eq(q: Quantity, other: Option<Quantity>): (r: Result<bool>)
    ensures other.None? ==> r == Ok(false)
    ensures other.Some? && !Compatible(q.unit, other.value.unit) ==> r == Ok(false)
    ensures other.Some? && Compatible(q.unit, other.value.unit) && To(other.value, q.unit).Ok? ==>
      r == AllClose(q.value, To(other.value, q.unit).value.value)
    ensures other.Some? && Compatible(q.unit, other.value.unit) && To(other.value, q.unit).Err? ==>
      r == Err(ZeroDivisionError)
  {
    match other
    case None => Ok(false)
    case Some(o) =>
      if !Compatible(q.unit, o.unit) then Ok(false)
      else
        match To(o, q.unit)
        case Err(e) => Err(e)
        case Ok(c) => AllClose(q.value, c.value)
  }

  /** `q < other`: TypeError for a non-quantity, ValueError for an incompatible unit, else elementwise `<` for all. */
  function Lt(q: Quantity, other: Option<Quantity>): (r: Result<bool>)
    ensures other.None? ==> r == Err(TypeError)
    ensures other.Some? && !Compatible(q.unit, other.value.unit) ==> r == Err(ValueError)
    ensures other.Some? && Compatible(q.unit, other.value.unit) && To(other.value, q.unit).Ok? ==>
      r == All(q.value, To(other.value, q.unit).value.value, Less)
    ensures other.Some? && Compatible(q.unit, other.value.unit) && To(other.value, q.unit).Err? ==>
      r == Err(ZeroDivisionError)
  {
    match other
    case None => Err(TypeError)
    case Some(o) =>
      if !Compatible(q.unit, o.unit) then Err(ValueError)
      else
        match To(o, q.unit)
        case Err(e) => Err(e)
        case Ok(c) => All(q.value, c.value, Less)
  }

  /** `q <= other`: `q == other or q < other`. */
  function Le(q: Quantity, other: Option<Quantity>): (r: Result<bool>)
    ensures other.None? ==> r == Err(TypeError)
    ensures other.Some? && !Compatible(q.unit, other.value.unit) ==> r == Err(ValueError)
    ensures Eq(q, other) == Ok(true) ==> r == Ok(true)
    ensures Eq(q, other) == Ok(false) ==> r == Lt(q, other)
  {
    match Eq(q, other)
    case Err(e) => Err(e)
    case Ok(equal) => if equal then Ok(true) else Lt(q, other)
  }

  /** `q > other`: TypeError for a non-quantity, else `not q <= other`. */
  function Gt(q: Quantity, other: Option<Quantity>): (r: Result<bool>)
    ensures other.None? ==> r == Err(TypeError)
    ensures other.Some? ==> (r.Ok? <==> Le(q, other).Ok?)
    ensures r.Ok? ==> r.value != Le(q, other).value
  {
    if other.None? then Err(TypeError)
    else
      match Le(q, other)
      case Err(e) => Err(e)
      case Ok(b) => Ok(!b)
  }

  /** `q >= other`: `not q < other`. */
  function Ge(q: Quantity, other: Option<Quantity>): (r: Result<bool>)
    ensures r.Ok? <==> Lt(q, other).Ok?
    ensures r.Ok? ==> r.value != Lt(q, other).value
  {
    match Lt(q, other)
    case Err(e) => Err(e)
    case Ok(b) => Ok(!b)
  }

  /** A quantity of nonzero scale equals itself. */
  lemma EqReflexive(q: Quantity)
    requires q.unit.scale != 0.0
    ensures Eq(q, Some(q)) == Ok(true)
  {
    ToSelf(q);
    AllCloseReflexive(q.value);
  }

  /** A quantity equals itself converted into any compatible unit, in both orders (1 kilometer == 1000 meter). */
  lemma EqConverted(q: Quantity, u: Unit)
    requires Compatible(q.unit, u) && q.unit.scale != 0.0 && u.scale != 0.0
    ensures To(q, u).Ok?
    ensures Eq(To(q, u).value, Some(q)) == Ok(true)
    ensures Eq(q, Some(To(q, u).value)) == Ok(true)
  {
    ToRoundTrip(q, u);
    AllCloseReflexive(To(q, u).value.value);
    AllCloseReflexive(q.value);
  }

  /** A non-empty quantity is never less than itself converted into a compatible unit. */
  lemma NotLessThanConverted(q: Quantity, u: Unit)
    requires Compatible(q.unit, u) && u.scale != 0.0 && |Elements(q.value)| > 0
    ensures To(q, u).Ok?
    ensures Lt(To(q, u).value, Some(q)) == Ok(false)
    ensures Ge(To(q, u).value, Some(q)) == Ok(true)
  {
    var c := To(q, u).value;
    assert c.unit == u && SameShape(c.value, q.value);
    NoneLessThanItself(c.value);
  }

  /** No element of a non-empty array is less than itself. */
  lemma NoneLessThanItself(a: Array)
    requires |Elements(a)| > 0
    ensures All(a, a, Less) == Ok(false)
  {
    assert Size(a, a) > 0 && !Less(At(a, 0), At(a, 0));
  }

  /** Every ordering raises TypeError against a non-quantity, while `==` gives False. */
  lemma NonQuantityComparisons(q: Quantity)
    ensures Eq(q, None) == Ok(false)
    ensures Lt(q, None) == Le(q, None) == Gt(q, None) == Ge(q, None) == Err(TypeError)
  {
  }

  /** Every ordering raises ValueError against an incompatible quantity, while `==` gives False. */
  lemma IncompatibleComparisons(q: Quantity, o: Quantity)
    requires !Compatible(q.unit, o.unit)
    ensures Eq(q, Some(o)) == Ok(false)
    ensures Lt(q, Some(o)) == Le(q, Some(o)) == Gt(q, Some(o)) == Ge(q, Some(o)) == Err(ValueError)
  {
  }

  /** Two scalars in the same unit compare as their values, `==` and `<=` up to numpy's tolerance. */
  lemma ScalarComparisons(q: Quantity, o: Quantity)
    requires q.value.Scalar? && o.value.Scalar? && o.unit == q.unit && q.unit.scale != 0.0
    ensures Eq(q, Some(o)) == Ok(Close(q.value.x, o.value.x))
    ensures Lt(q, Some(o)) == Ok(q.value.x < o.value.x)
    ensures Ge(q, Some(o)) == Ok(q.value.x >= o.value.x)
    ensures Le(q, Some(o)) == Ok(Close(q.value.x, o.value.x) || q.value.x < o.value.x)
    ensures Gt(q, Some(o)) == Ok(!Close(q.value.x, o.value.x) && q.value.x >= o.value.x)
  {
    ToSelf(o);
    AllScalars(q.value.x, o.value.x, Close);
    AllScalars(q.value.x, o.value.x, Less);
  }

  // -------------------------------------------------------------- indexing

  /** Position `key` of a length-`n` array, a negative key counting from the end. */
  function IndexOf(key: int, n: nat): (r: Result<nat>)
    ensures r.Ok? <==> -(n as int) <= key < n
    ensures r.Err? ==> r.error == IndexError
    ensures r.Ok? ==> r.value < n && (r.value == key || r.value == key + n)
  {
    if -(n as int) <= key < n then Ok(if key < 0 then key + n else key) else Err(IndexError)
  }

  /** `q[key]` for an integer key: IndexError for a 0-d value or an index out of range. */
  function GetItem(q: Quantity, key: int): (r: Result<Quantity>)
    ensures q.value.Scalar? ==> r == Err(IndexError)
    ensures q.value.Vector? ==> (r.Ok? <==> -|q.value.xs| <= key < |q.value.xs|)
    ensures r.Ok? ==> r.value.unit == q.unit && r.value.value.Scalar? && r.value.value.x in q.value.xs
    ensures r.Ok? ==> r.value.value == Scalar(q.value.xs[IndexOf(key, |q.value.xs|).value])
  {
    match q.value
    case Scalar(_) => Err(IndexError)
    case Vector(xs) =>
      match IndexOf(key, |xs|)
      case Err(e) => Err(e)
      case Ok(i) => Ok(Quantity(Scalar(xs[i]), q.unit))
  }

  /** `len(q)`: TypeError for a 0-d value. */
  function Len(q: Quantity): (r: Result<nat>)
    ensures r.Ok? <==> q.value.Vector?
    ensures r.Err? ==> r.error == TypeError
    ensures r.Ok? ==> r.value == |q.value.xs|
  {
    match q.value
    case Scalar(_) => Err(TypeError)
    case Vector(xs) => Ok(|xs|)
  }

  /** The valid integer keys are exactly those from `-len(q)` to `len(q) - 1`. */
  lemma LenBoundsGetItem(q: Quantity, key: int)
    ensures GetItem(q, key).Ok? <==> Len(q).Ok? && -(Len(q).value as int) <= key < Len(q).value
  {
  }

  /** A negative index names the same element as the index `len(q)` further on. */
  lemma GetItemFromEnd(q: Quantity, key: int)
    requires q.value.Vector? && 0 <= key < |q.value.xs|
    ensures GetItem(q, key - |q.value.xs|) == GetItem(q, key)
    ensures GetItem(q, key) == Ok(Quantity(Scalar(q.value.xs[key]), q.unit))
  {
  }

  /** The element `q[key] = value` writes: a scalar or a one-element array; ValueError for a longer sequence. */
  function ElementOf(v: Array): (r: Result<real>)
    ensures r.Ok? <==> |Elements(v)| == 1
    ensures r.Ok? ==> r.value == Elements(v)[0]
  {
    match v
    case Scalar(x) => Ok(x)
    case Vector(xs) => if |xs| == 1 then Ok(xs[0]) else Err(ValueError)
  }

  /** What `value` becomes in the unit `unit` before it is written, or why it cannot be written. */
  function Assignable(unit: Unit, value: Operand): (r: Result<Array>)
    ensures value.OfQuantity? && !Compatible(unit, value.q.unit) ==> r == Err(ValueError)
    ensures value.Plain? ==> r == (if IsDimensionless(unit) then Ok(value.x) else Err(ValueError))
  {
    match value
    case OfQuantity(o) =>
      if !Compatible(unit, o.unit) then Err(ValueError)
      else
        (match To(o, unit)
         case Err(e) => Err(e)
         case Ok(c) => Ok(c.value))
    case Plain(x) =>
      if IsDimensionless(unit) then Ok(x) else Err(ValueError)
  }

  /**
   * `q[key] = value` on a 1-d quantity: the new elements, equal to the old
   * ones except at the one position written, or the exception raised.
   */
  function SetItemResult(xs: seq<real>, unit: Unit, key: int, value: Operand): (r: Result<seq<real>>)
    ensures r.Ok? ==> |r.value| == |xs| && -|xs| <= key < |xs|
    ensures r.Ok? ==> IndexOf(key, |xs|).Ok? && Assignable(unit, value).Ok?
    ensures r.Ok? ==> forall j :: 0 <= j < |xs| && j != IndexOf(key, |xs|).value ==> r.value[j] == xs[j]
    ensures r.Ok? ==> ElementOf(Assignable(unit, value).value) == Ok(r.value[IndexOf(key, |xs|).value])
    ensures !(-|xs| <= key < |xs|) && Assignable(unit, value).Ok? ==> r == Err(IndexError)
    ensures Assignable(unit, value).Err? ==> r == Err(Assignable(unit, value).error)
  {
    match Assignable(unit, value)
    case Err(e) => Err(e)
    case Ok(v) =>
      match IndexOf(key, |xs|)
      case Err(e) => Err(e)
      case Ok(i) =>
        match ElementOf(v)
        case Err(e) => Err(e)
        case Ok(x) => Ok(xs[i := x])
  }

  /** Writing a scalar of the same unit at a valid index replaces exactly that element. */
  lemma SetItemSameUnit(xs: seq<real>, unit: Unit, key: int, x: real)
    requires unit.scale != 0.0 && 0 <= key < |xs|
    ensures SetItemResult(xs, unit, key, OfQuantity(Quantity(Scalar(x), unit))) == Ok(xs[key := x])
  {
    ToSelf(Quantity(Scalar(x), unit));
  }

  /** A 1-d quantity whose elements `__setitem__` overwrites in place. */
  class QuantityArray {
    const data: array<real>
    const unit: Unit

    constructor(values: seq<real>, unit: Unit)
      ensures fresh(data) && data[..] == values && this.unit == unit
    {
      data := new real[|values|](i requires 0 <= i < |values| => values[i]);
      this.unit := unit;
    }

    /** The quantity the array currently holds. */
    function Snapshot(): Quantity
      reads data
    {
      Quantity(Vector(data[..]), unit)
    }

    /**
     * `self[key] = value`: on success only the element at `key` changes;
     * on an exception (returned here) the elements are left as they were.
     */
    method SetItem(key: int, value: Operand) returns (error: Option<Error>)
      modifies data
      ensures error.None? ==> SetItemResult(old(data[..]), unit, key, value) == Ok(data[..])
      ensures error.Some? ==> SetItemResult(old(data[..]), unit, key, value) == Err(error.value)
      ensures error.Some? ==> data[..] == old(data[..])
    {
      var converted: Array;
      match value {
        case OfQuantity(o) =>
          if !Compatible(unit, o.unit) {
            return Some(ValueError);
          }
          var c := To(o, unit);
          if c.Err? {
            return Some(c.error);
          }
          converted := c.value.value;
        case Plain(x) =>
          if !IsDimensionless(unit) {
            return Some(ValueError);
          }
          converted := x;
      }
      var index := IndexOf(key, data.Length);
      if index.Err? {
        return Some(index.error);
      }
      var element := ElementOf(converted);
      if element.Err? {
        return Some(element.error);
      }
      data[index.value] := element.value;
      return None;
    }
  }
}
