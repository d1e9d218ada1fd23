/**
 * The three converter scripts (temperature, speed, pressure). Each reads a
 * value and a unit name, looks the lower-cased name up in its own alias
 * table, converts the value into each of its display units in turn, and
 * labels the result with a real-world context chosen by a ladder of
 * thresholds.
 *
 * The scripts share one shape, so one `Convert` is written over a
 * `Converter` record holding what differs: the alias table, the hint for
 * an unknown name, the display units, which of them feeds the context
 * ladder, and the ladder itself. The conversion `to` is a parameter
 * standing for `Quantity(value, name).to(target).magnitude`; `EngineTo`
 * is that conversion as the unit engine performs it.
 */
module Converters {
  import opened Wrappers
  import opened Text
  import opened Arrays
  import Dimensions
  import opened UnitTables
  import opened Units
  import opened Quantities
  import opened Ladders
  import Batch

  // ------------------------------------------------------ name normalising

  /** `unit_map.get(from_unit.lower())`: a lower-cased lookup in the alias table. */
  function Normalize(aliases: map<string, string>, fromUnit: string): Option<string> {
    if Lower(fromUnit) in aliases then Some(aliases[Lower(fromUnit)]) else None
  }

  /**
   * Every name the table produces is lower-case and is itself a key that
   * the table sends to itself.
   */
  ghost predicate Canonical(aliases: map<string, string>) {
    forall k :: k in aliases ==> aliases[k] in aliases && aliases[aliases[k]] == aliases[k] && NoUpper(aliases[k])
  }

  /** Text with no ASCII capital, which `Lower` leaves alone. */
  predicate NoUpper(s: string) {
    forall i :: 0 <= i < |s| ==> !('A' <= s[i] <= 'Z')
  }

  /** Lower-casing twice is lower-casing once. */
  lemma LowerTwice(s: string)
    ensures Lower(Lower(s)) == Lower(s)
  {
    assert forall k :: 0 <= k < |s| ==> LowerChar(LowerChar(s[k])) == LowerChar(s[k]);
  }

  /** `Lower` leaves text without capitals unchanged. */
  lemma LowerOfLowerCase(s: string)
    requires NoUpper(s)
    ensures Lower(s) == s
  {
  }

  /**
   * The lookup ignores case, and with a canonical table normalising a
   * normalised name gives it back: the scripts' unit names are fixed points.
   */
  lemma NormalizeStable(aliases: map<string, string>, s: string)
    requires Canonical(aliases)
    ensures Normalize(aliases, Lower(s)) == Normalize(aliases, s)
    ensures Normalize(aliases, s).Some? ==> Normalize(aliases, Normalize(aliases, s).value) == Normalize(aliases, s)
  {
    LowerTwice(s);
    if Lower(s) in aliases {
      assert Lower(aliases[Lower(s)]) == aliases[Lower(s)];
    }
  }

  // ------------------------------------------------------------ conversion

  /** `Quantity(value, name).to(target).magnitude`, or the exception it raises. */
  type Conversion = (real, string, string) -> Result<real>

  /**
   * The conversions of `value` from `name` into each target in turn; the
   * first one that raises ends the run with its exception.
   */
  function ConvertEach(to: Conversion, value: real, name: string, targets: seq<string>): (r: Result<seq<real>>)
    ensures r.Ok? <==> forall i :: 0 <= i < |targets| ==> to(value, name, targets[i]).Ok?
    ensures r.Ok? ==> (|r.value| == |targets|
      && forall i :: 0 <= i < |targets| ==> r.value[i] == to(value, name, targets[i]).value)
    ensures r.Err? ==> exists i :: 0 <= i < |targets| && to(value, name, targets[i]) == Err(r.error)
                               && forall j :: 0 <= j < i ==> to(value, name, targets[j]).Ok?
  {
    if |targets| == 0 then Ok([])
    else
      match to(value, name, targets[0])
      case Err(e) => Err(e)
      case Ok(x) =>
        match ConvertEach(to, value, name, targets[1..])
        case Err(e) =>
          assert forall j :: 1 <= j <= |targets| - 1 ==> targets[1..][j - 1] == targets[j];
          Err(e)
        case Ok(xs) => Ok([x] + xs)
  }

  /** Why a conversion failed: the name is not in the table, or the engine raised. */
  datatype Reason = UnknownUnit(name: string) | Raised(error: Error)

  /**
   * The dictionary a `convert_*` function returns: a failure with its error
   * and message, or the normalised name, the values in the display units
   * (in the order of `targets`) and the context label.
   */
  datatype Report =
    | Failure(reason: Reason, message: string)
    | Success(name: string, values: seq<real>, context: string)

  /** What one converter script fixes. */
  datatype Converter = Converter(
    aliases: map<string, string>,
    hint: string,
    targets: seq<string>,
    contextFrom: nat,
    context: real -> string)

  /**
   * `convert_temperature`, `convert_speed` and `convert_pressure`. `shown`
   * is the text Python prints for `value` in the failure message.
   */
  function Convert(c: Converter, to: Conversion, value: real, fromUnit: string, shown: string): (r: Report)
    requires c.contextFrom < |c.targets|
    ensures r == Failure(UnknownUnit(fromUnit), c.hint) <==> Lower(fromUnit) !in c.aliases
    ensures r.Failure? && r.reason.Raised? ==> (
      Lower(fromUnit) in c.aliases
      && r.message == "Failed to convert " + shown + " " + fromUnit
      && exists i :: 0 <= i < |c.targets| && to(value, c.aliases[Lower(fromUnit)], c.targets[i]) == Err(r.reason.error))
    ensures r.Success? <==> (
      Lower(fromUnit) in c.aliases
      && forall i :: 0 <= i < |c.targets| ==> to(value, c.aliases[Lower(fromUnit)], c.targets[i]).Ok?)
    ensures r.Success? ==> (
      r.name == c.aliases[Lower(fromUnit)] && |r.values| == |c.targets|
      && (forall i :: 0 <= i < |c.targets| ==> r.values[i] == to(value, r.name, c.targets[i]).value)
      && r.context == c.context(r.values[c.contextFrom]))
  {
    match Normalize(c.aliases, fromUnit)
    case None => Failure(UnknownUnit(fromUnit), c.hint)
    case Some(name) =>
      match ConvertEach(to, value, name, c.targets)
      case Err(e) => Failure(Raised(e), "Failed to convert " + shown + " " + fromUnit)
      case Ok(vs) => Success(name, vs, c.context(vs[c.contextFrom]))
  }

  /** An unknown name fails before any conversion: the result does not depend on the conversion at all. */
  lemma UnknownConvertsNothing(c: Converter, to: Conversion, to': Conversion, value: real, fromUnit: string, shown: string)
    requires c.contextFrom < |c.targets| && Lower(fromUnit) !in c.aliases
    ensures Convert(c, to, value, fromUnit, shown) == Convert(c, to', value, fromUnit, shown)
  {
  }

  // ------------------------------------------------------ the three scripts

  const TemperatureAliases: map<string, string> := map[
    "c" := "celsius", "celsius" := "celsius", "°c" := "celsius",
    "f" := "fahrenheit", "fahrenheit" := "fahrenheit", "°f" := "fahrenheit",
    "k" := "kelvin", "kelvin" := "kelvin"
  ]

  const SpeedAliases: map<string, string> := map[
    "mph" := "mile/hour", "mi/h" := "mile/hour", "mile/hour" := "mile/hour",
    "kmh" := "kilometer/hour", "km/h" := "kilometer/hour", "kph" := "kilometer/hour",
    "kilometer/hour" := "kilometer/hour",
    "ms" := "meter/second", "m/s" := "meter/second", "meter/second" := "meter/second",
    "knot" := "knot", "knots" := "knot", "kt" := "knot",
    "fps" := "foot/second", "ft/s" := "foot/second", "foot/second" := "foot/second"
  ]

  const PressureAliases: map<string, string> := map[
    "pa" := "pascal", "pascal" := "pascal",
    "kpa" := "kilopascal", "kilopascal" := "kilopascal",
    "mpa" := "megapascal", "megapascal" := "megapascal",
    "bar" := "bar", "bars" := "bar",
    "mbar" := "millibar", "millibar" := "millibar",
    "atm" := "atmosphere", "atmosphere" := "atmosphere",
    "psi" := "psi", "pound/inch^2" := "psi",
    "torr" := "torr",
    "mmhg" := "millimeter_mercury", "millimeter_mercury" := "millimeter_mercury",
    "inhg" := "inch_mercury", "inch_mercury" := "inch_mercury"
  ]

  /** `convert_temperature`: Celsius, Fahrenheit, Kelvin; the context from the Celsius value. */
  const Temperature := Converter(
    TemperatureAliases, "Use celsius, fahrenheit, or kelvin",
    ["celsius", "fahrenheit", "kelvin"], 0, TemperatureContext)

  /** `convert_speed`: mph, km/h, m/s, knots, ft/s; the context from the km/h value. */
  const Speed := Converter(
    SpeedAliases, "Use mph, kmh, m/s, knot, or fps",
    ["mile/hour", "kilometer/hour", "meter/second", "knot", "foot/second"], 1, SpeedContext)

  /** `convert_pressure`: eight pressure units; the context from the kPa value. */
  const Pressure := Converter(
    PressureAliases, "Use pa, kpa, mpa, bar, atm, psi, torr, mmhg, or inhg",
    ["pascal", "kilopascal", "megapascal", "bar", "atmosphere", "psi", "torr", "millimeter_mercury"], 1, PressureContext)

  lemma TemperatureAliasesCanonical()
    ensures Canonical(TemperatureAliases)
  {
    TemperatureAliasesClosed();
    TemperatureNamesLowerCase();
  }

  lemma TemperatureAliasesClosed()
    ensures forall k :: k in TemperatureAliases ==> TemperatureAliases[k] in TemperatureAliases && TemperatureAliases[TemperatureAliases[k]] == TemperatureAliases[k]
  {
  }

  lemma TemperatureNamesLowerCase()
    ensures forall k :: k in TemperatureAliases ==> NoUpper(TemperatureAliases[k])
  {
  }

  lemma SpeedAliasesCanonical()
    ensures Canonical(SpeedAliases)
  {
    SpeedAliasesClosed();
    SpeedNamesLowerCase();
  }

  lemma SpeedAliasesClosed()
    ensures forall k :: k in SpeedAliases ==> SpeedAliases[k] in SpeedAliases && SpeedAliases[SpeedAliases[k]] == SpeedAliases[k]
  {
  }

  lemma SpeedNamesLowerCase()
    ensures forall k :: k in SpeedAliases ==> NoUpper(SpeedAliases[k])
  {
  }

  lemma PressureAliasesCanonical()
    ensures Canonical(PressureAliases)
  {
    PressureTargetsPresent();
    PressureTargetsFixed();
    PressureNamesLowerCase();
  }

  lemma PressureTargetsPresent()
    ensures forall k :: k in PressureAliases ==> PressureAliases[k] in PressureAliases
  {
  }

  lemma PressureTargetsFixed()
    ensures forall k :: k in PressureAliases && PressureAliases[k] in PressureAliases ==> PressureAliases[PressureAliases[k]] == PressureAliases[k]
  {
  }

  lemma PressureNamesLowerCase()
    ensures forall k :: k in PressureAliases ==> NoUpper(PressureAliases[k])
  {
  }

  // ------------------------------------------------------------ spellings

  /** The spellings the temperature script accepts, in any case; the Kelvin one with a degree sign is not among them. */
  lemma TemperatureSpellings(s: string)
    ensures Lower(s) in {"c", "celsius", "°c"} ==> Normalize(TemperatureAliases, s) == Some("celsius")
    ensures Lower(s) in {"f", "fahrenheit", "°f"} ==> Normalize(TemperatureAliases, s) == Some("fahrenheit")
    ensures Lower(s) in {"k", "kelvin"} ==> Normalize(TemperatureAliases, s) == Some("kelvin")
    ensures Lower(s) == "°k" ==> Normalize(TemperatureAliases, s) == None
  {
  }

  /** The spellings the speed script accepts, in any case. */
  lemma SpeedSpellings(s: string)
    ensures Lower(s) in {"mph", "mi/h", "mile/hour"} ==> Normalize(SpeedAliases, s) == Some("mile/hour")
    ensures Lower(s) in {"kmh", "km/h", "kph", "kilometer/hour"} ==> Normalize(SpeedAliases, s) == Some("kilometer/hour")
    ensures Lower(s) in {"ms", "m/s", "meter/second"} ==> Normalize(SpeedAliases, s) == Some("meter/second")
    ensures Lower(s) in {"knot", "knots", "kt"} ==> Normalize(SpeedAliases, s) == Some("knot")
    ensures Lower(s) in {"fps", "ft/s", "foot/second"} ==> Normalize(SpeedAliases, s) == Some("foot/second")
  {
  }

  /** `psi` and `pound/inch^2` are one unit to the pressure script, in any case. */
  lemma PressureSpellings(s: string)
    ensures Lower(s) in {"psi", "pound/inch^2"} ==> Normalize(PressureAliases, s) == Some("psi")
    ensures Lower(s) in {"mmhg", "millimeter_mercury"} ==> Normalize(PressureAliases, s) == Some("millimeter_mercury")
    ensures Lower(s) in {"inhg", "inch_mercury"} ==> Normalize(PressureAliases, s) == Some("inch_mercury")
  {
  }

  /** Lower-casing sends `mPa` (millipascal) to the key of `megapascal`. */
  lemma MillipascalReadAsMegapascal()
    ensures Normalize(PressureAliases, "mPa") == Some("megapascal")
  {
    assert Lower("mPa") == "mpa";
  }

  // ------------------------------------------------------------ the engine

  /**
   * `.magnitude` of a converted single number. A conversion keeps a single
   * number single (`Batch.QuantityToQualifies`), so the second case never
   * arises from `EngineTo`.
   */
  function Magnitude(r: Result<Quantity>): Result<real> {
    match r
    case Err(e) => Err(e)
    case Ok(q) =>
      match q.value
      case Scalar(x) => Ok(x)
      case Vector(_) => Err(TypeError)
  }

  /** `Quantity(value, name).to(target).magnitude` as the unit engine performs it. */
  function EngineTo(): Conversion {
    (value: real, name: string, target: string) =>
      Magnitude(To(Quantity(Scalar(value), FromString(name, 1.0)), FromString(target, 1.0)))
  }

  /** The engine's conversion fails exactly when `to` raises, and otherwise reads off the single converted number. */
  lemma EngineMagnitude(value: real, name: string, target: string)
    ensures var r := To(Quantity(Scalar(value), FromString(name, 1.0)), FromString(target, 1.0));
      EngineTo()(value, name, target) == if r.Ok? then Ok(r.value.value.x) else Err(r.error)
  {
    Batch.QuantityToQualifies();
    var q := Quantity(Scalar(value), FromString(name, 1.0));
    assert Batch.QuantityTo()(q, FromString(target, 1.0)) == To(q, FromString(target, 1.0));
  }

  lemma KnotIsToken()
    ensures IsToken("knot")
  {
    var s := "knot";
    assert forall i :: 0 <= i < |s| ==> s[i] != '/' && s[i] != '*' && s[i] != ' ';
  }

  lemma KnotNotALength()
    ensures "knot" !in LengthUnits
  {
  }

  lemma KnotNotAMass()
    ensures "knot" !in MassUnits
  {
  }

  lemma KnotNotATime()
    ensures "knot" !in TimeUnits
  {
  }

  lemma KnotNotInShortLists()
    ensures "knot" !in TemperatureUnits && "knot" !in CurrentUnits && "knot" !in AmountUnits
    ensures "knot" !in LuminosityUnits && "knot" !in DimensionlessUnits
  {
  }

  /** The engine has no unit `knot`: the name parses as itself and has no dimension. */
  lemma KnotIsUnknown()
    ensures FromString("knot", 1.0).components == [("knot", 1)]
    ensures DimOf([("knot", 1)]) == Dimensions.Zero
  {
    KnotIsToken();
    ParseToken("knot");
    KnotNotALength();
    KnotNotAMass();
    KnotNotATime();
    KnotNotInShortLists();
    UnlistedName("knot");
    SingleNameDim("knot");
  }

  lemma MileIsLength()
    ensures BaseDim("mile") == Dimensions.Length
  {
    assert LengthUnits[20] == "mile";
    MileNotAMass();
    MileNotATime();
    MileNotInShortLists();
    ResolveAgrees("mile");
    LookupBaseUnits("meter");
  }

  lemma MileNotAMass()
    ensures "mile" !in MassUnits
  {
  }

  lemma MileNotATime()
    ensures "mile" !in TimeUnits
  {
  }

  lemma MileNotInShortLists()
    ensures "mile" !in TemperatureUnits && "mile" !in CurrentUnits && "mile" !in AmountUnits
    ensures "mile" !in LuminosityUnits && "mile" !in DimensionlessUnits
  {
  }

  lemma HourIsTime()
    ensures BaseDim("hour") == Dimensions.Time
  {
    assert TimeUnits[16] == "hour";
    HourNotInShortLists();
    ResolveAgrees("hour");
    LookupBaseUnits("second");
  }

  lemma HourNotInShortLists()
    ensures "hour" !in TemperatureUnits && "hour" !in CurrentUnits && "hour" !in AmountUnits
    ensures "hour" !in LuminosityUnits && "hour" !in DimensionlessUnits
  {
  }

  /** A single token, stripped or not, counts with the dimension of the base unit it resolves to. */
  lemma ParsedTokenDim(t: string)
    requires IsToken(t)
    ensures DimOf(ParseComponents(Strip(t))) == BaseDim(t)
  {
    StripTrimmed(t);
    ParseToken(t);
    SingleNameDim(t);
  }

  lemma MileAndHourAreTokens()
    ensures IsToken("mile") && IsToken("hour")
  {
    var mile, hour := "mile", "hour";
    assert forall i :: 0 <= i < |mile| ==> mile[i] != '/' && mile[i] != '*' && mile[i] != ' ';
    assert forall i :: 0 <= i < |hour| ==> hour[i] != '/' && hour[i] != '*' && hour[i] != ' ';
  }

  /** The quotient of two tokens has the first one's dimension minus the second one's. */
  lemma QuotientOfTokens(a: string, b: string)
    requires IsToken(a) && IsToken(b)
    ensures DimOf(ParseComponents(a + "/" + b)) == Dimensions.Sub(BaseDim(a), BaseDim(b))
  {
    ParseQuotientDim(a, b);
    ParsedTokenDim(a);
    ParsedTokenDim(b);
  }

  lemma MilePerHourText()
    ensures "mile/hour" == "mile" + "/" + "hour"
  {
  }

  /** `mile/hour` has the dimension of length over time, which is not zero. */
  lemma MilePerHourIsSpeed()
    ensures DimOf(FromString("mile/hour", 1.0).components) == Dimensions.Sub(Dimensions.Length, Dimensions.Time)
  {
    MilePerHourText();
    MileAndHourAreTokens();
    QuotientOfTokens("mile", "hour");
    MileIsLength();
    HourIsTime();
  }

  /** The dimension of speed is not that of a dimensionless number. */
  lemma SpeedIsNotDimensionless()
    ensures Dimensions.Sub(Dimensions.Length, Dimensions.Time) != Dimensions.Zero
  {
  }

  /** The engine refuses to convert between units whose dimensions differ. */
  lemma EngineRefusesIncompatible(value: real, name: string, target: string)
    requires !Compatible(FromString(name, 1.0), FromString(target, 1.0))
    ensures EngineTo()(value, name, target) == Err(ValueError)
  {
    EngineMagnitude(value, name, target);
  }

  /** No unit is compatible with two targets of different dimensions, so one of the two conversions fails. */
  lemma EngineFailsOnOneOf(value: real, name: string, a: string, b: string)
    requires DimOf(FromString(a, 1.0).components) != DimOf(FromString(b, 1.0).components)
    ensures EngineTo()(value, name, a).Err? || EngineTo()(value, name, b).Err?
  {
    if Compatible(FromString(name, 1.0), FromString(a, 1.0)) {
      EngineRefusesIncompatible(value, name, b);
    } else {
      EngineRefusesIncompatible(value, name, a);
    }
  }

  /** A converter two of whose targets can never both be reached reports no conversion at all. */
  lemma ClashingTargetsFail(c: Converter, to: Conversion, value: real, fromUnit: string, shown: string, i: nat, j: nat)
    requires c.contextFrom < |c.targets| && i < |c.targets| && j < |c.targets|
    requires forall name :: to(value, name, c.targets[i]).Err? || to(value, name, c.targets[j]).Err?
    ensures Convert(c, to, value, fromUnit, shown).Failure?
  {
    if Lower(fromUnit) in c.aliases {
      var name := c.aliases[Lower(fromUnit)];
      assert to(value, name, c.targets[i]).Err? || to(value, name, c.targets[j]).Err?;
    }
  }

  /** The first speed target, `mile/hour`, and the fourth, `knot`, differ in dimension. */
  lemma SpeedTargetsClash()
    ensures DimOf(FromString(Speed.targets[0], 1.0).components) != DimOf(FromString(Speed.targets[3], 1.0).components)
  {
    assert Speed.targets[0] == "mile/hour" && Speed.targets[3] == "knot";
    MilePerHourIsSpeed();
    SpeedIsNotDimensionless();
    KnotIsUnknown();
  }

  /**
   * `convert_speed` never reports a conversion: `mile/hour` is a speed while
   * `knot` is a name the engine does not know and so is dimensionless, and no
   * unit converts to both.
   */
  lemma SpeedNeverSucceeds(value: real, fromUnit: string, shown: string)
    ensures Convert(Speed, EngineTo(), value, fromUnit, shown).Failure?
  {
    var a, b := Speed.targets[0], Speed.targets[3];
    SpeedTargetsClash();
    forall name | true
      ensures EngineTo()(value, name, a).Err? || EngineTo()(value, name, b).Err?
    {
      EngineFailsOnOneOf(value, name, a, b);
    }
    ClashingTargetsFail(Speed, EngineTo(), value, fromUnit, shown, 0, 3);
  }
}
