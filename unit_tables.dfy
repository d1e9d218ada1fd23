/**
 * The static tables of the unit engine: the base units and their
 * dimensions, the factor of every known unit name relative to its base
 * unit, the temperature offsets, and the alias lists from which the
 * name -> base-unit map is built.
 */
module UnitTables {
  import opened Wrappers
  import opened Dimensions

  /** The base units and their dimensions, as an association list. */
  const BaseUnits: seq<(string, Dimension)> := [
    ("meter", Length),
    ("kilogram", Mass),
    ("second", Time),
    ("ampere", Current),
    ("kelvin", Temperature),
    ("mole", Amount),
    ("candela", Luminosity),
    ("dimensionless", Zero)
  ]

  /** The dimension listed for `name`, if any. */
  function LookupBase(list: seq<(string, Dimension)>, name: string): Option<Dimension> {
    if |list| == 0 then None
    else if list[0].0 == name then Some(list[0].1)
    else LookupBase(list[1..], name)
  }

  /** Conversion factors are strictly positive. */
  type Positive = r: real | r > 0.0 witness 1.0

  const LengthFactors: map<string, Positive> := map[
    "meter" := 1.0, "m" := 1.0, "meters" := 1.0,
    "kilometer" := 1000.0, "km" := 1000.0, "kilometers" := 1000.0,
    "centimeter" := 0.01, "cm" := 0.01, "centimeters" := 0.01,
    "millimeter" := 0.001, "mm" := 0.001, "millimeters" := 0.001,
    "micrometer" := 0.000001, "um" := 0.000001, "micrometers" := 0.000001,
    "nanometer" := 0.000000001, "nm" := 0.000000001, "nanometers" := 0.000000001,
    "angstrom" := 0.0000000001, "Å" := 0.0000000001,
    "mile" := 1609.344, "mi" := 1609.344, "miles" := 1609.344,
    "yard" := 0.9144, "yd" := 0.9144, "yards" := 0.9144,
    "foot" := 0.3048, "ft" := 0.3048, "feet" := 0.3048,
    "inch" := 0.0254, "in" := 0.0254, "inches" := 0.0254
  ]

  const MassFactors: map<string, Positive> := map[
    "kilogram" := 1.0, "kg" := 1.0, "kilograms" := 1.0,
    "gram" := 0.001, "g" := 0.001, "grams" := 0.001,
    "milligram" := 0.000001, "mg" := 0.000001, "milligrams" := 0.000001,
    "microgram" := 0.000000001, "ug" := 0.000000001, "micrograms" := 0.000000001,
    "pound" := 0.453592, "lb" := 0.453592, "pounds" := 0.453592,
    "ounce" := 0.0283495, "oz" := 0.0283495, "ounces" := 0.0283495,
    "ton" := 1000.0, "tons" := 1000.0, "tonne" := 1000.0, "tonnes" := 1000.0
  ]

  const TimeFactors: map<string, Positive> := map[
    "second" := 1.0, "s" := 1.0, "seconds" := 1.0, "sec" := 1.0,
    "millisecond" := 0.001, "ms" := 0.001, "milliseconds" := 0.001,
    "microsecond" := 0.000001, "us" := 0.000001, "microseconds" := 0.000001,
    "nanosecond" := 0.000000001, "ns" := 0.000000001, "nanoseconds" := 0.000000001,
    "minute" := 60.0, "min" := 60.0, "minutes" := 60.0,
    "hour" := 3600.0, "h" := 3600.0, "hr" := 3600.0, "hours" := 3600.0,
    "day" := 86400.0, "d" := 86400.0, "days" := 86400.0,
    "week" := 604800.0, "weeks" := 604800.0,
    "year" := 31536000.0, "yr" := 31536000.0, "years" := 31536000.0
  ]

  const TemperatureFactors: map<string, Positive> := map[
    "kelvin" := 1.0, "K" := 1.0,
    "celsius" := 1.0, "C" := 1.0, "degC" := 1.0,
    "fahrenheit" := 5.0 / 9.0, "F" := 5.0 / 9.0, "degF" := 5.0 / 9.0
  ]

  const CurrentFactors: map<string, Positive> := map[
    "ampere" := 1.0, "A" := 1.0, "amperes" := 1.0, "amp" := 1.0, "amps" := 1.0,
    "milliampere" := 0.001, "mA" := 0.001
  ]

  const AmountFactors: map<string, Positive> := map[
    "mole" := 1.0, "mol" := 1.0, "moles" := 1.0
  ]

  const LuminosityFactors: map<string, Positive> := map[
    "candela" := 1.0, "cd" := 1.0
  ]

  const EnergyFactors: map<string, Positive> := map[
    "joule" := 1.0, "J" := 1.0, "joules" := 1.0,
    "kilojoule" := 1000.0, "kJ" := 1000.0,
    "calorie" := 4.184, "cal" := 4.184, "calories" := 4.184,
    "kilocalorie" := 4184.0, "kcal" := 4184.0, "Calorie" := 4184.0,
    "electronvolt" := 0.0000000000000000001602176634, "eV" := 0.0000000000000000001602176634,
    "watt_hour" := 3600.0, "Wh" := 3600.0,
    "kilowatt_hour" := 3600000.0, "kWh" := 3600000.0
  ]

  const PowerFactors: map<string, Positive> := map[
    "watt" := 1.0, "W" := 1.0, "watts" := 1.0,
    "kilowatt" := 1000.0, "kW" := 1000.0, "kilowatts" := 1000.0,
    "megawatt" := 1000000.0, "MW" := 1000000.0, "megawatts" := 1000000.0,
    "horsepower" := 745.7, "hp" := 745.7
  ]

  const PressureFactors: map<string, Positive> := map[
    "pascal" := 1.0, "Pa" := 1.0,
    "kilopascal" := 1000.0, "kPa" := 1000.0,
    "megapascal" := 1000000.0, "MPa" := 1000000.0,
    "bar" := 100000.0, "bars" := 100000.0,
    "atmosphere" := 101325.0, "atm" := 101325.0,
    "psi" := 6894.76, "PSI" := 6894.76,
    "torr" := 133.322, "Torr" := 133.322
  ]

  const ForceFactors: map<string, Positive> := map[
    "newton" := 1.0, "N" := 1.0, "newtons" := 1.0,
    "kilonewton" := 1000.0, "kN" := 1000.0,
    "pound_force" := 4.44822, "lbf" := 4.44822
  ]

  const FrequencyFactors: map<string, Positive> := map[
    "hertz" := 1.0, "Hz" := 1.0,
    "kilohertz" := 1000.0, "kHz" := 1000.0,
    "megahertz" := 1000000.0, "MHz" := 1000000.0,
    "gigahertz" := 1000000000.0, "GHz" := 1000000000.0
  ]

  const VoltageFactors: map<string, Positive> := map[
    "volt" := 1.0, "V" := 1.0, "volts" := 1.0,
    "millivolt" := 0.001, "mV" := 0.001,
    "kilovolt" := 1000.0, "kV" := 1000.0
  ]

  const ChargeFactors: map<string, Positive> := map[
    "coulomb" := 1.0, "C" := 1.0, "coulombs" := 1.0
  ]

  const ResistanceFactors: map<string, Positive> := map[
    "ohm" := 1.0, "Ω" := 1.0, "ohms" := 1.0,
    "kiloohm" := 1000.0, "kΩ" := 1000.0,
    "megaohm" := 1000000.0, "MΩ" := 1000000.0
  ]

  const VolumeFactors: map<string, Positive> := map[
    "liter" := 0.001, "L" := 0.001, "liters" := 0.001, "litre" := 0.001, "litres" := 0.001,
    "milliliter" := 0.000001, "mL" := 0.000001, "milliliters" := 0.000001,
    "gallon" := 0.00378541, "gal" := 0.00378541, "gallons" := 0.00378541,
    "quart" := 0.000946353, "qt" := 0.000946353,
    "pint" := 0.000473176, "pt" := 0.000473176,
    "cup" := 0.000236588, "cups" := 0.000236588,
    "fluid_ounce" := 0.0000295735, "fl_oz" := 0.0000295735
  ]

  const AreaFactors: map<string, Positive> := map[
    "hectare" := 10000.0, "ha" := 10000.0,
    "acre" := 4046.86, "acres" := 4046.86
  ]

  const AngleFactors: map<string, Positive> := map[
    "radian" := 1.0, "rad" := 1.0, "radians" := 1.0,
    "degree" := 0.0174533, "deg" := 0.0174533, "degrees" := 0.0174533
  ]

  const DimensionlessFactors: map<string, Positive> := map[
    "dimensionless" := 1.0,
    "percent" := 0.01, "%" := 0.01,
    "ppm" := 0.000001,
    "ppb" := 0.000000001
  ]

  /** The factor tables by category, in the order the source lists them. */
  const FactorTables: seq<map<string, Positive>> := [
    LengthFactors, MassFactors, TimeFactors, TemperatureFactors,
    CurrentFactors, AmountFactors, LuminosityFactors, EnergyFactors,
    PowerFactors, PressureFactors, ForceFactors, FrequencyFactors,
    VoltageFactors, ChargeFactors, ResistanceFactors, VolumeFactors,
    AreaFactors, AngleFactors, DimensionlessFactors
  ]

  /** Several tables merged into one dict literal: a later table wins on a repeated name. */
  function Merged(tables: seq<map<string, Positive>>): map<string, Positive> {
    if |tables| == 0 then map[] else Merged(tables[..|tables| - 1]) + tables[|tables| - 1]
  }

  /**
   * `_CONVERSIONS`, the factor of each known unit name relative to its base
   * unit. The name "C" is listed under temperature and again under charge,
   * both times with factor 1.
   */
  function Conversions(): map<string, Positive> {
    Merged(FactorTables)
  }

  /** The factor `tables` give `name`: the last table listing it decides; unknown names count 1. */
  function FactorIn(tables: seq<map<string, Positive>>, name: string): Positive {
    if |tables| == 0 then 1.0
    else if name in tables[|tables| - 1] then tables[|tables| - 1][name]
    else FactorIn(tables[..|tables| - 1], name)
  }

  lemma {:induction false} FactorInMerged(tables: seq<map<string, Positive>>, name: string)
    ensures FactorIn(tables, name) == if name in Merged(tables) then Merged(tables)[name] else 1.0
  {
    if |tables| > 0 {
      FactorInMerged(tables[..|tables| - 1], name);
    }
  }

  /** The additive offsets of the affine temperature units, in kelvin. */
  const TemperatureOffsets: map<string, real> := map[
    "celsius" := 273.15, "C" := 273.15, "degC" := 273.15,
    "fahrenheit" := 459.67, "F" := 459.67, "degF" := 459.67
  ]

  const LengthUnits: seq<string> := ["meter", "m", "meters", "kilometer", "km", "kilometers", "centimeter", "cm", "centimeters", "millimeter", "mm", "millimeters", "micrometer", "um", "micrometers", "nanometer", "nm", "nanometers", "angstrom", "Å", "mile", "mi", "miles", "yard", "yd", "yards", "foot", "ft", "feet", "inch", "in", "inches"]
  const MassUnits: seq<string> := ["kilogram", "kg", "kilograms", "gram", "g", "grams", "milligram", "mg", "milligrams", "microgram", "ug", "micrograms", "pound", "lb", "pounds", "ounce", "oz", "ounces", "ton", "tons", "tonne", "tonnes"]
  const TimeUnits: seq<string> := ["second", "s", "seconds", "sec", "millisecond", "ms", "milliseconds", "microsecond", "us", "microseconds", "nanosecond", "ns", "nanoseconds", "minute", "min", "minutes", "hour", "h", "hr", "hours", "day", "d", "days", "week", "weeks", "year", "yr", "years"]
  const TemperatureUnits: seq<string> := ["kelvin", "K", "celsius", "C", "degC", "fahrenheit", "F", "degF"]
  const CurrentUnits: seq<string> := ["ampere", "A", "amperes", "amp", "amps", "milliampere", "mA"]
  const AmountUnits: seq<string> := ["mole", "mol", "moles"]
  const LuminosityUnits: seq<string> := ["candela", "cd"]
  const DimensionlessUnits: seq<string> := ["dimensionless", "percent", "%", "ppm", "ppb"]

  /** The alias lists with the base unit of each, in the order they are registered. */
  const AliasGroups: seq<(seq<string>, string)> := [
    (LengthUnits, "meter"), (MassUnits, "kilogram"), (TimeUnits, "second"),
    (TemperatureUnits, "kelvin"), (CurrentUnits, "ampere"), (AmountUnits, "mole"),
    (LuminosityUnits, "candela"), (DimensionlessUnits, "dimensionless")
  ]

  /** The name -> base-unit map after registering `groups` in order (a later registration wins). */
  function RegisterGroups(groups: seq<(seq<string>, string)>): map<string, string> {
    if |groups| == 0 then map[]
    else
      var last := groups[|groups| - 1];
      RegisterGroups(groups[..|groups| - 1]) + map u | u in last.0 :: last.1
  }

  /** What `groups` map `name` to: the base of the last group listing it, else the name itself. */
  function ResolveIn(groups: seq<(seq<string>, string)>, name: string): string {
    if |groups| == 0 then name
    else if name in groups[|groups| - 1].0 then groups[|groups| - 1].1
    else ResolveIn(groups[..|groups| - 1], name)
  }

  /** The registered map sends every name it holds where `ResolveIn` does, and holds exactly the listed names. */
  lemma {:induction false} RegisterGroupsResolves(groups: seq<(seq<string>, string)>, name: string)
    ensures name in RegisterGroups(groups) ==> RegisterGroups(groups)[name] == ResolveIn(groups, name)
    ensures name !in RegisterGroups(groups) ==> ResolveIn(groups, name) == name
    ensures name in RegisterGroups(groups) <==> exists i :: 0 <= i < |groups| && name in groups[i].0
  {
    if |groups| > 0 {
      var init := groups[..|groups| - 1];
      RegisterGroupsResolves(init, name);
      if name in RegisterGroups(init) {
        var i :| 0 <= i < |init| && name in init[i].0;
        assert groups[i] == init[i];
      }
      if exists i :: 0 <= i < |groups| && name in groups[i].0 {
        var i :| 0 <= i < |groups| && name in groups[i].0;
        if i < |init| {
          assert init[i] == groups[i];
        }
      }
    }
  }

  /**
   * The base unit a name resolves to, `_UNIT_TO_BASE.get(name, name)`.
   */
  function Resolve(name: string): string {
    ResolveIn(AliasGroups, name)
  }

  /** `Resolve` written out: the alias lists searched from the last registered to the first. */
  function ResolveChain(name: string): string {
    if name in DimensionlessUnits then "dimensionless"
    else if name in LuminosityUnits then "candela"
    else if name in AmountUnits then "mole"
    else if name in CurrentUnits then "ampere"
    else if name in TemperatureUnits then "kelvin"
    else if name in TimeUnits then "second"
    else if name in MassUnits then "kilogram"
    else if name in LengthUnits then "meter"
    else name
  }

  /** The written-out search agrees with the registered alias lists. */
  lemma ResolveAgrees(name: string)
    ensures Resolve(name) == ResolveChain(name)
  {
    var g := AliasGroups;
    assert g[..7] == g[..7] && g[7] == (DimensionlessUnits, "dimensionless");
    assert ResolveIn(g, name) == if name in DimensionlessUnits then "dimensionless" else ResolveIn(g[..7], name);
    assert g[..7][..6] == g[..6] && g[..7][6] == (LuminosityUnits, "candela");
    assert ResolveIn(g[..7], name) == if name in LuminosityUnits then "candela" else ResolveIn(g[..6], name);
    assert g[..6][..5] == g[..5] && g[..6][5] == (AmountUnits, "mole");
    assert ResolveIn(g[..6], name) == if name in AmountUnits then "mole" else ResolveIn(g[..5], name);
    assert g[..5][..4] == g[..4] && g[..5][4] == (CurrentUnits, "ampere");
    assert ResolveIn(g[..5], name) == if name in CurrentUnits then "ampere" else ResolveIn(g[..4], name);
    assert g[..4][..3] == g[..3] && g[..4][3] == (TemperatureUnits, "kelvin");
    assert ResolveIn(g[..4], name) == if name in TemperatureUnits then "kelvin" else ResolveIn(g[..3], name);
    assert g[..3][..2] == g[..2] && g[..3][2] == (TimeUnits, "second");
    assert ResolveIn(g[..3], name) == if name in TimeUnits then "second" else ResolveIn(g[..2], name);
    assert g[..2][..1] == g[..1] && g[..2][1] == (MassUnits, "kilogram");
    assert ResolveIn(g[..2], name) == if name in MassUnits then "kilogram" else ResolveIn(g[..1], name);
    assert g[..1][..0] == g[..0] && g[..1][0] == (LengthUnits, "meter");
    assert ResolveIn(g[..1], name) == if name in LengthUnits then "meter" else ResolveIn(g[..0], name);
  }

  /** `_CONVERSIONS.get(name, 1.0)`: the factor of a name relative to its base unit; unknown names count 1. */
  function Factor(name: string): (f: Positive)
    ensures f == if name in Conversions() then Conversions()[name] else 1.0
  {
    FactorInMerged(FactorTables, name);
    FactorIn(FactorTables, name)
  }

  /** The dimension of the base unit a name resolves to; a name that resolves to no base unit has none. */
  function BaseDim(name: string): Dimension {
    match LookupBase(BaseUnits, Resolve(name))
    case Some(d) => d
    case None => Zero
  }

  /** The base-unit list written out. */
  lemma LookupBaseUnits(name: string)
    ensures LookupBase(BaseUnits, name) ==
      if name == "meter" then Some(Length)
      else if name == "kilogram" then Some(Mass)
      else if name == "second" then Some(Time)
      else if name == "ampere" then Some(Current)
      else if name == "kelvin" then Some(Temperature)
      else if name == "mole" then Some(Amount)
      else if name == "candela" then Some(Luminosity)
      else if name == "dimensionless" then Some(Zero)
      else None
  {
    var l := BaseUnits;
    assert l[1..][1..][1..][1..][1..][1..][1..][1..] == [];
    assert LookupBase(l[1..][1..][1..][1..][1..][1..][1..], name) == if name == "dimensionless" then Some(Zero) else None;
    assert LookupBase(l[1..][1..][1..][1..][1..][1..], name) == if name == "candela" then Some(Luminosity) else LookupBase(l[1..][1..][1..][1..][1..][1..][1..], name);
    assert LookupBase(l[1..][1..][1..][1..][1..], name) == if name == "mole" then Some(Amount) else LookupBase(l[1..][1..][1..][1..][1..][1..], name);
    assert LookupBase(l[1..][1..][1..][1..], name) == if name == "kelvin" then Some(Temperature) else LookupBase(l[1..][1..][1..][1..][1..], name);
    assert LookupBase(l[1..][1..][1..], name) == if name == "ampere" then Some(Current) else LookupBase(l[1..][1..][1..][1..], name);
    assert LookupBase(l[1..][1..], name) == if name == "second" then Some(Time) else LookupBase(l[1..][1..][1..], name);
    assert LookupBase(l[1..], name) == if name == "kilogram" then Some(Mass) else LookupBase(l[1..][1..], name);
  }

  /** A base unit's name resolves to itself. */
  lemma ResolveBaseName(b: string)
    requires LookupBase(BaseUnits, b).Some?
    ensures Resolve(b) == b
  {
    LookupBaseUnits(b);
    ResolveAgrees(b);
    if b == "meter" {
      ResolvesMeter();
    } else if b == "kilogram" {
      ResolvesKilogram();
    } else if b == "second" {
      ResolvesSecond();
    } else if b == "ampere" {
      ResolvesAmpere();
    } else if b == "kelvin" {
      ResolvesKelvin();
    } else if b == "mole" {
      ResolvesMole();
    } else if b == "candela" {
      ResolvesCandela();
    } else if b == "dimensionless" {
      ResolvesDimensionless();
    }
  }

  lemma ResolvesMeter()
    ensures ResolveChain("meter") == "meter"
  {
    MeterNotInTime();
    MeterNotInMass();
    MeterNotInSmallLists();
    assert LengthUnits[0] == "meter";
  }

  lemma MeterNotInTime()
    ensures "meter" !in TimeUnits
  {
  }

  lemma MeterNotInMass()
    ensures "meter" !in MassUnits
  {
  }

  lemma MeterNotInSmallLists()
    ensures "meter" !in DimensionlessUnits && "meter" !in LuminosityUnits && "meter" !in AmountUnits
    ensures "meter" !in CurrentUnits && "meter" !in TemperatureUnits
  {
  }

  lemma ResolvesKilogram()
    ensures ResolveChain("kilogram") == "kilogram"
  {
    KilogramNotInTime();
    KilogramNotInSmallLists();
    assert MassUnits[0] == "kilogram";
  }

  lemma KilogramNotInTime()
    ensures "kilogram" !in TimeUnits
  {
  }

  lemma KilogramNotInSmallLists()
    ensures "kilogram" !in DimensionlessUnits && "kilogram" !in LuminosityUnits && "kilogram" !in AmountUnits
    ensures "kilogram" !in CurrentUnits && "kilogram" !in TemperatureUnits
  {
  }

  lemma ResolvesSecond()
    ensures ResolveChain("second") == "second"
  {
  }

  lemma ResolvesAmpere()
    ensures ResolveChain("ampere") == "ampere"
  {
  }

  lemma ResolvesKelvin()
    ensures ResolveChain("kelvin") == "kelvin"
  {
  }

  lemma ResolvesMole()
    ensures ResolveChain("mole") == "mole"
  {
  }

  lemma ResolvesCandela()
    ensures ResolveChain("candela") == "candela"
  {
  }

  lemma ResolvesDimensionless()
    ensures ResolveChain("dimensionless") == "dimensionless"
  {
  }

  /** A name resolves either to itself or to one of the base units. */
  lemma ResolveResult(name: string)
    ensures Resolve(name) == name || LookupBase(BaseUnits, Resolve(name)).Some?
  {
    ResolveAgrees(name);
    LookupBaseUnits(Resolve(name));
  }

  /** Whether a name appears in any alias list. */
  predicate Listed(name: string) {
    name in LengthUnits || name in MassUnits || name in TimeUnits || name in TemperatureUnits
    || name in CurrentUnits || name in AmountUnits || name in LuminosityUnits || name in DimensionlessUnits
  }

  /** A name in no alias list resolves to itself and has no dimension. */
  lemma UnlistedName(name: string)
    requires !Listed(name)
    ensures Resolve(name) == name && BaseDim(name) == Zero
  {
    ResolveAgrees(name);
    assert LengthUnits[0] == "meter" && MassUnits[0] == "kilogram" && TimeUnits[0] == "second";
    assert TemperatureUnits[0] == "kelvin" && CurrentUnits[0] == "ampere" && AmountUnits[0] == "mole";
    assert LuminosityUnits[0] == "candela" && DimensionlessUnits[0] == "dimensionless";
    LookupBaseUnits(name);
  }

  /** No name in the list contains a `^`. */
  predicate CaretFree(names: seq<string>) {
    forall i :: 0 <= i < |names| ==> '^' !in names[i]
  }

  lemma LengthCaretFree()
    ensures CaretFree(LengthUnits)
  {
  }

  lemma MassCaretFree()
    ensures CaretFree(MassUnits)
  {
  }

  lemma TimeCaretFree()
    ensures CaretFree(TimeUnits)
  {
  }

  lemma OtherCaretFree()
    ensures CaretFree(TemperatureUnits) && CaretFree(CurrentUnits) && CaretFree(AmountUnits)
    ensures CaretFree(LuminosityUnits) && CaretFree(DimensionlessUnits)
  {
  }

  /** No alias contains a `^`, so a name with a `^` is in no alias list. */
  lemma CaretUnlisted(name: string)
    requires '^' in name
    ensures !Listed(name)
  {
    LengthCaretFree();
    MassCaretFree();
    TimeCaretFree();
    OtherCaretFree();
  }
}
