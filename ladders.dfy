/**
 * The context labels of the converter scripts: each is a ladder of
 * `if x < t` tests, with a few exact points tested for equality on the way.
 * `Band` is the rung a ladder of thresholds puts a value on; each ladder
 * is shown to pick, away from its exact points, the label of that rung.
 */
module Ladders {

  /**
   * The index of the first threshold `x` is below, or `|ts|` when it is
   * below none: the rung of a ladder of `if x < t` tests.
   */
  function Band(ts: seq<real>, x: real): (k: nat)
    ensures k <= |ts|
  {
    if |ts| == 0 || x < ts[0] then 0 else 1 + Band(ts[1..], x)
  }

  /** `Band` is the first threshold above `x`: all earlier ones are at most `x`. */
  lemma {:induction false} BandSpec(ts: seq<real>, x: real)
    ensures forall j :: 0 <= j < Band(ts, x) ==> ts[j] <= x
    ensures Band(ts, x) < |ts| ==> x < ts[Band(ts, x)]
  {
    if |ts| > 0 && ts[0] <= x {
      BandSpec(ts[1..], x);
    }
  }

  predicate Increasing(ts: seq<real>) {
    forall i :: 0 < i < |ts| ==> ts[i - 1] < ts[i]
  }

  /** Increasing thresholds are ordered by index. */
  lemma {:induction false} IncreasingOrdered(ts: seq<real>, i: nat, j: nat)
    requires Increasing(ts) && i <= j < |ts|
    ensures ts[i] <= ts[j]
    decreases j - i
  {
    if i < j {
      IncreasingOrdered(ts, i, j - 1);
    }
  }

  /** On increasing thresholds, the rung of `x` is the `k` with `ts[k - 1] <= x < ts[k]`. */
  lemma BandIs(ts: seq<real>, x: real, k: nat)
    requires Increasing(ts) && k <= |ts|
    requires k == 0 || ts[k - 1] <= x
    requires k == |ts| || x < ts[k]
    ensures Band(ts, x) == k
  {
    BandSpec(ts, x);
    if Band(ts, x) < k {
      IncreasingOrdered(ts, Band(ts, x), k - 1);
    }
  }

  /** On increasing thresholds a larger value never sits on a lower rung. */
  lemma {:induction false} BandMonotone(ts: seq<real>, x: real, y: real)
    requires Increasing(ts) && x <= y
    ensures Band(ts, x) <= Band(ts, y)
  {
    if |ts| > 0 && ts[0] <= x {
      assert Increasing(ts[1..]) by {
        forall i | 0 < i < |ts| - 1
          ensures ts[1..][i - 1] < ts[1..][i]
        {
          assert ts[1..][i - 1] == ts[i] && ts[1..][i] == ts[i + 1];
        }
      }
      BandMonotone(ts[1..], x, y);
    }
  }

  // ---------------------------------------------------------- temperature

  const BelowAbsoluteZero: string := "Below absolute zero (impossible!)"
  const Cryogenic: string := "Cryogenic temperatures (liquid nitrogen)"
  const ExtremelyCold: string := "Extremely cold (Antarctic winter)"
  const SevereCold: string := "Severe cold (Arctic conditions)"
  const VeryCold: string := "Very cold (freezer temperature)"
  const BelowFreezing: string := "Below freezing (ice forms)"
  const FreezingPoint: string := "Freezing point of water"
  const Cold: string := "Cold (refrigerator temperature)"
  const Cool: string := "Cool (light jacket weather)"
  const Mild: string := "Mild (comfortable indoors)"
  const RoomTemperature: string := "Room temperature (comfortable)"
  const Warm: string := "Warm (pleasant summer day)"
  const Hot: string := "Hot (air conditioning recommended)"
  const VeryHot: string := "Very hot (heat warning)"
  const ExtremelyHot: string := "Extremely hot (dangerous)"
  const Scalding: string := "Scalding hot (severe burns)"
  const BoilingPoint: string := "Boiling point of water"
  const VeryHigh: string := "Very high (cooking temperatures)"
  const ExtremelyHigh: string := "Extremely high (oven temperatures)"
  const IndustrialHeat: string := "Industrial heat (metalworking)"
  const ExtremeHeat: string := "Extreme heat (furnaces, welding)"
  const Plasma: string := "Extreme temperatures (plasma, stars)"

  /** `get_temperature_context`: the label for a temperature in degrees Celsius. */
  function TemperatureContext(celsius: real): string {
    if celsius < -273.0 then BelowAbsoluteZero
    else if celsius < -200.0 then Cryogenic
    else if celsius < -100.0 then ExtremelyCold
    else if celsius < -40.0 then SevereCold
    else if celsius < -20.0 then VeryCold
    else if celsius < 0.0 then BelowFreezing
    else if celsius == 0.0 then FreezingPoint
    else if celsius < 10.0 then Cold
    else if celsius < 15.0 then Cool
    else if celsius < 20.0 then Mild
    else if celsius < 25.0 then RoomTemperature
    else if celsius < 30.0 then Warm
    else if celsius < 35.0 then Hot
    else if celsius < 40.0 then VeryHot
    else if celsius < 50.0 then ExtremelyHot
    else if celsius < 100.0 then Scalding
    else if celsius == 100.0 then BoilingPoint
    else if celsius < 200.0 then VeryHigh
    else if celsius < 500.0 then ExtremelyHigh
    else if celsius < 1000.0 then IndustrialHeat
    else if celsius < 5000.0 then ExtremeHeat
    else Plasma
  }

  /** The temperature ladder's thresholds, and the label of each rung (one more than thresholds). */
  const TemperatureThresholds: seq<real> :=
    [-273.0, -200.0, -100.0, -40.0, -20.0, 0.0, 10.0, 15.0, 20.0, 25.0, 30.0, 35.0, 40.0, 50.0, 100.0, 200.0, 500.0, 1000.0, 5000.0]
  const TemperatureLabels: seq<string> := [
    BelowAbsoluteZero, Cryogenic, ExtremelyCold, SevereCold, VeryCold, BelowFreezing,
    Cold, Cool, Mild, RoomTemperature, Warm, Hot, VeryHot, ExtremelyHot, Scalding,
    VeryHigh, ExtremelyHigh, IndustrialHeat, ExtremeHeat, Plasma
  ]

  lemma TemperatureThresholdsIncrease()
    ensures Increasing(TemperatureThresholds)
  {
  }

  /** The entries of the Temperature tables, one by one. */
  lemma TemperatureThresholdValues()
    ensures |TemperatureThresholds| == 19
    ensures TemperatureThresholds[0] == -273.0 && TemperatureThresholds[1] == -200.0 && TemperatureThresholds[2] == -100.0 && TemperatureThresholds[3] == -40.0
    ensures TemperatureThresholds[4] == -20.0 && TemperatureThresholds[5] == 0.0 && TemperatureThresholds[6] == 10.0 && TemperatureThresholds[7] == 15.0
    ensures TemperatureThresholds[8] == 20.0 && TemperatureThresholds[9] == 25.0 && TemperatureThresholds[10] == 30.0 && TemperatureThresholds[11] == 35.0
    ensures TemperatureThresholds[12] == 40.0 && TemperatureThresholds[13] == 50.0 && TemperatureThresholds[14] == 100.0 && TemperatureThresholds[15] == 200.0
    ensures TemperatureThresholds[16] == 500.0 && TemperatureThresholds[17] == 1000.0 && TemperatureThresholds[18] == 5000.0
  {
  }

  lemma TemperatureLabelValues()
    ensures |TemperatureLabels| == 20
    ensures TemperatureLabels[0] == BelowAbsoluteZero && TemperatureLabels[1] == Cryogenic && TemperatureLabels[2] == ExtremelyCold && TemperatureLabels[3] == SevereCold
    ensures TemperatureLabels[4] == VeryCold && TemperatureLabels[5] == BelowFreezing && TemperatureLabels[6] == Cold && TemperatureLabels[7] == Cool
    ensures TemperatureLabels[8] == Mild && TemperatureLabels[9] == RoomTemperature && TemperatureLabels[10] == Warm && TemperatureLabels[11] == Hot
    ensures TemperatureLabels[12] == VeryHot && TemperatureLabels[13] == ExtremelyHot && TemperatureLabels[14] == Scalding && TemperatureLabels[15] == VeryHigh
    ensures TemperatureLabels[16] == ExtremelyHigh && TemperatureLabels[17] == IndustrialHeat && TemperatureLabels[18] == ExtremeHeat && TemperatureLabels[19] == Plasma
  {
  }

  /**
   * Apart from the two exact points 0 and 100, the label is the one of the
   * rung of the first threshold the temperature is below.
   */
  lemma TemperatureContextByBand(celsius: real)
    ensures TemperatureContext(celsius) ==
      if celsius == 0.0 then FreezingPoint
      else if celsius == 100.0 then BoilingPoint
      else TemperatureLabels[Band(TemperatureThresholds, celsius)]
  {
    if celsius < 0.0 {
      TemperatureBelowFreezing(celsius);
    } else if celsius == 0.0 || celsius == 100.0 {
    } else if celsius < 100.0 {
      TemperatureBelowBoiling(celsius);
    } else {
      TemperatureAboveBoiling(celsius);
    }
  }

  lemma TemperatureBelowFreezing(c: real)
    requires c < 0.0
    ensures TemperatureContext(c) == TemperatureLabels[Band(TemperatureThresholds, c)]
  {
    var ts := TemperatureThresholds;
    TemperatureThresholdsIncrease();
    TemperatureThresholdValues();
    TemperatureLabelValues();
    if c < -273.0 { BandIs(ts, c, 0); }
    else if c < -200.0 { BandIs(ts, c, 1); }
    else if c < -100.0 { BandIs(ts, c, 2); }
    else if c < -40.0 { BandIs(ts, c, 3); }
    else if c < -20.0 { BandIs(ts, c, 4); }
    else { BandIs(ts, c, 5); }
  }

  lemma TemperatureBelowBoiling(c: real)
    requires 0.0 < c < 100.0
    ensures TemperatureContext(c) == TemperatureLabels[Band(TemperatureThresholds, c)]
  {
    var ts := TemperatureThresholds;
    TemperatureThresholdsIncrease();
    TemperatureThresholdValues();
    TemperatureLabelValues();
    if c < 10.0 { BandIs(ts, c, 6); }
    else if c < 15.0 { BandIs(ts, c, 7); }
    else if c < 20.0 { BandIs(ts, c, 8); }
    else if c < 25.0 { BandIs(ts, c, 9); }
    else if c < 30.0 { BandIs(ts, c, 10); }
    else if c < 35.0 { BandIs(ts, c, 11); }
    else if c < 40.0 { BandIs(ts, c, 12); }
    else if c < 50.0 { BandIs(ts, c, 13); }
    else { BandIs(ts, c, 14); }
  }

  lemma TemperatureAboveBoiling(c: real)
    requires 100.0 < c
    ensures TemperatureContext(c) == TemperatureLabels[Band(TemperatureThresholds, c)]
  {
    var ts := TemperatureThresholds;
    TemperatureThresholdsIncrease();
    TemperatureThresholdValues();
    TemperatureLabelValues();
    if c < 200.0 { BandIs(ts, c, 15); }
    else if c < 500.0 { BandIs(ts, c, 16); }
    else if c < 1000.0 { BandIs(ts, c, 17); }
    else if c < 5000.0 { BandIs(ts, c, 18); }
    else { BandIs(ts, c, 19); }
  }

  // ---------------------------------------------------------- speed

  const NegativeSpeed: string := "Negative speed (moving backward)"
  const Stationary: string := "Stationary (not moving)"
  const VerySlowWalk: string := "Very slow walk"
  const WalkingPace: string := "Walking pace"
  const JoggingPace: string := "Jogging pace"
  const RunningPace: string := "Running pace"
  const BicycleSpeed: string := "Bicycle speed"
  const CityDriving: string := "City driving"
  const HighwayDriving: string := "Highway driving"
  const FastHighwayDriving: string := "Fast highway driving"
  const RaceCarSpeed: string := "Race car speed"
  const HighSpeedTrain: string := "High-speed train"
  const FormulaOne: string := "Formula 1 / Racing"
  const JetCruising: string := "Jet aircraft cruising"
  const SpeedOfSound: string := "Speed of sound (Mach 1)"
  const Supersonic: string := "Supersonic aircraft"
  const Hypersonic: string := "Hypersonic speed"
  const OrbitalVelocity: string := "Orbital velocity"
  const EscapeVelocity: string := "Escape velocity"
  const ExtremeVelocity: string := "Extreme velocity"

  /** `get_speed_context`: the label for a speed in kilometres per hour. */
  function SpeedContext(kmh: real): string {
    if kmh < 0.0 then NegativeSpeed
    else if kmh == 0.0 then Stationary
    else if kmh < 5.0 then VerySlowWalk
    else if kmh < 7.0 then WalkingPace
    else if kmh < 12.0 then JoggingPace
    else if kmh < 20.0 then RunningPace
    else if kmh < 30.0 then BicycleSpeed
    else if kmh < 50.0 then CityDriving
    else if kmh < 80.0 then HighwayDriving
    else if kmh < 120.0 then FastHighwayDriving
    else if kmh < 200.0 then RaceCarSpeed
    else if kmh < 300.0 then HighSpeedTrain
    else if kmh < 500.0 then FormulaOne
    else if kmh < 900.0 then JetCruising
    else if kmh < 1200.0 then SpeedOfSound
    else if kmh < 2000.0 then Supersonic
    else if kmh < 10000.0 then Hypersonic
    else if kmh < 30000.0 then OrbitalVelocity
    else if kmh < 100000.0 then EscapeVelocity
    else ExtremeVelocity
  }

  /** The speed ladder's thresholds, and the label of each rung (one more than thresholds). */
  const SpeedThresholds: seq<real> :=
    [0.0, 5.0, 7.0, 12.0, 20.0, 30.0, 50.0, 80.0, 120.0, 200.0, 300.0, 500.0, 900.0, 1200.0, 2000.0, 10000.0, 30000.0, 100000.0]
  const SpeedLabels: seq<string> := [
    NegativeSpeed, VerySlowWalk, WalkingPace, JoggingPace, RunningPace,
    BicycleSpeed, CityDriving, HighwayDriving, FastHighwayDriving, RaceCarSpeed,
    HighSpeedTrain, FormulaOne, JetCruising, SpeedOfSound, Supersonic,
    Hypersonic, OrbitalVelocity, EscapeVelocity, ExtremeVelocity
  ]

  lemma SpeedThresholdsIncrease()
    ensures Increasing(SpeedThresholds)
  {
  }

  /** The entries of the speed tables, one by one. */
  lemma SpeedThresholdValues()
    ensures |SpeedThresholds| == 18
    ensures SpeedThresholds[0] == 0.0 && SpeedThresholds[1] == 5.0 && SpeedThresholds[2] == 7.0 && SpeedThresholds[3] == 12.0
    ensures SpeedThresholds[4] == 20.0 && SpeedThresholds[5] == 30.0 && SpeedThresholds[6] == 50.0 && SpeedThresholds[7] == 80.0
    ensures SpeedThresholds[8] == 120.0 && SpeedThresholds[9] == 200.0 && SpeedThresholds[10] == 300.0 && SpeedThresholds[11] == 500.0
    ensures SpeedThresholds[12] == 900.0 && SpeedThresholds[13] == 1200.0 && SpeedThresholds[14] == 2000.0 && SpeedThresholds[15] == 10000.0
    ensures SpeedThresholds[16] == 30000.0 && SpeedThresholds[17] == 100000.0
  {
  }

  lemma SpeedLabelValues()
    ensures |SpeedLabels| == 19
    ensures SpeedLabels[0] == NegativeSpeed && SpeedLabels[1] == VerySlowWalk && SpeedLabels[2] == WalkingPace && SpeedLabels[3] == JoggingPace
    ensures SpeedLabels[4] == RunningPace && SpeedLabels[5] == BicycleSpeed && SpeedLabels[6] == CityDriving && SpeedLabels[7] == HighwayDriving
    ensures SpeedLabels[8] == FastHighwayDriving && SpeedLabels[9] == RaceCarSpeed && SpeedLabels[10] == HighSpeedTrain && SpeedLabels[11] == FormulaOne
    ensures SpeedLabels[12] == JetCruising && SpeedLabels[13] == SpeedOfSound && SpeedLabels[14] == Supersonic && SpeedLabels[15] == Hypersonic
    ensures SpeedLabels[16] == OrbitalVelocity && SpeedLabels[17] == EscapeVelocity && SpeedLabels[18] == ExtremeVelocity
  {
  }

  /**
   * Apart from the exact point 0, the label is the one of the rung of the
   * first threshold the speed is below.
   */
  lemma SpeedContextByBand(kmh: real)
    ensures SpeedContext(kmh) ==
      if kmh == 0.0 then Stationary else SpeedLabels[Band(SpeedThresholds, kmh)]
  {
    if kmh < 0.0 {
      SpeedBackward(kmh);
    } else if kmh == 0.0 {
    } else if kmh < 50.0 {
      SpeedOnLand(kmh);
    } else if kmh < 300.0 {
      SpeedOnRoadAndRail(kmh);
    } else if kmh < 2000.0 {
      SpeedInFlight(kmh);
    } else {
      SpeedBeyondFlight(kmh);
    }
  }

  lemma SpeedBackward(c: real)
    requires c < 0.0
    ensures SpeedContext(c) == SpeedLabels[Band(SpeedThresholds, c)]
  {
    var ts := SpeedThresholds;
    SpeedThresholdsIncrease();
    SpeedThresholdValues();
    SpeedLabelValues();
    BandIs(ts, c, 0);
  }

  lemma SpeedOnLand(c: real)
    requires 0.0 < c && c < 50.0
    ensures SpeedContext(c) == SpeedLabels[Band(SpeedThresholds, c)]
  {
    var ts := SpeedThresholds;
    SpeedThresholdsIncrease();
    SpeedThresholdValues();
    SpeedLabelValues();
    if c < 5.0 { BandIs(ts, c, 1); }
    else if c < 7.0 { BandIs(ts, c, 2); }
    else if c < 12.0 { BandIs(ts, c, 3); }
    else if c < 20.0 { BandIs(ts, c, 4); }
    else if c < 30.0 { BandIs(ts, c, 5); }
    else { BandIs(ts, c, 6); }
  }

  lemma SpeedOnRoadAndRail(c: real)
    requires 50.0 <= c && c < 300.0
    ensures SpeedContext(c) == SpeedLabels[Band(SpeedThresholds, c)]
  {
    var ts := SpeedThresholds;
    SpeedThresholdsIncrease();
    SpeedThresholdValues();
    SpeedLabelValues();
    if c < 80.0 { BandIs(ts, c, 7); }
    else if c < 120.0 { BandIs(ts, c, 8); }
    else if c < 200.0 { BandIs(ts, c, 9); }
    else { BandIs(ts, c, 10); }
  }

  lemma SpeedInFlight(c: real)
    requires 300.0 <= c && c < 2000.0
    ensures SpeedContext(c) == SpeedLabels[Band(SpeedThresholds, c)]
  {
    var ts := SpeedThresholds;
    SpeedThresholdsIncrease();
    SpeedThresholdValues();
    SpeedLabelValues();
    if c < 500.0 { BandIs(ts, c, 11); }
    else if c < 900.0 { BandIs(ts, c, 12); }
    else if c < 1200.0 { BandIs(ts, c, 13); }
    else { BandIs(ts, c, 14); }
  }

  lemma SpeedBeyondFlight(c: real)
    requires 2000.0 <= c
    ensures SpeedContext(c) == SpeedLabels[Band(SpeedThresholds, c)]
  {
    var ts := SpeedThresholds;
    SpeedThresholdsIncrease();
    SpeedThresholdValues();
    SpeedLabelValues();
    if c < 10000.0 { BandIs(ts, c, 15); }
    else if c < 30000.0 { BandIs(ts, c, 16); }
    else if c < 100000.0 { BandIs(ts, c, 17); }
    else { BandIs(ts, c, 18); }
  }


  // ---------------------------------------------------------- pressure

  const UltraHighVacuum: string := "Ultra-high vacuum"
  const HighVacuum: string := "High vacuum"
  const LowPressureVacuum: string := "Low pressure / Vacuum"
  const VeryLowPressure: string := "Very low pressure"
  const HighAltitude: string := "Low atmospheric pressure (high altitude)"
  const BelowStandard: string := "Below standard atmospheric"
  const StandardAtmospheric: string := "Standard atmospheric pressure (sea level)"
  const AboveStandard: string := "Above standard atmospheric"
  const TirePressure: string := "Moderate pressure (tire pressure)"
  const IndustrialPressure: string := "High pressure (industrial)"
  const VeryHighPressure: string := "Very high pressure"
  const HydraulicPressure: string := "Extreme pressure (hydraulics)"
  const DeepOcean: string := "Ultra-high pressure (deep ocean)"
  const ExtremeIndustrial: string := "Extreme industrial pressure"

  /** `get_pressure_context`: the label for a pressure in kilopascals. */
  function PressureContext(kpa: real): string {
    if kpa < 0.001 then UltraHighVacuum
    else if kpa < 0.1 then HighVacuum
    else if kpa < 10.0 then LowPressureVacuum
    else if kpa < 50.0 then VeryLowPressure
    else if kpa < 90.0 then HighAltitude
    else if kpa < 100.0 then BelowStandard
    else if kpa == 101.325 then StandardAtmospheric
    else if kpa < 110.0 then AboveStandard
    else if kpa < 200.0 then TirePressure
    else if kpa < 500.0 then IndustrialPressure
    else if kpa < 1000.0 then VeryHighPressure
    else if kpa < 10000.0 then HydraulicPressure
    else if kpa < 100000.0 then DeepOcean
    else ExtremeIndustrial
  }

  /** The pressure ladder's thresholds, and the label of each rung (one more than thresholds). */
  const PressureThresholds: seq<real> :=
    [0.001, 0.1, 10.0, 50.0, 90.0, 100.0, 110.0, 200.0, 500.0, 1000.0, 10000.0, 100000.0]
  const PressureLabels: seq<string> := [
    UltraHighVacuum, HighVacuum, LowPressureVacuum, VeryLowPressure, HighAltitude,
    BelowStandard, AboveStandard, TirePressure, IndustrialPressure, VeryHighPressure,
    HydraulicPressure, DeepOcean, ExtremeIndustrial
  ]

  lemma PressureThresholdsIncrease()
    ensures Increasing(PressureThresholds)
  {
  }

  /** The entries of the pressure tables, one by one. */
  lemma PressureThresholdValues()
    ensures |PressureThresholds| == 12
    ensures PressureThresholds[0] == 0.001 && PressureThresholds[1] == 0.1 && PressureThresholds[2] == 10.0 && PressureThresholds[3] == 50.0
    ensures PressureThresholds[4] == 90.0 && PressureThresholds[5] == 100.0 && PressureThresholds[6] == 110.0 && PressureThresholds[7] == 200.0
    ensures PressureThresholds[8] == 500.0 && PressureThresholds[9] == 1000.0 && PressureThresholds[10] == 10000.0 && PressureThresholds[11] == 100000.0
  {
  }

  lemma PressureLabelValues()
    ensures |PressureLabels| == 13
    ensures PressureLabels[0] == UltraHighVacuum && PressureLabels[1] == HighVacuum && PressureLabels[2] == LowPressureVacuum && PressureLabels[3] == VeryLowPressure
    ensures PressureLabels[4] == HighAltitude && PressureLabels[5] == BelowStandard && PressureLabels[6] == AboveStandard && PressureLabels[7] == TirePressure
    ensures PressureLabels[8] == IndustrialPressure && PressureLabels[9] == VeryHighPressure && PressureLabels[10] == HydraulicPressure && PressureLabels[11] == DeepOcean
    ensures PressureLabels[12] == ExtremeIndustrial
  {
  }

  /**
   * Apart from the exact point 101.325, the label is the one of the rung of
   * the first threshold the pressure is below.
   */
  lemma PressureContextByBand(kpa: real)
    ensures PressureContext(kpa) ==
      if kpa == 101.325 then StandardAtmospheric else PressureLabels[Band(PressureThresholds, kpa)]
  {
    if kpa < 90.0 {
      PressureBelowAtmospheric(kpa);
    } else if kpa == 101.325 {
    } else if kpa < 1000.0 {
      PressureNearAtmospheric(kpa);
    } else {
      PressureExtreme(kpa);
    }
  }

  lemma PressureBelowAtmospheric(c: real)
    requires c < 90.0
    ensures PressureContext(c) == PressureLabels[Band(PressureThresholds, c)]
  {
    var ts := PressureThresholds;
    PressureThresholdsIncrease();
    PressureThresholdValues();
    PressureLabelValues();
    if c < 0.001 { BandIs(ts, c, 0); }
    else if c < 0.1 { BandIs(ts, c, 1); }
    else if c < 10.0 { BandIs(ts, c, 2); }
    else if c < 50.0 { BandIs(ts, c, 3); }
    else { BandIs(ts, c, 4); }
  }

  lemma PressureNearAtmospheric(c: real)
    requires 90.0 <= c && c < 1000.0 && c != 101.325
    ensures PressureContext(c) == PressureLabels[Band(PressureThresholds, c)]
  {
    var ts := PressureThresholds;
    PressureThresholdsIncrease();
    PressureThresholdValues();
    PressureLabelValues();
    if c < 100.0 { BandIs(ts, c, 5); }
    else if c < 110.0 { BandIs(ts, c, 6); }
    else if c < 200.0 { BandIs(ts, c, 7); }
    else if c < 500.0 { BandIs(ts, c, 8); }
    else { BandIs(ts, c, 9); }
  }

  lemma PressureExtreme(c: real)
    requires 1000.0 <= c
    ensures PressureContext(c) == PressureLabels[Band(PressureThresholds, c)]
  {
    var ts := PressureThresholds;
    PressureThresholdsIncrease();
    PressureThresholdValues();
    PressureLabelValues();
    if c < 10000.0 { BandIs(ts, c, 10); }
    else if c < 100000.0 { BandIs(ts, c, 11); }
    else { BandIs(ts, c, 12); }
  }

  // ----------------------------------------------------------- landmarks

  /** The exact points and the two ends of the temperature ladder. */
  lemma TemperatureLandmarks(celsius: real)
    ensures TemperatureContext(0.0) == FreezingPoint && TemperatureContext(100.0) == BoilingPoint
    ensures celsius < -273.0 ==> TemperatureContext(celsius) == BelowAbsoluteZero
    ensures celsius >= 5000.0 ==> TemperatureContext(celsius) == Plasma
  {
  }

  /** The exact point and the two ends of the speed ladder. */
  lemma SpeedLandmarks(kmh: real)
    ensures SpeedContext(0.0) == Stationary
    ensures kmh < 0.0 ==> SpeedContext(kmh) == NegativeSpeed
    ensures kmh >= 100000.0 ==> SpeedContext(kmh) == ExtremeVelocity
  {
  }

  /** The exact point, the rung around it and the two ends of the pressure ladder. */
  lemma PressureLandmarks(kpa: real)
    ensures PressureContext(101.325) == StandardAtmospheric
    ensures 100.0 <= kpa < 110.0 && kpa != 101.325 ==> PressureContext(kpa) == AboveStandard
    ensures kpa < 0.001 ==> PressureContext(kpa) == UltraHighVacuum
    ensures kpa >= 100000.0 ==> PressureContext(kpa) == ExtremeIndustrial
  {
  }

  /** Two temperatures on the same rung, neither an exact point, get the same label. */
  lemma TemperaturePiecewiseConstant(x: real, y: real)
    requires Band(TemperatureThresholds, x) == Band(TemperatureThresholds, y)
    requires x != 0.0 && x != 100.0 && y != 0.0 && y != 100.0
    ensures TemperatureContext(x) == TemperatureContext(y)
  {
    TemperatureContextByBand(x);
    TemperatureContextByBand(y);
  }

  /** Two non-zero speeds on the same rung get the same label. */
  lemma SpeedPiecewiseConstant(x: real, y: real)
    requires Band(SpeedThresholds, x) == Band(SpeedThresholds, y) && x != 0.0 && y != 0.0
    ensures SpeedContext(x) == SpeedContext(y)
  {
    SpeedContextByBand(x);
    SpeedContextByBand(y);
  }

  /** Two pressures on the same rung, neither standard atmospheric, get the same label. */
  lemma PressurePiecewiseConstant(x: real, y: real)
    requires Band(PressureThresholds, x) == Band(PressureThresholds, y) && x != 101.325 && y != 101.325
    ensures PressureContext(x) == PressureContext(y)
  {
    PressureContextByBand(x);
    PressureContextByBand(y);
  }
}
