/** The six display variables of the frame renderer (`get_variable_config`)
    and their unit conversions. The conversion callables of the source are
    represented by a closed set of tags interpreted by one pure function. */
module FinalConfig {
  import opened Common
  import opened Datasets

  /** The `convert` entry of a variable: none, or one of the two
      magnitude-sniffing heuristics. */
  datatype Conversion = NoConversion | KelvinIfOver200 | PascalIfOver80000

  /** What the worker needs to draw one panel: the colour scale, its fixed
      range and the unit shown on the colour bar. */
  datatype DisplayConfig = DisplayConfig(cmap: string, vmin: real, vmax: real, unit: string)

  datatype CanonicalVariable = CanonicalVariable(
    name: string,
    aliases: seq<string>,
    display: DisplayConfig,
    conversion: Conversion,
    isAccum: bool,
    requiredStepType: Option<string>,
    isCloud: bool)

  const WindSpeed: string := "Wind Speed"

  function Standard(name: string, aliases: seq<string>, display: DisplayConfig, conversion: Conversion): CanonicalVariable {
    CanonicalVariable(name, aliases, display, conversion, false, None, false)
  }

  /** The variables in the order the frame loop visits them. */
  function VariableConfig(): (cfg: seq<CanonicalVariable>)
    ensures |cfg| == 6
    ensures forall i, j :: 0 <= i < j < |cfg| ==> cfg[i].name != cfg[j].name
    ensures forall i :: 0 <= i < |cfg| ==> cfg[i].aliases != [] && cfg[i].display.vmin < cfg[i].display.vmax
    ensures forall i :: 0 <= i < |cfg| ==> (cfg[i].isAccum <==> cfg[i].name == "Precipitation")
    ensures forall i :: 0 <= i < |cfg| ==> (cfg[i].requiredStepType.Some? <==> cfg[i].isAccum)
    ensures forall i :: 0 <= i < |cfg| && cfg[i].isAccum ==> cfg[i].requiredStepType == Some("accum")
    ensures forall i :: 0 <= i < |cfg| ==> (cfg[i].isCloud <==> cfg[i].name == "Cloud Cover")
    ensures forall i :: 0 <= i < |cfg| ==>
      (cfg[i].conversion == KelvinIfOver200 <==> cfg[i].name == "Temperature") &&
      (cfg[i].conversion == PascalIfOver80000 <==> cfg[i].name == "Pressure")
    ensures cfg[4].name == WindSpeed
  {
    [ Standard("Temperature", ["t", "2t", "t2m"], DisplayConfig("RdYlBu_r", -10.0, 35.0, "°C"), KelvinIfOver200),
      Standard("Pressure", ["prmsl", "msl", "sp"], DisplayConfig("RdYlGn_r", 990.0, 1025.0, "hPa"), PascalIfOver80000),
      Standard("Humidity", ["r", "2r", "r2"], DisplayConfig("YlGnBu", 40.0, 100.0, "%"), NoConversion),
      CanonicalVariable("Precipitation", ["precipitation", "tp", "apcp", "unknown"],
        DisplayConfig("weather_precip", 0.0, 50.0, "mm/h"), NoConversion, true, Some("accum"), false),
      Standard(WindSpeed, ["wind_speed"], DisplayConfig("weather_wind", 0.0, 25.0, "m/s"), NoConversion),
      CanonicalVariable("Cloud Cover", ["tcc", "lcc", "mcc", "hcc"],
        DisplayConfig("Greys_r", 0.0, 100.0, "%"), NoConversion, false, None, true) ]
  }

  const KelvinOffset: real := 273.15
  const KelvinThreshold: real := 200.0
  const PascalThreshold: real := 80000.0

  /** `cfg['convert'](values)`. The mean of an empty grid is NaN in the
      source, and NaN > threshold is false, so an empty grid is unchanged. */
  function ApplyConversion(c: Conversion, g: Grid): (r: Grid)
    ensures |r| == |g|
    ensures c == NoConversion ==> r == g
    ensures c == KelvinIfOver200 ==> forall i :: 0 <= i < |g| ==>
      r[i] == if Mean(g) > KelvinThreshold then g[i] - KelvinOffset else g[i]
    ensures c == PascalIfOver80000 ==> forall i :: 0 <= i < |g| ==>
      r[i] == if Mean(g) > PascalThreshold then g[i] / 100.0 else g[i]
  {
    match c
    case NoConversion => g
    case KelvinIfOver200 => if |g| > 0 && Mean(g) > KelvinThreshold then Shift(g, KelvinOffset) else g
    case PascalIfOver80000 => if |g| > 0 && Mean(g) > PascalThreshold then Scale(g, 100.0) else g
  }

  /** A field already in Celsius is left alone, so converting a Kelvin field
      twice gives the same result as converting it once (for any field whose
      Kelvin mean is at most 473.15 K, i.e. 200 °C). */
  lemma TemperatureConversionIdempotent(g: Grid)
    requires |g| > 0 && Mean(g) <= KelvinThreshold + KelvinOffset
    ensures ApplyConversion(KelvinIfOver200, ApplyConversion(KelvinIfOver200, g)) == ApplyConversion(KelvinIfOver200, g)
  {
    if Mean(g) > KelvinThreshold {
      MeanShift(g, KelvinOffset);
    }
  }

  /** The same for pressure: hPa values are never divided again (for any field
      whose mean is at most 8 000 000 Pa). */
  lemma PressureConversionIdempotent(g: Grid)
    requires |g| > 0 && Mean(g) <= PascalThreshold * 100.0
    ensures ApplyConversion(PascalIfOver80000, ApplyConversion(PascalIfOver80000, g)) == ApplyConversion(PascalIfOver80000, g)
  {
    if Mean(g) > PascalThreshold {
      MeanScale(g, 100.0);
    }
  }

  /** A 300 K field becomes 26.85 °C; a 26.85 field is already Celsius. */
  lemma TemperatureExamples()
    ensures ApplyConversion(KelvinIfOver200, [300.0]) == [26.85]
    ensures ApplyConversion(KelvinIfOver200, [26.85]) == [26.85]
  {
    assert Mean([300.0]) == 300.0 by { assert [300.0][..0] == []; }
    assert Mean([26.85]) == 26.85 by { assert [26.85][..0] == []; }
  }
}
