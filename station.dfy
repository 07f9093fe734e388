/** Station time series (station_timeseries.py): the nearest grid point to
    each station, the per-parameter series extracted there from every file,
    the common y-axis range of each parameter, and the JSON export. */
module Station {
  import opened Common
  import opened Datasets

  datatype Site = Site(name: string, lat: real, lon: real)

  /** `STATIONS`, in their order. */
  function Stations(): (r: seq<Site>)
    ensures |r| == 7
    ensures forall i, j :: 0 <= i < j < |r| ==> r[i].name != r[j].name
  {
    [ Site("札幌", 43.06, 141.35), Site("仙台", 38.27, 140.87), Site("東京", 35.69, 139.69),
      Site("名古屋", 35.17, 136.91), Site("大阪", 34.69, 135.50), Site("福岡", 33.58, 130.38),
      Site("那覇", 26.21, 127.69) ]
  }

  function StationNames(): (r: seq<string>)
    ensures |r| == |Stations()| && forall i :: 0 <= i < |r| ==> r[i] == Stations()[i].name
  {
    seq(|Stations()|, i requires 0 <= i < |Stations()| => Stations()[i].name)
  }

  const AirTemperature: string := "気温"
  const AirPressure: string := "気圧"
  const Humidity: string := "湿度"
  const WindSpeed: string := "風速"
  const Precipitation: string := "降水量"
  const CloudAmount: string := "雲量"

  /** `PARAMETERS`, in their order. */
  const ParameterNames: seq<string> := [AirTemperature, AirPressure, Humidity, WindSpeed, Precipitation, CloudAmount]

  /** The order in which the extraction looks at the parameters. */
  const ExtractionOrder: seq<string> := [AirTemperature, AirPressure, Humidity, WindSpeed, CloudAmount, Precipitation]

  // ---------------------------------------------------------------------
  // Nearest grid point (lines 60-90)

  function SqDist(lat: real, lon: real, tlat: real, tlon: real): real {
    (lat - tlat) * (lat - tlat) + (lon - tlon) * (lon - tlon)
  }

  /** `np.argmin`: the first position of the least element. */
  function ArgMin(d: seq<real>): (r: nat)
    requires |d| > 0
    ensures r < |d|
    ensures forall j :: 0 <= j < |d| ==> d[r] <= d[j]
    ensures forall j :: 0 <= j < r ==> d[j] > d[r]
  {
    if |d| == 1 then 0
    else
      var m := ArgMin(d[..|d| - 1]);
      if d[|d| - 1] < d[m] then |d| - 1 else m
  }

  /** Latitude and longitude of every grid point, row-major, with the row
      length. One-dimensional axes are meshed into latitude rows by longitude
      columns. Arrays that cannot be combined give nothing. */
  datatype Mesh2D = Mesh2D(latGrid: seq<real>, lonGrid: seq<real>, cols: nat)

  function MeshOf(c: Coords): (r: Option<Mesh2D>)
    ensures r.Some? ==> |r.value.latGrid| == |r.value.lonGrid| && r.value.cols > 0
  {
    match c
    case Axes(lats, lons) =>
      if |lons| == 0 then None
      else
        var n := |lats| * |lons|;
        Some(Mesh2D(seq(n, k requires 0 <= k < n => lats[k / |lons|]), seq(n, k requires 0 <= k < n => lons[k % |lons|]), |lons|))
    case Mesh(cols, latGrid, lonGrid) =>
      if cols == 0 || |latGrid| != |lonGrid| then None else Some(Mesh2D(latGrid, lonGrid, cols))
  }

  /** A grid point: its row, its column, and its position in row-major order. */
  datatype GridPoint = GridPoint(row: nat, col: nat, flat: nat)

  /** Squared distance from every grid point to the target, row-major. */
  function Distances(m: Mesh2D, tlat: real, tlon: real): (r: seq<real>)
    requires |m.latGrid| == |m.lonGrid|
    ensures |r| == |m.latGrid|
    ensures forall k :: 0 <= k < |r| ==> r[k] == SqDist(m.latGrid[k], m.lonGrid[k], tlat, tlon)
  {
    seq(|m.latGrid|, k requires 0 <= k < |m.latGrid| => SqDist(m.latGrid[k], m.lonGrid[k], tlat, tlon))
  }

  /** `find_nearest_gridpoint`: the grid point closest to the target (the
      square root does not change which point is least), the first in
      row-major order on ties; nothing when there are no points. */
  function NearestGridpoint(c: Coords, tlat: real, tlon: real): (r: Option<GridPoint>)
    ensures r.None? <==> MeshOf(c).None? || |MeshOf(c).value.latGrid| == 0
    ensures r.Some? ==> (
      var m := MeshOf(c).value;
      var d := Distances(m, tlat, tlon);
      r.value.flat < |d| &&
      r.value.row == r.value.flat / m.cols && r.value.col == r.value.flat % m.cols &&
      (forall j :: 0 <= j < |d| ==> d[r.value.flat] <= d[j]) &&
      (forall j :: 0 <= j < r.value.flat ==> d[j] > d[r.value.flat]))
  {
    match MeshOf(c)
    case None => None
    case Some(m) =>
      if |m.latGrid| == 0 then None
      else
        var k := ArgMin(Distances(m, tlat, tlon));
        Some(GridPoint(k / m.cols, k % m.cols, k))
  }

  lemma MulMono(a: int, b: int, c: nat)
    requires a <= b
    ensures a * c <= b * c
  {
    assert (b - a) * c >= 0;
  }

  /** Position `i * cols + j` of a row-major grid is row `i`, column `j`. */
  lemma RowMajor(i: nat, j: nat, cols: nat)
    requires j < cols
    ensures (i * cols + j) / cols == i && (i * cols + j) % cols == j
  {
    var q := (i * cols + j) / cols;
    var s := (i * cols + j) % cols;
    assert q * cols + s == i * cols + j;
    if q < i {
      MulMono(q + 1, i, cols);
      assert false;
    } else if q > i {
      MulMono(i + 1, q, cols);
      assert false;
    }
  }

  lemma DivBelow(k: nat, a: nat, cols: nat)
    requires cols > 0 && k < a * cols
    ensures k / cols < a
  {
    if k / cols >= a {
      MulMono(a, k / cols, cols);
      assert false;
    }
  }

  /** Where a grid point of regular axes sits in the meshed arrays. */
  lemma AxesPoint(lats: seq<real>, lons: seq<real>, i: nat, j: nat)
    requires i < |lats| && j < |lons|
    ensures var m := MeshOf(Axes(lats, lons)).value;
      i * |lons| + j < |m.latGrid| && m.latGrid[i * |lons| + j] == lats[i] && m.lonGrid[i * |lons| + j] == lons[j]
  {
    var L := |lons|;
    RowMajor(i, j, L);
    MulMono(i + 1, |lats|, L);
  }

  /** On regular axes the chosen row and column are the closest latitude row
      and longitude column pair over the whole grid. */
  lemma NearestOnAxes(lats: seq<real>, lons: seq<real>, tlat: real, tlon: real)
    requires |lats| > 0 && |lons| > 0
    ensures var r := NearestGridpoint(Axes(lats, lons), tlat, tlon);
      r.Some? && r.value.row < |lats| && r.value.col < |lons| &&
      forall i, j :: 0 <= i < |lats| && 0 <= j < |lons| ==>
        SqDist(lats[r.value.row], lons[r.value.col], tlat, tlon) <= SqDist(lats[i], lons[j], tlat, tlon)
  {
    var L := |lons|;
    AxesPoint(lats, lons, 0, 0);
    var r := NearestGridpoint(Axes(lats, lons), tlat, tlon).value;
    var m := MeshOf(Axes(lats, lons)).value;
    var d := Distances(m, tlat, tlon);
    var k := r.flat;
    DivBelow(k, |lats|, L);
    assert d[k] == SqDist(lats[r.row], lons[r.col], tlat, tlon) by {
      assert m.latGrid[k] == lats[r.row] && m.lonGrid[k] == lons[r.col];
    }
    forall i, j | 0 <= i < |lats| && 0 <= j < |lons|
      ensures SqDist(lats[r.row], lons[r.col], tlat, tlon) <= SqDist(lats[i], lons[j], tlat, tlon)
    {
      AxesDistance(lats, lons, tlat, tlon, i, j);
      assert d[k] <= d[i * L + j];
    }
  }

  /** The distance of the point in row `i`, column `j` of regular axes. */
  lemma AxesDistance(lats: seq<real>, lons: seq<real>, tlat: real, tlon: real, i: nat, j: nat)
    requires i < |lats| && j < |lons|
    ensures var d := Distances(MeshOf(Axes(lats, lons)).value, tlat, tlon);
      i * |lons| + j < |d| && d[i * |lons| + j] == SqDist(lats[i], lons[j], tlat, tlon)
  {
    AxesPoint(lats, lons, i, j);
  }

  // ---------------------------------------------------------------------
  // Per-parameter series at one grid point (lines 157-231)

  /** `ds[name].values[:, row, col]`: the variable's value at the point for
      every step; nothing when a step's field is missing or too small (the
      indexing raises). */
  function PointSeries(ds: Dataset, steps: seq<Step>, name: string, flat: nat): (r: Option<seq<real>>)
    requires Has(ds, name)
    ensures r.Some? ==> |r.value| == |steps|
    ensures r.Some? <==> forall k :: 0 <= k < |steps| ==>
      steps[k] in Lookup(ds.dataVars, name).value.fields && flat < |Lookup(ds.dataVars, name).value.fields[steps[k]].values|
    ensures r.Some? ==> forall k :: 0 <= k < |steps| ==>
      r.value[k] == Lookup(ds.dataVars, name).value.fields[steps[k]].values[flat]
  {
    var v := Lookup(ds.dataVars, name).value;
    if forall k :: 0 <= k < |steps| ==> steps[k] in v.fields && flat < |v.fields[steps[k]].values| then
      Some(seq(|steps|, k requires 0 <= k < |steps| => v.fields[steps[k]].values[flat]))
    else None
  }

  /** What one parameter block yields: not applicable, an exception, or values. */
  datatype ParamOutcome = Absent | Broken | Got(values: seq<real>)

  /** `np.diff(a, prepend=0)` with negative differences set to 0. */
  function StepIncrements(a: seq<real>): (r: seq<real>)
    ensures |r| == |a|
    ensures |a| > 0 ==> r[0] == Max(a[0], 0.0)
    ensures forall i :: 0 < i < |a| ==> r[i] == Max(a[i] - a[i - 1], 0.0)
  {
    seq(|a|, i requires 0 <= i < |a| => Max(a[i] - (if i == 0 then 0.0 else a[i - 1]), 0.0))
  }

  /** The increments of a shorter series are the first increments of the
      longer one. */
  lemma IncrementsPrefix(a: seq<real>)
    requires |a| > 0
    ensures StepIncrements(a)[..|a| - 1] == StepIncrements(a[..|a| - 1])
  {
    var r := StepIncrements(a);
    var ri := StepIncrements(a[..|a| - 1]);
    forall i | 0 <= i < |a| - 1 ensures r[i] == ri[i] {
      if i > 0 {
        assert ri[i] == Max(a[i] - a[i - 1], 0.0);
      }
    }
  }

  /** Where the accumulation never falls and starts non-negative, the
      increments add up to the last accumulated value. */
  lemma {:induction false} IncrementsTelescope(a: seq<real>)
    requires |a| > 0 && a[0] >= 0.0
    requires forall i :: 0 < i < |a| ==> a[i - 1] <= a[i]
    ensures Sum(StepIncrements(a)) == a[|a| - 1]
  {
    var r := StepIncrements(a);
    var n := |a|;
    if n == 1 {
      assert r[..0] == [];
      assert r[0] == a[0];
    } else {
      var init := a[..n - 1];
      assert forall i :: 0 < i < |init| ==> init[i - 1] <= init[i] by {
        forall i | 0 < i < |init| ensures init[i - 1] <= init[i] {
          assert init[i - 1] == a[i - 1] && init[i] == a[i];
        }
      }
      IncrementsTelescope(init);
      IncrementsPrefix(a);
      assert Sum(r) == Sum(StepIncrements(init)) + r[n - 1];
      assert a[n - 2] <= a[n - 1];
      assert r[n - 1] == a[n - 1] - a[n - 2];
    }
  }

  /** The cloud layers among lcc, mcc, hcc that the dataset holds. */
  function CloudLayersIn(ds: Dataset): (r: seq<string>)
    ensures forall k :: 0 <= k < |r| ==> Has(ds, r[k])
    ensures r == [] <==> !Has(ds, "lcc") && !Has(ds, "mcc") && !Has(ds, "hcc")
  {
    (if Has(ds, "lcc") then ["lcc"] else []) + (if Has(ds, "mcc") then ["mcc"] else []) + (if Has(ds, "hcc") then ["hcc"] else [])
  }

  function LayerSeries(ds: Dataset, steps: seq<Step>, names: seq<string>, flat: nat): (r: Option<seq<seq<real>>>)
    requires forall k :: 0 <= k < |names| ==> Has(ds, names[k])
    ensures r.Some? ==> |r.value| == |names| && forall k :: 0 <= k < |names| ==> |r.value[k]| == |steps|
  {
    if names == [] then Some([])
    else
      match (PointSeries(ds, steps, names[0], flat), LayerSeries(ds, steps, names[1..], flat))
      case (Some(s), Some(rest)) => Some([s] + rest)
      case _ => None
  }


  /** Lines 157-166: Kelvin to Celsius, with no threshold. */
  function TemperatureAt(ds: Dataset, steps: seq<Step>, flat: nat): (r: ParamOutcome)
    ensures r.Absent? <==> !Has(ds, "t")
    ensures r.Broken? <==> Has(ds, "t") && PointSeries(ds, steps, "t", flat).None?
    ensures r.Got? ==> (
      |r.values| == |steps| && Has(ds, "t") && PointSeries(ds, steps, "t", flat).Some? &&
      forall k :: 0 <= k < |steps| ==> r.values[k] + 273.15 == PointSeries(ds, steps, "t", flat).value[k])
  {
    if !Has(ds, "t") then Absent
    else match PointSeries(ds, steps, "t", flat)
      case None => Broken
      case Some(s) => Got(Shift(s, 273.15))
  }

  /** Lines 168-177: pascals to hectopascals, with no threshold. */
  function PressureAt(ds: Dataset, steps: seq<Step>, flat: nat): (r: ParamOutcome)
    ensures r.Absent? <==> !Has(ds, "prmsl")
    ensures r.Broken? <==> Has(ds, "prmsl") && PointSeries(ds, steps, "prmsl", flat).None?
    ensures r.Got? ==> (
      |r.values| == |steps| && Has(ds, "prmsl") && PointSeries(ds, steps, "prmsl", flat).Some? &&
      forall k :: 0 <= k < |steps| ==> r.values[k] * 100.0 == PointSeries(ds, steps, "prmsl", flat).value[k])
  {
    if !Has(ds, "prmsl") then Absent
    else match PointSeries(ds, steps, "prmsl", flat)
      case None => Broken
      case Some(s) => Got(Scale(s, 100.0))
  }

  /** Lines 179-188: relative humidity as stored. */
  function HumidityAt(ds: Dataset, steps: seq<Step>, flat: nat): (r: ParamOutcome)
    ensures r.Absent? <==> !Has(ds, "r")
    ensures r.Broken? <==> Has(ds, "r") && PointSeries(ds, steps, "r", flat).None?
    ensures r.Got? ==> Has(ds, "r") && Some(r.values) == PointSeries(ds, steps, "r", flat) && |r.values| == |steps|
  {
    if !Has(ds, "r") then Absent
    else match PointSeries(ds, steps, "r", flat)
      case None => Broken
      case Some(s) => Got(s)
  }

  /** Lines 190-200: the speed from u10 and v10, only when both are present. */
  function WindAt(ds: Dataset, steps: seq<Step>, flat: nat, sqrt: real -> real): (r: ParamOutcome)
    ensures r.Absent? <==> !(Has(ds, "u10") && Has(ds, "v10"))
    ensures r.Broken? <==> (
      Has(ds, "u10") && Has(ds, "v10") &&
      (PointSeries(ds, steps, "u10", flat).None? || PointSeries(ds, steps, "v10", flat).None?))
    ensures r.Got? ==> (
      |r.values| == |steps| && Has(ds, "u10") && Has(ds, "v10") &&
      PointSeries(ds, steps, "u10", flat).Some? && PointSeries(ds, steps, "v10", flat).Some? &&
      forall k :: 0 <= k < |steps| ==>
        r.values[k] == Norm(PointSeries(ds, steps, "u10", flat).value[k], PointSeries(ds, steps, "v10", flat).value[k], sqrt))
  {
    if !(Has(ds, "u10") && Has(ds, "v10")) then Absent
    else match (PointSeries(ds, steps, "u10", flat), PointSeries(ds, steps, "v10", flat))
      case (Some(u), Some(v)) => Got(Magnitude(u, v, sqrt))
      case _ => Broken
  }

  /** Lines 202-215: the largest of the cloud layers present, step by step. */
  function CloudAt(ds: Dataset, steps: seq<Step>, flat: nat): (r: ParamOutcome)
    ensures r.Absent? <==> CloudLayersIn(ds) == []
    ensures r.Broken? <==> CloudLayersIn(ds) != [] && LayerSeries(ds, steps, CloudLayersIn(ds), flat).None?
    ensures r.Got? ==> (
      |r.values| == |steps| && LayerSeries(ds, steps, CloudLayersIn(ds), flat).Some? &&
      var layers := LayerSeries(ds, steps, CloudLayersIn(ds), flat).value;
      (forall k, l :: 0 <= k < |steps| && 0 <= l < |layers| ==> layers[l][k] <= r.values[k]) &&
      (forall k :: 0 <= k < |steps| ==> exists l :: 0 <= l < |layers| && r.values[k] == layers[l][k]))
  {
    var names := CloudLayersIn(ds);
    if names == [] then Absent
    else match LayerSeries(ds, steps, names, flat)
      case None => Broken
      case Some(layers) => Got(MaxOfLayers(layers))
  }

  /** Lines 217-231: an accumulated `unknown` becomes per-step increments;
      a single step gives nothing. */
  function PrecipitationAt(ds: Dataset, steps: seq<Step>, flat: nat): (r: ParamOutcome)
    ensures r.Got? ==> (
      Has(ds, "unknown") && Lookup(ds.dataVars, "unknown").value.stepType == "accum" && |steps| > 1 &&
      PointSeries(ds, steps, "unknown", flat).Some? &&
      r.values == StepIncrements(PointSeries(ds, steps, "unknown", flat).value))
    ensures r.Absent? <==> (
      !Has(ds, "unknown") || Lookup(ds.dataVars, "unknown").value.stepType != "accum" ||
      (PointSeries(ds, steps, "unknown", flat).Some? && |steps| <= 1))
    ensures r.Broken? <==> (
      Has(ds, "unknown") && Lookup(ds.dataVars, "unknown").value.stepType == "accum" &&
      PointSeries(ds, steps, "unknown", flat).None?)
  {
    if !Has(ds, "unknown") || Lookup(ds.dataVars, "unknown").value.stepType != "accum" then Absent
    else match PointSeries(ds, steps, "unknown", flat)
      case None => Broken
      case Some(a) => if |a| > 1 then Got(StepIncrements(a)) else Absent
  }

  function ParamAt(ds: Dataset, steps: seq<Step>, param: string, flat: nat, sqrt: real -> real): (r: ParamOutcome)
    ensures r.Got? ==> |r.values| == |steps|
  {
    if param == AirTemperature then TemperatureAt(ds, steps, flat)
    else if param == AirPressure then PressureAt(ds, steps, flat)
    else if param == Humidity then HumidityAt(ds, steps, flat)
    else if param == WindSpeed then WindAt(ds, steps, flat, sqrt)
    else if param == CloudAmount then CloudAt(ds, steps, flat)
    else if param == Precipitation then PrecipitationAt(ds, steps, flat)
    else Absent
  }

  // ---------------------------------------------------------------------
  // Collecting the series (lines 93-241)

  /** A parameter's forecast times and values, extended together. */
  datatype Series = Series(times: seq<int>, values: seq<real>)

  /** Station name to parameter name to series. */
  type StationData = map<string, map<string, Series>>

  function StationSet(): set<string> {
    set i | 0 <= i < |Stations()| :: Stations()[i].name
  }

  /** Every station present, and every series with as many times as values. */
  predicate WellFormed(data: StationData) {
    data.Keys == StationSet() &&
    forall st, p :: st in data && p in data[st] ==> |data[st][p].times| == |data[st][p].values|
  }

  /** The empty collection: one empty entry per station. */
  function InitialData(): (r: StationData)
    ensures WellFormed(r)
    ensures forall st :: st in r ==> r[st] == map[]
  {
    map st | st in StationSet() :: map[]
  }

  /** Creating the entry on first use and extending both lists. */
  function Extend(data: StationData, station: string, param: string, times: seq<int>, values: seq<real>): (r: StationData)
    requires WellFormed(data) && station in data && |times| == |values|
    ensures WellFormed(r)
    ensures param in r[station]
    ensures param !in data[station] ==> r[station][param] == Series(times, values)
    ensures param in data[station] ==>
      r[station][param] == Series(data[station][param].times + times, data[station][param].values + values)
    ensures forall st, p :: st in data && p in data[st] && (st, p) != (station, param) ==>
      p in r[st] && r[st][p] == data[st][p]
    ensures forall p :: p in r[station] <==> p in data[station] || p == param
  {
    var prior := if param in data[station] then data[station][param] else Series([], []);
    data[station := data[station][param := Series(prior.times + times, prior.values + values)]]
  }

  /** The collection so far, and whether an exception has ended the file. */
  datatype Extraction = Extraction(data: StationData, failed: bool)

  /** One parameter block for one station: nothing once the file has failed;
      an exception ends the file and keeps what was added before it. */
  function ApplyParam(e: Extraction, ds: Dataset, steps: seq<Step>, times: seq<int>, station: string, flat: nat,
                      param: string, sqrt: real -> real): (r: Extraction)
    requires WellFormed(e.data) && station in e.data && |times| == |steps|
    ensures WellFormed(r.data)
    ensures e.failed ==> r == e
    ensures !e.failed ==> match ParamAt(ds, steps, param, flat, sqrt)
      case Absent => r == e
      case Broken => r == Extraction(e.data, true)
      case Got(v) => r == Extraction(Extend(e.data, station, param, times, v), false)
  {
    if e.failed then e
    else match ParamAt(ds, steps, param, flat, sqrt)
      case Absent => e
      case Broken => Extraction(e.data, true)
      case Got(v) => Extraction(Extend(e.data, station, param, times, v), false)
  }

  /** `[base_time + step for step in steps]` */
  function Times(base: int, steps: seq<Step>): (r: seq<int>)
    ensures |r| == |steps| && forall k :: 0 <= k < |steps| ==> r[k] == base + steps[k]
  {
    seq(|steps|, k requires 0 <= k < |steps| => base + steps[k])
  }

  /** One station of one dataset: its grid point, then the six blocks in
      source order. */
  function StationPass(e: Extraction, ds: Dataset, c: Coords, steps: seq<Step>, times: seq<int>, site: Site,
                       sqrt: real -> real): (r: Extraction)
    requires WellFormed(e.data) && site.name in e.data && |times| == |steps|
    ensures WellFormed(r.data)
    ensures e.failed ==> r == e
    ensures !e.failed && NearestGridpoint(c, site.lat, site.lon).None? ==> r == Extraction(e.data, true)
  {
    if e.failed then e
    else match NearestGridpoint(c, site.lat, site.lon)
      case None => Extraction(e.data, true)
      case Some(g) =>
        var e1 := ApplyParam(e, ds, steps, times, site.name, g.flat, AirTemperature, sqrt);
        var e2 := ApplyParam(e1, ds, steps, times, site.name, g.flat, AirPressure, sqrt);
        var e3 := ApplyParam(e2, ds, steps, times, site.name, g.flat, Humidity, sqrt);
        var e4 := ApplyParam(e3, ds, steps, times, site.name, g.flat, WindSpeed, sqrt);
        var e5 := ApplyParam(e4, ds, steps, times, site.name, g.flat, CloudAmount, sqrt);
        ApplyParam(e5, ds, steps, times, site.name, g.flat, Precipitation, sqrt)
  }

  /** Every site is one of the stations. */
  predicate KnownSites(sites: seq<Site>) {
    forall k :: 0 <= k < |sites| ==> sites[k].name in StationSet()
  }

  /** The stations of `sites`, in order. */
  function StationsPass(e: Extraction, ds: Dataset, c: Coords, steps: seq<Step>, times: seq<int>, sites: seq<Site>,
                        sqrt: real -> real): (r: Extraction)
    requires WellFormed(e.data) && |times| == |steps|
    requires KnownSites(sites)
    ensures WellFormed(r.data)
    ensures e.failed ==> r == e
  {
    if sites == [] then e
    else
      var prior := StationsPass(e, ds, c, steps, times, sites[..|sites| - 1], sqrt);
      StationPass(prior, ds, c, steps, times, sites[|sites| - 1], sqrt)
  }

  /** Lines 133-149: a dataset without latitude/longitude, step or time is
      passed over; otherwise every station in turn. */
  function DatasetPass(e: Extraction, ds: Dataset, sqrt: real -> real): (r: Extraction)
    requires WellFormed(e.data)
    ensures WellFormed(r.data)
    ensures e.failed ==> r == e
    ensures ds.coords.None? || ds.steps.None? || ds.time.None? ==> r == e
  {
    if ds.coords.None? || ds.steps.None? || ds.time.None? then e
    else
      StationsPass(e, ds, ds.coords.value, ds.steps.value, Times(ds.time.value, ds.steps.value), Stations(), sqrt)
  }

  function DatasetsPass(e: Extraction, dss: seq<Dataset>, sqrt: real -> real): (r: Extraction)
    requires WellFormed(e.data)
    ensures WellFormed(r.data)
    ensures e.failed ==> r == e
  {
    if dss == [] then e else DatasetPass(DatasetsPass(e, dss[..|dss| - 1], sqrt), dss[|dss| - 1], sqrt)
  }

  /** One file inside the `try`: an exception keeps what was added before it
      and moves on to the next file. */
  function FilePass(data: StationData, f: GribFile, sqrt: real -> real): (r: StationData)
    requires WellFormed(data)
    ensures WellFormed(r)
    ensures f.Unreadable? ==> r == data
  {
    match f
    case Unreadable => data
    case Decoded(dss) => DatasetsPass(Extraction(data, false), dss, sqrt).data
  }

  /** `extract_station_data` */
  function ExtractAll(files: seq<GribFile>, sqrt: real -> real): (r: StationData)
    ensures WellFormed(r)
  {
    if files == [] then InitialData() else FilePass(ExtractAll(files[..|files| - 1], sqrt), files[|files| - 1], sqrt)
  }

  /** The stations of the first `i + 1` sites are those of the first `i`,
      then site `i`. */
  lemma StationsPassNext(e: Extraction, ds: Dataset, c: Coords, steps: seq<Step>, times: seq<int>,
                         sites: seq<Site>, i: nat, sqrt: real -> real)
    requires WellFormed(e.data) && |times| == |steps| && i < |sites| && KnownSites(sites)
    ensures KnownSites(sites[..i]) && KnownSites(sites[..i + 1])
    ensures StationsPass(e, ds, c, steps, times, sites[..i + 1], sqrt) ==
      StationPass(StationsPass(e, ds, c, steps, times, sites[..i], sqrt), ds, c, steps, times, sites[i], sqrt)
  {
    assert sites[..i + 1][..i] == sites[..i];
  }

  /** Once an exception has been raised, the later stations change nothing. */
  lemma {:induction false} StationsAfterFailure(e: Extraction, ds: Dataset, c: Coords, steps: seq<Step>, times: seq<int>,
                                               sites: seq<Site>, i: nat, sqrt: real -> real)
    requires WellFormed(e.data) && |times| == |steps| && i <= |sites|
    requires KnownSites(sites)
    requires StationsPass(e, ds, c, steps, times, sites[..i], sqrt).failed
    ensures StationsPass(e, ds, c, steps, times, sites, sqrt) == StationsPass(e, ds, c, steps, times, sites[..i], sqrt)
    decreases |sites| - i
  {
    if i < |sites| {
      StationsPassNext(e, ds, c, steps, times, sites, i, sqrt);
      StationsAfterFailure(e, ds, c, steps, times, sites, i + 1, sqrt);
    } else {
      assert sites[..i] == sites;
    }
  }

  /** Once an exception has been raised, the later datasets change nothing. */
  lemma {:induction false} DatasetsAfterFailure(e: Extraction, dss: seq<Dataset>, i: nat, sqrt: real -> real)
    requires WellFormed(e.data) && i <= |dss|
    requires DatasetsPass(e, dss[..i], sqrt).failed
    ensures DatasetsPass(e, dss, sqrt) == DatasetsPass(e, dss[..i], sqrt)
    decreases |dss| - i
  {
    if i < |dss| {
      assert dss[..i + 1][..i] == dss[..i];
      DatasetsAfterFailure(e, dss, i + 1, sqrt);
    } else {
      assert dss[..i] == dss;
    }
  }

  /** The body of the station loop: the grid point, then the six blocks. */
  method ProcessStation(e0: Extraction, ds: Dataset, c: Coords, steps: seq<Step>, times: seq<int>, site: Site,
                        sqrt: real -> real) returns (e: Extraction)
    requires WellFormed(e0.data) && site.name in e0.data && !e0.failed && |times| == |steps|
    ensures e == StationPass(e0, ds, c, steps, times, site, sqrt)
  {
    var point := NearestGridpoint(c, site.lat, site.lon);
    if point.None? {
      return Extraction(e0.data, true);
    }
    var flat := point.value.flat;
    e := ApplyParam(e0, ds, steps, times, site.name, flat, AirTemperature, sqrt);
    e := ApplyParam(e, ds, steps, times, site.name, flat, AirPressure, sqrt);
    e := ApplyParam(e, ds, steps, times, site.name, flat, Humidity, sqrt);
    e := ApplyParam(e, ds, steps, times, site.name, flat, WindSpeed, sqrt);
    e := ApplyParam(e, ds, steps, times, site.name, flat, CloudAmount, sqrt);
    e := ApplyParam(e, ds, steps, times, site.name, flat, Precipitation, sqrt);
  }

  method ProcessStations(e0: Extraction, ds: Dataset, c: Coords, steps: seq<Step>, times: seq<int>, sites: seq<Site>,
                         sqrt: real -> real) returns (e: Extraction)
    requires WellFormed(e0.data) && !e0.failed && |times| == |steps|
    requires KnownSites(sites)
    ensures e == StationsPass(e0, ds, c, steps, times, sites, sqrt)
  {
    e := e0;
    var i := 0;
    while i < |sites|
      invariant 0 <= i <= |sites|
      invariant e == StationsPass(e0, ds, c, steps, times, sites[..i], sqrt)
      invariant !e.failed
    {
      StationsPassNext(e0, ds, c, steps, times, sites, i, sqrt);
      e := ProcessStation(e, ds, c, steps, times, sites[i], sqrt);
      i := i + 1;
      if e.failed {
        StationsAfterFailure(e0, ds, c, steps, times, sites, i, sqrt);
        return;
      }
    }
    assert sites[..i] == sites;
  }

  /** Lines 133-149 and the station loop for one dataset. */
  method ProcessDataset(e0: Extraction, ds: Dataset, sqrt: real -> real) returns (e: Extraction)
    requires WellFormed(e0.data) && !e0.failed
    ensures e == DatasetPass(e0, ds, sqrt)
  {
    if ds.coords.None? || ds.steps.None? || ds.time.None? {
      return e0;
    }
    var steps := ds.steps.value;
    var sites := Stations();
    assert KnownSites(sites);
    e := ProcessStations(e0, ds, ds.coords.value, steps, Times(ds.time.value, steps), sites, sqrt);
  }

  method ProcessStationFile(data0: StationData, f: GribFile, sqrt: real -> real) returns (data: StationData)
    requires WellFormed(data0)
    ensures data == FilePass(data0, f, sqrt)
  {
    if f.Unreadable? {
      return data0;
    }
    var dss := f.datasets;
    var e := Extraction(data0, false);
    var i := 0;
    while i < |dss|
      invariant 0 <= i <= |dss|
      invariant e == DatasetsPass(Extraction(data0, false), dss[..i], sqrt)
      invariant !e.failed
    {
      assert dss[..i + 1][..i] == dss[..i];
      e := ProcessDataset(e, dss[i], sqrt);
      i := i + 1;
      if e.failed {
        DatasetsAfterFailure(Extraction(data0, false), dss, i, sqrt);
        return e.data;
      }
    }
    assert dss[..i] == dss;
    data := e.data;
  }

  /** `extract_station_data`, file by file. */
  method ExtractStationData(files: seq<GribFile>, sqrt: real -> real) returns (data: StationData)
    ensures data == ExtractAll(files, sqrt)
    ensures WellFormed(data)
  {
    data := InitialData();
    var i := 0;
    while i < |files|
      invariant 0 <= i <= |files|
      invariant data == ExtractAll(files[..i], sqrt)
    {
      assert files[..i + 1][..i] == files[..i];
      data := ProcessStationFile(data, files[i], sqrt);
      i := i + 1;
    }
    assert files[..i] == files;
  }

  // ---------------------------------------------------------------------
  // What a pass without exceptions adds

  /** A parameter's series once `values` at `times` are appended: the old
      series extended, or a new one. */
  function Grown(before: map<string, Series>, p: string, times: seq<int>, values: seq<real>): Series {
    if p in before then Series(before[p].times + times, before[p].values + values) else Series(times, values)
  }

  /** How one parameter block left a station's series: `Got(v)` appended `v`
      at `times`; any other outcome left the parameter as it was. */
  predicate ParamAdded(before: map<string, Series>, after: map<string, Series>, p: string, o: ParamOutcome,
                       times: seq<int>) {
    if o.Got? then p in after && after[p] == Grown(before, p, times, o.values)
    else (p in after <==> p in before) && (p in before ==> after[p] == before[p])
  }

  /** The outcome of parameter `p` once the first `k` blocks have run. */
  function OutcomeUpTo(ds: Dataset, steps: seq<Step>, flat: nat, p: string, k: nat, sqrt: real -> real): ParamOutcome
    requires k <= |ExtractionOrder|
  {
    if p in ExtractionOrder[..k] then ParamAt(ds, steps, p, flat, sqrt) else Absent
  }

  /** The first `k` blocks have run for `station` at grid point `flat`,
      turning `d0` into `d`; the other stations are untouched. */
  ghost predicate BlocksApplied(d0: StationData, d: StationData, station: string, ds: Dataset, steps: seq<Step>,
                                times: seq<int>, flat: nat, k: nat, sqrt: real -> real) {
    k <= |ExtractionOrder| && station in d0 && station in d && d.Keys == d0.Keys &&
    (forall st :: st in d0 && st != station ==> d[st] == d0[st]) &&
    forall p :: ParamAdded(d0[station], d[station], p, OutcomeUpTo(ds, steps, flat, p, k, sqrt), times)
  }

  /** Block `k` without an exception appends what it got and keeps the rest. */
  lemma ApplyParamAdds(d0: StationData, e: Extraction, ds: Dataset, steps: seq<Step>, times: seq<int>,
                       station: string, flat: nat, k: nat, sqrt: real -> real)
    requires WellFormed(e.data) && station in e.data && |times| == |steps| && k < |ExtractionOrder|
    requires !e.failed && BlocksApplied(d0, e.data, station, ds, steps, times, flat, k, sqrt)
    requires !ParamAt(ds, steps, ExtractionOrder[k], flat, sqrt).Broken?
    ensures var r := ApplyParam(e, ds, steps, times, station, flat, ExtractionOrder[k], sqrt);
      !r.failed && BlocksApplied(d0, r.data, station, ds, steps, times, flat, k + 1, sqrt)
  {
    var q, k' := ExtractionOrder[k], k + 1;
    var r := ApplyParam(e, ds, steps, times, station, flat, q, sqrt);
    assert ExtractionOrder[..k'] == ExtractionOrder[..k] + [q];
    assert q !in ExtractionOrder[..k];
    forall p
      ensures ParamAdded(d0[station], r.data[station], p, OutcomeUpTo(ds, steps, flat, p, k', sqrt), times)
    {
      assert ParamAdded(d0[station], e.data[station], p, OutcomeUpTo(ds, steps, flat, p, k, sqrt), times);
      if p == q {
        assert OutcomeUpTo(ds, steps, flat, p, k, sqrt) == Absent;
      } else {
        assert OutcomeUpTo(ds, steps, flat, p, k', sqrt) == OutcomeUpTo(ds, steps, flat, p, k, sqrt);
      }
    }
  }

  /** The parameter of block `k`, spelled out. */
  function BlockParam(k: nat): (r: string)
    requires k < |ExtractionOrder|
    ensures r == ExtractionOrder[k]
  {
    if k == 0 then AirTemperature
    else if k == 1 then AirPressure
    else if k == 2 then Humidity
    else if k == 3 then WindSpeed
    else if k == 4 then CloudAmount
    else Precipitation
  }

  /** The first `k` blocks of one station, in extraction order. */
  function ApplyBlocks(e: Extraction, ds: Dataset, steps: seq<Step>, times: seq<int>, station: string, flat: nat,
                       k: nat, sqrt: real -> real): (r: Extraction)
    requires WellFormed(e.data) && station in e.data && |times| == |steps| && k <= |ExtractionOrder|
    ensures WellFormed(r.data) && station in r.data
  {
    if k == 0 then e
    else ApplyParam(ApplyBlocks(e, ds, steps, times, station, flat, k - 1, sqrt), ds, steps, times, station, flat,
                    BlockParam(k - 1), sqrt)
  }

  /** Blocks without an exception append what they got and keep the rest. */
  lemma {:induction false} ApplyBlocksAdds(e: Extraction, ds: Dataset, steps: seq<Step>, times: seq<int>,
                                           station: string, flat: nat, k: nat, sqrt: real -> real)
    requires WellFormed(e.data) && station in e.data && |times| == |steps| && k <= |ExtractionOrder| && !e.failed
    requires BlocksApplied(e.data, e.data, station, ds, steps, times, flat, 0, sqrt)
    requires forall p :: p in ExtractionOrder ==> !ParamAt(ds, steps, p, flat, sqrt).Broken?
    ensures var r := ApplyBlocks(e, ds, steps, times, station, flat, k, sqrt);
      !r.failed && BlocksApplied(e.data, r.data, station, ds, steps, times, flat, k, sqrt)
  {
    if k > 0 {
      ApplyBlocksAdds(e, ds, steps, times, station, flat, k - 1, sqrt);
      var prior := ApplyBlocks(e, ds, steps, times, station, flat, k - 1, sqrt);
      assert ExtractionOrder[k - 1] in ExtractionOrder;
      ApplyParamAdds(e.data, prior, ds, steps, times, station, flat, k - 1, sqrt);
    }
  }

  /** A station with a grid point runs the six blocks. */
  lemma StationPassBlocks(e: Extraction, ds: Dataset, c: Coords, steps: seq<Step>, times: seq<int>, site: Site,
                          g: GridPoint, sqrt: real -> real)
    requires WellFormed(e.data) && site.name in e.data && |times| == |steps|
    requires !e.failed && NearestGridpoint(c, site.lat, site.lon) == Some(g)
    ensures StationPass(e, ds, c, steps, times, site, sqrt) == ApplyBlocks(e, ds, steps, times, site.name, g.flat, 6, sqrt)
  {
    var n, f := site.name, g.flat;
    ApplyBlocksNext(e, ds, steps, times, n, f, 1, AirTemperature, sqrt);
    ApplyBlocksNext(e, ds, steps, times, n, f, 2, AirPressure, sqrt);
    ApplyBlocksNext(e, ds, steps, times, n, f, 3, Humidity, sqrt);
    ApplyBlocksNext(e, ds, steps, times, n, f, 4, WindSpeed, sqrt);
    ApplyBlocksNext(e, ds, steps, times, n, f, 5, CloudAmount, sqrt);
    ApplyBlocksNext(e, ds, steps, times, n, f, 6, Precipitation, sqrt);
  }

  /** Block `k` of a station follows the first `k - 1`. */
  lemma ApplyBlocksNext(e: Extraction, ds: Dataset, steps: seq<Step>, times: seq<int>, station: string, flat: nat,
                        k: nat, param: string, sqrt: real -> real)
    requires WellFormed(e.data) && station in e.data && |times| == |steps| && 0 < k <= |ExtractionOrder|
    requires param == BlockParam(k - 1)
    ensures ApplyBlocks(e, ds, steps, times, station, flat, k, sqrt) ==
      ApplyParam(ApplyBlocks(e, ds, steps, times, station, flat, k - 1, sqrt), ds, steps, times, station, flat, param, sqrt)
  {
  }

  /** How parameter `p` of `site` comes out of a dataset: what the block
      finds at the nearest grid point, or nothing. */
  function SiteOutcome(ds: Dataset, c: Coords, steps: seq<Step>, site: Site, p: string, sqrt: real -> real): ParamOutcome {
    match NearestGridpoint(c, site.lat, site.lon)
    case None => Absent
    case Some(g) => if p in ExtractionOrder then ParamAt(ds, steps, p, g.flat, sqrt) else Absent
  }

  /** Every block of `site` appended what it got and kept the rest. */
  ghost predicate StationAdded(before: map<string, Series>, after: map<string, Series>, ds: Dataset, c: Coords,
                               steps: seq<Step>, times: seq<int>, site: Site, sqrt: real -> real) {
    forall p :: ParamAdded(before, after, p, SiteOutcome(ds, c, steps, site, p, sqrt), times)
  }

  /** `site` has a grid point and none of its blocks raises. */
  predicate Clean(ds: Dataset, c: Coords, steps: seq<Step>, site: Site, sqrt: real -> real) {
    NearestGridpoint(c, site.lat, site.lon).Some? &&
    forall p :: p in ExtractionOrder ==> !SiteOutcome(ds, c, steps, site, p, sqrt).Broken?
  }

  /** A station whose grid point is found and whose blocks raise nothing:
      every parameter that got values has them appended at `times` (its
      series extended, or created), every other parameter and every other
      station are as before. */
  lemma StationPassAdds(e: Extraction, ds: Dataset, c: Coords, steps: seq<Step>, times: seq<int>, site: Site,
                        g: GridPoint, sqrt: real -> real)
    requires WellFormed(e.data) && site.name in e.data && |times| == |steps|
    requires !e.failed && NearestGridpoint(c, site.lat, site.lon) == Some(g)
    requires forall p :: p in ExtractionOrder ==> !ParamAt(ds, steps, p, g.flat, sqrt).Broken?
    ensures var r := StationPass(e, ds, c, steps, times, site, sqrt);
      !r.failed && r.data.Keys == e.data.Keys &&
      (forall st :: st in e.data && st != site.name ==> r.data[st] == e.data[st]) &&
      StationAdded(e.data[site.name], r.data[site.name], ds, c, steps, times, site, sqrt)
  {
    StationPassBlocks(e, ds, c, steps, times, site, g, sqrt);
    NoBlocksApplied(e.data, site.name, ds, steps, times, g.flat, sqrt);
    ApplyBlocksAdds(e, ds, steps, times, site.name, g.flat, 6, sqrt);
    AllBlocksApplied(e.data, ApplyBlocks(e, ds, steps, times, site.name, g.flat, 6, sqrt).data, ds, c, steps, times,
                     site, g, sqrt);
  }

  /** Before the first block nothing has changed. */
  lemma NoBlocksApplied(d: StationData, station: string, ds: Dataset, steps: seq<Step>, times: seq<int>, flat: nat,
                        sqrt: real -> real)
    requires station in d
    ensures BlocksApplied(d, d, station, ds, steps, times, flat, 0, sqrt)
  {
    forall p ensures ParamAdded(d[station], d[station], p, OutcomeUpTo(ds, steps, flat, p, 0, sqrt), times) {
    }
  }

  /** After the last block, each parameter came out as the site's outcome. */
  lemma AllBlocksApplied(d0: StationData, d: StationData, ds: Dataset, c: Coords, steps: seq<Step>, times: seq<int>,
                         site: Site, g: GridPoint, sqrt: real -> real)
    requires NearestGridpoint(c, site.lat, site.lon) == Some(g)
    requires BlocksApplied(d0, d, site.name, ds, steps, times, g.flat, 6, sqrt)
    ensures StationAdded(d0[site.name], d[site.name], ds, c, steps, times, site, sqrt)
  {
    assert ExtractionOrder[..6] == ExtractionOrder;
    forall p ensures ParamAdded(d0[site.name], d[site.name], p, SiteOutcome(ds, c, steps, site, p, sqrt), times) {
      assert OutcomeUpTo(ds, steps, g.flat, p, 6, sqrt) == SiteOutcome(ds, c, steps, site, p, sqrt);
    }
  }

  /** The names of `sites`. */
  function SiteNames(sites: seq<Site>): set<string> {
    set k | 0 <= k < |sites| :: sites[k].name
  }

  /** Each of `sites` has what its blocks got appended; the stations not
      among them are as before. */
  ghost predicate SitesAdded(d0: StationData, d: StationData, ds: Dataset, c: Coords, steps: seq<Step>,
                             times: seq<int>, sites: seq<Site>, sqrt: real -> real) {
    d.Keys == d0.Keys &&
    (forall st :: st in d0 && st !in SiteNames(sites) ==> d[st] == d0[st]) &&
    forall k :: 0 <= k < |sites| ==>
      sites[k].name in d0 && StationAdded(d0[sites[k].name], d[sites[k].name], ds, c, steps, times, sites[k], sqrt)
  }

  /** The sites before the last, then the last one on its own. */
  lemma SitesAddedNext(d0: StationData, d1: StationData, d2: StationData, ds: Dataset, c: Coords, steps: seq<Step>,
                       times: seq<int>, sites: seq<Site>, sqrt: real -> real)
    requires |sites| > 0 && forall i, j :: 0 <= i < j < |sites| ==> sites[i].name != sites[j].name
    requires SitesAdded(d0, d1, ds, c, steps, times, sites[..|sites| - 1], sqrt)
    requires var site := sites[|sites| - 1];
      site.name in d0 && d2.Keys == d1.Keys && (forall st :: st in d1 && st != site.name ==> d2[st] == d1[st]) &&
      StationAdded(d1[site.name], d2[site.name], ds, c, steps, times, site, sqrt)
    ensures SitesAdded(d0, d2, ds, c, steps, times, sites, sqrt)
  {
    var m := |sites| - 1;
    var init, site := sites[..m], sites[m];
    assert site.name !in SiteNames(init);
    assert SiteNames(sites) == SiteNames(init) + {site.name};
    forall k | 0 <= k < |sites|
      ensures sites[k].name in d0 && StationAdded(d0[sites[k].name], d2[sites[k].name], ds, c, steps, times, sites[k], sqrt)
    {
      if k < m {
        assert init[k] == sites[k] && sites[k].name != site.name;
      }
    }
  }

  /** Sites without exceptions, each under its own name: each station has
      what its blocks got appended, and the stations not among the sites are
      as before. */
  lemma {:induction false} StationsPassAdds(e: Extraction, ds: Dataset, c: Coords, steps: seq<Step>, times: seq<int>,
                                            sites: seq<Site>, sqrt: real -> real)
    requires WellFormed(e.data) && |times| == |steps| && KnownSites(sites) && !e.failed
    requires forall i, j :: 0 <= i < j < |sites| ==> sites[i].name != sites[j].name
    requires forall k :: 0 <= k < |sites| ==> Clean(ds, c, steps, sites[k], sqrt)
    ensures var r := StationsPass(e, ds, c, steps, times, sites, sqrt);
      !r.failed && SitesAdded(e.data, r.data, ds, c, steps, times, sites, sqrt)
  {
    if sites != [] {
      var m := |sites| - 1;
      var init, site := sites[..m], sites[m];
      assert KnownSites(init);
      StationsPassAdds(e, ds, c, steps, times, init, sqrt);
      var prior := StationsPass(e, ds, c, steps, times, init, sqrt);
      assert site.name in StationSet();
      var g := NearestGridpoint(c, site.lat, site.lon).value;
      forall p | p in ExtractionOrder ensures !ParamAt(ds, steps, p, g.flat, sqrt).Broken? {
        assert !SiteOutcome(ds, c, steps, site, p, sqrt).Broken?;
      }
      StationPassAdds(prior, ds, c, steps, times, site, g, sqrt);
      var r := StationPass(prior, ds, c, steps, times, site, sqrt);
      SitesAddedNext(e.data, prior.data, r.data, ds, c, steps, times, sites, sqrt);
    } else {
      assert SiteNames(sites) == {};
    }
  }

  /** A dataset with coordinates, steps and a time, in which every station
      has a grid point and no block raises: each station has what its blocks
      got appended at `base_time + step`. */
  lemma DatasetPassAdds(e: Extraction, ds: Dataset, sqrt: real -> real)
    requires WellFormed(e.data) && !e.failed && ds.coords.Some? && ds.steps.Some? && ds.time.Some?
    requires forall k :: 0 <= k < |Stations()| ==> Clean(ds, ds.coords.value, ds.steps.value, Stations()[k], sqrt)
    ensures var r := DatasetPass(e, ds, sqrt);
      !r.failed &&
      SitesAdded(e.data, r.data, ds, ds.coords.value, ds.steps.value, Times(ds.time.value, ds.steps.value), Stations(), sqrt)
  {
    assert KnownSites(Stations());
    StationsPassAdds(e, ds, ds.coords.value, ds.steps.value, Times(ds.time.value, ds.steps.value), Stations(), sqrt);
  }

  /** A single readable file holding one such dataset: every station's
      series are exactly what its blocks got, at `base_time + step`. */
  lemma ExtractSingleDataset(ds: Dataset, sqrt: real -> real)
    requires ds.coords.Some? && ds.steps.Some? && ds.time.Some?
    requires forall k :: 0 <= k < |Stations()| ==> Clean(ds, ds.coords.value, ds.steps.value, Stations()[k], sqrt)
    ensures var r := ExtractAll([Decoded([ds])], sqrt);
      forall k, p :: 0 <= k < |Stations()| ==>
        match SiteOutcome(ds, ds.coords.value, ds.steps.value, Stations()[k], p, sqrt)
        case Got(v) => p in r[Stations()[k].name] && r[Stations()[k].name][p] == Series(Times(ds.time.value, ds.steps.value), v)
        case _ => p !in r[Stations()[k].name]
  {
    var e := Extraction(InitialData(), false);
    SingleDatasetPass(ds, sqrt);
    DatasetPassAdds(e, ds, sqrt);
    AddedToInitial(DatasetPass(e, ds, sqrt).data, ds, ds.coords.value, ds.steps.value,
                   Times(ds.time.value, ds.steps.value), sqrt);
  }

  /** A file holding one dataset is that dataset's pass over the empty
      collection. */
  lemma SingleDatasetPass(ds: Dataset, sqrt: real -> real)
    ensures ExtractAll([Decoded([ds])], sqrt) == DatasetPass(Extraction(InitialData(), false), ds, sqrt).data
  {
    SingleFile(Decoded([ds]), sqrt);
    SingleDataset(Extraction(InitialData(), false), ds, sqrt);
  }

  lemma SingleFile(f: GribFile, sqrt: real -> real)
    ensures ExtractAll([f], sqrt) == FilePass(InitialData(), f, sqrt)
  {
    assert [f][..0] == [];
  }

  lemma SingleDataset(e: Extraction, ds: Dataset, sqrt: real -> real)
    requires WellFormed(e.data)
    ensures DatasetsPass(e, [ds], sqrt) == DatasetPass(e, ds, sqrt)
  {
    assert [ds][..0] == [];
  }

  /** Added to the empty collection, a series is exactly what was got. */
  lemma AddedToInitial(d: StationData, ds: Dataset, c: Coords, steps: seq<Step>, times: seq<int>, sqrt: real -> real)
    requires SitesAdded(InitialData(), d, ds, c, steps, times, Stations(), sqrt)
    ensures forall k, p :: 0 <= k < |Stations()| ==>
      match SiteOutcome(ds, c, steps, Stations()[k], p, sqrt)
      case Got(v) => p in d[Stations()[k].name] && d[Stations()[k].name][p] == Series(times, v)
      case _ => p !in d[Stations()[k].name]
  {
    forall k, p | 0 <= k < |Stations()|
      ensures match SiteOutcome(ds, c, steps, Stations()[k], p, sqrt)
        case Got(v) => p in d[Stations()[k].name] && d[Stations()[k].name][p] == Series(times, v)
        case _ => p !in d[Stations()[k].name]
    {
      var st := Stations()[k].name;
      assert InitialData()[st] == map[];
      assert ParamAdded(InitialData()[st], d[st], p, SiteOutcome(ds, c, steps, Stations()[k], p, sqrt), times);
    }
  }

  // ---------------------------------------------------------------------
  // Common y-axis range per parameter (lines 268-293)

  function SeqMin(xs: seq<real>): (r: real)
    requires |xs| > 0
    ensures r in xs && forall k :: 0 <= k < |xs| ==> r <= xs[k]
  {
    if |xs| == 1 then xs[0]
    else
      var m := SeqMin(xs[..|xs| - 1]);
      if xs[|xs| - 1] < m then xs[|xs| - 1] else m
  }

  function SeqMax(xs: seq<real>): (r: real)
    requires |xs| > 0
    ensures r in xs && forall k :: 0 <= k < |xs| ==> xs[k] <= r
  {
    if |xs| == 1 then xs[0]
    else
      var m := SeqMax(xs[..|xs| - 1]);
      if xs[|xs| - 1] > m then xs[|xs| - 1] else m
  }

  function Abs(x: real): real {
    if x < 0.0 then -x else x
  }

  /** The values of `param` over the named stations, in station order. */
  function AllValues(data: StationData, names: seq<string>, param: string): (r: seq<real>)
    requires forall k :: 0 <= k < |names| ==> names[k] in data
    ensures forall v :: v in r <==>
      exists k :: 0 <= k < |names| && param in data[names[k]] && v in data[names[k]][param].values
  {
    if names == [] then []
    else
      var last := names[|names| - 1];
      var prior := AllValues(data, names[..|names| - 1], param);
      var own := if param in data[last] then data[last][param].values else [];
      assert forall k :: 0 <= k < |names| - 1 ==> names[..|names| - 1][k] == names[k];
      prior + own
  }

  /** Cloud amount and humidity are drawn on a fixed 0-100 axis. */
  predicate FixedAxis(param: string) {
    param == CloudAmount || param == Humidity
  }

  /** The y-range of `param` given all its values: (0, 1) without data, (0, 100)
      for a fixed axis, and otherwise the data widened by a margin that is a
      tenth of the spread, or of the value itself when all values agree, or 1
      when they are all 0. */
  function Range(param: string, vals: seq<real>): (r: (real, real))
    ensures vals == [] ==> r == (0.0, 1.0)
    ensures vals != [] && FixedAxis(param) ==> r == (0.0, 100.0)
    ensures vals != [] && !FixedAxis(param) ==>
      r.0 < SeqMin(vals) && SeqMax(vals) < r.1 &&
      forall k :: 0 <= k < |vals| ==> r.0 < vals[k] < r.1
    ensures vals != [] && !FixedAxis(param) && SeqMin(vals) < SeqMax(vals) ==>
      r.1 - SeqMax(vals) == SeqMin(vals) - r.0 == (SeqMax(vals) - SeqMin(vals)) / 10.0
    ensures vals != [] && !FixedAxis(param) && SeqMin(vals) == SeqMax(vals) ==>
      r.1 - SeqMax(vals) == SeqMin(vals) - r.0 == (if SeqMax(vals) == 0.0 then 1.0 else Abs(SeqMax(vals)) / 10.0)
  {
    if vals == [] then (0.0, 1.0)
    else
      var lo := SeqMin(vals);
      var hi := SeqMax(vals);
      var spread := (hi - lo) * 0.1;
      var margin := if spread == 0.0 then (if hi == 0.0 then 1.0 else Abs(hi) * 0.1) else spread;
      if FixedAxis(param) then (0.0, 100.0) else (lo - margin, hi + margin)
  }

  /** `all_values` for one parameter: the stations' values in station order. */
  method CollectValues(data: StationData, names: seq<string>, param: string) returns (allValues: seq<real>)
    requires forall k :: 0 <= k < |names| ==> names[k] in data
    ensures allValues == AllValues(data, names, param)
  {
    allValues := [];
    var j := 0;
    while j < |names|
      invariant 0 <= j <= |names|
      invariant allValues == AllValues(data, names[..j], param)
    {
      assert names[..j + 1][..j] == names[..j];
      if param in data[names[j]] {
        allValues := allValues + data[names[j]][param].values;
      }
      j := j + 1;
    }
    assert names[..j] == names;
  }

  /** The range of one parameter from its values. */
  method RangeOf(param: string, allValues: seq<real>) returns (range: (real, real))
    ensures range == Range(param, allValues)
  {
    if allValues != [] {
      var lo := SeqMin(allValues);
      var hi := SeqMax(allValues);
      var margin := (hi - lo) * 0.1;
      if margin == 0.0 {
        margin := if hi == 0.0 then 1.0 else Abs(hi) * 0.1;
      }
      if param == CloudAmount || param == Humidity {
        range := (0.0, 100.0);
      } else {
        range := (lo - margin, hi + margin);
      }
    } else {
      range := (0.0, 1.0);
    }
  }

  /** The range `plot_timeseries` gives `param` for the collected data. */
  function ParamRange(data: StationData, param: string): (real, real)
    requires WellFormed(data)
  {
    StationsPresent(data);
    Range(param, AllValues(data, StationNames(), param))
  }

  /** A well-formed collection has an entry for every station. */
  lemma StationsPresent(data: StationData)
    requires WellFormed(data)
    ensures forall k :: 0 <= k < |StationNames()| ==> StationNames()[k] in data
  {
  }

  method RangeOfParam(data: StationData, param: string) returns (range: (real, real))
    requires WellFormed(data)
    ensures range == ParamRange(data, param)
  {
    var names := StationNames();
    StationsPresent(data);
    var allValues := CollectValues(data, names, param);
    range := RangeOf(param, allValues);
  }

  /** The `param_ranges` loop of `plot_timeseries`, over `params`. */
  method ParamRanges(data: StationData, params: seq<string>) returns (ranges: map<string, (real, real)>)
    requires WellFormed(data)
    ensures forall p :: p in ranges <==> p in params
    ensures forall p :: p in ranges ==> ranges[p] == ParamRange(data, p)
  {
    ranges := map[];
    var i := 0;
    while i < |params|
      invariant 0 <= i <= |params|
      invariant forall p :: p in ranges <==> p in params[..i]
      invariant RangesOf(data, ranges)
    {
      var param := params[i];
      var range := RangeOfParam(data, param);
      assert params[..i + 1] == params[..i] + [param];
      ranges := ranges[param := range];
      i := i + 1;
    }
    assert params[..i] == params;
  }

  /** Each parameter in `ranges` has the range `plot_timeseries` gives it. */
  predicate RangesOf(data: StationData, ranges: map<string, (real, real)>)
    requires WellFormed(data)
  {
    forall p :: p in ranges ==> ranges[p] == ParamRange(data, p)
  }

  /** Every value a station holds for a parameter with a data-driven axis lies
      strictly inside that parameter's range. */
  lemma RangeEnclosesStations(data: StationData, param: string, st: string, k: nat)
    requires WellFormed(data) && !FixedAxis(param)
    requires st in data && param in data[st] && k < |data[st][param].values|
    ensures ParamRange(data, param).0 < data[st][param].values[k] < ParamRange(data, param).1
  {
    var names := StationNames();
    assert forall i :: 0 <= i < |names| ==> names[i] in data;
    var i :| 0 <= i < |Stations()| && Stations()[i].name == st;
    var vals := AllValues(data, names, param);
    var v := data[st][param].values[k];
    assert names[i] == st;
    assert v in vals;
  }

  // ---------------------------------------------------------------------
  // JSON export (lines 360-405)

  datatype JsonSeries = JsonSeries(times: seq<string>, values: seq<real>)

  datatype JsonStation = JsonStation(lat: real, lon: real, data: map<string, JsonSeries>)

  /** `STATIONS[station_name]` */
  function SiteNamed(name: string): (r: Site)
    requires name in StationSet()
    ensures r.name == name && exists i :: 0 <= i < |Stations()| && Stations()[i] == r
  {
    var i :| 0 <= i < |Stations()| && Stations()[i].name == name;
    Stations()[i]
  }

  /** One series as written: the times rendered by `show`, the values as they are. */
  function JsonSeriesOf(s: Series, show: int -> string): (j: JsonSeries)
    requires |s.times| == |s.values|
    ensures |j.times| == |j.values| == |s.values| && j.values == s.values
    ensures forall k :: 0 <= k < |j.times| ==> j.times[k] == show(s.times[k])
  {
    JsonSeries(seq(|s.times|, k requires 0 <= k < |s.times| => show(s.times[k])), s.values)
  }

  /** `save_station_data_json` without the file: each station with its
      coordinates and every series, times rendered by `show` (`str(t)`). */
  function ExportJson(data: StationData, show: int -> string): (r: map<string, JsonStation>)
    requires WellFormed(data)
    ensures r.Keys == data.Keys
    ensures forall st :: st in r ==>
      r[st].lat == SiteNamed(st).lat && r[st].lon == SiteNamed(st).lon && r[st].data.Keys == data[st].Keys
    ensures forall st, p :: st in r && p in r[st].data ==>
      var j := r[st].data[p];
      var s := data[st][p];
      |j.times| == |j.values| == |s.values| && j.values == s.values &&
      forall k :: 0 <= k < |j.times| ==> j.times[k] == show(s.times[k])
  {
    map st | st in data :: JsonStation(SiteNamed(st).lat, SiteNamed(st).lon,
      map p | p in data[st] :: JsonSeriesOf(data[st][p], show))
  }
}
