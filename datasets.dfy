/** The decoded contents of one forecast file, as the GRIB decoder hands them
    over, and the element-wise grid arithmetic the programs perform on them.

    A file decodes to an ordered list of datasets. A dataset has an optional
    `step` coordinate (its values in order), an optional reference `time`,
    optional latitude/longitude coordinates, and its data variables in
    order. A variable carries its `GRIB_stepType` attribute ("" when absent)
    and one field per step it holds. A field is a 2-D grid flattened in
    row-major order, with the text of its `valid_time` coordinate if it has
    one. */
module Datasets {
  import opened Common

  /** A forecast step offset, in the unit of the step coordinate. */
  type Step = nat

  /** A 2-D field, row-major. */
  type Grid = seq<real>

  /** Latitude/longitude coordinates: either two 1-D axes (a regular grid of
      |lats| rows by |lons| columns), or two 2-D arrays of the same shape with
      `cols` columns, flattened row-major. */
  datatype Coords =
    | Axes(lats: seq<real>, lons: seq<real>)
    | Mesh(cols: nat, latGrid: seq<real>, lonGrid: seq<real>)

  datatype Field = Field(values: Grid, validTime: Option<string>)

  datatype Var = Var(stepType: string, fields: map<Step, Field>)

  datatype NamedVar = NamedVar(name: string, data: Var)

  datatype Dataset = Dataset(
    steps: Option<seq<Step>>,
    time: Option<int>,
    coords: Option<Coords>,
    dataVars: seq<NamedVar>)

  /** A data file: either the decoder raised, or it yielded its datasets. */
  datatype GribFile = Unreadable | Decoded(datasets: seq<Dataset>)

  /** `ds[name]`: the variable bound to `name`, if any. */
  function Lookup(vars: seq<NamedVar>, name: string): (r: Option<Var>)
    ensures r.Some? <==> exists i :: 0 <= i < |vars| && vars[i].name == name
    ensures r.Some? ==> exists i :: 0 <= i < |vars| && vars[i] == NamedVar(name, r.value)
  {
    if vars == [] then None
    else if vars[0].name == name then Some(vars[0].data)
    else
      var r := Lookup(vars[1..], name);
      assert forall i :: 1 <= i < |vars| ==> vars[i] == vars[1..][i - 1];
      r
  }

  /** `name in ds.data_vars` */
  predicate Has(ds: Dataset, name: string) {
    Lookup(ds.dataVars, name).Some?
  }

  /** `'step' in ds.coords and step in ds.step.values` */
  predicate HasStep(ds: Dataset, step: Step) {
    ds.steps.Some? && step in ds.steps.value
  }

  /** `ds[name].sel(step=step)`: it fails (the source catches the error) when
      the variable is missing, the dataset has no step coordinate, or the
      step is not among its values. */
  function Select(ds: Dataset, name: string, step: Step): (r: Option<Field>)
    ensures r.Some? <==> Has(ds, name) && HasStep(ds, step) && step in Lookup(ds.dataVars, name).value.fields
  {
    match Lookup(ds.dataVars, name)
    case None => None
    case Some(v) => if HasStep(ds, step) && step in v.fields then Some(v.fields[step]) else None
  }

  /** Number of grid points the coordinates describe. */
  function CellCount(c: Coords): nat {
    match c
    case Axes(lats, lons) => |lats| * |lons|
    case Mesh(_, latGrid, _) => |latGrid|
  }

  // ---------------------------------------------------------------------
  // Element-wise arithmetic (numpy broadcasting between equal shapes).

  function ZeroGrid(n: nat): (r: Grid)
    ensures |r| == n && forall i :: 0 <= i < n ==> r[i] == 0.0
  {
    seq(n, _ => 0.0)
  }

  function Max(a: real, b: real): real {
    if a >= b then a else b
  }

  /** `d = cur - prev; d[d < 0] = 0` */
  function ClampedDiff(cur: Grid, prev: Grid): (r: Grid)
    requires |cur| == |prev|
    ensures |r| == |cur|
    ensures forall i :: 0 <= i < |r| ==> r[i] >= 0.0
    ensures forall i :: 0 <= i < |r| ==> r[i] == if cur[i] >= prev[i] then cur[i] - prev[i] else 0.0
  {
    seq(|cur|, i requires 0 <= i < |cur| => Max(cur[i] - prev[i], 0.0))
  }

  /** `np.maximum(a, b)` */
  function PointwiseMax(a: Grid, b: Grid): (r: Grid)
    requires |a| == |b|
    ensures |r| == |a|
    ensures forall i :: 0 <= i < |r| ==> r[i] >= a[i] && r[i] >= b[i] && (r[i] == a[i] || r[i] == b[i])
  {
    seq(|a|, i requires 0 <= i < |a| => Max(a[i], b[i]))
  }

  predicate SameLength(layers: seq<Grid>) {
    forall i :: 0 <= i < |layers| ==> |layers[i]| == |layers[0]|
  }

  /** `np.maximum.reduce(layers)`: the element-wise maximum of the layers. */
  function MaxOfLayers(layers: seq<Grid>): (r: Grid)
    requires |layers| > 0 && SameLength(layers)
    ensures |r| == |layers[0]|
    ensures forall i, k :: 0 <= i < |r| && 0 <= k < |layers| ==> layers[k][i] <= r[i]
    ensures forall i :: 0 <= i < |r| ==> exists k :: 0 <= k < |layers| && r[i] == layers[k][i]
  {
    if |layers| == 1 then layers[0]
    else
      var rest := MaxOfLayers(layers[..|layers| - 1]);
      var r := PointwiseMax(rest, layers[|layers| - 1]);
      assert forall i :: 0 <= i < |r| ==> exists k :: 0 <= k < |layers| && r[i] == layers[k][i] by {
        forall i | 0 <= i < |r| ensures exists k :: 0 <= k < |layers| && r[i] == layers[k][i] {
          if r[i] == rest[i] {
            var k :| 0 <= k < |layers| - 1 && rest[i] == layers[..|layers| - 1][k][i];
            assert r[i] == layers[k][i];
          } else {
            assert r[i] == layers[|layers| - 1][i];
          }
        }
      }
      r
  }

  /** The speed of the wind vector (x, y). */
  function Norm(x: real, y: real, sqrt: real -> real): real {
    sqrt(x * x + y * y)
  }

  /** `np.sqrt(u**2 + v**2)`; the square root is supplied by the caller. */
  function Magnitude(u: Grid, v: Grid, sqrt: real -> real): (r: Grid)
    requires |u| == |v|
    ensures |r| == |u|
    ensures forall i :: 0 <= i < |r| ==> r[i] == Norm(u[i], v[i], sqrt)
  {
    seq(|u|, i requires 0 <= i < |u| => Norm(u[i], v[i], sqrt))
  }

  /** With a true square root the speed is the non-negative root of u² + v². */
  lemma NormIsSpeed(x: real, y: real, sqrt: real -> real)
    requires IsSqrt(sqrt)
    ensures Norm(x, y, sqrt) >= 0.0
    ensures Norm(x, y, sqrt) * Norm(x, y, sqrt) == x * x + y * y
  {
    assert x * x + y * y >= 0.0;
  }

  /** What the caller's square root must satisfy for the wind lemmas. */
  ghost predicate IsSqrt(sqrt: real -> real) {
    forall x :: x >= 0.0 ==> sqrt(x) >= 0.0 && sqrt(x) * sqrt(x) == x
  }

  function Sum(g: Grid): real {
    if g == [] then 0.0 else Sum(g[..|g| - 1]) + g[|g| - 1]
  }

  /** `np.nanmean` of a NaN-free, non-empty grid. */
  function Mean(g: Grid): real
    requires |g| > 0
  {
    Sum(g) / (|g| as real)
  }

  /** `g - c` */
  function Shift(g: Grid, c: real): (r: Grid)
    ensures |r| == |g| && forall i :: 0 <= i < |g| ==> r[i] == g[i] - c
  {
    seq(|g|, i requires 0 <= i < |g| => g[i] - c)
  }

  /** `g / d` */
  function Scale(g: Grid, d: real): (r: Grid)
    requires d != 0.0
    ensures |r| == |g| && forall i :: 0 <= i < |g| ==> r[i] == g[i] / d
  {
    seq(|g|, i requires 0 <= i < |g| => g[i] / d)
  }

  lemma {:induction false} SumShift(g: Grid, c: real)
    ensures Sum(Shift(g, c)) == Sum(g) - (|g| as real) * c
  {
    if g != [] {
      var n := |g|;
      assert Shift(g, c)[..n - 1] == Shift(g[..n - 1], c);
      SumShift(g[..n - 1], c);
    }
  }

  lemma {:induction false} SumScale(g: Grid, d: real)
    requires d != 0.0
    ensures Sum(Scale(g, d)) == Sum(g) / d
  {
    if g != [] {
      var n := |g|;
      assert Scale(g, d)[..n - 1] == Scale(g[..n - 1], d);
      SumScale(g[..n - 1], d);
    }
  }

  /** Subtracting a constant lowers the mean by that constant. */
  lemma MeanShift(g: Grid, c: real)
    requires |g| > 0
    ensures Mean(Shift(g, c)) == Mean(g) - c
  {
    SumShift(g, c);
    var n := |g| as real;
    calc {
      Mean(Shift(g, c));
      (Sum(g) - n * c) / n;
      Sum(g) / n - c;
    }
  }

  /** Dividing by a constant divides the mean by it. */
  lemma MeanScale(g: Grid, d: real)
    requires |g| > 0 && d != 0.0
    ensures Mean(Scale(g, d)) == Mean(g) / d
  {
    SumScale(g, d);
    var n := |g| as real;
    calc {
      Mean(Scale(g, d));
      (Sum(g) / d) / n;
      (Sum(g) / n) / d;
    }
  }
}
