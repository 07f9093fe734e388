/** The older single-script pipeline (visualize_msm.py): the datasets of a
    file are merged into one, first occurrence winning; wind speed is derived;
    each display label binds once per file to the first of its names that is
    present; and every step that draws without an exception becomes a frame
    named by a counter that advances only on success. */
module MsmLegacy {
  import opened Common
  import opened Datasets
  import Assembly

  // ---------------------------------------------------------------------
  // Merging the datasets of one file (lines 55-73)

  /** A variable as the merge loop meets it, with the step coordinate of
      the dataset it comes from. */
  datatype Entry = Entry(name: string, data: Var, steps: Option<seq<Step>>)

  function EntriesOf(ds: Dataset): (r: seq<Entry>)
    ensures |r| == |ds.dataVars|
    ensures forall j :: 0 <= j < |r| ==> r[j] == Entry(ds.dataVars[j].name, ds.dataVars[j].data, ds.steps)
  {
    seq(|ds.dataVars|, j requires 0 <= j < |ds.dataVars| => Entry(ds.dataVars[j].name, ds.dataVars[j].data, ds.steps))
  }

  /** Every variable of every dataset, datasets in order. */
  function Entries(dss: seq<Dataset>): seq<Entry> {
    if dss == [] then [] else Entries(dss[..|dss| - 1]) + EntriesOf(dss[|dss| - 1])
  }

  /** The name a variable is merged under: `unknown` is renamed by its step
      type (accumulated is precipitation, instantaneous is total cloud cover)
      and dropped otherwise; any other name is kept. */
  function KeyOf(e: Entry): (r: Option<string>)
    ensures e.name != "unknown" ==> r == Some(e.name)
    ensures e.name == "unknown" ==> (
      (r == Some("precipitation") <==> e.data.stepType == "accum") &&
      (r == Some("total_cloud_cover") <==> e.data.stepType == "instant") &&
      (r.None? <==> e.data.stepType != "accum" && e.data.stepType != "instant"))
  {
    if e.name == "unknown" then
      if e.data.stepType == "accum" then Some("precipitation")
      else if e.data.stepType == "instant" then Some("total_cloud_cover")
      else None
    else Some(e.name)
  }

  /** `ds_file`: the merged variables, and its step coordinate, which the
      first variable added from a dataset with a step coordinate brings. */
  datatype Merged = Merged(vars: map<string, Var>, steps: Option<seq<Step>>)

  /** One iteration of the inner merge loop: a name already present is left
      alone. */
  function Add(m: Merged, e: Entry): (r: Merged)
    ensures KeyOf(e).None? || KeyOf(e).value in m.vars ==> r == m
    ensures KeyOf(e).Some? && KeyOf(e).value !in m.vars ==>
      r.vars == m.vars[KeyOf(e).value := e.data] && r.steps == (if m.steps.Some? then m.steps else e.steps)
  {
    match KeyOf(e)
    case None => m
    case Some(k) => if k in m.vars then m else Merged(m.vars[k := e.data], if m.steps.Some? then m.steps else e.steps)
  }

  function Merge(entries: seq<Entry>): (r: Merged)
    ensures r.steps.Some? ==> exists i :: 0 <= i < |entries| && entries[i].steps == r.steps
  {
    if entries == [] then Merged(map[], None) else Add(Merge(entries[..|entries| - 1]), entries[|entries| - 1])
  }

  /** A name is merged exactly when some variable is merged under it, and it
      holds the first such variable in dataset order. */
  lemma {:induction false} MergeFirstWins(entries: seq<Entry>, k: string)
    ensures k in Merge(entries).vars <==> exists i :: 0 <= i < |entries| && KeyOf(entries[i]) == Some(k)
    ensures k in Merge(entries).vars ==>
      exists i :: 0 <= i < |entries| && KeyOf(entries[i]) == Some(k) && Merge(entries).vars[k] == entries[i].data &&
        forall j :: 0 <= j < i ==> KeyOf(entries[j]) != Some(k)
  {
    if entries != [] {
      var n := |entries|;
      var init := entries[..n - 1];
      MergeFirstWins(init, k);
      assert forall j :: 0 <= j < n - 1 ==> init[j] == entries[j];
      var m := Merge(init);
      if k in m.vars {
        var i :| 0 <= i < n - 1 && KeyOf(init[i]) == Some(k) && m.vars[k] == init[i].data &&
          forall j :: 0 <= j < i ==> KeyOf(init[j]) != Some(k);
        assert KeyOf(entries[i]) == Some(k) && Merge(entries).vars[k] == entries[i].data;
      } else if KeyOf(entries[n - 1]) == Some(k) {
        assert Merge(entries).vars[k] == entries[n - 1].data;
      }
    }
  }

  /** Entry `i` is merged: it has a key and no earlier entry had that key. */
  predicate Adopted(entries: seq<Entry>, i: nat)
    requires i < |entries|
  {
    KeyOf(entries[i]).Some? && forall j :: 0 <= j < i ==> KeyOf(entries[j]) != KeyOf(entries[i])
  }

  /** The merged step coordinate is that of the first merged variable that has
      one, and there is none exactly when no merged variable has one. */
  lemma {:induction false} MergeSteps(entries: seq<Entry>)
    ensures Merge(entries).steps.None? <==>
      forall i :: 0 <= i < |entries| && Adopted(entries, i) ==> entries[i].steps.None?
    ensures Merge(entries).steps.Some? ==>
      exists i :: 0 <= i < |entries| && Adopted(entries, i) && entries[i].steps == Merge(entries).steps &&
        forall j :: 0 <= j < i && Adopted(entries, j) ==> entries[j].steps.None?
  {
    if entries != [] {
      var n := |entries|;
      var init := entries[..n - 1];
      MergeSteps(init);
      AdoptedPrefix(entries);
      AdoptedLast(entries);
    }
  }

  /** The earlier entries are merged or not as they were without the last. */
  lemma AdoptedPrefix(entries: seq<Entry>)
    requires entries != []
    ensures forall j :: 0 <= j < |entries| - 1 ==>
      (Adopted(entries[..|entries| - 1], j) <==> Adopted(entries, j)) && entries[..|entries| - 1][j] == entries[j]
  {
    var init := entries[..|entries| - 1];
    assert forall j :: 0 <= j < |init| ==> init[j] == entries[j];
  }

  /** The last entry is merged exactly when its key is not merged yet. */
  lemma AdoptedLast(entries: seq<Entry>)
    requires entries != []
    ensures var n := |entries|;
      Adopted(entries, n - 1) <==>
        KeyOf(entries[n - 1]).Some? && KeyOf(entries[n - 1]).value !in Merge(entries[..n - 1]).vars
  {
    var n := |entries|;
    var init := entries[..n - 1];
    assert forall j :: 0 <= j < n - 1 ==> init[j] == entries[j];
    if KeyOf(entries[n - 1]).Some? {
      var k := KeyOf(entries[n - 1]).value;
      MergeFirstWins(init, k);
      if k in Merge(init).vars {
        var j :| 0 <= j < n - 1 && KeyOf(init[j]) == Some(k);
        assert KeyOf(entries[j]) == KeyOf(entries[n - 1]);
      }
    }
  }

  /** An accumulated `unknown` becomes `precipitation` only if no variable
      has been merged under that name before it; the first one wins. */
  lemma UnknownAccumIsPrecipitation(entries: seq<Entry>, i: nat)
    requires i < |entries| && entries[i].name == "unknown" && entries[i].data.stepType == "accum"
    requires forall j :: 0 <= j < i ==> KeyOf(entries[j]) != Some("precipitation")
    ensures "precipitation" in Merge(entries).vars && Merge(entries).vars["precipitation"] == entries[i].data
  {
    MergeFirstWins(entries, "precipitation");
    var w :| 0 <= w < |entries| && KeyOf(entries[w]) == Some("precipitation") &&
      Merge(entries).vars["precipitation"] == entries[w].data &&
      forall j :: 0 <= j < w ==> KeyOf(entries[j]) != Some("precipitation");
    assert w == i;
  }

  lemma MergeSnoc(entries: seq<Entry>, e: Entry)
    ensures Merge(entries + [e]) == Add(Merge(entries), e)
  {
    assert (entries + [e])[..|entries|] == entries;
  }

  /** The inner merge loop over the variables of one dataset. */
  method MergeDataset(m0: Merged, ghost before: seq<Entry>, own: seq<Entry>) returns (m: Merged)
    requires m0 == Merge(before)
    ensures m == Merge(before + own)
  {
    m := m0;
    var j := 0;
    assert before + own[..0] == before;
    while j < |own|
      invariant 0 <= j <= |own|
      invariant m == Merge(before + own[..j])
    {
      assert before + own[..j + 1] == (before + own[..j]) + [own[j]];
      MergeSnoc(before + own[..j], own[j]);
      m := AddVariable(m, own[j]);
      j := j + 1;
    }
    assert own[..j] == own;
  }

  /** The body of the inner merge loop: `ds_file[name] = ds[var]` unless the
      name is already taken. */
  method AddVariable(m0: Merged, e: Entry) returns (m: Merged)
    ensures m == Add(m0, e)
  {
    m := m0;
    var key := KeyOf(e);
    if key.Some? && key.value !in m.vars {
      m := Merged(m.vars[key.value := e.data], if m.steps.Some? then m.steps else e.steps);
    }
  }

  /** The outer merge loop over the datasets of a file. */
  method MergeDatasets(dss: seq<Dataset>) returns (m: Merged)
    ensures m == Merge(Entries(dss))
  {
    m := Merged(map[], None);
    var i := 0;
    while i < |dss|
      invariant 0 <= i <= |dss|
      invariant m == Merge(Entries(dss[..i]))
    {
      assert dss[..i + 1][..i] == dss[..i];
      m := MergeDataset(m, Entries(dss[..i]), EntriesOf(dss[i]));
      i := i + 1;
    }
    assert dss[..i] == dss;
  }

  // ---------------------------------------------------------------------
  // Wind speed (lines 75-81)

  /** `np.sqrt(u**2 + v**2)` on two variables: the steps both have, with
      attributes dropped; a step whose grids differ in size raises. */
  function WindVar(u: Var, v: Var, sqrt: real -> real): (r: Option<Var>)
    ensures r.None? <==> exists s :: s in u.fields && s in v.fields && |u.fields[s].values| != |v.fields[s].values|
    ensures r.Some? ==> (
      r.value.stepType == "" &&
      (forall s :: s in r.value.fields <==> s in u.fields && s in v.fields) &&
      forall s :: s in r.value.fields ==>
        |r.value.fields[s].values| == |u.fields[s].values| &&
        forall c :: 0 <= c < |u.fields[s].values| ==>
          r.value.fields[s].values[c] == Norm(u.fields[s].values[c], v.fields[s].values[c], sqrt))
  {
    if exists s :: s in u.fields && s in v.fields && |u.fields[s].values| != |v.fields[s].values| then None
    else
      Some(Var("", map s | s in u.fields && s in v.fields ::
        Field(Magnitude(u.fields[s].values, v.fields[s].values, sqrt), u.fields[s].validTime)))
  }

  /** `wind_speed` from u10/v10 when both were merged, else from u/v, else
      nothing is added. None when the arithmetic raises. */
  function DeriveWind(vars: map<string, Var>, sqrt: real -> real): (r: Option<map<string, Var>>)
    ensures "u10" in vars && "v10" in vars ==> (
      (r.None? <==> WindVar(vars["u10"], vars["v10"], sqrt).None?) &&
      (r.Some? ==> r.value == vars["wind_speed" := WindVar(vars["u10"], vars["v10"], sqrt).value]))
    ensures !("u10" in vars && "v10" in vars) && "u" in vars && "v" in vars ==> (
      (r.None? <==> WindVar(vars["u"], vars["v"], sqrt).None?) &&
      (r.Some? ==> r.value == vars["wind_speed" := WindVar(vars["u"], vars["v"], sqrt).value]))
    ensures !("u10" in vars && "v10" in vars) && !("u" in vars && "v" in vars) ==> r == Some(vars)
  {
    if "u10" in vars && "v10" in vars then
      match WindVar(vars["u10"], vars["v10"], sqrt)
      case None => None
      case Some(w) => Some(vars["wind_speed" := w])
    else if "u" in vars && "v" in vars then
      match WindVar(vars["u"], vars["v"], sqrt)
      case None => None
      case Some(w) => Some(vars["wind_speed" := w])
    else Some(vars)
  }

  // ---------------------------------------------------------------------
  // Display labels (lines 31-37, 97-105)

  datatype LabelInfo = LabelInfo(caption: string, names: seq<string>, unit: string)

  /** `variables`, in order. */
  function Labels(): (r: seq<LabelInfo>)
    ensures |r| == 5
    ensures forall i, j :: 0 <= i < j < |r| ==> r[i].caption != r[j].caption
  {
    [ LabelInfo("Temperature", ["2t", "t2m", "t"], "K"),
      LabelInfo("Precipitation", ["precipitation", "tp", "apcp"], "mm"),
      LabelInfo("Humidity", ["2r", "r2", "r"], "%"),
      LabelInfo("Pressure", ["prmsl", "msl", "sp"], "Pa"),
      LabelInfo("Wind Speed", ["wind_speed"], "m/s") ]
  }

  /** None of the first `i` names is present. */
  predicate AbsentBefore(vars: map<string, Var>, names: seq<string>, i: nat)
    requires i <= |names|
  {
    forall j :: 0 <= j < i ==> names[j] !in vars
  }

  /** Past an absent first name, absence shifts by one. */
  lemma AbsentShift(vars: map<string, Var>, names: seq<string>, i: nat)
    requires names != [] && names[0] !in vars && i < |names|
    ensures AbsentBefore(vars, names, i + 1) <==> AbsentBefore(vars, names[1..], i)
  {
    assert forall j :: 0 <= j < i ==> names[1..][j] == names[j + 1];
    if AbsentBefore(vars, names[1..], i) {
      forall j | 0 <= j < i + 1 ensures names[j] !in vars {
        if j > 0 { assert names[j] == names[1..][j - 1]; }
      }
    }
  }

  /** The first of `names` present in the merged dataset. */
  function FirstPresent(vars: map<string, Var>, names: seq<string>): (r: Option<string>)
    ensures r.None? <==> AbsentBefore(vars, names, |names|)
    ensures r.Some? ==>
      r.value in vars && exists i :: 0 <= i < |names| && names[i] == r.value && AbsentBefore(vars, names, i)
  {
    if names == [] then None
    else if names[0] in vars then
      assert AbsentBefore(vars, names, 0);
      Some(names[0])
    else
      var r := FirstPresent(vars, names[1..]);
      AbsentShift(vars, names, |names| - 1);
      assert r.Some? ==> exists i :: 0 <= i < |names| && names[i] == r.value && AbsentBefore(vars, names, i) by {
        if r.Some? {
          var i :| 0 <= i < |names[1..]| && names[1..][i] == r.value && AbsentBefore(vars, names[1..], i);
          AbsentShift(vars, names, i);
          assert names[i + 1] == r.value;
        }
      }
      r
  }

  /** A label with the variable it is drawn from for the whole file. */
  datatype Binding = Binding(info: LabelInfo, varName: string)

  /** The positions of the labels that have a present name, increasing. */
  function BoundPositions(vars: map<string, Var>, infos: seq<LabelInfo>): (r: seq<nat>)
    ensures forall i :: 0 <= i < |r| ==> r[i] < |infos| && FirstPresent(vars, infos[r[i]].names).Some?
    ensures forall i, j :: 0 <= i < j < |r| ==> r[i] < r[j]
    ensures forall k :: 0 <= k < |infos| && FirstPresent(vars, infos[k].names).Some? ==> k in r
  {
    if infos == [] then []
    else
      var m := |infos| - 1;
      var prior := BoundPositions(vars, infos[..m]);
      assert forall i :: 0 <= i < |prior| ==> infos[..m][prior[i]] == infos[prior[i]];
      if FirstPresent(vars, infos[m].names).Some? then prior + [m] else prior
  }

  /** `available_vars`, label order kept. */
  function Bindings(vars: map<string, Var>, infos: seq<LabelInfo>): (r: seq<Binding>)
    ensures |r| <= |infos|
    ensures forall b :: b in r ==> b.info in infos && FirstPresent(vars, b.info.names) == Some(b.varName)
    ensures forall info :: info in infos && FirstPresent(vars, info.names).Some? ==> exists b :: b in r && b.info == info
  {
    if infos == [] then []
    else
      var prior := Bindings(vars, infos[..|infos| - 1]);
      var info := infos[|infos| - 1];
      assert forall x :: x in infos <==> x in infos[..|infos| - 1] || x == info;
      match FirstPresent(vars, info.names)
      case None => prior
      case Some(n) => prior + [Binding(info, n)]
  }

  /** Binding `i` is for the label at position `pos[i]`, to that label's
      first present name. */
  predicate BoundAt(vars: map<string, Var>, infos: seq<LabelInfo>, r: seq<Binding>, pos: seq<nat>) {
    |r| == |pos| &&
    forall i :: 0 <= i < |r| ==>
      pos[i] < |infos| && r[i].info == infos[pos[i]] && FirstPresent(vars, infos[pos[i]].names) == Some(r[i].varName)
  }

  /** What holds of the first `m` labels holds of all of them, and the last
      label's binding goes after the others. */
  lemma BoundAtSnoc(vars: map<string, Var>, infos: seq<LabelInfo>, prior: seq<Binding>, pos: seq<nat>, n: string)
    requires |infos| > 0 && BoundAt(vars, infos[..|infos| - 1], prior, pos)
    requires FirstPresent(vars, infos[|infos| - 1].names) == Some(n)
    ensures BoundAt(vars, infos, prior, pos)
    ensures BoundAt(vars, infos, prior + [Binding(infos[|infos| - 1], n)], pos + [|infos| - 1])
  {
    var m := |infos| - 1;
    assert forall i :: 0 <= i < |pos| ==> infos[..m][pos[i]] == infos[pos[i]];
  }

  /** One binding per label that has a present name, in label order (the
      positions of BoundPositions), each to its first present name. */
  lemma {:induction false} BindingsInOrder(vars: map<string, Var>, infos: seq<LabelInfo>)
    ensures BoundAt(vars, infos, Bindings(vars, infos), BoundPositions(vars, infos))
  {
    if infos != [] {
      var m := |infos| - 1;
      BindingsInOrder(vars, infos[..m]);
      var prior, pos := Bindings(vars, infos[..m]), BoundPositions(vars, infos[..m]);
      match FirstPresent(vars, infos[m].names)
      case Some(n) =>
        BoundAtSnoc(vars, infos, prior, pos, n);
        assert Bindings(vars, infos) == prior + [Binding(infos[m], n)];
        assert BoundPositions(vars, infos) == pos + [m];
      case None =>
        assert forall i :: 0 <= i < |pos| ==> infos[..m][pos[i]] == infos[pos[i]];
        assert Bindings(vars, infos) == prior && BoundPositions(vars, infos) == pos;
    }
  }

  /** Labels are the keys of a dictionary, so each binds at most once: with
      distinct captions, the bindings' captions are distinct. */
  lemma BindingsOnce(vars: map<string, Var>, infos: seq<LabelInfo>)
    requires forall i, j :: 0 <= i < j < |infos| ==> infos[i].caption != infos[j].caption
    ensures var r := Bindings(vars, infos);
      forall i, j :: 0 <= i < j < |r| ==> r[i].info.caption != r[j].info.caption
  {
    BindingsInOrder(vars, infos);
    var r, pos := Bindings(vars, infos), BoundPositions(vars, infos);
    forall i, j | 0 <= i < j < |r| ensures r[i].info.caption != r[j].info.caption {
      assert pos[i] < pos[j];
    }
  }

  /** Each display label binds at most once per file. */
  lemma LabelsBindOnce(vars: map<string, Var>)
    ensures var r := Bindings(vars, Labels());
      forall i, j :: 0 <= i < j < |r| ==> r[i].info.caption != r[j].info.caption
  {
    BindingsOnce(vars, Labels());
  }

  // ---------------------------------------------------------------------
  // Unit conversion (lines 134-144)

  /** The values drawn and the unit on the colour bar: Temperature in K is
      shifted when its mean exceeds 200 and Pressure in Pa divided when its
      mean exceeds 80000, and their unit reads °C or hPa either way. The
      mean of an empty grid is NaN, which exceeds nothing. */
  function Convert(caption: string, unit: string, val: Grid): (r: (Grid, string))
    ensures caption == "Temperature" && unit == "K" ==>
      r.1 == "°C" && r.0 == (if |val| > 0 && Mean(val) > 200.0 then Shift(val, 273.15) else val)
    ensures caption == "Pressure" && unit == "Pa" ==>
      r.1 == "hPa" && r.0 == (if |val| > 0 && Mean(val) > 80000.0 then Scale(val, 100.0) else val)
    ensures !(caption == "Temperature" && unit == "K") && !(caption == "Pressure" && unit == "Pa") ==> r == (val, unit)
  {
    if caption == "Temperature" && unit == "K" then
      (if |val| > 0 && Mean(val) > 200.0 then Shift(val, 273.15) else val, "°C")
    else if caption == "Pressure" && unit == "Pa" then
      (if |val| > 0 && Mean(val) > 80000.0 then Scale(val, 100.0) else val, "hPa")
    else (val, unit)
  }

  /** A converted temperature field is 273.15 lower on average, a converted
      pressure field a hundred times smaller. */
  lemma ConvertedMeans(val: Grid)
    requires |val| > 0
    ensures Mean(val) > 200.0 ==> Mean(Convert("Temperature", "K", val).0) == Mean(val) - 273.15
    ensures Mean(val) > 80000.0 ==> Mean(Convert("Pressure", "Pa", val).0) == Mean(val) / 100.0
  {
    MeanShift(val, 273.15);
    MeanScale(val, 100.0);
  }

  // ---------------------------------------------------------------------
  // Frames (lines 109-183)

  datatype Panel = Panel(caption: string, varName: string, values: Grid, unit: string)

  /** The variable `b` names has a field at `step`. */
  predicate Bound(vars: map<string, Var>, b: Binding, step: Step) {
    b.varName in vars && step in vars[b.varName].fields
  }

  /** `p` is the panel of binding `b` at `step`: that field, converted. */
  predicate PanelFor(vars: map<string, Var>, b: Binding, step: Step, p: Panel) {
    Bound(vars, b, step) && p.caption == b.info.caption && p.varName == b.varName &&
    (p.values, p.unit) == Convert(b.info.caption, b.info.unit, vars[b.varName].fields[step].values)
  }

  /** Every binding's variable has a field at `step`. */
  predicate AllBound(vars: map<string, Var>, bs: seq<Binding>, step: Step) {
    forall k :: 0 <= k < |bs| ==> Bound(vars, bs[k], step)
  }

  /** `ps` holds the panel of each binding, in order. */
  predicate PanelsFor(vars: map<string, Var>, bs: seq<Binding>, step: Step, ps: seq<Panel>) {
    |ps| == |bs| && forall k :: 0 <= k < |bs| ==> PanelFor(vars, bs[k], step, ps[k])
  }

  /** The panels of one step; None when a bound variable has no field at
      the step (the selection raises). */
  function StepPanels(vars: map<string, Var>, bs: seq<Binding>, step: Step): (r: Option<seq<Panel>>)
    ensures r.Some? ==> PanelsFor(vars, bs, step, r.value)
    ensures r.None? <==> !AllBound(vars, bs, step)
  {
    if bs == [] then Some([])
    else
      var init := bs[..|bs| - 1];
      var prior := StepPanels(vars, init, step);
      var b := bs[|bs| - 1];
      assert forall k :: 0 <= k < |bs| - 1 ==> init[k] == bs[k];
      assert AllBound(vars, bs, step) <==> AllBound(vars, init, step) && Bound(vars, b, step) by {
        if AllBound(vars, init, step) && Bound(vars, b, step) {
          forall k | 0 <= k < |bs| ensures Bound(vars, bs[k], step) {
            if k < |bs| - 1 { assert Bound(vars, init[k], step); }
          }
        }
      }
      if prior.Some? && Bound(vars, b, step) then
        var (values, unit) := Convert(b.info.caption, b.info.unit, vars[b.varName].fields[step].values);
        var r := prior.value + [Panel(b.info.caption, b.varName, values, unit)];
        assert PanelsFor(vars, bs, step, r) by {
          forall k | 0 <= k < |bs| ensures PanelFor(vars, bs[k], step, r[k]) {
            if k < |bs| - 1 { assert PanelFor(vars, init[k], step, prior.value[k]); }
          }
        }
        Some(r)
      else None
  }

  /** `os.path.join(FRAMES_DIR, f"forecast_{frame_counter:03d}.png")` */
  function ForecastPath(i: nat): string {
    JoinPath(Assembly.FramesDir, "forecast_" + ZeroPad(i, 3) + ".png")
  }

  lemma ForecastPathInjective(i: nat, j: nat)
    requires ForecastPath(i) == ForecastPath(j)
    ensures i == j
  {
    var pre := Assembly.FramesDir + "/" + "forecast_";
    var a := ZeroPad(i, 3);
    var b := ZeroPad(j, 3);
    assert ForecastPath(i) == pre + a + ".png" && ForecastPath(j) == pre + b + ".png";
    SameMiddle(pre, a, b, ".png");
    ZeroPadInjective(i, j, 3);
  }

  /** Frame `i` is saved in the frames directory as `forecast_` and the
      counter padded to three digits. */
  lemma ForecastFileName(i: nat)
    ensures Basename(ForecastPath(i)) == "forecast_" + ZeroPad(i, 3) + ".png"
  {
    var digits := ZeroPad(i, 3);
    var name := "forecast_" + digits + ".png";
    assert '/' !in name by {
      forall k | 0 <= k < |name| ensures name[k] != '/' {
        if 9 <= k < 9 + |digits| {
          assert name[k] == digits[k - 9];
        }
      }
    }
    BasenameOfJoin(Assembly.FramesDir, name);
  }

  /** A saved image: the frame counter it was saved under, its step, and
      what is drawn on it. */
  datatype MsmFrame = MsmFrame(counter: nat, step: Step, panels: seq<Panel>)
  {
    /** Where the image is saved. */
    function Path(): string {
      ForecastPath(counter)
    }
  }

  /** The step loop of one file. `drawFails(k)` says whether drawing or
      saving the `k`-th step raises; a step that raises saves nothing and
      leaves the counter where it was. */
  function StepFrames(vars: map<string, Var>, bs: seq<Binding>, steps: seq<Step>, start: nat,
                      drawFails: nat -> bool): (r: seq<MsmFrame>)
    ensures |r| <= |steps|
    ensures forall k :: 0 <= k < |r| ==> r[k].counter == start + k && r[k].step in steps
  {
    FramesUpTo(vars, bs, steps, |steps|, start, drawFails)
  }

  /** The step loop after its first `n` iterations. */
  function FramesUpTo(vars: map<string, Var>, bs: seq<Binding>, steps: seq<Step>, n: nat, start: nat,
                      drawFails: nat -> bool): (r: seq<MsmFrame>)
    requires n <= |steps|
    ensures |r| <= n
    ensures forall k :: 0 <= k < |r| ==> r[k].counter == start + k && r[k].step in steps
  {
    if n == 0 then []
    else
      var prior := FramesUpTo(vars, bs, steps, n - 1, start, drawFails);
      match StepPanels(vars, bs, steps[n - 1])
      case Some(panels) =>
        if drawFails(n - 1) then prior else prior + [MsmFrame(start + |prior|, steps[n - 1], panels)]
      case None => prior
  }

  /** One file: nothing when it cannot be decoded, when the wind arithmetic
      raises, or when the merged dataset has no step coordinate. */
  function FileFrames(f: GribFile, start: nat, sqrt: real -> real, drawFails: nat -> bool): (r: seq<MsmFrame>)
    ensures forall k :: 0 <= k < |r| ==> r[k].counter == start + k
    ensures f.Decoded? && Merge(Entries(f.datasets)).steps.None? ==> r == []
  {
    match f
    case Unreadable => []
    case Decoded(dss) =>
      var m := Merge(Entries(dss));
      match DeriveWind(m.vars, sqrt)
      case None => []
      case Some(vars) =>
        if m.steps.None? then []
        else StepFrames(vars, Bindings(vars, Labels()), m.steps.value, start, drawFails)
  }

  /** The drawing outcomes of file `i`'s steps. */
  function FileFails(drawFails: (nat, nat) -> bool, i: nat): nat -> bool {
    (k: nat) => drawFails(i, k)
  }

  /** Every file in order; `drawFails(i, k)` is the drawing outcome of the
      `k`-th step of file `i`. */
  function AllFrames(files: seq<GribFile>, sqrt: real -> real, drawFails: (nat, nat) -> bool): (r: seq<MsmFrame>)
    ensures forall k :: 0 <= k < |r| ==> r[k].counter == k
  {
    if files == [] then []
    else
      var n := |files|;
      var prior := AllFrames(files[..n - 1], sqrt, drawFails);
      prior + FileFrames(files[n - 1], |prior|, sqrt, FileFails(drawFails, n - 1))
  }

  /** One more file appends that file's frames, numbered on from the ones before. */
  lemma AllFramesNext(files: seq<GribFile>, sqrt: real -> real, drawFails: (nat, nat) -> bool, i: nat)
    requires i < |files|
    ensures var prior := AllFrames(files[..i], sqrt, drawFails);
      AllFrames(files[..i + 1], sqrt, drawFails) == prior + FileFrames(files[i], |prior|, sqrt, FileFails(drawFails, i))
  {
    var s := files[..i + 1];
    assert s[..|s| - 1] == files[..i];
    assert s[|s| - 1] == files[i];
  }

  /** No two saved frames share a path. */
  lemma FramePathsDistinct(files: seq<GribFile>, sqrt: real -> real, drawFails: (nat, nat) -> bool, j: nat, k: nat)
    requires j < k < |AllFrames(files, sqrt, drawFails)|
    ensures AllFrames(files, sqrt, drawFails)[j].Path() != AllFrames(files, sqrt, drawFails)[k].Path()
  {
    if AllFrames(files, sqrt, drawFails)[j].Path() == AllFrames(files, sqrt, drawFails)[k].Path() {
      ForecastPathInjective(j, k);
    }
  }

  function Paths(frames: seq<MsmFrame>): (r: seq<string>)
    ensures |r| == |frames| && forall k :: 0 <= k < |r| ==> r[k] == frames[k].Path()
  {
    seq(|frames|, k requires 0 <= k < |frames| => frames[k].Path())
  }

  /** One more iteration of the step loop. */
  lemma FramesUpToNext(vars: map<string, Var>, bs: seq<Binding>, steps: seq<Step>, i: nat, start: nat, drawFails: nat -> bool)
    requires i < |steps|
    ensures var prior := FramesUpTo(vars, bs, steps, i, start, drawFails);
      var panels := StepPanels(vars, bs, steps[i]);
      FramesUpTo(vars, bs, steps, i + 1, start, drawFails) ==
        if panels.Some? && !drawFails(i) then prior + [MsmFrame(start + |prior|, steps[i], panels.value)]
        else prior
  {
  }

  /** The step loop with its counter. */
  method DrawSteps(vars: map<string, Var>, bs: seq<Binding>, steps: seq<Step>, counter0: nat, drawFails: nat -> bool)
    returns (frames: seq<MsmFrame>, counter: nat)
    ensures frames == StepFrames(vars, bs, steps, counter0, drawFails)
    ensures counter == counter0 + |frames|
  {
    frames := [];
    counter := counter0;
    for i := 0 to |steps|
      invariant frames == FramesUpTo(vars, bs, steps, i, counter0, drawFails)
      invariant counter == counter0 + |frames|
    {
      FramesUpToNext(vars, bs, steps, i, counter0, drawFails);
      var panels := StepPanels(vars, bs, steps[i]);
      if panels.Some? && !drawFails(i) {
        frames := frames + [MsmFrame(counter, steps[i], panels.value)];
        counter := counter + 1;
      }
    }
  }

  /** One iteration of the file loop. */
  method DrawFile(f: GribFile, counter0: nat, sqrt: real -> real, drawFails: nat -> bool)
    returns (frames: seq<MsmFrame>, counter: nat)
    ensures frames == FileFrames(f, counter0, sqrt, drawFails)
    ensures counter == counter0 + |frames|
  {
    if f.Unreadable? {
      return [], counter0;
    }
    var m := MergeDatasets(f.datasets);
    var vars := DeriveWind(m.vars, sqrt);
    if vars.None? || m.steps.None? {
      return [], counter0;
    }
    var bs := Bindings(vars.value, Labels());
    frames, counter := DrawSteps(vars.value, bs, m.steps.value, counter0, drawFails);
  }

  /** `main` up to the animation: the saved frame paths and the counter. */
  method DrawAll(files: seq<GribFile>, sqrt: real -> real, drawFails: (nat, nat) -> bool)
    returns (frameFiles: seq<string>, frameCounter: nat)
    ensures frameFiles == Paths(AllFrames(files, sqrt, drawFails))
    ensures frameCounter == |frameFiles|
    ensures forall k :: 0 <= k < |frameFiles| ==> frameFiles[k] == ForecastPath(k)
  {
    var all: seq<MsmFrame> := [];
    frameCounter := 0;
    var i := 0;
    while i < |files|
      invariant 0 <= i <= |files|
      invariant all == AllFrames(files[..i], sqrt, drawFails)
      invariant frameCounter == |all|
    {
      AllFramesNext(files, sqrt, drawFails, i);
      var frames;
      frames, frameCounter := DrawFile(files[i], frameCounter, sqrt, FileFails(drawFails, i));
      all := all + frames;
      i := i + 1;
    }
    assert files[..i] == files;
    frameFiles := Paths(all);
  }
}
