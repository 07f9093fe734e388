/** Step enumeration and variable resolution of the frame pipeline
    (visualize_final.py, inside `main()`): which forecast steps a file has, and
    where the field of a display variable comes from at one step. */
module Resolver {
  import opened Common
  import opened Datasets

  // ---------------------------------------------------------------------
  // Step enumeration

  predicate StrictlyIncreasing(s: seq<nat>) {
    forall i, j :: 0 <= i < j < |s| ==> s[i] < s[j]
  }

  /** Insert `x` into an ascending, duplicate-free list. */
  function Insert(s: seq<nat>, x: nat): (r: seq<nat>)
    requires StrictlyIncreasing(s)
    ensures StrictlyIncreasing(r)
    ensures forall y :: y in r <==> y in s || y == x
  {
    if s == [] then [x]
    else if x < s[0] then [x] + s
    else if x == s[0] then s
    else
      var rest := Insert(s[1..], x);
      assert forall k :: 0 <= k < |s| - 1 ==> s[0] < s[1..][k] by {
        forall k | 0 <= k < |s| - 1 ensures s[0] < s[1..][k] { assert s[1..][k] == s[k + 1]; }
      }
      assert forall k :: 0 <= k < |rest| ==> s[0] < rest[k] by {
        forall k | 0 <= k < |rest| ensures s[0] < rest[k] { assert rest[k] in rest; }
      }
      var r := [s[0]] + rest;
      assert StrictlyIncreasing(r) by {
        forall i, j | 0 <= i < j < |r| ensures r[i] < r[j] {
          assert r[j] == rest[j - 1];
          if i > 0 { assert r[i] == rest[i - 1]; }
        }
      }
      assert forall y :: y in s <==> y == s[0] || y in s[1..];
      r
  }

  /** `sorted(set(xs))` */
  function SortedUnique(xs: seq<nat>): (r: seq<nat>)
    ensures StrictlyIncreasing(r)
    ensures forall y :: y in r <==> y in xs
  {
    if xs == [] then []
    else
      var r := Insert(SortedUnique(xs[..|xs| - 1]), xs[|xs| - 1]);
      assert forall y :: y in xs <==> y in xs[..|xs| - 1] || y == xs[|xs| - 1] by {
        assert xs == xs[..|xs| - 1] + [xs[|xs| - 1]];
      }
      r
  }

  /** Some dataset of the file has `s` among its step values. */
  predicate AnyHasStep(dss: seq<Dataset>, s: Step) {
    exists i :: 0 <= i < |dss| && HasStep(dss[i], s)
  }

  /** The step values of the datasets with a step coordinate, concatenated. */
  function StepValues(dss: seq<Dataset>): (r: seq<Step>)
    ensures forall s :: s in r <==> AnyHasStep(dss, s)
  {
    if dss == [] then []
    else
      var init := dss[..|dss| - 1];
      var last := dss[|dss| - 1];
      var r := StepValues(init) + (if last.steps.Some? then last.steps.value else []);
      assert forall i :: 0 <= i < |init| ==> init[i] == dss[i];
      assert forall s :: AnyHasStep(dss, s) ==> AnyHasStep(init, s) || HasStep(last, s) by {
        forall s | AnyHasStep(dss, s) ensures AnyHasStep(init, s) || HasStep(last, s) {
          var i :| 0 <= i < |dss| && HasStep(dss[i], s);
          if i < |init| { assert HasStep(init[i], s); }
        }
      }
      r
  }

  /** Lines 327-336: the steps a file is processed at are the ascending union
      of the step values of its datasets, or the single step 0 when no dataset
      has any. */
  function StepList(dss: seq<Dataset>): (r: seq<Step>)
    ensures |r| > 0 && StrictlyIncreasing(r)
    ensures (exists s :: AnyHasStep(dss, s)) ==> forall s :: s in r <==> AnyHasStep(dss, s)
    ensures (forall s :: !AnyHasStep(dss, s)) ==> r == [0]
  {
    var u := SortedUnique(StepValues(dss));
    if u == [] then
      assert forall s :: !AnyHasStep(dss, s) by {
        forall s ensures !AnyHasStep(dss, s) { assert s !in u; }
      }
      [0]
    else
      assert u[0] in u && AnyHasStep(dss, u[0]);
      u
  }

  /** An ascending duplicate-free list is determined by its elements. */
  lemma {:induction false} SortedListUnique(a: seq<nat>, b: seq<nat>)
    requires StrictlyIncreasing(a) && StrictlyIncreasing(b)
    requires forall y :: y in a <==> y in b
    ensures a == b
  {
    assert a != [] ==> a[0] in b;
    assert b != [] ==> b[0] in a;
    if a != [] && b != [] {
      assert a[0] == b[0];
      forall y ensures y in a[1..] <==> y in b[1..] {
        assert y in a[1..] <==> y in a && y != a[0];
        assert y in b[1..] <==> y in b && y != b[0];
      }
      SortedListUnique(a[1..], b[1..]);
      assert a == [a[0]] + a[1..] && b == [b[0]] + b[1..];
    }
  }

  /** So StepList is the one ascending, duplicate-free enumeration of the
      file's steps. */
  lemma StepListIsTheSortedUnion(dss: seq<Dataset>, r: seq<Step>)
    requires StrictlyIncreasing(r)
    requires exists s :: AnyHasStep(dss, s)
    requires forall s :: s in r <==> AnyHasStep(dss, s)
    ensures StepList(dss) == r
  {
    SortedListUnique(StepList(dss), r);
  }

  /** The loop of lines 328-336: the step set is kept as an ascending
      duplicate-free list while the datasets are scanned. */
  method EnumerateSteps(dss: seq<Dataset>) returns (steps: seq<Step>)
    ensures steps == StepList(dss)
  {
    var allSteps: seq<Step> := [];
    var i := 0;
    while i < |dss|
      invariant 0 <= i <= |dss|
      invariant allSteps == SortedUnique(StepValues(dss[..i]))
    {
      assert dss[..i + 1][..i] == dss[..i];
      if dss[i].steps.Some? {
        allSteps := AddSteps(allSteps, StepValues(dss[..i]), dss[i].steps.value);
      }
      assert StepValues(dss[..i + 1]) == StepValues(dss[..i]) + (if dss[i].steps.Some? then dss[i].steps.value else []);
      if dss[i].steps.None? {
        assert StepValues(dss[..i]) + [] == StepValues(dss[..i]);
      }
      i := i + 1;
    }
    assert dss[..i] == dss;
    steps := if allSteps == [] then [0] else allSteps;
  }

  /** `all_steps.update(ds.step.values)`, one value at a time. */
  method AddSteps(allSteps: seq<Step>, before: seq<Step>, vals: seq<Step>) returns (r: seq<Step>)
    requires allSteps == SortedUnique(before)
    ensures r == SortedUnique(before + vals)
  {
    r := allSteps;
    assert before + vals[..0] == before;
    for j := 0 to |vals|
      invariant r == SortedUnique(before + vals[..j])
    {
      var xs := before + vals[..j + 1];
      assert xs[..|xs| - 1] == before + vals[..j];
      r := Insert(r, vals[j]);
    }
    assert vals[..|vals|] == vals;
  }

  // ---------------------------------------------------------------------
  // Resolution

  /** A resolved field: its values, the coordinates of the dataset it came
      from, and the text of its valid time. */
  datatype Picked = Picked(values: Grid, coords: Option<Coords>, validTime: Option<string>)

  function PickField(ds: Dataset, f: Field): Picked {
    Picked(f.values, ds.coords, f.validTime)
  }

  /** Alias `name` of dataset `ds` is accepted at `step`: present, has the
      step, and carries the required `GRIB_stepType` if one is demanded. */
  predicate Qualifies(ds: Dataset, name: string, req: Option<string>, step: Step)
    ensures Qualifies(ds, name, req, step) ==> Has(ds, name) && HasStep(ds, step)
    ensures req.None? ==> (Qualifies(ds, name, req, step) <==> Select(ds, name, step).Some?)
    ensures Qualifies(ds, name, req, step) && req.Some? ==> Lookup(ds.dataVars, name).value.stepType == req.value
  {
    Select(ds, name, step).Some? &&
    (req.Some? ==> Lookup(ds.dataVars, name).value.stepType == req.value)
  }

  /** The position of the first alias, from `from` on, that `ds` accepts. */
  function AliasFrom(ds: Dataset, aliases: seq<string>, req: Option<string>, step: Step, from: nat): (r: Option<nat>)
    requires from <= |aliases|
    ensures r.None? <==> forall k :: from <= k < |aliases| ==> !Qualifies(ds, aliases[k], req, step)
    ensures r.Some? ==>
      from <= r.value < |aliases| && Qualifies(ds, aliases[r.value], req, step) &&
      forall k :: from <= k < r.value ==> !Qualifies(ds, aliases[k], req, step)
    decreases |aliases| - from
  {
    if from == |aliases| then None
    else if Qualifies(ds, aliases[from], req, step) then Some(from)
    else AliasFrom(ds, aliases, req, step, from + 1)
  }

  /** Dataset `ds` accepts at least one of the aliases. */
  predicate AcceptsAny(ds: Dataset, aliases: seq<string>, req: Option<string>, step: Step) {
    exists k :: 0 <= k < |aliases| && Qualifies(ds, aliases[k], req, step)
  }

  /** The position of the first dataset, from `from` on, accepting any alias. */
  function DatasetFrom(dss: seq<Dataset>, aliases: seq<string>, req: Option<string>, step: Step, from: nat): (r: Option<nat>)
    requires from <= |dss|
    ensures r.None? <==> forall i :: from <= i < |dss| ==> !AcceptsAny(dss[i], aliases, req, step)
    ensures r.Some? ==>
      from <= r.value < |dss| && AcceptsAny(dss[r.value], aliases, req, step) &&
      forall i :: from <= i < r.value ==> !AcceptsAny(dss[i], aliases, req, step)
    decreases |dss| - from
  {
    if from == |dss| then None
    else if AcceptsAny(dss[from], aliases, req, step) then Some(from)
    else DatasetFrom(dss, aliases, req, step, from + 1)
  }

  /** The standard search (lines 386-409): datasets in collection order, and
      within each dataset the aliases in priority order; the first accepted
      pair supplies the field. */
  function ResolveStandard(dss: seq<Dataset>, aliases: seq<string>, req: Option<string>, step: Step): (r: Option<Picked>)
    ensures r.None? <==>
      forall i, k :: 0 <= i < |dss| && 0 <= k < |aliases| ==> !Qualifies(dss[i], aliases[k], req, step)
    ensures r.Some? ==> exists i, k ::
      0 <= i < |dss| && 0 <= k < |aliases| && Qualifies(dss[i], aliases[k], req, step) &&
      (forall j, k' :: 0 <= j < i && 0 <= k' < |aliases| ==> !Qualifies(dss[j], aliases[k'], req, step)) &&
      (forall k' :: 0 <= k' < k ==> !Qualifies(dss[i], aliases[k'], req, step)) &&
      r.value == PickField(dss[i], Select(dss[i], aliases[k], step).value)
  {
    match DatasetFrom(dss, aliases, req, step, 0)
    case None =>
      NoDatasetAccepts(dss, aliases, req, step);
      None
    case Some(i) =>
      var k := AliasFrom(dss[i], aliases, req, step, 0).value;
      FirstAcceptingPair(dss, aliases, req, step, i);
      Some(PickField(dss[i], Select(dss[i], aliases[k], step).value))
  }

  lemma NoDatasetAccepts(dss: seq<Dataset>, aliases: seq<string>, req: Option<string>, step: Step)
    requires DatasetFrom(dss, aliases, req, step, 0).None?
    ensures forall i, k :: 0 <= i < |dss| && 0 <= k < |aliases| ==> !Qualifies(dss[i], aliases[k], req, step)
  {
    forall i, k | 0 <= i < |dss| && 0 <= k < |aliases| ensures !Qualifies(dss[i], aliases[k], req, step) {
      assert !AcceptsAny(dss[i], aliases, req, step);
    }
  }

  lemma FirstAcceptingPair(dss: seq<Dataset>, aliases: seq<string>, req: Option<string>, step: Step, i: nat)
    requires DatasetFrom(dss, aliases, req, step, 0) == Some(i)
    ensures i < |dss| && AliasFrom(dss[i], aliases, req, step, 0).Some?
    ensures var k := AliasFrom(dss[i], aliases, req, step, 0).value;
      k < |aliases| && Qualifies(dss[i], aliases[k], req, step) &&
      (forall j, k' :: 0 <= j < i && 0 <= k' < |aliases| ==> !Qualifies(dss[j], aliases[k'], req, step)) &&
      (forall k' :: 0 <= k' < k ==> !Qualifies(dss[i], aliases[k'], req, step))
  {
    forall j, k' | 0 <= j < i && 0 <= k' < |aliases| ensures !Qualifies(dss[j], aliases[k'], req, step) {
      assert !AcceptsAny(dss[j], aliases, req, step);
    }
  }

  /** The loops of lines 387-409; a hit leaves both loops. */
  method SearchStandard(dss: seq<Dataset>, aliases: seq<string>, req: Option<string>, step: Step) returns (found: Option<Picked>)
    ensures found == ResolveStandard(dss, aliases, req, step)
  {
    var i := 0;
    while i < |dss|
      invariant 0 <= i <= |dss|
      invariant forall j, k' :: 0 <= j < i && 0 <= k' < |aliases| ==> !Qualifies(dss[j], aliases[k'], req, step)
    {
      var ds := dss[i];
      var k := 0;
      while k < |aliases|
        invariant 0 <= k <= |aliases|
        invariant forall k' :: 0 <= k' < k ==> !Qualifies(ds, aliases[k'], req, step)
      {
        if Qualifies(ds, aliases[k], req, step) {
          found := Some(PickField(ds, Select(ds, aliases[k], step).value));
          StandardHit(dss, aliases, req, step, i, k);
          return;
        }
        k := k + 1;
      }
      i := i + 1;
    }
    found := None;
  }

  /** The first accepted (dataset, alias) pair determines the standard result. */
  lemma StandardHit(dss: seq<Dataset>, aliases: seq<string>, req: Option<string>, step: Step, i: nat, k: nat)
    requires i < |dss| && k < |aliases| && Qualifies(dss[i], aliases[k], req, step)
    requires forall j, k' :: 0 <= j < i && 0 <= k' < |aliases| ==> !Qualifies(dss[j], aliases[k'], req, step)
    requires forall k' :: 0 <= k' < k ==> !Qualifies(dss[i], aliases[k'], req, step)
    ensures ResolveStandard(dss, aliases, req, step) == Some(PickField(dss[i], Select(dss[i], aliases[k], step).value))
  {
    FirstDataset(dss, aliases, req, step, i, k);
    FirstAlias(dss[i], aliases, req, step, k);
  }

  lemma FirstDataset(dss: seq<Dataset>, aliases: seq<string>, req: Option<string>, step: Step, i: nat, k: nat)
    requires i < |dss| && k < |aliases| && Qualifies(dss[i], aliases[k], req, step)
    requires forall j, k' :: 0 <= j < i && 0 <= k' < |aliases| ==> !Qualifies(dss[j], aliases[k'], req, step)
    ensures DatasetFrom(dss, aliases, req, step, 0) == Some(i)
  {
    assert AcceptsAny(dss[i], aliases, req, step);
  }

  lemma FirstAlias(ds: Dataset, aliases: seq<string>, req: Option<string>, step: Step, k: nat)
    requires k < |aliases| && Qualifies(ds, aliases[k], req, step)
    requires forall k' :: 0 <= k' < k ==> !Qualifies(ds, aliases[k'], req, step)
    ensures AliasFrom(ds, aliases, req, step, 0) == Some(k)
  {
  }

  // Wind speed ------------------------------------------------------------

  /** Which component pair a dataset offers: `u10`/`v10` first, else `u`/`v`. */
  function PairIn(ds: Dataset): (r: Option<(string, string)>)
    ensures r.None? <==> !(Has(ds, "u10") && Has(ds, "v10")) && !(Has(ds, "u") && Has(ds, "v"))
    ensures r.Some? ==> Has(ds, r.value.0) && Has(ds, r.value.1)
    ensures Has(ds, "u10") && Has(ds, "v10") ==> r == Some(("u10", "v10"))
  {
    if Has(ds, "u10") && Has(ds, "v10") then Some(("u10", "v10"))
    else if Has(ds, "u") && Has(ds, "v") then Some(("u", "v"))
    else None
  }

  datatype WindSource = WindSource(index: nat, u: string, v: string)

  /** Lines 361-371: the first dataset holding a complete pair. */
  function WindPair(dss: seq<Dataset>): (r: Option<WindSource>)
    ensures r.None? <==> forall j :: 0 <= j < |dss| ==> PairIn(dss[j]).None?
    ensures r.Some? ==>
      r.value.index < |dss| && PairIn(dss[r.value.index]) == Some((r.value.u, r.value.v)) &&
      forall j :: 0 <= j < r.value.index ==> PairIn(dss[j]).None?
  {
    FirstPair(Pairs(dss), 0)
  }

  /** The pair each dataset offers, in order. */
  function Pairs(dss: seq<Dataset>): (r: seq<Option<(string, string)>>)
    ensures |r| == |dss| && forall j :: 0 <= j < |dss| ==> r[j] == PairIn(dss[j])
  {
    seq(|dss|, j requires 0 <= j < |dss| => PairIn(dss[j]))
  }

  /** The first offered pair from position `from` on. */
  function FirstPair(pairs: seq<Option<(string, string)>>, from: nat): (r: Option<WindSource>)
    requires from <= |pairs|
    ensures r.None? <==> forall j :: from <= j < |pairs| ==> pairs[j].None?
    ensures r.Some? ==>
      from <= r.value.index < |pairs| && pairs[r.value.index] == Some((r.value.u, r.value.v)) &&
      forall j :: from <= j < r.value.index ==> pairs[j].None?
    decreases |pairs| - from
  {
    if from == |pairs| then None
    else if pairs[from].Some? then Some(WindSource(from, pairs[from].value.0, pairs[from].value.1))
    else FirstPair(pairs, from + 1)
  }

  /** The loop of lines 361-371. */
  method SearchWindPair(dss: seq<Dataset>) returns (found: Option<WindSource>)
    ensures found == WindPair(dss)
  {
    var i := 0;
    while i < |dss|
      invariant 0 <= i <= |dss|
      invariant forall j :: 0 <= j < i ==> PairIn(dss[j]).None?
    {
      var ds := dss[i];
      if Has(ds, "u10") && Has(ds, "v10") {
        found := Some(WindSource(i, "u10", "v10"));
        WindPairIsFirst(dss, i);
        return;
      } else if Has(ds, "u") && Has(ds, "v") {
        found := Some(WindSource(i, "u", "v"));
        WindPairIsFirst(dss, i);
        return;
      }
      i := i + 1;
    }
    found := None;
  }

  lemma {:induction false} WindPairIsFirst(dss: seq<Dataset>, i: nat)
    requires i < |dss| && PairIn(dss[i]).Some?
    requires forall j :: 0 <= j < i ==> PairIn(dss[j]).None?
    ensures WindPair(dss) == Some(WindSource(i, PairIn(dss[i]).value.0, PairIn(dss[i]).value.1))
  {
    var r := WindPair(dss);
    if r.value.index < i {
    } else if i < r.value.index {
    }
  }

  /** Lines 373-383: the magnitude from the chosen pair, or nothing if that
      dataset lacks the step (no later dataset is tried). The coordinates
      and valid time are those of the u component. */
  function ResolveWind(dss: seq<Dataset>, step: Step, sqrt: real -> real): (r: Option<Picked>)
    ensures r.Some? <==> (
      WindPair(dss).Some? &&
      var src := WindPair(dss).value;
      var fu := Select(dss[src.index], src.u, step);
      var fv := Select(dss[src.index], src.v, step);
      fu.Some? && fv.Some? && |fu.value.values| == |fv.value.values|)
    ensures r.Some? ==>
      var src := WindPair(dss).value;
      var u := Select(dss[src.index], src.u, step).value.values;
      var v := Select(dss[src.index], src.v, step).value.values;
      |r.value.values| == |u| &&
      (forall i :: 0 <= i < |u| ==> r.value.values[i] == Norm(u[i], v[i], sqrt)) &&
      r.value.coords == dss[src.index].coords
  {
    match WindPair(dss)
    case None => None
    case Some(src) =>
      var ds := dss[src.index];
      match (Select(ds, src.u, step), Select(ds, src.v, step))
      case (Some(fu), Some(fv)) =>
        if |fu.values| == |fv.values| then Some(Picked(Magnitude(fu.values, fv.values, sqrt), ds.coords, fu.validTime))
        else None
      case _ => None
  }

  /** Components u = 3 and v = 4 give a wind speed of 5. */
  lemma WindSpeedExample(sqrt: real -> real)
    requires IsSqrt(sqrt)
    ensures Norm(3.0, 4.0, sqrt) == 5.0
  {
    var w := Norm(3.0, 4.0, sqrt);
    NormIsSpeed(3.0, 4.0, sqrt);
    assert w * w == 25.0;
    assert (w - 5.0) * (w + 5.0) == 0.0;
    ProductZero(w - 5.0, w + 5.0);
  }

  /** A product with a positive factor vanishes only when the other does. */
  lemma ProductZero(a: real, b: real)
    requires a * b == 0.0 && b > 0.0
    ensures a == 0.0
  {
  }


  // Cloud cover -----------------------------------------------------------

  const CloudAliases: seq<string> := ["tcc", "lcc", "mcc", "hcc"]
  const CloudLayers: seq<string> := ["lcc", "mcc", "hcc"]
  const TotalCloud: seq<string> := ["tcc"]

  /** The layers among `names` that `ds` holds at `step`, in order. */
  function PickAll(ds: Dataset, names: seq<string>, step: Step): (r: seq<Picked>)
    ensures |r| == 0 <==> forall k :: 0 <= k < |names| ==> Select(ds, names[k], step).None?
    ensures forall p :: p in r ==> p.coords == ds.coords
  {
    if names == [] then []
    else
      var prior := PickAll(ds, names[..|names| - 1], step);
      assert forall k :: 0 <= k < |names| - 1 ==> names[..|names| - 1][k] == names[k];
      match Select(ds, names[|names| - 1], step)
      case Some(f) => prior + [PickField(ds, f)]
      case None => prior
  }

  /** Lines 413-422: every cloud layer of every dataset that holds the step,
      datasets in order and `lcc`, `mcc`, `hcc` within each. */
  function CollectLayers(dss: seq<Dataset>, step: Step): (r: seq<Picked>)
    ensures |r| == 0 <==> forall i, k :: 0 <= i < |dss| && 0 <= k < |CloudLayers| ==> Select(dss[i], CloudLayers[k], step).None?
  {
    if dss == [] then []
    else
      var prior := CollectLayers(dss[..|dss| - 1], step);
      assert forall i :: 0 <= i < |dss| - 1 ==> dss[..|dss| - 1][i] == dss[i];
      prior + PickAll(dss[|dss| - 1], CloudLayers, step)
  }

  /** One more dataset appends its layers. */
  lemma CollectLayersNext(dss: seq<Dataset>, step: Step, i: nat)
    requires i < |dss|
    ensures CollectLayers(dss[..i + 1], step) == CollectLayers(dss[..i], step) + PickAll(dss[i], CloudLayers, step)
  {
    var s := dss[..i + 1];
    assert s[..|s| - 1] == dss[..i];
    assert s[|s| - 1] == dss[i];
  }

  /** One more name appends its layer, if the dataset holds it. */
  lemma PickAllNext(ds: Dataset, names: seq<string>, step: Step, k: nat)
    requires k < |names|
    ensures var f := Select(ds, names[k], step);
      PickAll(ds, names[..k + 1], step) ==
        if f.Some? then PickAll(ds, names[..k], step) + [PickField(ds, f.value)] else PickAll(ds, names[..k], step)
  {
    var s := names[..k + 1];
    assert s[..|s| - 1] == names[..k];
    assert s[|s| - 1] == names[k];
  }

  /** The loops of lines 413-422. */
  method GatherCloudLayers(dss: seq<Dataset>, step: Step) returns (layers: seq<Picked>)
    ensures layers == CollectLayers(dss, step)
  {
    layers := [];
    var i := 0;
    while i < |dss|
      invariant 0 <= i <= |dss|
      invariant layers == CollectLayers(dss[..i], step)
    {
      CollectLayersNext(dss, step, i);
      var here := PickLayers(dss[i], CloudLayers, step);
      layers := layers + here;
      i := i + 1;
    }
    assert dss[..i] == dss;
  }

  /** The inner loop of lines 415-422 over the layer names. */
  method PickLayers(ds: Dataset, names: seq<string>, step: Step) returns (here: seq<Picked>)
    ensures here == PickAll(ds, names, step)
  {
    here := [];
    for k := 0 to |names|
      invariant here == PickAll(ds, names[..k], step)
    {
      PickAllNext(ds, names, step, k);
      var f := Select(ds, names[k], step);
      if f.Some? {
        here := here + [PickField(ds, f.value)];
      }
    }
    assert names[..|names|] == names;
  }

  function LayerValues(layers: seq<Picked>): (r: seq<Grid>)
    ensures |r| == |layers| && forall k :: 0 <= k < |layers| ==> r[k] == layers[k].values
  {
    seq(|layers|, k requires 0 <= k < |layers| => layers[k].values)
  }

  /** Lines 386-432 for Cloud Cover, as written: the standard search over all
      four aliases, then the layer fallback. The fallback keeps the last layer's
      coordinates and is given up when the last dataset scanned has no data
      variables (the truth value of `found_ds`), or when the layers cannot be
      combined. */
  function ResolveCloudAsWritten(dss: seq<Dataset>, step: Step): (r: Option<Picked>)
    ensures r == ResolveStandard(dss, CloudAliases, None, step)
  {
    var std := ResolveStandard(dss, CloudAliases, None, step);
    if std.Some? then std
    else
      CloudFallbackNeverRuns(dss, step);
      CloudFallback(dss, step)
  }

  /** The element-wise maximum of the collected layers, on the last layer's
      coordinates; nothing when there are no layers or they differ in size. */
  function LayerMax(layers: seq<Picked>): (r: Option<Picked>)
    ensures r.Some? <==> layers != [] && SameLength(LayerValues(layers))
    ensures r.Some? ==> (
      |r.value.values| == |layers[0].values| &&
      (forall i, k :: 0 <= i < |r.value.values| && 0 <= k < |layers| ==> layers[k].values[i] <= r.value.values[i]) &&
      (forall i :: 0 <= i < |r.value.values| ==> exists k :: 0 <= k < |layers| && r.value.values[i] == layers[k].values[i]))
  {
    if layers == [] || !SameLength(LayerValues(layers)) then None
    else
      var last := layers[|layers| - 1];
      Some(Picked(MaxOfLayers(LayerValues(layers)), last.coords, last.validTime))
  }

  /** Lines 412-430 on their own: the maximum of the collected layers, given up
      when there are none, when they cannot be combined, or when the last
      dataset scanned has no data variables. */
  function CloudFallback(dss: seq<Dataset>, step: Step): (r: Option<Picked>)
    ensures r.Some? ==> CollectLayers(dss, step) != [] && dss != [] && dss[|dss| - 1].dataVars != []
  {
    if dss == [] || dss[|dss| - 1].dataVars == [] then None else LayerMax(CollectLayers(dss, step))
  }

  /** Every layer the fallback could collect is also a cloud alias, so when
      the standard search finds nothing the fallback gathers no layer and
      gives nothing: it never contributes. */
  lemma CloudFallbackNeverRuns(dss: seq<Dataset>, step: Step)
    requires ResolveStandard(dss, CloudAliases, None, step).None?
    ensures CollectLayers(dss, step) == [] && CloudFallback(dss, step).None?
  {
    forall i, k | 0 <= i < |dss| && 0 <= k < |CloudLayers|
      ensures Select(dss[i], CloudLayers[k], step).None?
    {
      assert CloudLayers[k] == CloudAliases[k + 1];
      assert !Qualifies(dss[i], CloudAliases[k + 1], None, step);
    }
  }

  /** A dataset with low cloud 20 % and middle cloud 50 % at step 0. */
  function TwoLayerDataset(): Dataset {
    Dataset(Some([0]), None, Some(Axes([35.0], [139.0])),
      [ NamedVar("lcc", Var("instant", map[0 := Field([20.0], None)])),
        NamedVar("mcc", Var("instant", map[0 := Field([50.0], None)])) ])
  }

  /** As written, the cloud cover of that dataset is the low layer alone. */
  lemma CloudAsWrittenTakesFirstLayer()
    ensures ResolveCloudAsWritten([TwoLayerDataset()], 0) ==
      Some(PickField(TwoLayerDataset(), Field([20.0], None)))
  {
    var ds := TwoLayerDataset();
    TwoLayerSelections();
    assert CloudAliases[1] == "lcc" && CloudAliases[0] == "tcc";
    assert !Qualifies(ds, CloudAliases[0], None, 0);
    StandardHit([ds], CloudAliases, None, 0, 0, 1);
  }

  /** The layer combination evidently intended gives the larger middle layer. */
  lemma CloudCorrectedTakesMaxLayer()
    ensures ResolveCloud([TwoLayerDataset()], 0).Some?
    ensures ResolveCloud([TwoLayerDataset()], 0).value.values == [50.0]
  {
    TwoLayerNoTotal();
    TwoLayerCollected();
    TwoLayerMax();
  }

  lemma TwoLayerNoTotal()
    ensures ResolveStandard([TwoLayerDataset()], TotalCloud, None, 0).None?
  {
    TwoLayerSelections();
    assert !Qualifies([TwoLayerDataset()][0], TotalCloud[0], None, 0);
  }

  lemma TwoLayerMax()
    ensures var layers := [PickField(TwoLayerDataset(), Field([20.0], None)), PickField(TwoLayerDataset(), Field([50.0], None))];
      LayerMax(layers).Some? && LayerMax(layers).value.values == [50.0]
  {
    var layers := [PickField(TwoLayerDataset(), Field([20.0], None)), PickField(TwoLayerDataset(), Field([50.0], None))];
    var lv := LayerValues(layers);
    assert lv == [[20.0], [50.0]];
    assert lv[..1] == [[20.0]];
    var m := MaxOfLayers(lv);
    assert m == PointwiseMax([20.0], [50.0]);
    assert |m| == 1 && m[0] >= 50.0 && (m[0] == 20.0 || m[0] == 50.0);
    assert m == [50.0];
  }

  lemma TwoLayerSelections()
    ensures Select(TwoLayerDataset(), "tcc", 0).None?
    ensures Select(TwoLayerDataset(), "lcc", 0) == Some(Field([20.0], None))
    ensures Select(TwoLayerDataset(), "mcc", 0) == Some(Field([50.0], None))
    ensures Select(TwoLayerDataset(), "hcc", 0).None?
  {
    var vars := TwoLayerDataset().dataVars;
    assert vars[1..][1..] == [];
  }

  lemma TwoLayerCollected()
    ensures CollectLayers([TwoLayerDataset()], 0) ==
      [PickField(TwoLayerDataset(), Field([20.0], None)), PickField(TwoLayerDataset(), Field([50.0], None))]
  {
    var ds := TwoLayerDataset();
    TwoLayerSelections();
    var low := PickField(ds, Field([20.0], None));
    var mid := PickField(ds, Field([50.0], None));
    var names := CloudLayers;
    assert names[..2][..1][..0] == [];
    assert PickAll(ds, names[..2][..1], 0) == [low];
    assert names[..2][..1] == names[..1];
    assert PickAll(ds, names[..2], 0) == [low, mid];
    assert PickAll(ds, names, 0) == [low, mid];
    assert [ds][..0] == [];
  }

  /** Cloud cover as evidently intended: the total cloud cover wherever a
      dataset holds it, otherwise the element-wise maximum of every low, middle
      and high layer found, placed on the last layer's coordinates. */
  function ResolveCloud(dss: seq<Dataset>, step: Step): (r: Option<Picked>)
    ensures (exists i :: 0 <= i < |dss| && Qualifies(dss[i], "tcc", None, step)) ==>
      r == ResolveStandard(dss, TotalCloud, None, step)
    ensures (forall i :: 0 <= i < |dss| ==> !Qualifies(dss[i], "tcc", None, step)) ==>
      r == LayerMax(CollectLayers(dss, step))
  {
    var std := ResolveStandard(dss, TotalCloud, None, step);
    TotalCloudFound(dss, step);
    if std.Some? then std else LayerMax(CollectLayers(dss, step))
  }

  /** The total-cloud search finds something exactly when some dataset
      holds `tcc` at the step. */
  lemma TotalCloudFound(dss: seq<Dataset>, step: Step)
    ensures ResolveStandard(dss, TotalCloud, None, step).None? <==>
      forall i :: 0 <= i < |dss| ==> !Qualifies(dss[i], "tcc", None, step)
  {
    assert TotalCloud[0] == "tcc";
  }
}
