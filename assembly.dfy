/** Frame-task assembly of the renderer (visualize_final.py, `main()`, lines
    313-487): for every readable file, every step, and every display variable
    in configuration order, resolve the field, de-accumulate it, convert its
    unit, and gather the variables found into one frame task. */
module Assembly {
  import opened Common
  import opened Datasets
  import opened FinalConfig
  import opened Resolver
  import opened Accumulation

  /** One panel of a frame: the variable's display name, its converted
      values, its coordinates and its display settings. */
  datatype BundleEntry = BundleEntry(name: string, values: Grid, coords: Coords, config: DisplayConfig)

  /** `(frame_counter, plot_data, label, output_path)` */
  datatype FrameTask = FrameTask(index: nat, bundle: seq<BundleEntry>, timeLabel: string, outputPath: string)

  /** `os.path.join("output", "frames")` */
  const FramesDir: string := "output/frames"

  /** Where frame `i` is written: `frame_` and the number padded to four digits. */
  function FramePath(i: nat): string {
    JoinPath(FramesDir, "frame_" + ZeroPad(i, 4) + ".png")
  }

  /** Two frames never share a file name. */
  lemma FramePathInjective(i: nat, j: nat)
    requires FramePath(i) == FramePath(j)
    ensures i == j
  {
    var pre := FramesDir + "/" + "frame_";
    var a := ZeroPad(i, 4);
    var b := ZeroPad(j, 4);
    assert FramePath(i) == pre + a + ".png" && FramePath(j) == pre + b + ".png";
    SameMiddle(pre, a, b, ".png");
    ZeroPadInjective(i, j, 4);
  }

  // ---------------------------------------------------------------------
  // One variable at one step

  /** Where the field of a display variable comes from (lines 355, 385 and
      412): Wind Speed from a u/v pair, every other variable from the
      standard search, with Cloud Cover's layer fallback as written. */
  function ResolveVariable(cfg: CanonicalVariable, dss: seq<Dataset>, step: Step, sqrt: real -> real): (r: Option<Picked>)
    ensures cfg.name == WindSpeed ==> r == ResolveWind(dss, step, sqrt)
    ensures cfg in VariableConfig() && cfg.name != WindSpeed ==>
      r == ResolveStandard(dss, cfg.aliases, cfg.requiredStepType, step)
  {
    if cfg.name == WindSpeed then ResolveWind(dss, step, sqrt)
    else if cfg.isCloud then
      assert cfg in VariableConfig() ==> cfg.aliases == CloudAliases && cfg.requiredStepType.None?;
      ResolveCloudAsWritten(dss, step)
    else ResolveStandard(dss, cfg.aliases, cfg.requiredStepType, step)
  }

  /** What one variable adds to a frame: its panel (None when it is omitted),
      the text of its valid time up to the first '.', and the accumulation
      map afterwards. */
  datatype VarResult = VarResult(entry: Option<BundleEntry>, validTime: Option<string>, state: map<string, Grid>)

  function TrimTime(t: Option<string>): (r: Option<string>)
    ensures r.Some? <==> t.Some?
    ensures r.Some? ==> '.' !in r.value && r.value <= t.value
  {
    if t.Some? then Some(BeforeFirst(t.value, '.')) else None
  }

  /** Lines 434-474 for one variable. A variable that resolves but whose
      source has no coordinates raises when its panel is built, after the
      accumulation map has been written. */
  function ProcessVariable(cfg: CanonicalVariable, picked: Option<Picked>, prev: map<string, Grid>): (r: VarResult)
    ensures picked.None? ==> r == VarResult(None, None, prev)
    ensures r.entry.Some? ==> r.entry.value.name == cfg.name && r.entry.value.config == cfg.display
    ensures r.entry.Some? ==> (
      picked.Some? &&
      var p := picked.value;
      Some(r.entry.value.coords) == p.coords && r.validTime == TrimTime(p.validTime))
    ensures !cfg.isAccum ==> r.state == prev
    ensures !cfg.isAccum && picked.Some? ==>
      (r.entry.Some? <==> picked.value.coords.Some?)
    ensures !cfg.isAccum && r.entry.Some? ==>
      r.entry.value.values == ApplyConversion(cfg.conversion, picked.value.values)
    ensures cfg.isAccum && picked.Some? ==> (
      var p := picked.value;
      var o := AccumStep(prev, cfg.name, p.values);
      r.state == o.state &&
      (r.entry.Some? <==> o.delta.Some? && p.coords.Some?) &&
      (r.entry.Some? ==> r.entry.value.values == ApplyConversion(cfg.conversion, o.delta.value)))
    ensures r.entry.None? ==> r.validTime.None?
  {
    match picked
    case None => VarResult(None, None, prev)
    case Some(p) =>
      if cfg.isAccum then
        var o := AccumStep(prev, cfg.name, p.values);
        if o.delta.None? then VarResult(None, None, o.state)
        else Panel(cfg, p, o.delta.value, o.state)
      else Panel(cfg, p, p.values, prev)
  }

  function Panel(cfg: CanonicalVariable, p: Picked, values: Grid, st: map<string, Grid>): (r: VarResult)
    ensures r.state == st
    ensures r.entry.Some? <==> p.coords.Some?
    ensures r.entry.Some? ==>
      r.entry.value == BundleEntry(cfg.name, ApplyConversion(cfg.conversion, values), p.coords.value, cfg.display) &&
      r.validTime == TrimTime(p.validTime)
    ensures r.entry.None? ==> r.validTime.None?
  {
    if p.coords.None? then VarResult(None, None, st)
    else VarResult(Some(BundleEntry(cfg.name, ApplyConversion(cfg.conversion, values), p.coords.value, cfg.display)), TrimTime(p.validTime), st)
  }

  /** The first step of a file shows no precipitation: its panel is all zeros. */
  lemma FirstPrecipitationIsZero(picked: Option<Picked>, prev: map<string, Grid>)
    requires "Precipitation" !in prev
    ensures var cfg := VariableConfig()[3];
      var r := ProcessVariable(cfg, picked, prev);
      r.entry.Some? ==> forall i :: 0 <= i < |r.entry.value.values| ==> r.entry.value.values[i] == 0.0
  {
    var cfg := VariableConfig()[3];
    assert cfg.isAccum && cfg.name == "Precipitation" && cfg.conversion == NoConversion;
  }

  // ---------------------------------------------------------------------
  // All variables at one step

  function Names(b: seq<BundleEntry>): (r: seq<string>)
    ensures |r| == |b| && forall p :: 0 <= p < |b| ==> r[p] == b[p].name
  {
    seq(|b|, p requires 0 <= p < |b| => b[p].name)
  }

  function ConfigNames(cfgs: seq<CanonicalVariable>): (r: seq<string>)
    ensures |r| == |cfgs| && forall k :: 0 <= k < |cfgs| ==> r[k] == cfgs[k].name
  {
    seq(|cfgs|, k requires 0 <= k < |cfgs| => cfgs[k].name)
  }

  /** `xs` is `ys` with some elements left out. */
  predicate Subseq(xs: seq<string>, ys: seq<string>)
    decreases |ys|
  {
    if xs == [] then true
    else if ys == [] then false
    else if xs[|xs| - 1] == ys[|ys| - 1] then Subseq(xs[..|xs| - 1], ys[..|ys| - 1])
    else Subseq(xs, ys[..|ys| - 1])
  }

  predicate Distinct(xs: seq<string>) {
    forall p, q :: 0 <= p < q < |xs| ==> xs[p] != xs[q]
  }

  lemma {:induction false} SubseqMembers(xs: seq<string>, ys: seq<string>)
    requires Subseq(xs, ys)
    ensures forall x :: x in xs ==> x in ys
    decreases |ys|
  {
    if xs != [] {
      var ys' := ys[..|ys| - 1];
      if xs[|xs| - 1] == ys[|ys| - 1] {
        SubseqMembers(xs[..|xs| - 1], ys');
        assert xs == xs[..|xs| - 1] + [ys[|ys| - 1]];
      } else {
        SubseqMembers(xs, ys');
      }
    }
  }

  /** Leaving elements out of a duplicate-free list keeps it duplicate-free. */
  lemma {:induction false} SubseqDistinct(xs: seq<string>, ys: seq<string>)
    requires Subseq(xs, ys) && Distinct(ys)
    ensures Distinct(xs)
    decreases |ys|
  {
    if xs != [] {
      var ys' := ys[..|ys| - 1];
      assert Distinct(ys');
      if xs[|xs| - 1] == ys[|ys| - 1] {
        var xs' := xs[..|xs| - 1];
        SubseqDistinct(xs', ys');
        SubseqMembers(xs', ys');
        assert ys[|ys| - 1] !in ys';
        assert xs == xs' + [ys[|ys| - 1]];
      } else {
        SubseqDistinct(xs, ys');
      }
    }
  }

  /** A shorter list stays a subsequence of a longer one. */
  lemma {:induction false} SubseqExtend(xs: seq<string>, ys: seq<string>, y: string)
    requires Subseq(xs, ys)
    ensures Subseq(xs, ys + [y])
    decreases |ys|, 1
  {
    if xs != [] {
      assert (ys + [y])[..|ys|] == ys;
      if xs[|xs| - 1] == y {
        SubseqDropLast(xs, ys);
      }
    }
  }

  lemma {:induction false} SubseqDropLast(xs: seq<string>, ys: seq<string>)
    requires xs != [] && Subseq(xs, ys)
    ensures Subseq(xs[..|xs| - 1], ys)
    decreases |ys|, 0
  {
    var ys' := ys[..|ys| - 1];
    assert ys == ys' + [ys[|ys| - 1]];
    if xs[|xs| - 1] == ys[|ys| - 1] {
      SubseqExtend(xs[..|xs| - 1], ys', ys[|ys| - 1]);
    } else {
      SubseqDropLast(xs, ys');
      SubseqExtend(xs[..|xs| - 1], ys', ys[|ys| - 1]);
    }
  }

  datatype StepResult = StepResult(bundle: seq<BundleEntry>, validTime: Option<string>, state: map<string, Grid>)

  /** The variable loop of lines 348-472: panels in configuration order, the
      first valid time met, and the accumulation map threaded through. */
  function StepFold(cfgs: seq<CanonicalVariable>, resolve: CanonicalVariable -> Option<Picked>, prev: map<string, Grid>): (r: StepResult)
    ensures r.validTime.Some? ==> r.bundle != []
  {
    if cfgs == [] then StepResult([], None, prev)
    else StepNext(StepFold(cfgs[..|cfgs| - 1], resolve, prev), cfgs[|cfgs| - 1], resolve(cfgs[|cfgs| - 1]))
  }

  /** A step's panels follow the configuration order, and each comes from a
      configured variable with that variable's display settings. */
  lemma {:induction false} StepFoldOrder(cfgs: seq<CanonicalVariable>, resolve: CanonicalVariable -> Option<Picked>, prev: map<string, Grid>)
    ensures var r := StepFold(cfgs, resolve, prev);
      Subseq(Names(r.bundle), ConfigNames(cfgs)) &&
      forall e :: e in r.bundle ==> exists cfg :: cfg in cfgs && e.name == cfg.name && e.config == cfg.display
  {
    if cfgs != [] {
      var init := cfgs[..|cfgs| - 1];
      StepFoldOrder(init, resolve, prev);
      var prior := StepFold(init, resolve, prev);
      var entry := ProcessVariable(cfgs[|cfgs| - 1], resolve(cfgs[|cfgs| - 1]), prior.state).entry;
      NamesGrow(prior.bundle, cfgs, entry);
      ConfigsGrow(prior.bundle, cfgs, entry);
    }
  }

  /** One variable of the loop: its panel, if any, is appended, the first
      valid time met is kept, and the accumulation map moves on. */
  function StepNext(prior: StepResult, cfg: CanonicalVariable, picked: Option<Picked>): (r: StepResult)
    ensures var v := ProcessVariable(cfg, picked, prior.state);
      r.bundle == (if v.entry.Some? then prior.bundle + [v.entry.value] else prior.bundle) &&
      (prior.validTime.Some? ==> r.validTime == prior.validTime) &&
      (prior.validTime.None? ==> r.validTime == v.validTime) &&
      r.state == v.state
  {
    var v := ProcessVariable(cfg, picked, prior.state);
    var bundle := if v.entry.Some? then prior.bundle + [v.entry.value] else prior.bundle;
    var vt := if prior.validTime.Some? then prior.validTime else v.validTime;
    StepResult(bundle, vt, v.state)
  }

  /** The variable loop over the configured variables. */
  function StepOf(dss: seq<Dataset>, step: Step, prev: map<string, Grid>, sqrt: real -> real): StepResult {
    StepFold(VariableConfig(), Resolution(dss, step, sqrt), prev)
  }

  /** How each configured variable resolves at `step`. */
  function Resolution(dss: seq<Dataset>, step: Step, sqrt: real -> real): CanonicalVariable -> Option<Picked> {
    cfg => ResolveVariable(cfg, dss, step, sqrt)
  }

  /** One more configured variable: its panel, if any, goes after the panels
      of the variables before it. */
  lemma NamesGrow(bundle: seq<BundleEntry>, cfgs: seq<CanonicalVariable>, entry: Option<BundleEntry>)
    requires cfgs != []
    requires Subseq(Names(bundle), ConfigNames(cfgs[..|cfgs| - 1]))
    requires entry.Some? ==> entry.value.name == cfgs[|cfgs| - 1].name
    ensures Subseq(Names(if entry.Some? then bundle + [entry.value] else bundle), ConfigNames(cfgs))
  {
    var init, name := ConfigNames(cfgs[..|cfgs| - 1]), cfgs[|cfgs| - 1].name;
    assert ConfigNames(cfgs) == init + [name];
    if entry.Some? {
      assert Names(bundle + [entry.value]) == Names(bundle) + [name];
    } else {
      SubseqExtend(Names(bundle), init, name);
    }
  }

  /** Every panel comes from some configured variable. */
  lemma ConfigsGrow(bundle: seq<BundleEntry>, cfgs: seq<CanonicalVariable>, entry: Option<BundleEntry>)
    requires cfgs != []
    requires forall e :: e in bundle ==> exists c :: c in cfgs[..|cfgs| - 1] && e.name == c.name && e.config == c.display
    requires entry.Some? ==> entry.value.name == cfgs[|cfgs| - 1].name && entry.value.config == cfgs[|cfgs| - 1].display
    ensures forall e :: e in (if entry.Some? then bundle + [entry.value] else bundle) ==>
      exists c :: c in cfgs && e.name == c.name && e.config == c.display
  {
    assert forall c :: c in cfgs[..|cfgs| - 1] ==> c in cfgs;
    assert cfgs[|cfgs| - 1] in cfgs;
  }

  /** The label of a frame: its valid time, or the step when there is none
      (an empty valid time counts as none). */
  function Label(vt: Option<string>, step: Step): string {
    if vt.Some? && vt.value != "" then vt.value else "Step " + NatToString(step)
  }

  /** A frame is labelled by its valid time when it has one; otherwise the
      label is "Step " and the step's number, which reads back as the step. */
  lemma LabelOfStep(vt: Option<string>, step: Step)
    ensures vt.Some? && vt.value != "" ==> Label(vt, step) == vt.value
    ensures !(vt.Some? && vt.value != "") ==>
      var r := Label(vt, step);
      |r| > 5 && r[..5] == "Step " && AllDigits(r[5..]) && DigitsValue(r[5..]) == step
  {
    NatToStringRoundTrip(step);
    assert ("Step " + NatToString(step))[5..] == NatToString(step);
  }

  datatype FileResult = FileResult(tasks: seq<FrameTask>, state: map<string, Grid>)

  /** What every task satisfies: it is numbered `idx`, written to that frame's
      path, and has at least one panel, no variable twice. */
  predicate TaskAt(t: FrameTask, idx: nat) {
    t.index == idx && t.outputPath == FramePath(idx) && t.bundle != [] && Distinct(Names(t.bundle))
  }

  /** The panels of one step follow the configuration order, so each variable
      appears at most once. */
  lemma StepBundleDistinct(dss: seq<Dataset>, step: Step, prev: map<string, Grid>, sqrt: real -> real)
    ensures Distinct(Names(StepOf(dss, step, prev, sqrt).bundle))
  {
    var cfg, resolve := VariableConfig(), Resolution(dss, step, sqrt);
    assert Distinct(ConfigNames(cfg));
    StepFoldOrder(cfg, resolve, prev);
    SubseqDistinct(Names(StepFold(cfg, resolve, prev).bundle), ConfigNames(cfg));
  }

  /** The first time present in a list, and none when none is. */
  function FirstTime(ts: seq<Option<string>>): (r: Option<string>)
    ensures r.None? <==> forall k :: 0 <= k < |ts| ==> ts[k].None?
    ensures r.Some? ==> exists k :: 0 <= k < |ts| && ts[k] == r && NoneBefore(ts, k)
  {
    if ts == [] then None
    else
      var init := ts[..|ts| - 1];
      var first := FirstTime(init);
      assert forall k :: 0 <= k < |init| ==> init[k] == ts[k];
      assert forall k :: 0 <= k <= |init| ==> (NoneBefore(init, k) <==> NoneBefore(ts, k));
      if first.Some? then first else ts[|ts| - 1]
  }

  /** No time is present before position `k`. */
  predicate NoneBefore(ts: seq<Option<string>>, k: nat)
    requires k <= |ts|
  {
    forall j :: 0 <= j < k ==> ts[j].None?
  }

  /** The present values of a list, in order. */
  function Somes(xs: seq<Option<BundleEntry>>): (r: seq<BundleEntry>)
    ensures |r| <= |xs|
    ensures forall k :: 0 <= k < |xs| && xs[k].Some? ==> xs[k].value in r
    ensures forall e :: e in r ==> exists k :: 0 <= k < |xs| && xs[k] == Some(e)
  {
    if xs == [] then []
    else
      var init := Somes(xs[..|xs| - 1]);
      var last := xs[|xs| - 1];
      if last.Some? then init + [last.value] else init
  }

  /** What each variable of the loop yielded, in order, each given the map
      the variables before it left behind. */
  function Results(cfgs: seq<CanonicalVariable>, resolve: CanonicalVariable -> Option<Picked>, prev: map<string, Grid>): (r: seq<VarResult>)
    ensures |r| == |cfgs|
  {
    if cfgs == [] then []
    else
      var init := cfgs[..|cfgs| - 1];
      Results(init, resolve, prev) +
        [ProcessVariable(cfgs[|cfgs| - 1], resolve(cfgs[|cfgs| - 1]), StepFold(init, resolve, prev).state)]
  }

  /** The definition of Results, unfolded once. */
  lemma ResultsUnfold(cfgs: seq<CanonicalVariable>, resolve: CanonicalVariable -> Option<Picked>, prev: map<string, Grid>)
    requires cfgs != []
    ensures var init := cfgs[..|cfgs| - 1];
      Results(cfgs, resolve, prev) ==
        Results(init, resolve, prev) + [ProcessVariable(cfgs[|cfgs| - 1], resolve(cfgs[|cfgs| - 1]), StepFold(init, resolve, prev).state)]
  {
  }

  /** The `k`-th result is that variable processed on the map left by the
      variables before it. */
  lemma {:induction false} ResultsAt(cfgs: seq<CanonicalVariable>, k: nat, resolve: CanonicalVariable -> Option<Picked>, prev: map<string, Grid>)
    requires k < |cfgs|
    ensures Results(cfgs, resolve, prev)[k] == ProcessVariable(cfgs[k], resolve(cfgs[k]), StepFold(cfgs[..k], resolve, prev).state)
  {
    var init := cfgs[..|cfgs| - 1];
    var rs, before := Results(cfgs, resolve, prev), Results(init, resolve, prev);
    var last := ProcessVariable(cfgs[|cfgs| - 1], resolve(cfgs[|cfgs| - 1]), StepFold(init, resolve, prev).state);
    ResultsUnfold(cfgs, resolve, prev);
    if k < |cfgs| - 1 {
      ResultsAt(init, k, resolve, prev);
      PrefixOfPrefix(cfgs, |cfgs| - 1, k);
      SnocAt(rs, before, last, k);
    } else {
      assert cfgs[..k] == init;
    }
  }

  function EntriesOf(rs: seq<VarResult>): (r: seq<Option<BundleEntry>>)
    ensures |r| == |rs| && forall k :: 0 <= k < |rs| ==> r[k] == rs[k].entry
  {
    seq(|rs|, k requires 0 <= k < |rs| => rs[k].entry)
  }

  function TimesOf(rs: seq<VarResult>): (r: seq<Option<string>>)
    ensures |r| == |rs| && forall k :: 0 <= k < |rs| ==> r[k] == rs[k].validTime
  {
    seq(|rs|, k requires 0 <= k < |rs| => rs[k].validTime)
  }

  /** A step's panels are exactly those its variables produced, in order;
      its valid time is the first one any variable supplied (the
      `if valid_time is None` test), none when no variable did; and its map
      is the one the last variable left. */
  lemma {:induction false} StepFoldParts(cfgs: seq<CanonicalVariable>, resolve: CanonicalVariable -> Option<Picked>, prev: map<string, Grid>)
    ensures var rs := Results(cfgs, resolve, prev);
      StepFold(cfgs, resolve, prev).bundle == Somes(EntriesOf(rs)) &&
      StepFold(cfgs, resolve, prev).validTime == FirstTime(TimesOf(rs)) &&
      (cfgs != [] ==> StepFold(cfgs, resolve, prev).state == rs[|rs| - 1].state)
  {
    if cfgs != [] {
      var n := |cfgs|;
      var init := cfgs[..n - 1];
      StepFoldParts(init, resolve, prev);
      var prior := StepFold(init, resolve, prev);
      var v := ProcessVariable(cfgs[n - 1], resolve(cfgs[n - 1]), prior.state);
      var rs0 := Results(init, resolve, prev);
      assert Results(cfgs, resolve, prev) == rs0 + [v];
      assert StepFold(cfgs, resolve, prev) == StepNext(prior, cfgs[n - 1], resolve(cfgs[n - 1]));
      ResultsSnoc(rs0, v);
    }
  }

  /** One more result adds its entry and its time at the end. */
  lemma ResultsSnoc(rs: seq<VarResult>, v: VarResult)
    ensures Somes(EntriesOf(rs + [v])) == if v.entry.Some? then Somes(EntriesOf(rs)) + [v.entry.value] else Somes(EntriesOf(rs))
    ensures FirstTime(TimesOf(rs + [v])) == if FirstTime(TimesOf(rs)).Some? then FirstTime(TimesOf(rs)) else v.validTime
  {
    var es := EntriesOf(rs + [v]);
    assert es[..|es| - 1] == EntriesOf(rs);
    var ts := TimesOf(rs + [v]);
    assert ts[..|ts| - 1] == TimesOf(rs);
  }

  /** No variable of the list accumulates. */
  predicate NoneAccum(cfgs: seq<CanonicalVariable>) {
    forall j :: 0 <= j < |cfgs| ==> !cfgs[j].isAccum
  }

  /** Variables none of which accumulate leave the map as they found it. */
  lemma {:induction false} StepFoldKeeps(cfgs: seq<CanonicalVariable>, resolve: CanonicalVariable -> Option<Picked>, prev: map<string, Grid>)
    requires NoneAccum(cfgs)
    ensures StepFold(cfgs, resolve, prev).state == prev
  {
    if cfgs != [] {
      var init := cfgs[..|cfgs| - 1];
      assert NoneAccum(init) by {
        forall j | 0 <= j < |init| ensures !init[j].isAccum {
          assert init[j] == cfgs[j];
        }
      }
      StepFoldKeeps(init, resolve, prev);
      assert !cfgs[|cfgs| - 1].isAccum;
      StepNextKeeps(StepFold(init, resolve, prev), cfgs[|cfgs| - 1], resolve(cfgs[|cfgs| - 1]));
    }
  }

  /** A variable that does not accumulate leaves the map as it found it. */
  lemma StepNextKeeps(prior: StepResult, cfg: CanonicalVariable, picked: Option<Picked>)
    requires !cfg.isAccum
    ensures StepNext(prior, cfg, picked).state == prior.state
  {
  }

  /** No variable from position `m` on accumulates. */
  predicate NoneAccumFrom(cfgs: seq<CanonicalVariable>, m: nat) {
    forall j :: m <= j < |cfgs| ==> !cfgs[j].isAccum
  }

  /** Variables after position `m` that do not accumulate leave the map as
      the first `m` left it. */
  lemma {:induction false} StepFoldTailKeeps(cfgs: seq<CanonicalVariable>, m: nat, resolve: CanonicalVariable -> Option<Picked>, prev: map<string, Grid>)
    requires m <= |cfgs| && NoneAccumFrom(cfgs, m)
    ensures StepFold(cfgs, resolve, prev).state == StepFold(cfgs[..m], resolve, prev).state
  {
    if m < |cfgs| {
      var n := |cfgs|;
      var init := cfgs[..n - 1];
      PrefixOfPrefix(cfgs, n - 1, m);
      assert NoneAccumFrom(init, m) by {
        forall j | m <= j < |init| ensures !init[j].isAccum {
          assert init[j] == cfgs[j];
        }
      }
      StepFoldTailKeeps(init, m, resolve, prev);
      assert !cfgs[n - 1].isAccum;
      var prior := StepFold(init, resolve, prev);
      assert StepFold(cfgs, resolve, prev) == StepNext(prior, cfgs[n - 1], resolve(cfgs[n - 1]));
      StepNextKeeps(prior, cfgs[n - 1], resolve(cfgs[n - 1]));
    } else {
      assert cfgs[..m] == cfgs;
    }
  }

  /** When only the `k`-th variable accumulates, the map a step leaves is
      the one that variable left. */
  lemma StepFoldAccumState(cfgs: seq<CanonicalVariable>, k: nat, resolve: CanonicalVariable -> Option<Picked>, prev: map<string, Grid>)
    requires k < |cfgs| && NoneAccum(cfgs[..k]) && NoneAccum(cfgs[k + 1..])
    ensures StepFold(cfgs, resolve, prev).state == ProcessVariable(cfgs[k], resolve(cfgs[k]), prev).state
  {
    var pre := cfgs[..k + 1];
    assert NoneAccumFrom(cfgs, k + 1) by {
      var tail := cfgs[k + 1..];
      forall j | k + 1 <= j < |cfgs| ensures !cfgs[j].isAccum {
        assert cfgs[j] == tail[j - (k + 1)];
      }
    }
    StepFoldTailKeeps(cfgs, k + 1, resolve, prev);
    PrefixOfPrefix(cfgs, k + 1, k);
    StepFoldKeeps(cfgs[..k], resolve, prev);
  }

  /** A panel of the `k`-th variable, when no variable before it
      accumulates, is among the step's panels. */
  lemma StepFoldPanel(cfgs: seq<CanonicalVariable>, k: nat, resolve: CanonicalVariable -> Option<Picked>, prev: map<string, Grid>)
    requires k < |cfgs| && NoneAccum(cfgs[..k])
    ensures ProcessVariable(cfgs[k], resolve(cfgs[k]), prev).entry.Some? ==>
      ProcessVariable(cfgs[k], resolve(cfgs[k]), prev).entry.value in StepFold(cfgs, resolve, prev).bundle
  {
    StepFoldParts(cfgs, resolve, prev);
    ResultsAt(cfgs, k, resolve, prev);
    StepFoldKeeps(cfgs[..k], resolve, prev);
    assert EntriesOf(Results(cfgs, resolve, prev))[k] == ProcessVariable(cfgs[k], resolve(cfgs[k]), prev).entry;
  }

  /** In the configured list only Precipitation, the fourth, accumulates. */
  lemma OnlyPrecipitationAccumulates()
    ensures var c := VariableConfig(); c[3].isAccum && NoneAccum(c[..3]) && NoneAccum(c[4..])
  {
    var c := VariableConfig();
    assert forall j :: 0 <= j < 3 ==> c[..3][j] == c[j];
    assert forall j :: 0 <= j < 2 ==> c[4..][j] == c[4 + j];
  }

  /** Across one step, the accumulation map changes only through
      Precipitation: AccumStep on its resolved raw field, when it resolves. */
  lemma StepOfState(dss: seq<Dataset>, step: Step, prev: map<string, Grid>, sqrt: real -> real)
    ensures var cfg := VariableConfig()[3];
      var p := ResolveVariable(cfg, dss, step, sqrt);
      StepOf(dss, step, prev, sqrt).state == (if p.Some? then AccumStep(prev, cfg.name, p.value.values).state else prev)
  {
    OnlyPrecipitationAccumulates();
    StepFoldAccumState(VariableConfig(), 3, Resolution(dss, step, sqrt), prev);
  }

  /** When Precipitation resolves with coordinates and its difference can
      be taken, the step shows it as the AccumStep difference, unconverted. */
  lemma StepOfPrecipitation(dss: seq<Dataset>, step: Step, prev: map<string, Grid>, sqrt: real -> real)
    ensures var cfg := VariableConfig()[3];
      var p := ResolveVariable(cfg, dss, step, sqrt);
      p.Some? && p.value.coords.Some? && AccumStep(prev, cfg.name, p.value.values).delta.Some? ==>
        BundleEntry(cfg.name, AccumStep(prev, cfg.name, p.value.values).delta.value, p.value.coords.value, cfg.display)
          in StepOf(dss, step, prev, sqrt).bundle
  {
    OnlyPrecipitationAccumulates();
    StepFoldPanel(VariableConfig(), 3, Resolution(dss, step, sqrt), prev);
  }

  /** The step loop of lines 343-477 for one file: the accumulation map starts
      empty, and a step contributes a task only when some variable was found. */
  function FileFold(dss: seq<Dataset>, steps: seq<Step>, start: nat, sqrt: real -> real): (r: FileResult)
    ensures |r.tasks| <= |steps|
    ensures forall k :: 0 <= k < |r.tasks| ==> TaskAt(r.tasks[k], start + k)
  {
    if steps == [] then FileResult([], map[])
    else
      var prior := FileFold(dss, steps[..|steps| - 1], start, sqrt);
      var step := steps[|steps| - 1];
      StepBundleDistinct(dss, step, prior.state, sqrt);
      AddStep(prior, StepOf(dss, step, prior.state, sqrt), step, start)
  }

  /** One step of a file: a task numbered after those already made, if any
      variable was found. */
  function AddStep(prior: FileResult, sr: StepResult, step: Step, start: nat): (r: FileResult)
    requires Distinct(Names(sr.bundle))
    requires forall k :: 0 <= k < |prior.tasks| ==> TaskAt(prior.tasks[k], start + k)
    ensures r.state == sr.state
    ensures sr.bundle == [] ==> r.tasks == prior.tasks
    ensures sr.bundle != [] ==>
      r.tasks == prior.tasks + [FrameTask(start + |prior.tasks|, sr.bundle, Label(sr.validTime, step), FramePath(start + |prior.tasks|))]
    ensures forall k :: 0 <= k < |r.tasks| ==> TaskAt(r.tasks[k], start + k)
  {
    if sr.bundle == [] then FileResult(prior.tasks, sr.state)
    else
      var idx := start + |prior.tasks|;
      FileResult(prior.tasks + [FrameTask(idx, sr.bundle, Label(sr.validTime, step), FramePath(idx))], sr.state)
  }

  /** What each step of a file yielded, in order, each on the map the steps
      before it left behind. */
  function StepResults(dss: seq<Dataset>, steps: seq<Step>, sqrt: real -> real): (r: seq<StepResult>)
    ensures |r| == |steps|
  {
    if steps == [] then []
    else
      var init := steps[..|steps| - 1];
      StepResults(dss, init, sqrt) + [StepOf(dss, steps[|steps| - 1], FileFold(dss, init, 0, sqrt).state, sqrt)]
  }

  /** Step `j` of a file: the configured variables at that step, on the map
      the steps before it left behind. */
  lemma {:induction false} StepResultsAt(dss: seq<Dataset>, steps: seq<Step>, j: nat, sqrt: real -> real)
    requires j < |steps|
    ensures StepResults(dss, steps, sqrt)[j] == StepOf(dss, steps[j], FileFold(dss, steps[..j], 0, sqrt).state, sqrt)
  {
    var init := steps[..|steps| - 1];
    var srs, before := StepResults(dss, steps, sqrt), StepResults(dss, init, sqrt);
    var last := StepOf(dss, steps[|steps| - 1], FileFold(dss, init, 0, sqrt).state, sqrt);
    StepResultsUnfold(dss, steps, sqrt);
    if j < |steps| - 1 {
      StepResultsAt(dss, init, j, sqrt);
      PrefixOfPrefix(steps, |steps| - 1, j);
      SnocAt(srs, before, last, j);
    } else {
      assert steps[..j] == init;
    }
  }

  /** The definition of StepResults, unfolded once. */
  lemma StepResultsUnfold(dss: seq<Dataset>, steps: seq<Step>, sqrt: real -> real)
    requires steps != []
    ensures var init := steps[..|steps| - 1];
      StepResults(dss, steps, sqrt) == StepResults(dss, init, sqrt) + [StepOf(dss, steps[|steps| - 1], FileFold(dss, init, 0, sqrt).state, sqrt)]
  {
  }

  /** A prefix of a prefix is a prefix, and agrees with the list below its
      length. */
  lemma PrefixOfPrefix<T>(s: seq<T>, i: nat, j: nat)
    requires j <= i <= |s|
    ensures s[..i][..j] == s[..j]
    ensures j < i ==> s[..i][j] == s[j]
  {
  }

  /** An element before the last of a list built by appending one. */
  lemma SnocAt<T>(xs: seq<T>, init: seq<T>, last: T, j: nat)
    requires xs == init + [last] && j < |init|
    ensures xs[j] == init[j]
  {
  }

  /** The positions of the steps that found some variable, in order; every
      position when every step did. */
  function Shown(srs: seq<StepResult>): (r: seq<nat>)
    ensures forall k :: 0 <= k < |r| ==> r[k] < |srs| && srs[r[k]].bundle != []
    ensures forall p, q :: 0 <= p < q < |r| ==> r[p] < r[q]
    ensures forall j :: 0 <= j < |srs| && srs[j].bundle != [] ==> j in r
    ensures (forall j :: 0 <= j < |srs| ==> srs[j].bundle != []) ==>
      |r| == |srs| && forall k :: 0 <= k < |r| ==> r[k] == k
  {
    if srs == [] then []
    else
      var n := |srs|;
      var init := Shown(srs[..n - 1]);
      assert forall j :: 0 <= j < n - 1 ==> srs[..n - 1][j] == srs[j];
      if srs[n - 1].bundle != [] then init + [n - 1] else init
  }

  /** `tasks` holds one task per step of `srs` that found some variable, in
      order, numbered on from `start`, with that step's panels and label. */
  predicate Matches(tasks: seq<FrameTask>, srs: seq<StepResult>, steps: seq<Step>, start: nat)
    requires |srs| == |steps|
  {
    var sh := Shown(srs);
    |tasks| == |sh| &&
    forall k :: 0 <= k < |sh| ==>
      tasks[k] == FrameTask(start + k, srs[sh[k]].bundle, Label(srs[sh[k]].validTime, steps[sh[k]]), FramePath(start + k))
  }

  lemma EmitSnoc(tasks: seq<FrameTask>, more: seq<FrameTask>, srs: seq<StepResult>, steps: seq<Step>, start: nat)
    requires |srs| == |steps| > 0
    requires Matches(tasks, srs[..|srs| - 1], steps[..|steps| - 1], start)
    requires srs[|srs| - 1].bundle == [] ==> more == tasks
    requires srs[|srs| - 1].bundle != [] ==>
      more == tasks + [FrameTask(start + |tasks|, srs[|srs| - 1].bundle, Label(srs[|srs| - 1].validTime, steps[|steps| - 1]), FramePath(start + |tasks|))]
    ensures Matches(more, srs, steps, start)
  {
    var n := |srs|;
    var srs', steps' := srs[..n - 1], steps[..n - 1];
    var shi := Shown(srs');
    var sh := Shown(srs);
    assert sh == if srs[n - 1].bundle != [] then shi + [n - 1] else shi;
    forall k | 0 <= k < |sh|
      ensures more[k] == FrameTask(start + k, srs[sh[k]].bundle, Label(srs[sh[k]].validTime, steps[sh[k]]), FramePath(start + k))
    {
      if k < |shi| {
        var j := shi[k];
        assert sh[k] == j && j < n - 1;
        assert srs[j] == srs'[j] && steps[j] == steps'[j];
        assert more[k] == tasks[k];
      }
    }
  }

  /** The tasks of a file are one per step that found some variable, in step
      order, numbered on from `start`, each carrying that step's panels and
      labelled by its valid time or its step (lines 474-477). */
  lemma {:induction false} FileFoldTasks(dss: seq<Dataset>, steps: seq<Step>, start: nat, sqrt: real -> real)
    ensures Matches(FileFold(dss, steps, start, sqrt).tasks, StepResults(dss, steps, sqrt), steps, start)
  {
    if steps != [] {
      var n := |steps|;
      var init := steps[..n - 1];
      FileFoldTasks(dss, init, start, sqrt);
      FileFoldLast(dss, steps, start, sqrt);
      FileFoldShift(dss, init, start, sqrt);
      var srs := StepResults(dss, steps, sqrt);
      assert srs[..n - 1] == StepResults(dss, init, sqrt);
      var prior := FileFold(dss, init, start, sqrt);
      assert StepOf(dss, steps[n - 1], prior.state, sqrt) == srs[n - 1];
      EmitSnoc(prior.tasks, FileFold(dss, steps, start, sqrt).tasks, srs, steps, start);
    }
  }

  /** Precipitation resolves at `step` to the raw accumulated field `raw`. */
  predicate PrecipitationIs(dss: seq<Dataset>, step: Step, raw: Grid, sqrt: real -> real) {
    var p := ResolveVariable(VariableConfig()[3], dss, step, sqrt);
    p.Some? && p.value.values == raw
  }

  /** Precipitation resolves at `step` with coordinates, so it can be drawn. */
  predicate PrecipitationDrawable(dss: seq<Dataset>, step: Step, sqrt: real -> real) {
    var p := ResolveVariable(VariableConfig()[3], dss, step, sqrt);
    p.Some? && p.value.coords.Some?
  }

  /** If Precipitation can be drawn at `step`, `bundle` holds its panel with
      the values `shown`. */
  predicate ShowsPrecipitation(dss: seq<Dataset>, step: Step, shown: Grid, bundle: seq<BundleEntry>, sqrt: real -> real) {
    var p := ResolveVariable(VariableConfig()[3], dss, step, sqrt);
    p.Some? && p.value.coords.Some? ==>
      BundleEntry("Precipitation", shown, p.value.coords.value, VariableConfig()[3].display) in bundle
  }

  /** Precipitation resolves at every step of a file to the raw accumulated
      field `raws[j]`, all of one size. */
  predicate RawPrecipitation(dss: seq<Dataset>, steps: seq<Step>, raws: seq<Grid>, sqrt: real -> real) {
    |raws| == |steps| && SameLength(raws) &&
    forall j {:trigger PrecipitationIs(dss, steps[j], raws[j], sqrt)} :: 0 <= j < |steps| ==> PrecipitationIs(dss, steps[j], raws[j], sqrt)
  }

  /** The map after one more step is the one that step left. */
  lemma FileStateNext(dss: seq<Dataset>, steps: seq<Step>, s: nat, sqrt: real -> real)
    requires s < |steps|
    ensures FileFold(dss, steps[..s + 1], 0, sqrt).state == StepOf(dss, steps[s], FileFold(dss, steps[..s], 0, sqrt).state, sqrt).state
  {
    FileFoldNext(dss, steps, s, 0, sqrt);
  }

  /** The map after a step whose Precipitation resolved to `raw`. */
  lemma PrecipStep(dss: seq<Dataset>, step: Step, prev: map<string, Grid>, raw: Grid, sqrt: real -> real)
    requires PrecipitationIs(dss, step, raw, sqrt)
    requires "Precipitation" in prev ==> |prev["Precipitation"]| == |raw|
    ensures StepOf(dss, step, prev, sqrt).state == prev["Precipitation" := raw]
  {
    StepOfState(dss, step, prev, sqrt);
    assert VariableConfig()[3].name == "Precipitation";
  }

  /** The panel of a step whose Precipitation resolved to `raw`, on a map
      that remembers `before` (none on the first step). */
  lemma PrecipPanel(dss: seq<Dataset>, step: Step, prev: map<string, Grid>, raw: Grid, shown: Grid, sqrt: real -> real)
    requires PrecipitationIs(dss, step, raw, sqrt)
    requires "Precipitation" !in prev ==> shown == ZeroGrid(|raw|)
    requires "Precipitation" in prev ==>
      |prev["Precipitation"]| == |raw| && shown == ClampedDiff(raw, prev["Precipitation"])
    ensures ShowsPrecipitation(dss, step, shown, StepOf(dss, step, prev, sqrt).bundle, sqrt)
  {
    StepOfPrecipitation(dss, step, prev, sqrt);
    assert VariableConfig()[3].name == "Precipitation";
  }

  /** After the first `j` steps the map remembers the raw field of step `j - 1`. */
  lemma {:induction false} PrecipStateAfter(dss: seq<Dataset>, steps: seq<Step>, raws: seq<Grid>, j: nat, sqrt: real -> real)
    requires RawPrecipitation(dss, steps, raws, sqrt)
    requires 0 < j <= |steps|
    ensures "Precipitation" in FileFold(dss, steps[..j], 0, sqrt).state
    ensures FileFold(dss, steps[..j], 0, sqrt).state["Precipitation"] == raws[j - 1]
  {
    FileStateNext(dss, steps, j - 1, sqrt);
    var prior := FileFold(dss, steps[..j - 1], 0, sqrt).state;
    if j == 1 {
      assert steps[..0] == [];
      assert prior == map[];
    } else {
      PrecipStateAfter(dss, steps, raws, j - 1, sqrt);
      assert |raws[j - 2]| == |raws[0]| == |raws[j - 1]|;
    }
    assert PrecipitationIs(dss, steps[j - 1], raws[j - 1], sqrt);
    PrecipStep(dss, steps[j - 1], prior, raws[j - 1], sqrt);
  }

  /** Over a file whose Precipitation resolves at every step, the map ends
      holding the last raw field, and each step that can draw it shows
      Deaccumulate's frame: zeros first, then the clamped increase over the
      step before. */
  lemma FilePrecipitation(dss: seq<Dataset>, steps: seq<Step>, raws: seq<Grid>, start: nat, sqrt: real -> real)
    requires RawPrecipitation(dss, steps, raws, sqrt)
    ensures steps != [] ==>
      "Precipitation" in FileFold(dss, steps, start, sqrt).state &&
      FileFold(dss, steps, start, sqrt).state["Precipitation"] == raws[|raws| - 1]
    ensures forall j :: 0 <= j < |steps| ==>
      ShowsPrecipitation(dss, steps[j], Deaccumulate(raws)[j], StepResults(dss, steps, sqrt)[j].bundle, sqrt)
  {
    if steps != [] {
      PrecipStateAfter(dss, steps, raws, |steps|, sqrt);
      assert steps[..|steps|] == steps;
      FileFoldShift(dss, steps, start, sqrt);
    }
    forall j | 0 <= j < |steps|
      ensures ShowsPrecipitation(dss, steps[j], Deaccumulate(raws)[j], StepResults(dss, steps, sqrt)[j].bundle, sqrt)
    {
      StepResultsAt(dss, steps, j, sqrt);
      var prior := FileFold(dss, steps[..j], 0, sqrt).state;
      DeaccumulateAt(raws, j);
      if j == 0 {
        assert steps[..0] == [];
      } else {
        PrecipStateAfter(dss, steps, raws, j, sqrt);
        assert |raws[j - 1]| == |raws[0]| == |raws[j]|;
      }
      assert PrecipitationIs(dss, steps[j], raws[j], sqrt);
      PrecipPanel(dss, steps[j], prior, raws[j], Deaccumulate(raws)[j], sqrt);
    }
  }

  /** When Precipitation can also be drawn at every step, every step makes a
      task, and task `k` shows Deaccumulate's frame `k` (Precipitation has no
      unit conversion). */
  lemma PrecipitationTasks(dss: seq<Dataset>, steps: seq<Step>, raws: seq<Grid>, start: nat, sqrt: real -> real)
    requires RawPrecipitation(dss, steps, raws, sqrt)
    requires forall j :: 0 <= j < |steps| ==> PrecipitationDrawable(dss, steps[j], sqrt)
    ensures |FileFold(dss, steps, start, sqrt).tasks| == |steps|
    ensures forall k :: 0 <= k < |steps| ==>
      ShowsPrecipitation(dss, steps[k], Deaccumulate(raws)[k], FileFold(dss, steps, start, sqrt).tasks[k].bundle, sqrt)
  {
    FilePrecipitation(dss, steps, raws, start, sqrt);
    FileFoldTasks(dss, steps, start, sqrt);
    var srs := StepResults(dss, steps, sqrt);
    forall j | 0 <= j < |srs| ensures srs[j].bundle != [] {
      assert PrecipitationDrawable(dss, steps[j], sqrt);
      assert ShowsPrecipitation(dss, steps[j], Deaccumulate(raws)[j], srs[j].bundle, sqrt);
    }
    EveryStepShown(FileFold(dss, steps, start, sqrt).tasks, srs, steps, start);
  }

  /** When every step found some variable, task `k` is step `k`'s. */
  lemma EveryStepShown(tasks: seq<FrameTask>, srs: seq<StepResult>, steps: seq<Step>, start: nat)
    requires |srs| == |steps| && Matches(tasks, srs, steps, start)
    requires forall j :: 0 <= j < |srs| ==> srs[j].bundle != []
    ensures |tasks| == |steps| && forall k :: 0 <= k < |tasks| ==> tasks[k].bundle == srs[k].bundle
  {
    var sh := Shown(srs);
    assert forall k :: 0 <= k < |sh| ==> tasks[k].bundle == srs[sh[k]].bundle;
  }

  /** A file's tasks: none when the decoder raised or found nothing. */
  function FileTasks(f: GribFile, start: nat, sqrt: real -> real): (r: seq<FrameTask>)
    ensures forall k :: 0 <= k < |r| ==> TaskAt(r[k], start + k)
    ensures f.Unreadable? || f.datasets == [] ==> r == []
  {
    match f
    case Unreadable => []
    case Decoded(dss) => if dss == [] then [] else FileFold(dss, StepList(dss), start, sqrt).tasks
  }

  /** All tasks, files in order, numbered by one running counter. */
  function PlannedTasks(files: seq<GribFile>, sqrt: real -> real): (r: seq<FrameTask>)
    ensures forall k :: 0 <= k < |r| ==> TaskAt(r[k], k)
  {
    if files == [] then []
    else
      var prior := PlannedTasks(files[..|files| - 1], sqrt);
      var more := FileTasks(files[|files| - 1], |prior|, sqrt);
      TasksConcat(prior, more);
      prior + more
  }

  /** Tasks numbered from 0 followed by tasks numbered on from there. */
  lemma TasksConcat(prior: seq<FrameTask>, more: seq<FrameTask>)
    requires forall k :: 0 <= k < |prior| ==> TaskAt(prior[k], k)
    requires forall k :: 0 <= k < |more| ==> TaskAt(more[k], |prior| + k)
    ensures forall k :: 0 <= k < |prior + more| ==> TaskAt((prior + more)[k], k)
  {
    forall k | 0 <= k < |prior + more| ensures TaskAt((prior + more)[k], k) {
      if k >= |prior| {
        assert (prior + more)[k] == more[k - |prior|];
      }
    }
  }

  /** No two tasks write the same image. */
  lemma TaskPathsDistinct(files: seq<GribFile>, sqrt: real -> real, j: nat, k: nat)
    requires j < k < |PlannedTasks(files, sqrt)|
    ensures PlannedTasks(files, sqrt)[j].outputPath != PlannedTasks(files, sqrt)[k].outputPath
  {
    var r := PlannedTasks(files, sqrt);
    assert TaskAt(r[j], j) && TaskAt(r[k], k);
    if r[j].outputPath == r[k].outputPath {
      FramePathInjective(j, k);
    }
  }

  /** `a` is `b` renumbered from `start`. */
  predicate Renumbered(a: seq<FrameTask>, b: seq<FrameTask>, start: nat) {
    |a| == |b| &&
    forall k :: 0 <= k < |a| ==> a[k] == b[k].(index := start + k, outputPath := FramePath(start + k))
  }

  /** A file's tasks depend on nothing before it but the number they start
      at: the accumulation map is fresh for every file. */
  lemma {:induction false} FileFoldShift(dss: seq<Dataset>, steps: seq<Step>, start: nat, sqrt: real -> real)
    ensures FileFold(dss, steps, start, sqrt).state == FileFold(dss, steps, 0, sqrt).state
    ensures Renumbered(FileFold(dss, steps, start, sqrt).tasks, FileFold(dss, steps, 0, sqrt).tasks, start)
  {
    if steps != [] {
      var init := steps[..|steps| - 1];
      var step := steps[|steps| - 1];
      FileFoldShift(dss, init, start, sqrt);
      var pa := FileFold(dss, init, start, sqrt);
      var pb := FileFold(dss, init, 0, sqrt);
      FileFoldLast(dss, steps, start, sqrt);
      FileFoldLast(dss, steps, 0, sqrt);
      StepBundleDistinct(dss, step, pa.state, sqrt);
      AddStepShift(pa, pb, StepOf(dss, step, pa.state, sqrt), step, start);
    }
  }

  /** The last step of a file's step loop. */
  lemma FileFoldLast(dss: seq<Dataset>, steps: seq<Step>, start: nat, sqrt: real -> real)
    requires steps != []
    ensures var prior := FileFold(dss, steps[..|steps| - 1], start, sqrt);
      var step := steps[|steps| - 1];
      Distinct(Names(StepOf(dss, step, prior.state, sqrt).bundle)) &&
      FileFold(dss, steps, start, sqrt) == AddStep(prior, StepOf(dss, step, prior.state, sqrt), step, start)
  {
    var prior := FileFold(dss, steps[..|steps| - 1], start, sqrt);
    StepBundleDistinct(dss, steps[|steps| - 1], prior.state, sqrt);
  }

  /** The fold over the first `s + 1` steps, from the fold over the first `s`. */
  lemma FileFoldNext(dss: seq<Dataset>, steps: seq<Step>, s: nat, start: nat, sqrt: real -> real)
    requires s < |steps|
    ensures var prior := FileFold(dss, steps[..s], start, sqrt);
      Distinct(Names(StepOf(dss, steps[s], prior.state, sqrt).bundle)) &&
      FileFold(dss, steps[..s + 1], start, sqrt) == AddStep(prior, StepOf(dss, steps[s], prior.state, sqrt), steps[s], start)
  {
    PrefixOfPrefix(steps, s + 1, s);
    FileFoldLast(dss, steps[..s + 1], start, sqrt);
  }

  lemma AddStepShift(pa: FileResult, pb: FileResult, sr: StepResult, step: Step, start: nat)
    requires Distinct(Names(sr.bundle))
    requires forall k :: 0 <= k < |pa.tasks| ==> TaskAt(pa.tasks[k], start + k)
    requires forall k :: 0 <= k < |pb.tasks| ==> TaskAt(pb.tasks[k], k)
    requires Renumbered(pa.tasks, pb.tasks, start)
    ensures var ra, rb := AddStep(pa, sr, step, start), AddStep(pb, sr, step, 0);
      ra.state == rb.state == sr.state && Renumbered(ra.tasks, rb.tasks, start)
  {
    if sr.bundle != [] {
      var a, b := AddStep(pa, sr, step, start).tasks, AddStep(pb, sr, step, 0).tasks;
      var n := |pa.tasks|;
      assert a == pa.tasks + [FrameTask(start + n, sr.bundle, Label(sr.validTime, step), FramePath(start + n))];
      assert b == pb.tasks + [FrameTask(n, sr.bundle, Label(sr.validTime, step), FramePath(n))];
      forall k | 0 <= k < |a| ensures a[k] == b[k].(index := start + k, outputPath := FramePath(start + k)) {
        if k < n {
          assert a[k] == pa.tasks[k] && b[k] == pb.tasks[k];
        }
      }
    }
  }

  // ---------------------------------------------------------------------
  // The loops

  /** The search of lines 354-432 for one variable. */
  method SearchVariable(cfg: CanonicalVariable, dss: seq<Dataset>, step: Step, sqrt: real -> real) returns (p: Option<Picked>)
    ensures p == ResolveVariable(cfg, dss, step, sqrt)
  {
    if cfg.name == WindSpeed {
      var src := SearchWindPair(dss);
      p := None;
      if src.Some? {
        var ds := dss[src.value.index];
        var fu := Select(ds, src.value.u, step);
        var fv := Select(ds, src.value.v, step);
        if fu.Some? && fv.Some? && |fu.value.values| == |fv.value.values| {
          p := Some(Picked(Magnitude(fu.value.values, fv.value.values, sqrt), ds.coords, fu.value.validTime));
        }
      }
    } else if cfg.isCloud {
      p := SearchStandard(dss, CloudAliases, None, step);
      if p.None? {
        var layers := GatherCloudLayers(dss, step);
        if dss != [] && dss[|dss| - 1].dataVars != [] {
          p := LayerMax(layers);
        }
      }
    } else {
      p := SearchStandard(dss, cfg.aliases, cfg.requiredStepType, step);
    }
  }

  /** The loop over the variables at one step (lines 348-472). */
  method ProcessStep(cfgs: seq<CanonicalVariable>, dss: seq<Dataset>, step: Step, prev: map<string, Grid>, sqrt: real -> real)
    returns (r: StepResult)
    ensures r == StepFold(cfgs, Resolution(dss, step, sqrt), prev)
  {
    r := StepResult([], None, prev);
    for c := 0 to |cfgs|
      invariant r == StepFold(cfgs[..c], Resolution(dss, step, sqrt), prev)
    {
      PrefixOfPrefix(cfgs, c + 1, c);
      r := VisitVariable(r, cfgs[c], dss, step, sqrt);
    }
    assert cfgs[..|cfgs|] == cfgs;
  }

  /** The body of the variable loop (lines 354-472) for one variable. */
  method VisitVariable(prior: StepResult, cfg: CanonicalVariable, dss: seq<Dataset>, step: Step, sqrt: real -> real)
    returns (r: StepResult)
    ensures r == StepNext(prior, cfg, ResolveVariable(cfg, dss, step, sqrt))
  {
    var bundle, validTime, state := prior.bundle, prior.validTime, prior.state;
    var picked := SearchVariable(cfg, dss, step, sqrt);
    if picked.Some? {
      var values := picked.value.values;
      var ok := true;
      if cfg.isAccum {
        var current := values;
        if cfg.name in state {
          if |state[cfg.name]| == |current| {
            values := ClampedDiff(current, state[cfg.name]);
            state := state[cfg.name := current];
          } else {
            ok := false;
          }
        } else {
          values := ZeroGrid(|current|);
          state := state[cfg.name := current];
        }
      }
      if ok {
        values := ApplyConversion(cfg.conversion, values);
        if picked.value.coords.Some? {
          bundle := bundle + [BundleEntry(cfg.name, values, picked.value.coords.value, cfg.display)];
          if validTime.None? {
            validTime := TrimTime(picked.value.validTime);
          }
        }
      }
    }
    r := StepResult(bundle, validTime, state);
  }

  /** The body of the file loop (lines 316-477) for one file. */
  method ProcessFile(f: GribFile, start: nat, sqrt: real -> real) returns (tasks: seq<FrameTask>)
    ensures tasks == FileTasks(f, start, sqrt)
  {
    if f.Unreadable? || f.datasets == [] {
      return [];
    }
    var steps := EnumerateSteps(f.datasets);
    tasks := ProcessSteps(f.datasets, steps, start, sqrt);
  }

  /** The step loop of lines 343-477, the accumulation map starting empty. */
  method ProcessSteps(dss: seq<Dataset>, steps: seq<Step>, start: nat, sqrt: real -> real) returns (tasks: seq<FrameTask>)
    ensures tasks == FileFold(dss, steps, start, sqrt).tasks
  {
    var res := FileResult([], map[]);
    for s := 0 to |steps|
      invariant res == FileFold(dss, steps[..s], start, sqrt)
    {
      var sr := ProcessConfiguredStep(dss, steps[s], res.state, sqrt);
      FileFoldNext(dss, steps, s, start, sqrt);
      res := VisitStep(res, sr, steps[s], start);
    }
    assert steps[..|steps|] == steps;
    tasks := res.tasks;
  }

  /** The variable loop over the configured variables. */
  method ProcessConfiguredStep(dss: seq<Dataset>, step: Step, prev: map<string, Grid>, sqrt: real -> real) returns (r: StepResult)
    ensures r == StepOf(dss, step, prev, sqrt) && Distinct(Names(r.bundle))
  {
    r := ProcessStep(VariableConfig(), dss, step, prev, sqrt);
    StepBundleDistinct(dss, step, prev, sqrt);
  }

  /** The end of the step loop's body: a task numbered by the running
      counter when any variable was found, and the accumulation map moved on. */
  method VisitStep(prior: FileResult, sr: StepResult, step: Step, start: nat) returns (r: FileResult)
    requires Distinct(Names(sr.bundle))
    requires forall k :: 0 <= k < |prior.tasks| ==> TaskAt(prior.tasks[k], start + k)
    ensures r == AddStep(prior, sr, step, start)
  {
    var tasks := prior.tasks;
    if sr.bundle != [] {
      var frameCounter := start + |tasks|;
      var task := FrameTask(frameCounter, sr.bundle, Label(sr.validTime, step), FramePath(frameCounter));
      tasks := tasks + [task];
      assert AddStep(prior, sr, step, start).tasks == tasks;
    }
    r := FileResult(tasks, sr.state);
  }

  /** The file loop of lines 313-487, with the running frame counter. */
  method AssembleTasks(files: seq<GribFile>, sqrt: real -> real) returns (tasks: seq<FrameTask>)
    ensures tasks == PlannedTasks(files, sqrt)
  {
    tasks := [];
    var frameCounter := 0;
    var i := 0;
    while i < |files|
      invariant 0 <= i <= |files|
      invariant tasks == PlannedTasks(files[..i], sqrt) && frameCounter == |tasks|
    {
      PrefixOfPrefix(files, i + 1, i);
      var fileTasks := ProcessFile(files[i], frameCounter, sqrt);
      tasks := tasks + fileTasks;
      frameCounter := frameCounter + |fileTasks|;
      i := i + 1;
    }
    assert files[..i] == files;
  }
}
