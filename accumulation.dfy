/** De-accumulation of an accumulated field (visualize_final.py:434-448).

    The decoder hands over precipitation accumulated since the start of the
    forecast; the frames show what fell since the previous step. The previous
    raw field of each display variable is remembered in a map that lives for
    one file. */
module Accumulation {
  import opened Common
  import opened Datasets

  /** What one accumulation step yields: the field to display (None when the
      subtraction fails because the shapes differ) and the remembered fields
      afterwards. */
  datatype Outcome = Outcome(delta: Option<Grid>, state: map<string, Grid>)

  /** One accumulated variable at one step. The first occurrence in a file
      shows zeros; later ones show the clamped increase over the remembered
      field. The raw field is remembered, not the difference. A shape
      mismatch raises before the map is written, so the map is unchanged. */
  function AccumStep(prev: map<string, Grid>, name: string, cur: Grid): (r: Outcome)
    ensures name !in prev ==> r.delta == Some(ZeroGrid(|cur|)) && r.state == prev[name := cur]
    ensures name in prev && |prev[name]| != |cur| ==> r.delta.None? && r.state == prev
    ensures name in prev && |prev[name]| == |cur| ==>
      r.delta == Some(ClampedDiff(cur, prev[name])) && r.state == prev[name := cur]
    ensures r.delta.Some? ==> |r.delta.value| == |cur| && forall i :: 0 <= i < |cur| ==> r.delta.value[i] >= 0.0
    ensures forall other :: other != name ==>
      (other in r.state <==> other in prev) && (other in prev ==> r.state[other] == prev[other])
  {
    if name !in prev then Outcome(Some(ZeroGrid(|cur|)), prev[name := cur])
    else if |prev[name]| != |cur| then Outcome(None, prev)
    else Outcome(Some(ClampedDiff(cur, prev[name])), prev[name := cur])
  }

  /** The displayed series for a run of accumulated fields of one shape seen
      from a fresh file: zeros, then the clamped step-to-step increases. */
  function Deaccumulate(series: seq<Grid>): (r: seq<Grid>)
    requires SameLength(series)
    ensures |r| == |series|
    ensures forall t :: 0 <= t < |r| ==> |r[t]| == |series[t]|
  {
    if |series| <= 1 then
      if series == [] then [] else [ZeroGrid(|series[0]|)]
    else
      var init := series[..|series| - 1];
      assert SameLength(init);
      Deaccumulate(init) + [ClampedDiff(series[|series| - 1], series[|series| - 2])]
  }

  /** Feeding a run of fields through AccumStep one at a time. */
  function Feed(prev: map<string, Grid>, name: string, series: seq<Grid>): (r: (seq<Option<Grid>>, map<string, Grid>))
    ensures |r.0| == |series|
  {
    if series == [] then ([], prev)
    else
      var (ds, st) := Feed(prev, name, series[..|series| - 1]);
      var o := AccumStep(st, name, series[|series| - 1]);
      (ds + [o.delta], o.state)
  }

  function Wrap(gs: seq<Grid>): (r: seq<Option<Grid>>)
    ensures |r| == |gs| && forall t :: 0 <= t < |gs| ==> r[t] == Some(gs[t])
  {
    seq(|gs|, t requires 0 <= t < |gs| => Some(gs[t]))
  }

  /** Stepping the remembered map through a file reproduces Deaccumulate,
      and leaves the last raw field remembered. */
  lemma {:induction false} FeedIsDeaccumulate(prev: map<string, Grid>, name: string, series: seq<Grid>)
    requires name !in prev && series != [] && SameLength(series)
    ensures Feed(prev, name, series).0 == Wrap(Deaccumulate(series))
    ensures name in Feed(prev, name, series).1 && Feed(prev, name, series).1[name] == series[|series| - 1]
  {
    if |series| > 1 {
      var init := series[..|series| - 1];
      assert SameLength(init);
      FeedIsDeaccumulate(prev, name, init);
      assert init[|init| - 1] == series[|series| - 2];
    }
  }

  /** Frame `j` of the displayed series: zeros for the first frame, the
      clamped increase over the frame before it otherwise. */
  lemma {:induction false} DeaccumulateAt(series: seq<Grid>, j: nat)
    requires SameLength(series) && j < |series|
    ensures j == 0 ==> Deaccumulate(series)[j] == ZeroGrid(|series[0]|)
    ensures j > 0 ==> Deaccumulate(series)[j] == ClampedDiff(series[j], series[j - 1])
  {
    if j < |series| - 1 {
      var init := series[..|series| - 1];
      assert SameLength(init);
      DeaccumulateAt(init, j);
      assert Deaccumulate(series)[j] == Deaccumulate(init)[j];
    }
  }

  /** The displayed amount at cell `i`, summed over the frames. */
  function ColumnSum(gs: seq<Grid>, i: nat): real
    requires forall t :: 0 <= t < |gs| ==> i < |gs[t]|
  {
    if gs == [] then 0.0 else ColumnSum(gs[..|gs| - 1], i) + gs[|gs| - 1][i]
  }

  predicate NonDecreasingAt(series: seq<Grid>, i: nat)
    requires forall t :: 0 <= t < |series| ==> i < |series[t]|
  {
    forall t :: 0 < t < |series| ==> series[t - 1][i] <= series[t][i]
  }

  /** Where the accumulation never resets, the frames add up to the total
      that fell between the first and last step. */
  lemma {:induction false} DeaccumulateTelescopes(series: seq<Grid>, i: nat)
    requires series != [] && SameLength(series) && i < |series[0]|
    requires NonDecreasingAt(series, i)
    ensures ColumnSum(Deaccumulate(series), i) == series[|series| - 1][i] - series[0][i]
  {
    var d := Deaccumulate(series);
    var n := |series|;
    if n == 1 {
      assert d[..0] == [];
      assert d[0][i] == 0.0;
    } else {
      var init := series[..n - 1];
      assert SameLength(init);
      assert NonDecreasingAt(init, i);
      DeaccumulateTelescopes(init, i);
      assert d[..n - 1] == Deaccumulate(init);
      assert d[n - 1] == ClampedDiff(series[n - 1], series[n - 2]);
      assert series[n - 2][i] <= series[n - 1][i];
      assert d[n - 1][i] == series[n - 1][i] - series[n - 2][i];
      assert init[0] == series[0] && init[n - 2] == series[n - 2];
    }
  }

  /** A single cell accumulating 0, 5, 5, 12 is shown as 0, 5, 0, 7. */
  lemma RisingExample()
    ensures Deaccumulate([[0.0], [5.0], [5.0], [12.0]]) == [[0.0], [5.0], [0.0], [7.0]]
  {
    var s := [[0.0], [5.0], [5.0], [12.0]];
    assert s[..3] == [[0.0], [5.0], [5.0]] && s[..3][..2] == [[0.0], [5.0]] && s[..3][..2][..1] == [[0.0]];
    assert ZeroGrid(1) == [0.0];
    assert Deaccumulate(s[..3][..2][..1]) == [[0.0]];
    assert ClampedDiff([5.0], [0.0]) == [5.0];
    assert ClampedDiff([5.0], [5.0]) == [0.0];
    assert ClampedDiff([12.0], [5.0]) == [7.0];
    assert Deaccumulate(s[..3][..2]) == [[0.0], [5.0]];
    assert Deaccumulate(s[..3]) == [[0.0], [5.0], [0.0]];
  }

  /** A drop (10 then 4, a reset of the accumulation) is shown as 0, 0. */
  lemma ResetExample()
    ensures Deaccumulate([[10.0], [4.0]]) == [[0.0], [0.0]]
  {
    var s := [[10.0], [4.0]];
    assert s[..1] == [[10.0]];
    assert ZeroGrid(1) == [0.0];
    assert Deaccumulate(s[..1]) == [[0.0]];
    assert ClampedDiff([4.0], [10.0]) == [0.0];
  }
}
