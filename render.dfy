/** The frame worker and the collection of its results (visualize_final.py,
    `render_frame_task`, lines 152-273, and lines 493-497). Drawing itself is
    outside the model: whether the plotting back end raises is an input. */
module Render {
  import opened Common
  import opened Datasets
  import opened Assembly

  /** Lines 182-188: at most two panels per row, as many rows as needed. */
  function Layout(n: nat): (r: (nat, nat))
    requires n > 0
    ensures var (rows, cols) := r;
      cols == (if n < 2 then n else 2) && cols > 0 &&
      rows * cols >= n && (rows - 1) * cols < n
  {
    var cols := if n < 2 then n else 2;
    var rows := (n + cols - 1) / cols;
    assert rows * cols >= n && (rows - 1) * cols < n by {
      DivBounds(n + cols - 1, cols);
    }
    (rows, cols)
  }

  lemma DivBounds(a: nat, b: nat)
    requires b > 0
    ensures (a / b) * b <= a < (a / b) * b + b
  {
  }

  /** The JSON document written beside each image. */
  datatype FrameMetadata = FrameMetadata(frameIndex: nat, validTime: string, variables: seq<string>, imagePath: string)

  datatype Rendered = Rendered(imagePath: string, metadataPath: string, metadata: FrameMetadata)

  /** `render_frame_task`: nothing for an empty bundle or when drawing or
      writing raises; otherwise the image path, where the metadata goes, and
      what it says. */
  function RenderFrame(task: FrameTask, backendFails: bool): (r: Option<Rendered>)
    ensures r.None? <==> task.bundle == [] || backendFails
    ensures r.Some? ==> r.value.imagePath == task.outputPath
    ensures r.Some? ==>
      r.value.metadata == FrameMetadata(task.index, task.timeLabel, Names(task.bundle), Basename(task.outputPath))
    ensures r.Some? ==> r.value.metadataPath == ReplaceAll(task.outputPath, ".png", "_metadata.json")
  {
    if task.bundle == [] || backendFails then None
    else
      var path := task.outputPath;
      Some(Rendered(path, ReplaceAll(path, ".png", "_metadata.json"),
        FrameMetadata(task.index, task.timeLabel, Names(task.bundle), Basename(path))))
  }

  /** The stem of frame `i`'s image, without the extension. */
  function FrameStem(i: nat): string {
    FramesDir + "/" + "frame_" + ZeroPad(i, 4)
  }

  /** The metadata of frame `i` is written beside its image as
      `frame_XXXX_metadata.json`, and records the image by its file name. */
  lemma FrameFiles(i: nat)
    ensures FramePath(i) == FrameStem(i) + ".png"
    ensures ReplaceAll(FramePath(i), ".png", "_metadata.json") == FrameStem(i) + "_metadata.json"
    ensures Basename(FramePath(i)) == "frame_" + ZeroPad(i, 4) + ".png"
  {
    var digits := ZeroPad(i, 4);
    var stem := FrameStem(i);
    assert FramePath(i) == stem + ".png";
    assert '.' !in stem by {
      forall k | 0 <= k < |stem| ensures stem[k] != '.' {
        if k >= |FramesDir + "/" + "frame_"| {
          assert stem[k] == digits[k - |FramesDir + "/" + "frame_"|];
        }
      }
    }
    ReplaceSingleSuffix(stem, ".png", "_metadata.json");
    var name := "frame_" + digits + ".png";
    assert '/' !in name by {
      forall k | 0 <= k < |name| ensures name[k] != '/' {
        if 6 <= k < 6 + |digits| {
          assert name[k] == digits[k - 6];
        }
      }
    }
    BasenameOfJoin(FramesDir, name);
  }

  /** Lines 493-497: the successful results, in task order (the pool hands
      results back in the order of the tasks). */
  function Generated(results: seq<Option<Rendered>>): (r: seq<string>)
    ensures |r| <= |results|
  {
    if results == [] then []
    else
      var prior := Generated(results[..|results| - 1]);
      var last := results[|results| - 1];
      if last.Some? && last.value.imagePath != "" then prior + [last.value.imagePath] else prior
  }

  method CollectFrames(results: seq<Option<Rendered>>) returns (frames: seq<string>)
    ensures frames == Generated(results)
  {
    frames := [];
    var i := 0;
    while i < |results|
      invariant 0 <= i <= |results|
      invariant frames == Generated(results[..i])
    {
      assert results[..i + 1][..i] == results[..i];
      var result := results[i];
      if result.Some? && result.value.imagePath != "" {
        frames := frames + [result.value.imagePath];
      }
      i := i + 1;
    }
    assert results[..i] == results;
  }

  /** Every task rendered, `fails[k]` saying whether the back end raised on task `k`. */
  function RenderAll(tasks: seq<FrameTask>, fails: seq<bool>): (r: seq<Option<Rendered>>)
    requires |fails| == |tasks|
    ensures |r| == |tasks| && forall k :: 0 <= k < |tasks| ==> r[k] == RenderFrame(tasks[k], fails[k])
  {
    seq(|tasks|, k requires 0 <= k < |tasks| => RenderFrame(tasks[k], fails[k]))
  }

  /** The image paths of the tasks that did not fail, in task order. */
  function Survivors(tasks: seq<FrameTask>, fails: seq<bool>): seq<string>
    requires |fails| == |tasks|
  {
    if tasks == [] then []
    else
      var prior := Survivors(tasks[..|tasks| - 1], fails[..|fails| - 1]);
      if fails[|fails| - 1] then prior else prior + [tasks[|tasks| - 1].outputPath]
  }

  /** A failed frame is dropped and the others keep their order and names;
      nothing is renumbered. */
  lemma {:induction false} GeneratedAreSurvivors(tasks: seq<FrameTask>, fails: seq<bool>)
    requires |fails| == |tasks|
    requires forall k :: 0 <= k < |tasks| ==> tasks[k].bundle != [] && tasks[k].outputPath != ""
    ensures Generated(RenderAll(tasks, fails)) == Survivors(tasks, fails)
  {
    if tasks != [] {
      var n := |tasks|;
      var ti, fi := tasks[..n - 1], fails[..n - 1];
      assert forall k :: 0 <= k < |ti| ==> ti[k] == tasks[k];
      GeneratedAreSurvivors(ti, fi);
      RenderAllSnoc(tasks, fails);
      SurvivorsSnoc(tasks, fails);
      GeneratedSnoc(RenderAll(ti, fi), tasks[n - 1], fails[n - 1]);
    }
  }

  lemma RenderAllSnoc(tasks: seq<FrameTask>, fails: seq<bool>)
    requires |fails| == |tasks| > 0
    ensures var n := |tasks|;
      RenderAll(tasks, fails) ==
        RenderAll(tasks[..n - 1], fails[..n - 1]) + [RenderFrame(tasks[n - 1], fails[n - 1])]
  {
    var n := |tasks|;
    var a, b := RenderAll(tasks, fails), RenderAll(tasks[..n - 1], fails[..n - 1]);
    assert forall k :: 0 <= k < n - 1 ==> a[k] == b[k];
  }

  lemma SurvivorsSnoc(tasks: seq<FrameTask>, fails: seq<bool>)
    requires |fails| == |tasks| > 0
    ensures var n := |tasks|;
      Survivors(tasks, fails) ==
        Survivors(tasks[..n - 1], fails[..n - 1]) + (if fails[n - 1] then [] else [tasks[n - 1].outputPath])
  {
    var n := |tasks|;
    if fails[n - 1] {
      assert Survivors(tasks[..n - 1], fails[..n - 1]) + [] == Survivors(tasks[..n - 1], fails[..n - 1]);
    }
  }

  /** One more rendered task adds its image path exactly when it did not fail. */
  lemma GeneratedSnoc(prior: seq<Option<Rendered>>, task: FrameTask, fail: bool)
    requires task.bundle != [] && task.outputPath != ""
    ensures Generated(prior + [RenderFrame(task, fail)]) ==
      Generated(prior) + (if fail then [] else [task.outputPath])
  {
    var rs := prior + [RenderFrame(task, fail)];
    assert rs[..|rs| - 1] == prior;
  }

  /** Five frames whose fourth fails to draw yield the other four, in order. */
  lemma FourthFrameFails(files: seq<GribFile>, sqrt: real -> real)
    requires |PlannedTasks(files, sqrt)| == 5
    ensures var t := PlannedTasks(files, sqrt);
      Generated(RenderAll(t, [false, false, false, true, false])) ==
        [FramePath(0), FramePath(1), FramePath(2), FramePath(4)]
  {
    var t := PlannedTasks(files, sqrt);
    var fails := [false, false, false, true, false];
    forall k | 0 <= k < 5 ensures t[k].bundle != [] && t[k].outputPath != "" {
      assert TaskAt(t[k], k);
    }
    GeneratedAreSurvivors(t, fails);
    SurvivorsOfFive(t);
    assert TaskAt(t[0], 0) && TaskAt(t[1], 1) && TaskAt(t[2], 2) && TaskAt(t[4], 4);
  }

  lemma SurvivorsOfFive(t: seq<FrameTask>)
    requires |t| == 5
    ensures Survivors(t, [false, false, false, true, false]) ==
      [t[0].outputPath, t[1].outputPath, t[2].outputPath, t[4].outputPath]
  {
    var fails := [false, false, false, true, false];
    var p := [t[0].outputPath, t[1].outputPath, t[2].outputPath];
    assert Survivors(t[..1], fails[..1]) == p[..1] by {
      assert t[..1][..0] == [] && fails[..1][..0] == [];
    }
    assert Survivors(t[..2], fails[..2]) == p[..2] by {
      assert t[..2][..1] == t[..1] && fails[..2][..1] == fails[..1];
    }
    assert Survivors(t[..3], fails[..3]) == p by {
      assert t[..3][..2] == t[..2] && fails[..3][..2] == fails[..2];
    }
    assert Survivors(t[..4], fails[..4]) == p by {
      assert t[..4][..3] == t[..3] && fails[..4][..3] == fails[..3];
    }
    assert t[..4] == t[..|t| - 1] && fails[..4] == fails[..|fails| - 1];
  }
}
