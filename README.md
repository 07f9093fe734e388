# MSM GPV forecast pipeline: a verified model

This project is a Dafny model of the data logic of a small weather-map toolchain for the Japan Meteorological Agency's Meso-Scale Model (MSM) surface forecasts. The toolchain has four parts, and each is a module here:

- **The frame renderer** (`visualize_final.py`). It reads every GRIB file and enumerates the forecast steps of each file. At each step it resolves six display variables from the file's datasets:
  - a standard alias search, with an optional step-type filter;
  - the u/v wind-pair magnitude;
  - cloud cover by the standard search, followed by a cloud-layer fallback.

  It then turns cumulative precipitation into per-step amounts, applies the Kelvin and pascal conversions and packs each non-empty set of panels into a frame task with a running frame number. A worker renders each task and writes its metadata. The results are collected in task order, and failed frames are dropped. The model is in the modules `FinalConfig`, `Resolver`, `Accumulation`, `Assembly` and `Render`, on top of `Common` and `Datasets`.
- **The station time series** (`station_timeseries.py`), module `Station`. For seven stations it finds the nearest grid point, extracts six parameters per dataset and extends the time and value lists together. It also computes each parameter's y-axis range and builds the JSON export.
- **The older renderer** (`visualize_msm.py`), module `MsmLegacy`. It merges the datasets of a file first-wins, renaming `unknown` by its step type, and derives wind speed. Each label is bound to a variable once per file, and frames are saved and counted.
- **The downloader** (`download_msm.py`), module `Download`. It walks the archive's year, month and day directories to the greatest entry of each, then recognises the MSM surface file names and groups them by initial time. It decides whether the local data is current, what to clean and what to fetch.

The form follows the source. Code that loops and updates state is modelled as methods with loop invariants. Each method is proved equal to a specification function, and the properties are proved about those functions as lemmas and contracts. Examples are the task loop, the accumulation map, the merge loop, list extension, the `param_ranges` dictionary and the downloader's grouping loop. Pure code is modelled as functions.

Several things are parameters of the model:

- the square root (`sqrt: real -> real`, with `IsSqrt` where a lemma needs it);
- whether the plotting back end raises;
- the web pages (`fetch`);
- directory listings, the metadata file, and whether a removal or a transfer fails.

The decoder's output is a value: a file is `Unreadable`, or a sequence of datasets, each with ordered data variables, per-step fields, an optional step list, a time and coordinates.

The variable loop of one step (`Assembly.StepFold`) takes how each configured variable resolves at that step as a function `resolve`. Its lemmas hold for any resolution, and `Assembly.StepOf` instantiates it with `Assembly.ResolveVariable`.

The model follows the code as written, including where it behaves differently from what it appears to intend:

- The standard search is dataset-outer and alias-inner (`visualize_final.py:387-409`): the first dataset holding any accepted alias wins, not the first alias found in any dataset.
- Cloud Cover in the frame pipeline is the standard search over `tcc`, `lcc`, `mcc` and `hcc`, the layer-maximum fallback included as written; that fallback is unreachable. The corrected rule is modelled beside it but not used by the pipeline. See Findings.

## Model

| member | source | states |
|---|---|---|
| Common.DigitChar | visualize_final.py:475 | the character is a decimal digit whose value is the given number |
| Common.NatToString | visualize_final.py:475-476 | `str(n)` is a non-empty digit string with no leading zero (one digit below 10) |
| Common.NatToStringRoundTrip | visualize_final.py:475-476 | reading `str(n)` back as a decimal gives `n` |
| Common.LeadingZerosValue | visualize_final.py:475 | prefixing zeros keeps a digit string's value |
| Common.Zeros | visualize_final.py:475 | the padding is exactly `k` '0' characters |
| Common.ZerosValue | visualize_final.py:475 | a run of zeros has value 0 |
| Common.ZeroPad | visualize_final.py:475 | `{n:04d}` is a digit string of length max(width, digits of n) whose value is `n` |
| Common.ZeroPadInjective | visualize_final.py:475 | two numbers with the same padded text are equal |
| Common.Basename | visualize_final.py:260 | `os.path.basename` is the suffix after the last '/', containing no '/' |
| Common.BasenameOfJoin | visualize_final.py:260 | the basename of `join(dir, name)` is `name` when `name` has no '/' |
| Common.BeforeFirst | visualize_final.py:468 | `s.split('.')[0]` is a prefix of `s` without the separator, and is followed by it when shorter |
| Common.BeforeFirstNoSeparator | visualize_final.py:468 | a text without the separator is returned whole |
| Common.ReplaceSingleSuffix | visualize_final.py:263 | `.replace('.png', '_metadata.json')` on a name with one `.png` at the end swaps that suffix only |
| Common.StrLessIrreflexive | download_msm.py:87 | Python string order is irreflexive |
| Common.StrLessTotal | download_msm.py:87 | Python string order is total |
| Common.StrLessTransitive | download_msm.py:87 | Python string order is transitive |
| Common.StrLessAsymmetric | download_msm.py:87 | Python string order is asymmetric |
| Datasets.Lookup | visualize_final.py:389 | `name in ds.data_vars` exactly when some variable has that name; the result is that variable |
| Datasets.Select | visualize_final.py:392-401 | `sel(step=step)` succeeds iff the variable exists, the dataset has the step, and a field is stored for it |
| Datasets.ZeroGrid | visualize_final.py:445 | `np.zeros_like`: same size, every cell 0 |
| Datasets.ClampedDiff | visualize_final.py:439-441 | each cell is `cur - prev` when non-negative, else 0; every cell is ≥ 0 |
| Datasets.PointwiseMax | visualize_final.py:426 | each cell is the larger of the two inputs |
| Datasets.MaxOfLayers | visualize_final.py:426 | `np.maximum.reduce`: each cell bounds every layer's cell and equals one of them |
| Datasets.Magnitude | visualize_final.py:377 | each cell is the speed of (u, v) at that cell |
| Datasets.NormIsSpeed | visualize_final.py:377 | with a true square root the speed is non-negative and squares to u² + v² |
| Datasets.Shift | visualize_final.py:114 | `x - 273.15` subtracts the constant from every cell |
| Datasets.Scale | visualize_final.py:121 | `x / 100.0` divides every cell |
| Datasets.SumShift | visualize_final.py:114 | shifting every cell lowers the sum by size × constant |
| Datasets.SumScale | visualize_final.py:121 | scaling every cell scales the sum |
| Datasets.MeanShift | visualize_final.py:114 | shifting lowers the mean by the constant |
| Datasets.MeanScale | visualize_final.py:121 | scaling divides the mean |
| FinalConfig.VariableConfig | visualize_final.py:108-150 | six variables in order, with distinct names and non-empty aliases; only Precipitation is accumulated and it requires step type `accum`; only Cloud Cover uses the cloud rule; Wind Speed is fifth; vmin < vmax |
| FinalConfig.ApplyConversion | visualize_final.py:114-121 | temperature drops 273.15 iff the mean exceeds 200, pressure is divided by 100 iff the mean exceeds 80000, others unchanged; size kept |
| FinalConfig.TemperatureConversionIdempotent | visualize_final.py:114 | converting a converted temperature field changes nothing |
| FinalConfig.PressureConversionIdempotent | visualize_final.py:121 | converting a converted pressure field changes nothing |
| FinalConfig.TemperatureExamples | visualize_final.py:114 | 300 K becomes 26.85; 26.85 stays |
| Resolver.Insert | visualize_final.py:331 | adding a value to an ascending duplicate-free list keeps it so and adds exactly that value |
| Resolver.SortedUnique | visualize_final.py:336 | `sorted(set(xs))` is strictly ascending with the same members |
| Resolver.StepValues | visualize_final.py:329-331 | a value is collected iff some dataset with a step coordinate has it |
| Resolver.StepList | visualize_final.py:328-336 | the steps are strictly ascending; they are the union of the datasets' steps, or `[0]` when there are none |
| Resolver.SortedListUnique | visualize_final.py:336 | two strictly ascending lists with the same members are equal |
| Resolver.StepListIsTheSortedUnion | visualize_final.py:328-336 | any strictly ascending enumeration of the union is the step list |
| Resolver.EnumerateSteps | visualize_final.py:328-336 | the loop yields the step list |
| Resolver.AddSteps | visualize_final.py:331 | `all_steps.update(vals)` gives the sorted union with the new values |
| Resolver.AliasFrom | visualize_final.py:388-405 | the first alias position from `from` that the dataset accepts, or none iff no later alias is accepted |
| Resolver.DatasetFrom | visualize_final.py:387-409 | the first dataset position from `from` accepting some alias, or none iff none does |
| Resolver.Qualifies | visualize_final.py:389-401 | an accepted alias is present and the dataset has the step; with no step-type filter it is accepted iff `sel` succeeds; with one, the variable carries that step type |
| Resolver.ResolveStandard | visualize_final.py:387-432 | nothing iff no (dataset, alias) pair qualifies; otherwise the field of a qualifying pair with no qualifying pair in an earlier dataset or an earlier alias of its dataset |
| Resolver.NoDatasetAccepts | visualize_final.py:387-409 | when no dataset is found, no pair qualifies |
| Resolver.FirstAcceptingPair | visualize_final.py:387-409 | the dataset found has a first accepted alias, and it precedes every other |
| Resolver.SearchStandard | visualize_final.py:387-409 | the nested loops with their breaks compute the standard search |
| Resolver.StandardHit | visualize_final.py:387-409 | the first qualifying pair in dataset-then-alias order decides the result |
| Resolver.FirstDataset | visualize_final.py:387-409 | the first dataset with a qualifying alias is the one found |
| Resolver.FirstAlias | visualize_final.py:388-405 | the first qualifying alias of a dataset is the one found |
| Resolver.WindPair | visualize_final.py:361-371 | nothing iff no dataset offers a pair; otherwise the first dataset offering one, with `u10`/`v10` preferred within it |
| Resolver.PairIn | visualize_final.py:363-371 | no pair iff neither `u10`/`v10` nor `u`/`v` are both present; both names of a pair are present; `u10`/`v10` is preferred |
| Resolver.Pairs | visualize_final.py:361-371 | the pair each dataset offers, in order |
| Resolver.FirstPair | visualize_final.py:361-371 | the first offered pair at or after `from`, or nothing iff none is offered |
| Resolver.SearchWindPair | visualize_final.py:361-371 | the loop with its breaks yields the first pair |
| Resolver.WindPairIsFirst | visualize_final.py:361-371 | the first dataset with a pair is the one chosen |
| Resolver.ResolveWind | visualize_final.py:373-383 | a value iff the chosen dataset has both components at the step; it is their magnitude on that dataset's coordinates, and no later dataset is tried |
| Resolver.WindSpeedExample | visualize_final.py:377 | u = 3, v = 4 give 5 |
| Resolver.PickAll | visualize_final.py:415-422 | empty iff no named layer has the step; coordinates are the dataset's |
| Resolver.CollectLayers | visualize_final.py:413-422 | empty iff no dataset holds any of lcc/mcc/hcc at the step |
| Resolver.GatherCloudLayers | visualize_final.py:413-422 | the loops collect exactly those layers |
| Resolver.PickLayers | visualize_final.py:415-422 | the inner loop collects the layers of one dataset |
| Resolver.CollectLayersNext | visualize_final.py:413-422 | one more dataset appends its layers |
| Resolver.PickAllNext | visualize_final.py:415-422 | one more layer name appends that layer when the dataset has it at the step |
| Resolver.LayerValues | visualize_final.py:420 | the grids of the collected layers, in order |
| Resolver.LayerMax | visualize_final.py:424-430 | a value iff there is a layer and all have one size; each cell bounds every layer and equals one of them; coordinates of the last layer |
| Resolver.CloudFallback | visualize_final.py:411-430 | the fallback yields something only when layers were collected and the last dataset has variables |
| Resolver.ResolveCloudAsWritten | visualize_final.py:385-432 | as written, Cloud Cover is exactly the standard search over tcc/lcc/mcc/hcc; this is what the frame pipeline uses |
| Resolver.CloudFallbackNeverRuns | visualize_final.py:411-432 | when the standard search over tcc/lcc/mcc/hcc finds nothing, no layer is collected and the fallback gives nothing |
| Resolver.CloudAsWrittenTakesFirstLayer | visualize_final.py:387-432 | with lcc 20 % and mcc 50 %, the code as written shows 20 % |
| Resolver.CloudCorrectedTakesMaxLayer | visualize_final.py:411-430 | the corrected rule shows 50 % for the same dataset |
| Resolver.TwoLayerNoTotal | visualize_final.py:387-409 | that dataset has no total cloud cover |
| Resolver.TwoLayerMax | visualize_final.py:426 | the maximum of the two layers is 50 % |
| Resolver.TwoLayerSelections | visualize_final.py:401 | which layers that dataset holds at step 0 |
| Resolver.TwoLayerCollected | visualize_final.py:413-422 | the layers collected from it are lcc then mcc |
| Resolver.ResolveCloud | visualize_final.py:411-432 | the corrected rule of Findings, not used by the pipeline: total cloud when some dataset has it at the step, otherwise the maximum of the collected layers |
| Resolver.TotalCloudFound | visualize_final.py:387-409 | the total-cloud search fails iff no dataset holds tcc at the step |
| Accumulation.AccumStep | visualize_final.py:435-448 | first sighting: all zeros and the raw grid stored; later: the clamped difference and the raw grid stored; a size mismatch stores nothing and shows nothing; other names untouched |
| Accumulation.Deaccumulate | visualize_final.py:435-448 | one displayed grid per accumulated grid, each of the same size |
| Accumulation.DeaccumulateAt | visualize_final.py:435-448 | the first displayed grid is zeros of the raw grid's size; each later one is the clamped difference from the previous raw grid |
| Accumulation.Feed | visualize_final.py:341-448 | feeding a run of grids yields one outcome per grid |
| Accumulation.Wrap | visualize_final.py:435-448 | every displayed grid is present |
| Accumulation.FeedIsDeaccumulate | visualize_final.py:435-448 | stepping the map from empty gives the de-accumulated series, and the map ends holding the last raw grid |
| Accumulation.DeaccumulateTelescopes | visualize_final.py:435-448 | where the total never falls, the displayed amounts add up to last minus first |
| Accumulation.RisingExample | visualize_final.py:435-448 | 0, 5, 5, 12 are shown as 0, 5, 0, 7 |
| Accumulation.ResetExample | visualize_final.py:439-441 | a drop from 10 to 4 is shown as 0, 0 |
| Assembly.FramePathInjective | visualize_final.py:475 | `Assembly.FramePath`, via this lemma: two frame numbers with one path are equal |
| Assembly.ResolveVariable | visualize_final.py:354-432 | Wind Speed is the u/v magnitude; every other configured variable, Cloud Cover included, is exactly the standard search over its aliases with its step-type filter |
| Assembly.TrimTime | visualize_final.py:467-468 | the trimmed time exists iff the time does; it is a prefix without '.' |
| Assembly.LabelOfStep | visualize_final.py:476 | `Assembly.Label`, via this lemma: the label is the valid time when that is non-empty; otherwise `Step ` followed by digits that read back as the step |
| Assembly.ProcessVariable | visualize_final.py:434-472 | unresolved: nothing and the map unchanged; a panel carries the variable's name, display settings and the field's coordinates; a resolved non-accumulated variable gives a panel iff it has coordinates, with the converted field, and leaves the map alone; a resolved accumulated variable leaves the map as AccumStep does and gives a panel iff AccumStep yields a value and there are coordinates, showing that value converted; no panel, no time |
| Assembly.Panel | visualize_final.py:451-468 | a panel iff the field has coordinates; its values are converted; the map is the one given |
| Assembly.FirstPrecipitationIsZero | visualize_final.py:443-445 | the first precipitation panel of a file is all zeros |
| Assembly.Names | visualize_final.py:259 | the panel names, in bundle order |
| Assembly.ConfigNames | visualize_final.py:348 | the configured names, in order |
| Assembly.SubseqMembers | visualize_final.py:348 | a subsequence has only members of the whole |
| Assembly.SubseqDistinct | visualize_final.py:348 | a subsequence of distinct names is distinct |
| Assembly.SubseqExtend | visualize_final.py:348 | a subsequence stays one when the whole grows |
| Assembly.SubseqDropLast | visualize_final.py:348 | dropping the last element keeps a subsequence |
| Assembly.StepFold | visualize_final.py:348-468 | a step has a valid time only when it has a panel |
| Assembly.StepFoldOrder | visualize_final.py:348-465 | the bundle lists variables in configuration order, each panel from a configured variable with that variable's display settings |
| Assembly.StepNext | visualize_final.py:456-468 | the variable's panel, if any, goes after the earlier panels; a valid time already met is kept, otherwise the variable's own is taken; the map becomes the one the variable left |
| Assembly.NamesGrow | visualize_final.py:348-465 | appending the current variable's panel keeps configuration order |
| Assembly.ConfigsGrow | visualize_final.py:456-464 | every panel still comes from a configured variable |
| Assembly.StepBundleDistinct | visualize_final.py:460 | a step's panel names are distinct |
| Assembly.FirstTime | visualize_final.py:467-468 | none iff every entry is none; otherwise the entry at the first position that holds one |
| Assembly.Somes | visualize_final.py:460-465 | the present panels and nothing else, at most one per entry |
| Assembly.Results | visualize_final.py:348-472 | one result per configured variable |
| Assembly.ResultsAt | visualize_final.py:348-472 | result `k` is variable `k` processed on the map the variables before it left |
| Assembly.StepFoldParts | visualize_final.py:348-468 | a step's panels are exactly its variables' panels, in order; its valid time is the first any variable supplied, none iff none did; its map is the one the last variable left |
| Assembly.StepFoldKeeps | visualize_final.py:435-448 | variables that do not accumulate leave the accumulation map unchanged |
| Assembly.StepNextKeeps | visualize_final.py:435-448 | one variable that does not accumulate leaves the map unchanged |
| Assembly.StepFoldTailKeeps | visualize_final.py:435-448 | variables after position `m` that do not accumulate leave the map the first `m` left |
| Assembly.StepFoldAccumState | visualize_final.py:435-448 | when only variable `k` accumulates, the step leaves the map that variable left |
| Assembly.StepFoldPanel | visualize_final.py:348-465 | the panel of variable `k`, when no variable before it accumulates, is among the step's panels |
| Assembly.OnlyPrecipitationAccumulates | visualize_final.py:129-134 | in the configured list only Precipitation, the fourth, accumulates |
| Assembly.StepOfState | visualize_final.py:435-448 | across one step the map changes only by AccumStep on Precipitation's resolved raw field, and not at all when Precipitation does not resolve |
| Assembly.StepOfPrecipitation | visualize_final.py:435-465 | a Precipitation field with coordinates whose difference can be taken is shown as that difference |
| Assembly.FileFold | visualize_final.py:341-477 | at most one task per step, numbered consecutively from the file's start, each at its frame path with a non-empty, duplicate-free bundle |
| Assembly.AddStep | visualize_final.py:474-477 | the map becomes the step's; a step without panels adds no task; otherwise exactly one task is appended, numbered next, with the step's panels, its label and its frame path |
| Assembly.StepResults | visualize_final.py:341-472 | one result per step |
| Assembly.StepResultsAt | visualize_final.py:341-472 | step `j`'s result is the variable loop run on the map the steps before it left |
| Assembly.Shown | visualize_final.py:474-477 | the positions of the steps with panels, increasing, and all of them; every position when every step has panels |
| Assembly.EmitSnoc | visualize_final.py:474-477 | one more step adds a task exactly when it has panels |
| Assembly.FileFoldTasks | visualize_final.py:341-477 | one task per step with panels, in order: task `k` is numbered `start + k` and carries that step's panels, label and frame path |
| Assembly.EveryStepShown | visualize_final.py:474-477 | when every step has panels, task `k` carries step `k`'s panels |
| Assembly.FileStateNext | visualize_final.py:341-448 | the map after one more step is the one that step left |
| Assembly.PrecipStep | visualize_final.py:435-448 | a step whose Precipitation resolves to `raw` stores `raw` |
| Assembly.PrecipPanel | visualize_final.py:435-465 | a drawable Precipitation is shown as zeros on its first sighting and as the clamped difference from the stored field afterwards |
| Assembly.PrecipStateAfter | visualize_final.py:341-448 | after `j` steps the map holds step `j - 1`'s raw field |
| Assembly.FilePrecipitation | visualize_final.py:341-465 | the map ends holding the last raw field, and each step that can draw Precipitation shows the de-accumulated series at that step |
| Assembly.PrecipitationTasks | visualize_final.py:341-477 | when every step can draw Precipitation, there is one task per step and task `k` shows the de-accumulated series at step `k` |
| Assembly.FileTasks | visualize_final.py:316-487 | an unreadable or empty file gives no tasks; the others are numbered on from `start` |
| Assembly.PlannedTasks | visualize_final.py:306-487 | all tasks are numbered 0, 1, 2, … in file-then-step order, each at `frame_NNNN.png` |
| Assembly.TasksConcat | visualize_final.py:477 | the counter carries across files |
| Assembly.TaskPathsDistinct | visualize_final.py:475-477 | no two tasks write the same image |
| Assembly.FileFoldShift | visualize_final.py:308-341 | a file's tasks depend on earlier files only through the starting number |
| Assembly.FileFoldLast | visualize_final.py:343-477 | the last step of the loop adds its task to the earlier steps' tasks |
| Assembly.FileFoldNext | visualize_final.py:343-477 | the fold over one more step |
| Assembly.AddStepShift | visualize_final.py:474-477 | renumbering commutes with adding a task |
| Assembly.SearchVariable | visualize_final.py:354-432 | the search loops, with the cloud branch's standard search over tcc/lcc/mcc/hcc and its as-written layer fallback, compute ResolveVariable |
| Assembly.ProcessStep | visualize_final.py:348-472 | the variable loop computes the step's bundle, time and map |
| Assembly.VisitVariable | visualize_final.py:349-472 | one iteration of the variable loop |
| Assembly.ProcessFile | visualize_final.py:316-487 | the file body gives the file's tasks |
| Assembly.ProcessSteps | visualize_final.py:341-477 | the step loop gives the fold's tasks |
| Assembly.ProcessConfiguredStep | visualize_final.py:344-472 | the configured variable loop, with distinct panel names |
| Assembly.VisitStep | visualize_final.py:474-477 | the end of the step body adds the task |
| Assembly.AssembleTasks | visualize_final.py:306-487 | the file loop gives all planned tasks |
| Render.Layout | visualize_final.py:182-188 | `cols = min(2, n)`, and `rows` is the least with rows × cols ≥ n |
| Render.RenderFrame | visualize_final.py:175-273 | None iff the bundle is empty or the back end raises; otherwise the output path, the metadata beside it at `_metadata.json`, and metadata {index, label, panel names in order, basename} |
| Render.FrameFiles | visualize_final.py:256-263 | frame `i`'s metadata is `frame_NNNN_metadata.json` beside it and records `frame_NNNN.png` |
| Render.Generated | visualize_final.py:493-497 | no more paths than results |
| Render.CollectFrames | visualize_final.py:493-497 | the collection loop keeps successful results in order |
| Render.RenderAll | visualize_final.py:494-495 | one result per task, in task order |
| Render.GeneratedAreSurvivors | visualize_final.py:493-497 | the collected paths are the paths of the tasks that did not fail, in order, none renumbered |
| Render.RenderAllSnoc | visualize_final.py:494-495 | rendering one more task appends its result |
| Render.SurvivorsSnoc | visualize_final.py:496-497 | one more task adds its path iff it did not fail |
| Render.GeneratedSnoc | visualize_final.py:496-497 | one more result adds its path iff it succeeded |
| Render.FourthFrameFails | visualize_final.py:493-497 | with five tasks and the fourth failing, frames 0, 1, 2 and 4 are collected |
| Render.SurvivorsOfFive | visualize_final.py:496-497 | the fourth of five dropped |
| Station.Stations | station_timeseries.py:39-47 | seven stations with distinct names |
| Station.StationNames | station_timeseries.py:39-47 | their names, in order |
| Station.ArgMin | station_timeseries.py:89 | `np.argmin`: a least position, the first one |
| Station.MeshOf | station_timeseries.py:81-85 | 1-D axes are meshed, 2-D grids are taken as given; the two grids have one size |
| Station.Distances | station_timeseries.py:88 | the squared distance of every grid point, row-major |
| Station.NearestGridpoint | station_timeseries.py:60-90 | nothing iff there are no points; otherwise the first least-distance point, with row and column from its row-major position |
| Station.RowMajor | station_timeseries.py:89 | `unravel_index` of `i·cols + j` is (i, j) |
| Station.AxesPoint | station_timeseries.py:81-82 | meshed axes put `lats[i]`, `lons[j]` at `i·cols + j` |
| Station.AxesDistance | station_timeseries.py:81-86 | the distance at `i·cols + j` of meshed axes is that of `lats[i]`, `lons[j]` |
| Station.NearestOnAxes | station_timeseries.py:81-90 | on 1-D axes the chosen row and column are closest over the whole grid |
| Station.PointSeries | station_timeseries.py:158-221 | `values[:, row, col]` exists iff every step's field holds the point, and is that value per step |
| Station.StepIncrements | station_timeseries.py:224-225 | the first value is max(a[0], 0) and each later one max(a[i] − a[i−1], 0); the length is kept |
| Station.IncrementsPrefix | station_timeseries.py:224-225 | increments of a prefix are a prefix of the increments |
| Station.IncrementsTelescope | station_timeseries.py:224-225 | for a non-decreasing non-negative run, the increments add up to the last value |
| Station.CloudLayersIn | station_timeseries.py:203-206 | the layers present, in lcc/mcc/hcc order; none iff the dataset has none |
| Station.LayerSeries | station_timeseries.py:204-206 | one series per present layer, one value per step |
| Station.TemperatureAt | station_timeseries.py:158-166 | absent iff no `t`; failure iff the point read fails; otherwise the value minus 273.15 per step, with no threshold |
| Station.PressureAt | station_timeseries.py:169-177 | absent iff no `prmsl`; otherwise the value divided by 100 per step, with no threshold |
| Station.HumidityAt | station_timeseries.py:180-188 | absent iff no `r`; otherwise the values as stored |
| Station.WindAt | station_timeseries.py:191-200 | absent iff `u10` or `v10` is missing; broken iff both exist and a point read fails; otherwise the speed per step |
| Station.CloudAt | station_timeseries.py:203-215 | absent iff no layer exists; broken iff some layer exists and a layer read fails; otherwise each step bounds every layer and equals one of them |
| Station.PrecipitationAt | station_timeseries.py:218-231 | broken iff an `accum` `unknown` exists and its read fails; a value only from such a variable with more than one step, equal to its increments; absent when there is no such variable or a single step |
| Station.ParamAt | station_timeseries.py:157-231 | any series has one value per step |
| Station.InitialData | station_timeseries.py:123 | every station with no parameters |
| Station.Extend | station_timeseries.py:163-166 | the entry is created on first use and both lists are extended together; all other series unchanged |
| Station.ApplyParam | station_timeseries.py:157-231 | after a failure nothing changes; otherwise the parameter's outcome is added, or the file fails |
| Station.Times | station_timeseries.py:161 | `[base_time + step for step in steps]` |
| Station.StationPass | station_timeseries.py:152-231 | after a failure nothing changes; no grid point fails the file; what a pass without exceptions adds is Station.StationPassAdds |
| Station.StationsPass | station_timeseries.py:152-231 | the stations in order, keeping the collection well formed |
| Station.StationsPassNext | station_timeseries.py:152-231 | one more station of the loop is processed on the collection the stations before it left |
| Station.DatasetPass | station_timeseries.py:132-149 | a dataset lacking coordinates, steps or time changes nothing; what a pass without exceptions adds is Station.DatasetPassAdds |
| Station.DatasetsPass | station_timeseries.py:132-231 | the datasets in order, keeping the collection well formed |
| Station.FilePass | station_timeseries.py:125-239 | an unreadable file changes nothing; an exception keeps what was added before it |
| Station.ExtractAll | station_timeseries.py:93-241 | the result has every station, and times and values of equal length; the series of one file are Station.ExtractSingleDataset |
| Station.BlockParam | station_timeseries.py:157-231 | the parameter of block `k` is the `k`-th in extraction order: temperature, pressure, humidity, wind, cloud, precipitation |
| Station.ApplyParamAdds | station_timeseries.py:157-231 | a block that raises nothing appends what it got at `times` (the series extended, or created) and leaves every other parameter and every other station as they were |
| Station.ApplyBlocksAdds | station_timeseries.py:157-231 | the first `k` blocks, none raising, do the same for each of their parameters, and leave the file unfailed |
| Station.StationPassBlocks | station_timeseries.py:152-231 | a station with a grid point runs the six blocks in source order |
| Station.AllBlocksApplied | station_timeseries.py:157-231 | after the sixth block, every parameter came out as the station's outcome at its grid point |
| Station.StationPassAdds | station_timeseries.py:152-231 | a station with a grid point whose blocks raise nothing: the file does not fail; every parameter that got values has them appended at `times`, its series extended or created; absent parameters and all other stations unchanged |
| Station.SitesAddedNext | station_timeseries.py:152 | the sites before the last, then the last on its own, add up to all the sites |
| Station.StationsPassAdds | station_timeseries.py:152-231 | stations with distinct names, none failing: each has what its blocks got appended and the stations not visited are unchanged |
| Station.DatasetPassAdds | station_timeseries.py:132-231 | a dataset with coordinates, steps and time in which no station fails: every station has what its blocks got appended at `base_time + step` (lines 161, 172 and the later blocks) |
| Station.SingleDatasetPass | station_timeseries.py:123-149 | a file holding one dataset is that dataset's pass over the empty collection |
| Station.AddedToInitial | station_timeseries.py:123 | on the empty collection, an appended series is exactly the one got, and an absent parameter has no entry |
| Station.ExtractSingleDataset | station_timeseries.py:93-241 | one readable file with one such dataset: each station's parameter series is `Series(base_time + step for each step, values)` when its block got values, and missing otherwise |
| Station.StationsAfterFailure | station_timeseries.py:237-239 | once the file has failed, later stations change nothing |
| Station.DatasetsAfterFailure | station_timeseries.py:237-239 | once the file has failed, later datasets change nothing |
| Station.ProcessStation | station_timeseries.py:152-231 | the body of the station loop |
| Station.ProcessStations | station_timeseries.py:152-231 | the station loop |
| Station.ProcessDataset | station_timeseries.py:132-231 | the dataset loop body |
| Station.ProcessStationFile | station_timeseries.py:125-239 | the file loop body |
| Station.ExtractStationData | station_timeseries.py:93-241 | `extract_station_data`, with the collection well formed |
| Station.SeqMin | station_timeseries.py:280 | `min`: a member no larger than any |
| Station.SeqMax | station_timeseries.py:281 | `max`: a member no smaller than any |
| Station.AllValues | station_timeseries.py:271-277 | exactly the values of the parameter over the stations |
| Station.Range | station_timeseries.py:279-293 | (0, 1) without data; (0, 100) for cloud and humidity; else (min − m, max + m) with m = 0.1·(max − min), or 1.0 when max is 0, or 0.1·\|max\| |
| Station.CollectValues | station_timeseries.py:271-277 | the `all_values` loop |
| Station.RangeOf | station_timeseries.py:279-293 | the range computation |
| Station.RangeOfParam | station_timeseries.py:270-293 | one parameter's range |
| Station.ParamRanges | station_timeseries.py:269-293 | `param_ranges` has a range for exactly the parameters, each its own range |
| Station.RangeEnclosesStations | station_timeseries.py:279-291 | every value of a data-driven parameter lies strictly inside its range |
| Station.SiteNamed | station_timeseries.py:392 | `STATIONS[name]` |
| Station.JsonSeriesOf | station_timeseries.py:397-400 | times rendered, values kept, equal lengths |
| Station.ExportJson | station_timeseries.py:388-400 | every station with its coordinates and the same parameters; equal-length times and values, values kept |
| MsmLegacy.EntriesOf | visualize_msm.py:58-59 | the variables of a dataset, in order |
| MsmLegacy.KeyOf | visualize_msm.py:61-73 | a named variable keeps its name; `unknown` becomes `precipitation` if `accum`, `total_cloud_cover` if `instant`, else nothing |
| MsmLegacy.Add | visualize_msm.py:61-73 | a name already present is left; a new one is added |
| MsmLegacy.Merge | visualize_msm.py:55-73 | the step coordinate comes from some entry; MsmLegacy.MergeSteps states which one |
| MsmLegacy.MergeFirstWins | visualize_msm.py:58-73 | a name is merged iff some variable maps to it, and it holds the first such variable |
| MsmLegacy.MergeSteps | visualize_msm.py:55-73 | the step coordinate is that of the first merged variable that has one; there is none iff no merged variable has one |
| MsmLegacy.AdoptedLast | visualize_msm.py:61-73 | the last variable is merged iff it has a key not merged before |
| MsmLegacy.AdoptedPrefix | visualize_msm.py:61-73 | whether a variable is merged depends only on the variables before it |
| MsmLegacy.UnknownAccumIsPrecipitation | visualize_msm.py:61-67 | the first accumulated `unknown` becomes `precipitation` unless that name came earlier |
| MsmLegacy.MergeSnoc | visualize_msm.py:58-73 | merging one more variable is one `Add` |
| MsmLegacy.MergeDataset | visualize_msm.py:59-73 | the inner loop merges a dataset's variables |
| MsmLegacy.AddVariable | visualize_msm.py:61-73 | one iteration of the inner loop |
| MsmLegacy.MergeDatasets | visualize_msm.py:58-73 | the outer loop merges every dataset |
| MsmLegacy.WindVar | visualize_msm.py:76-81 | nothing iff some common step has fields of different sizes; otherwise the speed on the common steps |
| MsmLegacy.DeriveWind | visualize_msm.py:76-81 | from `u10`/`v10` when both exist, else `u`/`v`, else nothing added |
| MsmLegacy.Labels | visualize_msm.py:31-37 | five labels, distinct |
| MsmLegacy.FirstPresent | visualize_msm.py:99-103 | the first listed name present, or nothing iff none is |
| MsmLegacy.Bindings | visualize_msm.py:97-105 | every bound label is bound to its first present name, and every label with one is bound; order and uniqueness are MsmLegacy.BindingsInOrder and MsmLegacy.BindingsOnce |
| MsmLegacy.BoundPositions | visualize_msm.py:97-105 | exactly the positions of the labels that have a present name, strictly increasing |
| MsmLegacy.BoundAtSnoc | visualize_msm.py:97-105 | one more label appends its binding after those of the labels before it |
| MsmLegacy.BindingsInOrder | visualize_msm.py:97-105 | binding `i` is for the label at the `i`-th such position, to its first present name: one binding per label with a present name, in label order |
| MsmLegacy.BindingsOnce | visualize_msm.py:97-105 | labels with distinct captions, as dictionary keys are, bind at most once each |
| MsmLegacy.LabelsBindOnce | visualize_msm.py:31-37 | each of the five display labels binds at most once per file |
| MsmLegacy.Convert | visualize_msm.py:135-144 | Temperature in K drops 273.15 iff the mean exceeds 200, Pressure in Pa divides by 100 iff it exceeds 80000; the unit becomes °C or hPa either way |
| MsmLegacy.ConvertedMeans | visualize_msm.py:135-142 | a converted temperature is 273.15 lower on average; a converted pressure is divided by 100 |
| MsmLegacy.StepPanels | visualize_msm.py:114-161 | one panel per binding, or nothing iff a bound variable lacks the step |
| MsmLegacy.ForecastPathInjective | visualize_msm.py:168 | two counters with one path are equal |
| MsmLegacy.ForecastFileName | visualize_msm.py:168 | `MsmLegacy.ForecastPath`, via this lemma: frame `i` is saved as `forecast_` and `i` padded to three digits, `.png` |
| MsmLegacy.StepFrames | visualize_msm.py:110-183 | at most one frame per step, saved frames numbered consecutively from `start` |
| MsmLegacy.FileFrames | visualize_msm.py:44-196 | a file without a step coordinate gives no frames; the others are numbered on |
| MsmLegacy.AllFrames | visualize_msm.py:40-196 | the saved frames are `forecast_000`, `forecast_001`, … in order |
| MsmLegacy.AllFramesNext | visualize_msm.py:40-196 | one more file appends its frames, numbered on from the frames so far |
| MsmLegacy.FramePathsDistinct | visualize_msm.py:168-174 | no two saved frames share a path |
| MsmLegacy.Paths | visualize_msm.py:172 | the paths of the frames, in order |
| MsmLegacy.FramesUpTo | visualize_msm.py:110-183 | the frames of the first `n` steps: at most `n`, numbered consecutively from `start`, each of a listed step |
| MsmLegacy.FramesUpToNext | visualize_msm.py:110-183 | step `i` adds one frame, numbered next, iff its panels exist and its drawing did not fail |
| MsmLegacy.DrawSteps | visualize_msm.py:110-183 | the step loop; the counter advances by the frames saved |
| MsmLegacy.DrawFile | visualize_msm.py:49-196 | the file body; the counter advances by the frames saved |
| MsmLegacy.DrawAll | visualize_msm.py:40-196 | `frame_files` are `forecast_000`, … and `frame_counter` equals their number |
| Download.DigitsBelowPow | download_msm.py:87 | an n-digit string is below 10ⁿ |
| Download.DigitsFront | download_msm.py:87 | a digit string's value from its first digit |
| Download.FirstDigitDecides | download_msm.py:87 | of equal-length digit strings, the smaller first digit is the smaller value |
| Download.DigitOrderIsNumeric | download_msm.py:87 | for equal-length digit strings, string order is numeric order |
| Download.Greatest | download_msm.py:87-88 | `sort()` then `[-1]`: a member no smaller than any |
| Download.MatchingLinks | download_msm.py:77-81 | exactly the non-empty hrefs matching the directory pattern |
| Download.LatestLink | download_msm.py:73-88 | None iff the fetch failed or nothing matched; otherwise a matching href no smaller than any match |
| Download.DirLinkNamesDigits | download_msm.py:252-272 | `Download.DirLink`, via this lemma: a matching link's text before the first '/' is four digits for a year and two for a month or a day, and the '/' follows |
| Download.DigitsBeforeSlash | download_msm.py:252-272 | when `n` digits are followed by '/', the text before the first '/' is those digits |
| Download.GetLatestLink | download_msm.py:73-88 | the loop computes the latest link |
| Download.MatchMsm | download_msm.py:114-118 | `Download.MsmAt`, via this lemma: matches iff the name starts with the MSM pattern; the group is 14 digits and the prefix is that file's name |
| Download.MatchMsmName | download_msm.py:114 | every well-formed name, whatever follows, yields its timestamp |
| Download.FirstSome | download_msm.py:115-118 | the first present value, or none iff none is present |
| Download.FirstTimestamp | download_msm.py:113-118 | the first matching name's timestamp in listing order, or none iff no name matches |
| Download.ExistingTimestamp | download_msm.py:104-120 | readable metadata decides (even without a timestamp); else the first match in the data directory; else none |
| Download.Kept | download_msm.py:142-153 | the names kept: all but stale ones whose removal succeeded |
| Download.Removed | download_msm.py:142-151 | exactly the stale names whose removal succeeded |
| Download.KeptAndRemovedPartition | download_msm.py:142-151 | every name is kept or removed |
| Download.CleanOldData | download_msm.py:136-153 | no directory: nothing; else the kept names remain, and the count is the number removed |
| Download.FilesFor | download_msm.py:288-297 | exactly the hrefs of a given timestamp |
| Download.NoFilesWithoutTimestamp | download_msm.py:285-297 | a timestamp not on the page has no files |
| Download.GroupedKeys | download_msm.py:285-297 | the dictionary's keys are the page's timestamps |
| Download.Grouped | download_msm.py:285-297 | every group is non-empty and holds hrefs of the page whose match gives that timestamp |
| Download.TimestampsOfPage | download_msm.py:285-297 | `Download.TimestampsOf`, via this lemma: every timestamp is 14 digits, and every href starting with an MSM file name contributes its stamp |
| Download.GroupedIsFilesFor | download_msm.py:285-297 | the dictionary maps exactly the page's timestamps to their files, non-empty, in page order |
| Download.GroupByTimestamp | download_msm.py:285-297 | the loop builds the set and the dictionary, with equal key sets |
| Download.MatchedTimestamps | download_msm.py:288-294 | the timestamps on the page, with repeats |
| Download.LatestTimestamp | download_msm.py:303 | a page timestamp no smaller than any |
| Download.Decide | download_msm.py:307-316 | stop iff existing equals latest; clean iff existing is non-empty and differs; else download only |
| Download.Transfers | download_msm.py:317-323 | each file's URL on the day page and its local path under `data` |
| Download.Plan | download_msm.py:243-326 | an update never re-fetches the existing timestamp and cleans exactly when the decision says so |
| Download.DayPlan | download_msm.py:283-326 | stops iff no MSM file is listed; up to date iff existing is the latest; otherwise an update |
| Download.UpdateFetchesLatest | download_msm.py:303-326 | an update saves the greatest timestamp and transfers exactly its files |
| Download.PlanFollowsLatest | download_msm.py:252-278 | the plan goes to the greatest year, then month, then day |
| Download.RunDownloader | download_msm.py:217-326 | `main` follows the plan |
| Download.DownloadFile | download_msm.py:200-215 | an existing path is left alone; otherwise it is present iff the transfer succeeded, nothing else changes |
| Download.DownloadAll | download_msm.py:320-323 | with one outcome per transfer, a repeated target is tried again after a failure; afterwards a path is present iff it was before or some transfer to it succeeded |

## Left out

- Drawing: Matplotlib and Cartopy, colour maps, figure sizes, styling, titles and colour bars. In the renderer, whether drawing or writing raises is an input.
- Decoding: GRIB decoding by cfgrib/xarray is out, and a decoded file is a value. Files are taken in the order given: `sorted(glob(...))` and the file system are not modelled.
- Concurrency: the process pool is not modelled. Results are handed back in task order, as `imap` does.
- The GIF, the interactive viewer, the map viewer and the subprocess calls.
- Outside effects: the web server, printing, `time.strftime` and `datetime.now`.
- Arithmetic: NaN and floating point. Grids are `real`, the square root is a parameter, and the mean is that of a non-empty, NaN-free grid.
- FinalConfig.ApplyConversion: the mean of an empty grid (NaN in the source) is taken to leave the field unconverted.
- Datasets.Select: a scalar (0-d) step coordinate, which makes `set.update` raise and drops the whole file, is not modelled. Steps are always a list.
- Datasets.Magnitude: numpy broadcasting between grids of different shapes is not modelled. Different sizes make the variable omitted, as a raised error would.
- Accumulation.AccumStep: numpy broadcasting between the current and the stored accumulated grid is not modelled. Grids of different sizes are treated as the subtraction at visualize_final.py:439 raising: nothing is stored and no panel is drawn.
- Datasets: grids are flat and row-major. Two-dimensional shapes are represented only by the column count used for `unravel_index`.
- Assembly.Label: a frame without a valid time is labelled `Step ` and the step as a plain number. In the source, a step taken from the step coordinate is a `numpy.timedelta64`, whose text carries its unit (for example `10800000000000 nanoseconds`); only the `[0]` fallback for a file without steps prints a bare `Step 0`. That unit text is not modelled.
- Assembly.TrimTime: the numpy text form of a valid time is an input string. The model only cuts it at the first '.'.
- Resolver.StepList: Python's unordered set is modelled as an ascending list. The result is the same once `sorted` is applied.
- Station.NearestGridpoint: it minimises the squared distance. Taking the square root does not change which point is least.
- Station.PointSeries: an out-of-range point read is treated as an exception that ends the file's `try` block, as numpy indexing raises.
- Station.ExportJson: `str(t)` is a parameter `show`, and `float(v)` is the identity on reals. JSON formatting and the file write are out.
- Station: the drawing half of `plot_timeseries` is out. So are the sort of each series by time before drawing, and NaN filtering; the values have no NaN.
- MsmLegacy.Merge: xarray alignment of coordinates between merged variables is out. The merged step coordinate is that of the first variable that has one.
- MsmLegacy.StepPanels: a missing field at a step counts as a failed step. The frame title and valid-time lookup are folded into the drawing outcome `drawFails`.
- Download.MatchMsm: Python's `\d` also matches non-ASCII digits. The model accepts only '0'-'9'.
- Download.DirLink: the same holds for the `\d` in the directory-link patterns at download_msm.py:252, 260 and 268. Only '0'-'9' are digits in the model.
- Download.DownloadFile: partial files are not modelled. A failed transfer leaves no file, and `os.remove` raising inside the handler is not modelled. The request's streaming and timeout are out.
- Download.LatestTimestamp: it is the greatest element of the set, rather than the last of `sorted(list(...))`. These are equal for a total order.
- Download.Plan: the metadata write is the `savedTimestamp` of an update. The time it records is out.

## Findings

| source | as written | input that shows it | evidently intended | confidence | as-written member | corrected member |
|---|---|---|---|---|---|---|
| visualize_final.py:411-432 | Cloud Cover lists `lcc`, `mcc` and `hcc` as aliases as well as `tcc`. The standard search therefore already takes any single layer it finds. The layer-maximum fallback only runs when no layer qualifies, and then it collects nothing, so it is dead code. | one dataset with `lcc` = 20 % and `mcc` = 50 % at step 0 and no `tcc`: the frame shows 20 % | total cloud cover when present, otherwise the element-wise maximum of the layers (50 % here), as the `is_cloud` flag and the combined-layer code intend | not executed | Resolver.CloudAsWrittenTakesFirstLayer | Resolver.CloudCorrectedTakesMaxLayer |
