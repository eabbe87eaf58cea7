# assemble-videos: a verified model of the composition planner

`tools/assemble-videos.js` joins Street View clips into one video with ffmpeg.
It reads a method token (`--simple`, `--fade`, `--slideright`, …,
`--sidebyside`, `--stacked`), clip paths and options. It checks that every
clip can be probed, then builds one ffmpeg command. For `--simple` that is a
concat list plus a stream copy. For every other method it is a
`-filter_complex` graph:

- a left-to-right `xfade` fold over trimmed clips;
- a grid of scaled clips, padded with black cells and joined by `hstack`/`vstack`;
- a single `vstack` of scaled clips.

This project models that planner in Dafny:

- **Filter graphs** are sequences of structured nodes (inputs, filter with its parameters, output label) instead of text.
- **Labels** (`v3`, `v01`, `row2`, `black12`, `v`) are real strings built from a decimal rendering of the indices. Uniqueness of outputs is proved about these strings, not assumed.
- **Builders.** Each builder that grows `filterChain` in loops is an imperative method with the loops of `assembleWithTransition`, `assembleSideBySide` or `assembleStacked`. It is proved equal to a specification function, and the properties are lemmas about that function.
- **`main`** is a function from the argument list and an environment (what ffprobe reports, what `path.resolve` returns, whether ffmpeg succeeds) to an exit status and a trace of effects. The trace lists probes, file writes, shown or executed commands, and file removals.

| module | file | what it holds |
|---|---|---|
| `Wrappers` | Wrappers.dfy | `Option` |
| `Seqs` | Seqs.dfy | order-preserving subsequences |
| `Labels` | Labels.dfy | decimal rendering and the label families, with injectivity and disjointness |
| `FilterGraph` | FilterGraph.dfy | nodes, plans, the well-formedness invariant, operation counts |
| `Timing` | Timing.dfy | the duration auto-adjustment and the xfade offset |
| `GridLayout` | GridLayout.dfy | grid dimensions and cell sizes |
| `Transitions` | Transitions.dfy | the trim/xfade graph and its builder |
| `Grids` | Grids.dfy | the side-by-side grid and the vertical stack, with their builders |
| `ConcatList` | ConcatList.dfy | the concat list text and how it reads back |
| `Cli` | Cli.dfy | the argument loop and the method table |
| `Planner` | Planner.dfy | `main`: checks, validation, dispatch, effects |

`main` runs `validateVideos`, which probes every clip, before a builder refuses fewer than two clips (tools/assemble-videos.js:486 against :245, :306, :380). A one-clip transition, grid or stack run therefore probes its clip and then fails (`Planner.SingleClipProbedThenRefused`).

## Model

| member | source | states |
|---|---|---|
| Labels.NatStrShape | tools/assemble-videos.js:276 | the decimal rendering of an index is all digits, starts with `0` only for 0 (no leading zero), and is one digit exactly below 10 |
| Labels.ValueOfNatStr | tools/assemble-videos.js:276 | reading the decimal rendering back gives the index |
| Labels.ClipLabelInjective | tools/assemble-videos.js:276 | different clips get different `v{i}` labels |
| Labels.FoldLabelInjective | tools/assemble-videos.js:283 | different fold steps get different `v0{i}` labels |
| Labels.RowLabelInjective | tools/assemble-videos.js:354 | different rows get different `row{r}` labels |
| Labels.FillerLabelInjective | tools/assemble-videos.js:349 | within one row, different columns get different `black{row}{col}` labels |
| Labels.FillerLabelsCollideAcrossRows | tools/assemble-videos.js:349 | `black{row}{col}` is ambiguous across rows: cell (1,11) and cell (11,1) share a label |
| Labels.ClipLabelNotFoldLabel | tools/assemble-videos.js:276-283 | no clip label `v{i}` equals a fold label `v0{j}` |
| Labels.IndexedLabelsNotFinal | tools/assemble-videos.js:283-365 | no clip, fold, row or filler label equals the final label `v` |
| Labels.FamiliesDiffer | tools/assemble-videos.js:336-354 | clip, fold, row and filler labels never coincide across families |
| Timing.Durations | tools/assemble-videos.js:252 | the known durations are exactly those of the probes that answered |
| Timing.Min | tools/assemble-videos.js:254 | the minimum is one of the durations and no larger than any of them |
| Timing.Candidate | tools/assemble-videos.js:255 | the candidate is a whole number of seconds, at least 2, at least one second below the shortest clip unless it is 2, and less than two seconds below it, so it is max(2, floor(shortest) - 1) |
| Timing.Adjust | tools/assemble-videos.js:250-269 | the clip length never grows; with --duration given or no answered probe nothing changes; a shrunk clip is at least 2 s with a transition of at most clip - 1; the transition changes only together with the clip, and then to clip - 1; a requested transition of at most clip - 1 is kept |
| Timing.Offset | tools/assemble-videos.js:271 | the offset is never negative and is 0 or clip - transition |
| Timing.AdjustShrinksIff | tools/assemble-videos.js:251-260 | the clip shrinks exactly when auto-detection is on, some probe answered and the candidate is shorter; it then becomes the candidate |
| Timing.AdjustedOffsetAtLeastOne | tools/assemble-videos.js:262-271 | after an adjustment every cross-fade starts at least one second into the clip |
| Timing.AdjustedFitsEveryProbe | tools/assemble-videos.js:252-260 | with auto-detection the clip length is at most max(2, d - 1) for every probed duration d |
| Timing.AdjustIdempotent | tools/assemble-videos.js:250-269 | adjusting an adjusted timing again changes nothing |
| Timing.LongClipsKeepRequest | tools/assemble-videos.js:253-257 | clips of 20, 25 and 30 s leave the default 10 s / 1 s untouched |
| Timing.ShortClipsShrink | tools/assemble-videos.js:253-266 | clips of 3, 4 and 5 s shrink the default to 2 s with a 1 s transition |
| Timing.FailedProbesIgnored | tools/assemble-videos.js:252 | a probe that throws (`null`), anywhere in the list, does not influence the adjustment |
| Timing.DurationsAppend | tools/assemble-videos.js:252 | the answered durations of two probe lists joined are those of each list, joined |
| GridLayout.CeilSqrt | tools/assemble-videos.js:313 | the column count is the least c with c * c >= n |
| GridLayout.CeilSqrtLeast | tools/assemble-videos.js:313 | no smaller square covers n |
| GridLayout.CeilDiv | tools/assemble-videos.js:314 | the row count is the least q with cols * q >= n |
| GridLayout.Dimensions | tools/assemble-videos.js:312-323 | at least two columns and one row for two or more clips |
| GridLayout.SideBySideLayout | tools/assemble-videos.js:325-328 | each cell is the floor of 1920 / cols by 1080 / rows: cols * w <= 1920 < cols * w + cols, and likewise for the height |
| GridLayout.StackCellHeight | tools/assemble-videos.js:387-389 | the stacked height is floor(1080 / n): n * h <= 1080 < n * h + n |
| GridLayout.GridCovers | tools/assemble-videos.js:312-323 | for every n >= 2 the grid has room for all clips (cols * rows >= n), less than one row is padding, and there are no more rows than columns |
| GridLayout.FewerRowsThanColumns | tools/assemble-videos.js:313-314 | a column count whose square covers n needs no more rows than columns |
| GridLayout.SpecialCases | tools/assemble-videos.js:317-323 | 3 clips give 3x1 and 5 clips give 3x2 |
| GridLayout.SpecialCasesAgainstGenericRule | tools/assemble-videos.js:313-323 | for 5 clips the generic rule already gives 3x2; for 3 clips it would give 2x2 |
| GridLayout.SevenClips | tools/assemble-videos.js:312-328 | seven clips make a 3x3 grid of 640x360 cells |
| GridLayout.SquareCount | tools/assemble-videos.js:313-314 | k * k clips (k >= 3) fill a k x k grid exactly |
| GridLayout.LastRow | tools/assemble-videos.js:344-349 | when less than one row is padding, every cell index at or past n is in the last row |
| GridLayout.LastRowColumns | tools/assemble-videos.js:344-349 | two padding cells in the same column are the same cell |
| GridLayout.RowOfIndex | tools/assemble-videos.js:344 | index row * cols + col splits back into its row and column |
| Transitions.AssembleWithTransition | tools/assemble-videos.js:244-289 | the builder (adjust in place, trim loop, fold loop with `current`) produces exactly the specified plan, and none below two clips |
| Transitions.TrimLoop | tools/assemble-videos.js:274-277 | the trim loop appends, for clips 0 .. n-1 in order, exactly the specified trim of each clip to the clip length |
| Transitions.FoldLoop | tools/assemble-videos.js:279-286 | the fold loop, carrying `current`, appends exactly the specified n - 1 cross-fades after the trims |
| Transitions.TransitionShape | tools/assemble-videos.js:271-286 | 2n - 1 nodes: n trims of clip k to the clip length producing `v{k}`, then n - 1 cross-fades sharing kind, duration and offset; exactly n trims and n - 1 xfades |
| Transitions.TransitionCounts | tools/assemble-videos.js:274-286 | the graph holds exactly n trims and n - 1 cross-fades |
| Transitions.TransitionFoldOrder | tools/assemble-videos.js:280-286 | the first cross-fade takes `v0` and `v1`, each later one takes the previous result and the next clip; results are `v01` .. `v0{n-2}` and the last is `v` |
| Transitions.TransitionOutputsDiffer | tools/assemble-videos.js:276-284 | two positions of a transition graph never share an output label |
| Transitions.TransitionInputDefined | tools/assemble-videos.js:276-286 | every input of every node is an input file or the output of an earlier node |
| Transitions.TransitionWellFormed | tools/assemble-videos.js:275-294 | outputs are distinct, every input is an input file or an earlier output, and the last output is the mapped `v` |
| Transitions.TransitionPlanSound | tools/assemble-videos.js:244-294 | for every request and probe result the plan of two or more clips is well formed and no cross-fade has a negative offset |
| Grids.CellNode | tools/assemble-videos.js:335-350 | the node for cell k outputs the label the row loop pushes for cell k |
| Grids.BuildRow | tools/assemble-videos.js:343-352 | the column loop pushes the labels of the row's cells in order and adds a filler for exactly the cells past the last clip |
| Grids.BuildRows | tools/assemble-videos.js:340-355 | the row loop emits every filler of the grid and one hstack per row, in row order |
| Grids.AssembleSideBySide | tools/assemble-videos.js:305-366 | the builder produces exactly the specified grid plan, and none below two clips |
| Grids.RowNodeInputs | tools/assemble-videos.js:343-351 | input col of row r's hstack is `v{r*cols+col}` when that clip exists, else `black{r}{col}` |
| Grids.GridParts | tools/assemble-videos.js:335-366 | the graph is the cells, then the rows, then the vstack only when there is more than one row |
| Grids.GridShape | tools/assemble-videos.js:335-366 | scales of clip k to the cell size come first; the fillers follow, all in the last row; then the row hstacks; then the vstack of several rows |
| Grids.CellNodesCounts | tools/assemble-videos.js:335-350 | the cells hold n scales and cols * rows - n fillers |
| Grids.GridCounts | tools/assemble-videos.js:335-366 | n scales, cols * rows - n fillers, one hstack per row, one vstack exactly when rows > 1 |
| Grids.GridOutput | tools/assemble-videos.js:336-365 | the label at each position: clip, last-row filler, row, final |
| Grids.GridOutputsDiffer | tools/assemble-videos.js:336-365 | two positions of a grid graph never share an output label |
| Grids.GridLabelsDiffer | tools/assemble-videos.js:336-365 | the label families of the grid positions (clip, last-row filler, row, final) never repeat a label |
| Grids.GridUniqueOutputs | tools/assemble-videos.js:336-365 | all outputs of a grid graph are distinct |
| Grids.RowInputDefined | tools/assemble-videos.js:343-354 | each hstack input is produced inside the grid by the cell at its row-major index |
| Grids.CellInputDefined | tools/assemble-videos.js:335-350 | a cell node with an input is the scale of clip k, reading input file k; fillers read nothing |
| Grids.HStackInputDefined | tools/assemble-videos.js:343-354 | each hstack input is the output of an earlier cell node |
| Grids.VStackInputDefined | tools/assemble-videos.js:360-365 | each vstack input is the output of an earlier row hstack |
| Grids.GridInputDefined | tools/assemble-videos.js:335-366 | every input of every node is an input file or an earlier output |
| Grids.GridClosed | tools/assemble-videos.js:335-366 | the grid graph has no dangling reference |
| Grids.GridWellFormed | tools/assemble-videos.js:335-368 | the grid graph is well formed and ends in the mapped label: `row0` for one row, `v` otherwise |
| Grids.SideBySidePlanSound | tools/assemble-videos.js:305-368 | a plan exists exactly from two clips on; it is well formed, with n scales, fewer than cols fillers, one hstack per row, and cells that fit the canvas |
| Grids.AssembleStacked | tools/assemble-videos.js:379-402 | the builder produces exactly the specified stacked plan, and none below two clips |
| Grids.StackedShape | tools/assemble-videos.js:386-402 | n scales of clip k to 640 x h with n * h <= 1080, then one vstack of n inputs `v0` .. `v{n-1}` in order, output `v` |
| Grids.StackedPlanSound | tools/assemble-videos.js:379-404 | a plan exists exactly from two clips on, and it is well formed |
| ConcatList.Line | tools/assemble-videos.js:203 | a line is `file '`, the path, and a closing quote |
| ConcatList.Lines | tools/assemble-videos.js:202-203 | one line per clip, line i quoting the resolved path of clip i |
| ConcatList.UnquoteLine | tools/assemble-videos.js:203 | the quoted path of a line is the path written into it |
| ConcatList.SplitJoin | tools/assemble-videos.js:202-204 | splitting the newline-joined lines gives the lines back when none holds a newline |
| ConcatList.ConcatListRoundTrip | tools/assemble-videos.js:201-206 | the list has one entry per clip, in order, naming the resolved path, when no path holds a newline |
| ConcatList.Join | tools/assemble-videos.js:204 | the joined text starts with the first line |
| ConcatList.JoinEndsWithLast | tools/assemble-videos.js:204 | the joined text ends with the last line, with no trailing newline |
| ConcatList.Content | tools/assemble-videos.js:201-206 | a non-empty list starts with `file '` and ends with the last line's closing quote |
| Cli.ParseArgs | tools/assemble-videos.js:427-448 | the argument loop computes exactly the specified options |
| Cli.ValueStep | tools/assemble-videos.js:436-442 | a value flag and its value change no clip and not the preview flag |
| Cli.PlainStep | tools/assemble-videos.js:443-447 | a token without value adds itself as a clip exactly when it does not start with `--`, sets preview exactly for `--preview`, and changes nothing else |
| Cli.Plain | tools/assemble-videos.js:445-446 | the plain tokens never start with `--` |
| Cli.ClipsAreArguments | tools/assemble-videos.js:435-448 | the clips are tokens after the method, in their order, and none starts with `--` |
| Cli.PlainTokensAreClips | tools/assemble-videos.js:427-448 | without value flags, every token after the method not starting with `--` is a clip, in order; output, duration and transition keep their defaults; preview is set exactly when `--preview` occurs |
| Cli.UserSetNeedsDurationFlag | tools/assemble-videos.js:438-440 | `userSetDuration` is set only if `--duration` occurs after the method |
| Cli.DurationFlagSetsUserSet | tools/assemble-videos.js:435-442 | a `--duration` not consumed as the value of the flag before it sets `userSetDuration`; when no later `--duration` follows, the duration is the parsed next argument |
| Cli.OutputThenDuration | tools/assemble-videos.js:435-446 | for `--fade a.mp4 b.mp4 --output o.mp4 --duration 5` the clips are exactly `a.mp4`, `b.mp4`, the output is `o.mp4`, and the duration is the parsed 5, marked as user-set |
| Cli.ExampleTailClips | tools/assemble-videos.js:435-446 | in `a.mp4 b.mp4 --output o.mp4 --duration 5`, the tokens left as clips are `a.mp4` and `b.mp4` |
| Cli.DropValues | tools/assemble-videos.js:436-442 | what is left has no value flag: each value flag went with the token after it |
| Cli.DropNothing | tools/assemble-videos.js:436-442 | without value flags no token is dropped |
| Cli.ScanClipsExact | tools/assemble-videos.js:435-448 | from any position the loop appends exactly the tokens not starting with `--` that no value flag consumed, in order |
| Cli.ParsedClips | tools/assemble-videos.js:435-448 | the clips are exactly the tokens after the method not starting with `--` and not consumed as a value, in order; without value flags, every such token |
| Cli.ScanReachesClip | tools/assemble-videos.js:435-446 | a token the loop reaches that does not start with `--` ends up among the clips |
| Cli.ReachedPlainTokenIsClip | tools/assemble-videos.js:435-446 | a token not starting with `--` whose predecessor is not a value flag is a clip |
| Cli.ScanKeepsValue | tools/assemble-videos.js:436-442 | with no further `--output`, `--duration` or `--transition`, that option keeps its value |
| Cli.ScanReachesValue | tools/assemble-videos.js:436-442 | a reached value flag with no later repeat sets its option from the next token |
| Cli.OutputAndTransitionFlags | tools/assemble-videos.js:436-442 | an `--output` or `--transition` not consumed as a value and not repeated sets the output to the next token, or the transition to its parsed value (`undefined` past the end) |
| Cli.Scan | tools/assemble-videos.js:435-448 | the loop keeps the method token, only adds clips, and adds at most one per remaining argument |
| Cli.Parse | tools/assemble-videos.js:427-448 | the method token is the first argument and there are fewer clips than arguments |
| Cli.GuardPassesAsWritten | tools/assemble-videos.js:466 | the `METHODS[methodKey]` check accepts every method of the table, and otherwise only inherited object members |
| Cli.Lookup | tools/assemble-videos.js:24-91 | a key is found exactly when it is one of the eleven table keys; it is a transition exactly for the eight xfade keys, whose name is the key |
| Cli.LookupKey | tools/assemble-videos.js:24-91 | a found kind maps back to its key |
| Cli.AvailableFlags | tools/assemble-videos.js:468 | the listed methods are `--` and each table key, in table order |
| Cli.InheritedKeyPassesGuard | tools/assemble-videos.js:466 | the check as written lets `toString` through though the table has no such method |
| Cli.GuardAgreesOnTable | tools/assemble-videos.js:466 | on table keys the written check and the lookup agree, and whatever the written check refuses is not in the table |
| Planner.ExitCode | tools/assemble-videos.js:192-196 | the exit status is 1 exactly on failure |
| Planner.Missing | tools/assemble-videos.js:185-199 | the reported clips are the unreadable ones, in input order, each as often as it was given |
| Planner.MissingAppend | tools/assemble-videos.js:185-199 | the missing clips of two lists joined are those of each list, joined |
| Planner.MissingOne | tools/assemble-videos.js:185-199 | a single clip is reported exactly when it is unreadable |
| Planner.MissingIffUnreadable | tools/assemble-videos.js:185-199 | validation passes exactly when every clip is readable, and otherwise names every unreadable clip in order, as often as it was given |
| Planner.CommandLineErrorsBeforeProbing | tools/assemble-videos.js:421-470 | help is shown exactly for an empty list or a help flag; no clips, a method without `--` and an unknown key each fail before any probe |
| Planner.RunStages | tools/assemble-videos.js:421-486 | the checks in their order: help, no clips, no `--`, unknown key each end the run with no effect; otherwise every clip is probed and the run ends done, with too few clips, a failed command or missing clips |
| Planner.ValidationReportsAllMissing | tools/assemble-videos.js:485-486 | once the command line is accepted, every clip is probed in order; the run fails on missing clips exactly when one is unreadable, listing all of them |
| Planner.PreviewNeverExecutes | tools/assemble-videos.js:208-214 | with --preview nothing is executed, under the `METHODS[methodKey]` check as written or the table-only check |
| Planner.RunEffects | tools/assemble-videos.js:485-509 | every effect of a run is a clip probe or an effect of the builder chosen for a known method with at least one clip |
| Planner.Run | tools/assemble-videos.js:418-510 | help is shown exactly when there are no arguments or `--help`/`-h` is among them; any run with effects probes every clip first |
| Planner.Assemble | tools/assemble-videos.js:466-470 | a run only succeeds for a method flag that names a table entry |
| Planner.AssembleAsWritten | tools/assemble-videos.js:466-510 | the `METHODS[methodKey]` check as written differs from the table-only check only where the latter reports an unknown method |
| Planner.RunCommand | tools/assemble-videos.js:208-224 | a preview shows the command, otherwise it is executed; it succeeds exactly when previewing or ffmpeg succeeds, and fails with a command error otherwise |
| Planner.AssembleSimple | tools/assemble-videos.js:230-242 | the list file is written with the concat content first, then the concat copy is shown or executed |
| Planner.AssembleTransition | tools/assemble-videos.js:244-303 | fewer than two clips fail with no effect; otherwise every clip's duration is probed unless --duration was given, and the last effect encodes the clips in order |
| Planner.AssembleGrid | tools/assemble-videos.js:366-376 | no plan fails with no effect; a plan gives exactly one encode of the clips with that graph and final label |
| Planner.Dispatch | tools/assemble-videos.js:488-509 | an assembly ends done, with too few clips, or with a failed command; it fails for too few clips exactly when the method is not concat and fewer than two clips were given |
| Planner.DispatchPreview | tools/assemble-videos.js:488-509 | with --preview no assembly executes a command |
| Planner.SimpleListLifecycle | tools/assemble-videos.js:230-241 | the simple method writes the list first and runs the `-c copy` command; it removes the list exactly when not previewing and the copy succeeded |
| Planner.SimpleListNamesClips | tools/assemble-videos.js:201-232 | the written list names every resolved clip once, in order |
| Planner.DurationsProbedOnlyWhenNotSet | tools/assemble-videos.js:245-252 | a transition run probes durations exactly when it has two or more clips and no --duration |
| Planner.DispatchSound | tools/assemble-videos.js:489-509 | every command a dispatched assembly shows or runs encodes the clips with a well-formed graph |
| Planner.TransitionSound | tools/assemble-videos.js:290-296 | every command a transition assembly shows or runs encodes the clips with a well-formed graph |
| Planner.GridSound | tools/assemble-videos.js:366-370 | every command a grid or stack assembly with a well-formed plan shows or runs encodes the clips with that graph |
| Planner.EncodedGraphsWellFormed | tools/assemble-videos.js:292-404 | every encode command of a run takes the clips in order and a well-formed graph whose last output is the label passed to `-map`, under either method check |
| Planner.SingleClipProbedThenRefused | tools/assemble-videos.js:245-248 | a transition, grid or stack run with one clip probes it and then fails for too few clips |
| Planner.ToStringCommandLine | tools/assemble-videos.js:427-465 | `--toString a.mp4` parses to method key `toString` and the single clip |
| Planner.InheritedMethodBuildsNothing | tools/assemble-videos.js:466-509 | as written, `--toString a.mp4` probes the clip and exits with status 0, having built and run nothing |
| Planner.InheritedMethodRefused | tools/assemble-videos.js:466-470 | with the check reading only the table's keys, the same command line fails as an unknown method before any probe |

## Left out

- The camera scripts (tools/camera-01-static.js and the others) download and crop images and do floating-point trigonometry. They only produce the input clips and are not part of this model.
- `getVideoInfo`, `getVideoDuration` and `runCommand` run ffprobe and ffmpeg. Their results are parameters of `Planner.Env`: readability, an optional duration, and ffmpeg's success.
- `parseInt` and `parseFloat` are parameters too. NaN is not modelled. A non-numeric `--duration` makes the clip length NaN. An ffprobe answer of `N/A` parses to NaN, which passes the `!== null` filter (tools/assemble-videos.js:252), makes the minimum NaN and so skips the adjustment for every clip. The model's `probeDuration` can only express a probe that throws (`None`).
- Timing.FailedProbesIgnored: covers only a probe that throws and yields `null`; a probe that answers `N/A` is not ignored by the source, and the model cannot express it.
- Numbers inside the filter text (`trim=0:9.5`, `duration=1`) are kept as Dafny reals and integers. Their JavaScript string formatting is not modelled.
- The graph is kept as nodes, not as the `[a][b]op=..[c];` text. The trailing-semicolon trimming (tools/assemble-videos.js:289, :360) and the quoting of paths in the command line are not modelled.
- `showHelp`, the banners and all console output are left out. The `fast` flag of the method table only feeds a banner.
- `fs.writeFileSync`, `fs.unlinkSync` and `path.resolve` appear as effects in the trace and as a resolve parameter; no file system is modelled.
- Timing.Adjust: the `Math.max(0.5, …)` floor of the transition clamp is modelled but can never apply. An adjusted clip is at least 2 s, so `clip - 1` is at least 1.
- Cli.GuardAgreesOnTable: the written check is modelled over the function-valued members of `Object.prototype` only. `__proto__` also passes it; the banner then throws before any probe, and that path is not modelled.
- ConcatList.ConcatListRoundTrip: proved only for paths without a newline. A single quote inside a path is not escaped either, and ffmpeg's own reading of quotes is not modelled.

## Findings

| source | as written | input that shows it | evidently intended | confidence | as-written member | corrected member |
|---|---|---|---|---|---|---|
| tools/assemble-videos.js:466 | `!METHODS[methodKey]` indexes a plain object, so inherited members such as `toString` pass the unknown-method check; the `switch` then has no case, and the run probes the clips and exits 0 without building anything | `node assemble-videos.js --toString a.mp4` | an unknown method is refused with the list of available methods before any probing | not executed | Planner.InheritedMethodBuildsNothing | Planner.InheritedMethodRefused |
