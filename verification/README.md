# ComfyUI toolbox scripts: workflow model manager and benchmark runner

This project models the decision logic of two Python scripts from the
AMD Strix Halo ComfyUI toolboxes and proves properties of it in Dafny.

- `scripts/model_manager.py` maps each ComfyUI workflow file (`*.json`)
  to a download action through a fixed, ordered rule table
  (`WORKFLOW_MAPPINGS`). It lists the workflows in a menu sorted by display
  name. On a confirmed choice it runs the download script once per
  argument, chained with ` && `.
- `scripts/benchmark_workflows.py` benchmarks every `.json` workflow of a
  directory, in sorted order. It skips workflows that already have a
  result for the configuration. It randomises the `seed` and `noise_seed`
  inputs before each run and waits on the websocket for the prompt to
  finish. It does a cold run, then a warm run only after a successful cold
  run with `--warm-start`, and appends one result record per benchmarked
  workflow.

Modules, in dependency order:

| file | module | what it holds |
|---|---|---|
| options.dfy | `Options` | `Option` |
| strings.dfy | `Strings` | substring test, `endswith`, str ordering, `join`, `str(i)` and `int(s)` |
| sorting.dfy | `Sorting` | stable insertion sort by a string key (`list.sort` / `sorted`) |
| matching.dfy | `Matching` | the rule table, first-match classification, `find_workflows` |
| download.dfy | `Download` | script location and command assembly of `execute_download` |
| menu.dfy | `Menu` | the menu list and one pass of the menu loop of `main` |
| seeds.dfy | `Seeds` | seed randomisation of `benchmark_workflow` |
| messages.dfy | `Messages` | the completion receive loop and `track_execution` |
| runner.dfy | `Runner` | skip test, cold/warm runs, result records, the loops of `main` |

Inputs from outside the program are parameters:
- The directory listing is a sequence of names.
- The file system is the set of paths that exist.
- The dialog answers are an optional tag and a yes/no flag.
- The random generator is a function from draw number to seed.
- The websocket is a finite sequence of frames, and the clock gives integer readings.
- Server start-up and each benchmark run are functions of a `World` value.

## Model

| member | source | states |
|---|---|---|
| Strings.Contains | scripts/model_manager.py:105 | `sub in s` holds exactly when `sub` occurs at some position of `s` |
| Strings.WithSuffix | scripts/benchmark_workflows.py:169 | the filter keeps exactly the names ending in the suffix, each as often as it was listed |
| Strings.ParseNatToString | scripts/model_manager.py:169-185 | `int(str(i)) == i`: a menu tag parses back to the index it was made from |
| Strings.ParseNat | scripts/model_manager.py:185 | parsing succeeds exactly on non-empty all-digit tags |
| Strings.NatToString | scripts/model_manager.py:171 | `str(i)` is a non-empty string of digits without a leading zero |
| Strings.LessEqTotal | scripts/model_manager.py:129 | any two names are comparable under str ordering |
| Strings.LessEqTransitive | scripts/model_manager.py:129 | str ordering is transitive |
| Sorting.SortBy | scripts/model_manager.py:129 | the result is ordered by the key and is a permutation of the input |
| Matching.FirstMatch | scripts/model_manager.py:103-112 | the chosen rule selects the file and no earlier rule does; none is chosen only when no rule selects it |
| Matching.Classify | scripts/model_manager.py:99-127 | a mapped entry carries the first selecting rule, never a plain Qwen-Image rule for a name with "Edit"; the entry is Unknown exactly when no rule selects, with name "Unknown: file", no script and no args |
| Matching.EditLoraNeverBaseQwen | scripts/model_manager.py:44-71 | a name with "Qwen-Image-Edit" and "LoRA" is always mapped, never to a plain Qwen-Image rule, and, without Hunyuan or Wan2.2 in it, to the Qwen Image Edit + LoRA rule |
| Matching.FindWorkflows | scripts/model_manager.py:97-130 | the result is sorted by display name and holds the classification of each listed `.json` name exactly as often as it was listed, and nothing else |
| Matching.ClassifyCount | scripts/model_manager.py:99-127 | classification is one-to-one, so each file's entry appears as often as the file does |
| Download.ScriptPath | scripts/model_manager.py:134-140 | the script under `/opt` is preferred, else the bare name; none exactly when neither exists |
| Download.BuildCommand | scripts/model_manager.py:142-146 | the command is the ` && `-join of `bash <path> <arg>` in argument order, contains every segment, and is empty exactly when there are no arguments |
| Download.ExecuteDownload | scripts/model_manager.py:132-146 | nothing runs exactly when the script exists in neither place; otherwise the command is the joined command over the location the lookup picks, the `/opt` one when present |
| Menu.MenuItems | scripts/model_manager.py:169-171 | the menu list alternates the tag `str(i)` and the display name of entry `i` |
| Menu.Selected | scripts/model_manager.py:185 | a tag selects an entry exactly when it parses to an index of the list |
| Menu.UsableScript | scripts/model_manager.py:188 | a script is used exactly when it is present and non-empty |
| Menu.HandleChoice | scripts/model_manager.py:181-203 | cancel or an empty answer exits and a bad tag raises; for a selected entry, no usable script gives the message, a usable script without confirmation does nothing, and with confirmation the download runs the entry's script over its args: not found exactly when neither location exists, otherwise the ` && `-joined command over the location `execute_download` picks |
| Menu.ChoosingTagSelectsEntry | scripts/model_manager.py:169-190 | answering with the tag shown for entry `i` selects entry `i`; when that entry has no script, the entry selected is one `UsableScript` rejects, which by `Menu.HandleChoice`'s contract means no download starts |
| Seeds.RedrawNode | scripts/benchmark_workflows.py:73-80 | a node without inputs is untouched; otherwise only its present seed keys change, to fresh seeds, and the draw counter advances by their number |
| Seeds.RandomizeSeeds | scripts/benchmark_workflows.py:70-80 | node ids, order and other keys are kept; every present `seed`/`noise_seed` holds a value in 1..10^14; the count equals the number of present seed slots |
| Seeds.PrepareWorkflow | scripts/benchmark_workflows.py:70-83 | without randomisation the workflow is sent unchanged and nothing is counted |
| Messages.ReceiveLoop | scripts/benchmark_workflows.py:110-126 | the loop completes at a finishing `executing` frame, errors at a matching `execution_error` or an exception, and every frame before the stop is ignored |
| Messages.Step | scripts/benchmark_workflows.py:113-122 | a frame finishes the loop exactly when it is an `executing` message with a null node for this prompt, reports an error exactly for this prompt's `execution_error`, and raises exactly on an undecodable frame or a missing `data`, `node` or `prompt_id` the code reads |
| Messages.CompletesIffFirstStopFinishes | scripts/benchmark_workflows.py:110-126 | the loop completes at frame `k` exactly when frame `k` finishes and every earlier frame is ignored |
| Messages.IgnoredFrames | scripts/benchmark_workflows.py:113-122 | binary frames, other message types and messages for another prompt do not stop the loop |
| Messages.RunDuration | scripts/benchmark_workflows.py:85-137 | a duration is returned exactly when the prompt was submitted and the loop completed, and it is the wall time between submission and completion |
| Messages.TrackCharacterised | scripts/benchmark_workflows.py:31-63 | at the first stopping frame: an end gives end minus the last start signal (or the first started node when there is none), 0 when a time is unset or 0; a matching error gives `None`; a bad frame raises |
| Messages.TrackRaisesWithoutStop | scripts/benchmark_workflows.py:39-59 | without a stopping frame, `track_execution` ends by an exception from `recv` |
| Messages.TrackStepOf | scripts/benchmark_workflows.py:41-59 | for `track_execution`, a frame ends the run, starts a node, signals a start or reports an error exactly when it is the matching message for this prompt, and raises exactly on an undecodable frame or a missing key the code reads |
| Messages.TrackExecution | scripts/benchmark_workflows.py:31-63 | with no stopping frame the function ends by `recv` raising; otherwise at the first stopping frame an end gives the end time minus the start time `StartAt` describes (0 when either is unset or 0), a matching error gives `None`, a malformed frame raises |
| Runner.BenchmarkFiles | scripts/benchmark_workflows.py:169 | the benchmarked files are exactly the listed `.json` names, sorted |
| Runner.FindExisting | scripts/benchmark_workflows.py:208-211 | the first record for this workflow and config, a record without config counting as "default"; none exactly when no record matches |
| Runner.MakeRecord | scripts/benchmark_workflows.py:262-273 | status is success exactly when the cold run returned a duration; durations fall back to 0 when absent or 0; workflow, config and env are copied |
| Runner.BenchmarkOne | scripts/benchmark_workflows.py:205-292 | a file that already has a result for the config is skipped and adds nothing; otherwise a failed server start breaks out of the loop without `--skip-errors` and moves on unchanged with it, and a started server measures the file; with the server up, a file makes no run exactly when it already has a result; at most one record, for this file and config; an exception from a benchmark run survives only without `--skip-errors` |
| Runner.Measure | scripts/benchmark_workflows.py:253-292 | the first run is cold; a warm run follows directly exactly when the cold run returned a duration under `--warm-start`; when no run raised, exactly one record is appended, built from the cold duration, the warm duration (or none when no warm run was made) and the clock; when a run raised, no record is appended and the exception survives only without `--skip-errors` |
| Runner.RunFiles | scripts/benchmark_workflows.py:205-292 | the per-file loop keeps earlier results and attempts as a prefix, leaves a raised state as it is, and ends raised only when an exception escaped without `--skip-errors` |
| Runner.MeasureKeepsWarmRule | scripts/benchmark_workflows.py:255-260 | a warm run is made only under `--warm-start`, directly after a cold run of the same file that returned a duration |
| Runner.RunFilesSkipsDone | scripts/benchmark_workflows.py:205-211 | a pass over files that all have results for the config changes nothing |
| Runner.RunFilesCoversFiles | scripts/benchmark_workflows.py:205-275 | with the server always up and no run raising, every file gets a result for the config and nothing raises |
| Runner.RunFilesKeepsWarmRule | scripts/benchmark_workflows.py:255-260 | every warm run directly follows a cold run of the same file that returned a duration, and only under `--warm-start` |
| Runner.MeasureStopsAtFirstThrow | scripts/benchmark_workflows.py:253-289 | without `--skip-errors`, measuring a file leaves the state raised exactly when its last run raised, and only its last run can raise: a raising cold run is not followed by a warm one |
| Runner.BenchmarkOneStopsAtFirstThrow | scripts/benchmark_workflows.py:244-289 | without `--skip-errors`, one iteration raises exactly when its last run raised; a skipped file or a failed server start raises nothing |
| Runner.BenchmarkOneSkipErrors | scripts/benchmark_workflows.py:244-289 | with `--skip-errors`, an iteration always goes on to the next file and raises nothing, a failed server start included; with the server up it either finds the file done or runs it cold |
| Runner.RunFilesRaisesOnlyOnThrow | scripts/benchmark_workflows.py:205-289 | the loop ends raised only when a cold or warm run of some file from the starting position on raised |
| Runner.RunFilesStopsAtFirstThrow | scripts/benchmark_workflows.py:205-289 | without `--skip-errors`, a run that raises is the last run the loop makes, so no later file is run, and the loop then ends raised; a raised loop always ends on such a run |
| Runner.RunFilesSkipErrorsContinues | scripts/benchmark_workflows.py:205-289 | with `--skip-errors`, the loop never raises and neither an exception nor a failed server start ends it: every file from the starting position on is run cold, already has a result for the config, or is one whose server did not start |
| Runner.RunFilesBreakEnds | scripts/benchmark_workflows.py:245-249 | an iteration that breaks on a server that did not start ends the file loop: the state comes back unchanged and no later file is run |
| Runner.RunFilesBreaksAtFailedStart | scripts/benchmark_workflows.py:205-249 | without `--skip-errors`, the loop skips files that already have a result and stops, unchanged and not raised, at the first file without one whose server does not start |
| Runner.RunFilesInOrder | scripts/benchmark_workflows.py:205 | over a sorted file list, the runs the loop makes are in order of their file names |
| Runner.RunConfigsFacts | scripts/benchmark_workflows.py:202-260 | over all configurations, every new record and run names a file of the list, and every warm run follows a successful cold run of the same file |
| Runner.RunConfigs | scripts/benchmark_workflows.py:202 | the loop over configurations keeps earlier results and attempts as a prefix and ends raised only when an exception escaped without `--skip-errors` |
| Runner.RunConfigsStopsAtFirstThrow | scripts/benchmark_workflows.py:202-289 | without `--skip-errors`, the loop over configurations ends raised exactly when its last run raised, and nothing runs after a run that raised, in this configuration or a later one |
| Runner.RunConfigsSkipErrorsContinues | scripts/benchmark_workflows.py:202-289 | with `--skip-errors`, nothing raises, and under every configuration every file is run cold, already has a result, or is one whose server did not start |
| Runner.RunConfigsBreakMovesOn | scripts/benchmark_workflows.py:202-249 | a `break` leaves only its configuration's file loop: the outer loop goes on with the next configuration from the same state |
| Runner.Main | scripts/benchmark_workflows.py:165-202 | stored results are kept as a prefix; a missing directory or no `.json` file does nothing; an exception from a benchmark run escapes only without `--skip-errors` |
| Runner.MainFacts | scripts/benchmark_workflows.py:169-275 | every new record and every run names a listed `.json` file, and the warm-run rule holds |
| Runner.MainSkipsFinishedWork | scripts/benchmark_workflows.py:179-211 | resuming over results that cover every `.json` file runs nothing and adds nothing |
| Runner.MainCoversEveryFile | scripts/benchmark_workflows.py:202-275 | with the server always up and no run raising, every `.json` file ends with a "default" result |
| Runner.MainStopsAtFirstThrow | scripts/benchmark_workflows.py:202-289 | without `--skip-errors`, `main` ends raised exactly when the last run it made raised; a run that raises is the last one, so the first exception ends the benchmark |
| Runner.MainSkipErrorsContinues | scripts/benchmark_workflows.py:160-289 | with `--skip-errors`, `main` finishes without an exception and every `.json` file of the directory is run cold, already has a "default" result, or is one whose server did not start: an exception or a failed start skips only its own file |
| Runner.MainBreaksAtFailedStart | scripts/benchmark_workflows.py:169-249 | without `--skip-errors`, when the first `.json` file in sorted order that has no "default" result is one whose server does not start, `main` ends there without an exception, with no run made and no record added |
| Runner.MainRunsInSortedOrder | scripts/benchmark_workflows.py:169-205 | `main` runs the workflows in sorted order of their file names |

## Left out

- `scripts/collect_perf_logs.py`, the `get_*.sh` download scripts and the container recipe are not part of this model.
- Dialog boxes, `check_dependencies`, clearing the screen, printed messages, the confirmation text and the "Press Enter" pause are user interface. Their text is not modelled.
- Running the download command, the ComfyUI server process, `.miopen` cleaning, server logs and process termination are not modelled. They are external processes.
- `wait_for_server` is the `World.serverUp` input. Its 60-second polling is not modelled.
- HTTP calls (`queue_prompt`, `get_history`) and the websocket connection are not modelled. They are network I/O. A failed connect or queue is a `Session` case.
- Loading and saving the results file is not modelled. It is file I/O, including the error messages on a failed save. Stored results are an input sequence.
- The missing-workflow-directory exit of `find_workflows` is not modelled. It is a message box followed by `sys.exit(1)`.
- `server.split(':')` raising on a malformed address is not modelled. It is argument parsing.
- Durations and timestamps are integers. The scripts use floats from `time.time()`.
- The composition of `Messages.RunDuration` into `Runner.BenchmarkOne` is not modelled. The runner sees each run as an opaque `World.bench` result.
- `track_execution` is defined in the script but nothing calls it. It is modelled on its own.
- `ws.recv()` blocking forever is not modelled. The frame sequence is finite, and its end acts as the exception a closed connection raises.
- JSON values for `prompt_id` other than strings are not modelled. A key holding a non-string is outside the model.
- Matching.FindWorkflows: entries whose display names are equal keep the directory's glob order. The contract states sortedness and contents, not that relative order.
- Sorting.SortBy: the sort is stable, like `list.sort`, but stability is not part of the contract.
- Download.ScriptPath: joining `/opt` with an absolute script name yields that absolute name in Python. The model always prefixes `/opt/`. Every name in the table is relative.
- Menu.HandleChoice: `int()` also accepts signs, surrounding whitespace, underscores and non-ASCII digits, and a negative index counts from the end of the list. The model treats such tags as raising. The menu only ever returns the tags it was given.
- Seeds.RandomizeSeeds: assumes that `inputs`, when present, is a JSON object. The model does not treat a list or string there.
- Runner.Main: its own contract does not describe the per-file loop. The failed-server-start paths at `main` level are stated by Runner.MainBreaksAtFailedStart (without `--skip-errors`) and Runner.MainSkipErrorsContinues (with it). MainBreaksAtFailedStart covers a failed start at the first file still to do; a failed start after earlier runs is covered loop by loop by Runner.RunFilesBreakEnds.
- Runner.FindExisting: stored records are assumed to carry a `workflow` key. A record without one makes the script raise `KeyError`.
- Runner.BenchmarkOne: exceptions from removing `.miopen`, opening `server.log` and starting the server process lie outside the `try` and leave `main` whatever `--skip-errors` says. The model does not raise there.
- Runner.Measure: a `KeyboardInterrupt` during a run is not an `Exception`, so it always leaves `main`. The model only has run exceptions that `except Exception` catches.
- Runner.FindExisting: a stored record with `"config": null` cannot be represented. `Record.config` is `None` only for a missing key. For such a record `r.get('config', 'default')` returns `None`, so the script benchmarks the file again, while the model would count it as "default".
