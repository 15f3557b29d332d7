/**
 * The bookkeeping of `main` in scripts/benchmark_workflows.py: which files
 * are benchmarked and in what order, the skip test against earlier results,
 * the cold and warm runs, and the result record each benchmarked workflow
 * appends. Server start-up, the benchmark runs and the clock are supplied as
 * a `World`; saving the results file is not modelled.
 */
module Runner {
  import opened Options
  import opened Strings
  import opened Sorting

  /** One stored result. `config` is `None` for records written before configurations existed. */
  datatype Record = Record(
    workflow: string,
    config: Option<string>,
    status: string,
    durationSeconds: int,
    coldRunSeconds: int,
    warmRunSeconds: int,
    timestamp: int,
    env: map<string, string>)

  /** A configuration: its name and the extra environment for the server. */
  datatype RunConfig = RunConfig(name: string, env: map<string, string>)

  /** The configurations the script runs: only "default", with no extra environment. */
  const Configs: seq<RunConfig> := [RunConfig("default", map[])]

  /** The two command-line switches that steer the loop. */
  datatype Flags = Flags(skipErrors: bool, warmStart: bool)

  datatype Phase = Cold | Warm

  /** What one call of `benchmark_workflow` did: a duration, `None` for failure, or an exception. */
  datatype Run = Returned(duration: Option<int>) | Threw

  /** The outside world: whether the server came up, what each run returned, the clock. */
  datatype World = World(
    serverUp: (string, string) -> bool,
    bench: (string, string, Phase) -> Run,
    clock: (string, string) -> int)

  /** A call of `benchmark_workflow`, in the order they were made. */
  datatype Attempt = Attempt(config: string, file: string, phase: Phase)

  /** The files `main` benchmarks: the `.json` names of the directory, sorted. */
  function BenchmarkFiles(listing: seq<string>): (r: seq<string>)
    ensures forall f :: f in r <==> f in listing && EndsWith(f, ".json")
    ensures SortedBy(r, name => name)
    ensures forall f :: EndsWith(f, ".json") ==> multiset(r)[f] == multiset(listing)[f]
  {
    SortBy(WithSuffix(listing, ".json"), name => name)
  }

  /** The config a stored record belongs to; records without one count as "default". */
  function ConfigOf(r: Record): string
  {
    r.config.GetOr("default")
  }

  /** The first record for this workflow and config (`next(...)` over the results). */
  function FindExisting(results: seq<Record>, file: string, config: string): (r: Option<nat>)
    ensures r.Some? ==>
      r.value < |results| && results[r.value].workflow == file && ConfigOf(results[r.value]) == config
    ensures r.Some? ==> forall j :: 0 <= j < r.value ==>
      !(results[j].workflow == file && ConfigOf(results[j]) == config)
    ensures r.None? <==> forall j :: 0 <= j < |results| ==>
      !(results[j].workflow == file && ConfigOf(results[j]) == config)
  {
    if |results| == 0 then None
    else if results[0].workflow == file && ConfigOf(results[0]) == config then Some(0)
    else match FindExisting(results[1..], file, config)
      case None =>
        assert forall j :: 1 <= j < |results| ==> results[j] == results[1..][j - 1];
        None
      case Some(i) => Some(i + 1)
  }

  /** The skip test: a record with this workflow and config already exists. */
  predicate AlreadyDone(results: seq<Record>, file: string, config: string)
  {
    FindExisting(results, file, config).Some?
  }

  /** Python truthiness of a duration: `None` and 0 are false. */
  function OrZero(d: Option<int>): int
  {
    if d.Some? && d.value != 0 then d.value else 0
  }

  /** The record appended for one benchmarked workflow. */
  function MakeRecord(file: string, config: RunConfig, cold: Option<int>, warm: Option<int>, now: int)
    : (r: Record)
    ensures r.workflow == file && r.config == Some(config.name) && r.env == config.env
    ensures r.status == "success" <==> cold.Some?
    ensures r.status == "success" || r.status == "failure"
    ensures r.durationSeconds == r.coldRunSeconds
    ensures cold.Some? && cold.value != 0 ==> r.coldRunSeconds == cold.value
    ensures cold.None? || cold == Some(0) ==> r.coldRunSeconds == 0
    ensures warm.Some? && warm.value != 0 ==> r.warmRunSeconds == warm.value
    ensures warm.None? || warm == Some(0) ==> r.warmRunSeconds == 0
    ensures r.timestamp == now
  {
    Record(file, Some(config.name), if cold.Some? then "success" else "failure",
           OrZero(cold), OrZero(cold), OrZero(warm), now, config.env)
  }

  /** Where the loop over one config's files stands. */
  datatype State = State(results: seq<Record>, attempts: seq<Attempt>, raised: bool)

  /** How one file's iteration ended. */
  datatype StepEnd = Next | Break

  /**
   * One iteration of the per-file loop: skip, give up on a server that did
   * not start (`break` without `--skip-errors`, `continue` with it), or
   * measure the workflow.
   */
  function BenchmarkOne(config: RunConfig, file: string, flags: Flags, world: World, s: State)
    : (r: (State, StepEnd))
    requires !s.raised
    ensures s.results <= r.0.results && s.attempts <= r.0.attempts
    ensures AlreadyDone(s.results, file, config.name) ==> r == (s, Next)
    ensures world.serverUp(config.name, file) ==>
      (AlreadyDone(s.results, file, config.name) <==> r.0.attempts == s.attempts)
    ensures world.serverUp(config.name, file) && !AlreadyDone(s.results, file, config.name) ==>
      |r.0.attempts| > |s.attempts| && r.0.attempts[|s.attempts|] == Attempt(config.name, file, Cold)
    ensures !AlreadyDone(s.results, file, config.name) && !world.serverUp(config.name, file) ==>
      r == (s, if flags.skipErrors then Next else Break)
    ensures !AlreadyDone(s.results, file, config.name) && world.serverUp(config.name, file) ==>
      r == (Measure(config, file, flags, world, s), Next)
    ensures r.1 == Break ==> r.0 == s && !world.serverUp(config.name, file) && !flags.skipErrors
    ensures |r.0.results| <= |s.results| + 1
    ensures |r.0.results| == |s.results| + 1 ==>
      r.0.results[|s.results|].workflow == file && r.0.results[|s.results|].config == Some(config.name)
    ensures !AlreadyDone(s.results, file, config.name) && world.serverUp(config.name, file)
      && world.bench(config.name, file, Cold).Returned?
      && (ColdSucceeded(world, config.name, file) && flags.warmStart ==>
            world.bench(config.name, file, Warm).Returned?)
      ==> |r.0.results| == |s.results| + 1
    ensures r.0.raised ==> !flags.skipErrors
    ensures r.0.raised ==>
      world.bench(config.name, file, Cold).Threw? || world.bench(config.name, file, Warm).Threw?
    ensures forall k :: |s.attempts| <= k < |r.0.attempts| ==>
      r.0.attempts[k].file == file && r.0.attempts[k].config == config.name
    ensures WarmFollowsColdSuccess(s.attempts, flags, world) ==>
      WarmFollowsColdSuccess(r.0.attempts, flags, world)
  {
    if AlreadyDone(s.results, file, config.name) then (s, Next)
    else if !world.serverUp(config.name, file) then
      (s, if flags.skipErrors then Next else Break)
    else
      MeasureKeepsWarmRule(config, file, flags, world, s);
      (Measure(config, file, flags, world, s), Next)
  }

  /**
   * The measuring part of an iteration: run cold then, if the cold run
   * returned a duration and `--warm-start` is set, warm, and append one
   * record. An exception from a run is re-raised unless `--skip-errors` is
   * set, in which case the file adds no record.
   */
  function Measure(config: RunConfig, file: string, flags: Flags, world: World, s: State): (r: State)
    ensures s.results <= r.results && s.attempts <= r.attempts
    ensures |r.attempts| > |s.attempts| && r.attempts[|s.attempts|] == Attempt(config.name, file, Cold)
    ensures WarmWanted(world, config.name, file, flags) ==>
      |r.attempts| == |s.attempts| + 2 && r.attempts[|s.attempts| + 1] == Attempt(config.name, file, Warm)
    ensures !WarmWanted(world, config.name, file, flags) ==> |r.attempts| == |s.attempts| + 1
    ensures NoRunThrew(world, config.name, file, flags) ==>
      r.raised == s.raised
      && r.results == s.results + [MakeRecord(file, config, world.bench(config.name, file, Cold).duration,
                                              WarmDuration(world, config.name, file, flags),
                                              world.clock(config.name, file))]
    ensures !NoRunThrew(world, config.name, file, flags) ==>
      r.results == s.results && r.raised == (s.raised || !flags.skipErrors)
    ensures |r.results| <= |s.results| + 1
    ensures |r.results| == |s.results| + 1 ==>
      r.results[|s.results|].workflow == file && r.results[|s.results|].config == Some(config.name)
    ensures world.bench(config.name, file, Cold).Returned?
      && (ColdSucceeded(world, config.name, file) && flags.warmStart ==>
            world.bench(config.name, file, Warm).Returned?)
      ==> |r.results| == |s.results| + 1
    ensures r.raised ==> s.raised || !flags.skipErrors
    ensures r.raised ==>
      (s.raised || world.bench(config.name, file, Cold).Threw? || world.bench(config.name, file, Warm).Threw?)
    ensures forall k :: |s.attempts| <= k < |r.attempts| ==>
      r.attempts[k].file == file && r.attempts[k].config == config.name
  {
    var coldRun := world.bench(config.name, file, Cold);
    var s1 := s.(attempts := s.attempts + [Attempt(config.name, file, Cold)]);
    if coldRun.Threw? then s1.(raised := s.raised || !flags.skipErrors)
    else
      var cold := coldRun.duration;
      var warmTried := cold.Some? && flags.warmStart;
      var warmRun := if warmTried then world.bench(config.name, file, Warm) else Returned(None);
      var s2 := if warmTried then s1.(attempts := s1.attempts + [Attempt(config.name, file, Warm)]) else s1;
      if warmRun.Threw? then s2.(raised := s.raised || !flags.skipErrors)
      else
        var rec := MakeRecord(file, config, cold, warmRun.duration, world.clock(config.name, file));
        s2.(results := s2.results + [rec])
  }

  /** A warm run is due: the cold run returned a duration and `--warm-start` is set. */
  predicate WarmWanted(world: World, config: string, file: string, flags: Flags)
  {
    ColdSucceeded(world, config, file) && flags.warmStart
  }

  /** Neither the cold run nor, when one is due, the warm run raised. */
  predicate NoRunThrew(world: World, config: string, file: string, flags: Flags)
  {
    world.bench(config, file, Cold).Returned?
    && (WarmWanted(world, config, file, flags) ==> world.bench(config, file, Warm).Returned?)
  }

  /** `duration_warm`: the warm run's result when one was made, else `None`. */
  function WarmDuration(world: World, config: string, file: string, flags: Flags): Option<int>
  {
    if WarmWanted(world, config, file, flags) && world.bench(config, file, Warm).Returned?
    then world.bench(config, file, Warm).duration
    else None
  }

  /** The runs `Measure` makes keep every warm run right behind a successful cold run. */
  lemma MeasureKeepsWarmRule(config: RunConfig, file: string, flags: Flags, world: World, s: State)
    ensures WarmFollowsColdSuccess(s.attempts, flags, world) ==>
      WarmFollowsColdSuccess(Measure(config, file, flags, world, s).attempts, flags, world)
  {
  }

  /** The cold run returned a duration (`duration_cold is not None`). */
  predicate ColdSucceeded(world: World, config: string, file: string)
  {
    world.bench(config, file, Cold).Returned? && world.bench(config, file, Cold).duration.Some?
  }

  /**
   * Every warm run directly follows a cold run of the same file that
   * returned a duration, and only with `--warm-start` set.
   */
  ghost predicate WarmFollowsColdSuccess(attempts: seq<Attempt>, flags: Flags, world: World)
  {
    forall i :: 0 <= i < |attempts| && attempts[i].phase == Warm ==>
      i > 0 && flags.warmStart
      && attempts[i - 1] == Attempt(attempts[i].config, attempts[i].file, Cold)
      && ColdSucceeded(world, attempts[i].config, attempts[i].file)
  }

  /**
   * The per-file loop of one config, from file `i` on: it stops early on
   * `break` or on an exception that is re-raised. Earlier results and
   * attempts are kept as they were.
   */
  function RunFiles(config: RunConfig, files: seq<string>, i: nat, flags: Flags, world: World, s: State)
    : (r: State)
    requires i <= |files|
    ensures s.results <= r.results && s.attempts <= r.attempts
    ensures s.raised ==> r == s
    ensures r.raised ==> s.raised || !flags.skipErrors
    decreases |files| - i
  {
    if s.raised || i == |files| then s
    else
      var (s1, end) := BenchmarkOne(config, files[i], flags, world, s);
      if end == Break then s1 else RunFiles(config, files, i + 1, flags, world, s1)
  }

  /** A cold or a warm run of some file from `i` on raises an exception. */
  ghost predicate SomeRunThrows(world: World, config: string, files: seq<string>, i: nat)
  {
    exists j :: i <= j < |files| && (world.bench(config, files[j], Cold).Threw? || world.bench(config, files[j], Warm).Threw?)
  }

  /** Every record and attempt in `after` beyond those of `before` names a file of `files`. */
  ghost predicate AddsOnly(before: State, after: State, files: seq<string>)
  {
    && (forall k :: |before.results| <= k < |after.results| ==> after.results[k].workflow in files)
    && (forall k :: |before.attempts| <= k < |after.attempts| ==> after.attempts[k].file in files)
  }

  /** Records and attempts the loop adds are for files from `i` on. */
  lemma {:induction false} RunFilesAddsOnlyListedFiles(config: RunConfig, files: seq<string>, i: nat,
                                                       flags: Flags, world: World, s: State)
    requires i <= |files|
    ensures AddsOnly(s, RunFiles(config, files, i, flags, world, s), files[i..])
    decreases |files| - i
  {
    if !s.raised && i < |files| {
      var (s1, end) := BenchmarkOne(config, files[i], flags, world, s);
      RunFilesStep(config, files, i, flags, world, s);
      assert files[i..] == [files[i]] + files[i + 1..];
      assert AddsOnly(s, s1, [files[i]]);
      if end == Break {
        AddsOnlyChain(s, s1, s1, [files[i]], files[i + 1..]);
      } else {
        RunFilesAddsOnlyListedFiles(config, files, i + 1, flags, world, s1);
        AddsOnlyChain(s, s1, RunFiles(config, files, i + 1, flags, world, s1), [files[i]], files[i + 1..]);
      }
    }
  }

  /** Additions over two consecutive stretches are additions over their joined file lists. */
  lemma AddsOnlyChain(s: State, s1: State, r: State, first: seq<string>, rest: seq<string>)
    requires s.results <= s1.results <= r.results && s.attempts <= s1.attempts <= r.attempts
    requires AddsOnly(s, s1, first) && AddsOnly(s1, r, rest)
    ensures AddsOnly(s, r, first + rest)
  {
    forall k | |s.results| <= k < |r.results|
      ensures r.results[k].workflow in first + rest
    {
      if k < |s1.results| {
        assert r.results[k] == s1.results[k];
      }
    }
    forall k | |s.attempts| <= k < |r.attempts|
      ensures r.attempts[k].file in first + rest
    {
      if k < |s1.attempts| {
        assert r.attempts[k] == s1.attempts[k];
      }
    }
  }

  /** A record found in a list is still found once more records are appended. */
  lemma AlreadyDoneExtends(results: seq<Record>, more: seq<Record>, file: string, config: string)
    requires results <= more
    requires AlreadyDone(results, file, config)
    ensures AlreadyDone(more, file, config)
  {
    var j := FindExisting(results, file, config).value;
    assert more[j] == results[j];
  }

  /**
   * Re-running over results that already hold every file for this config
   * changes nothing: each file is skipped.
   */
  lemma {:induction false} RunFilesSkipsDone(config: RunConfig, files: seq<string>, i: nat,
                                             flags: Flags, world: World, s: State)
    requires i <= |files|
    requires forall j :: i <= j < |files| ==> AlreadyDone(s.results, files[j], config.name)
    ensures RunFiles(config, files, i, flags, world, s) == s
    decreases |files| - i
  {
    if !s.raised && i < |files| {
      RunFilesSkipsDone(config, files, i + 1, flags, world, s);
    }
  }

  /**
   * When the server always comes up and no run raises, the loop raises
   * nothing and leaves a record for every file from `i` on.
   */
  lemma {:induction false} RunFilesCoversFiles(config: RunConfig, files: seq<string>, i: nat,
                                               flags: Flags, world: World, s: State)
    requires i <= |files| && !s.raised
    requires forall f :: world.serverUp(config.name, f)
    requires forall f, p :: world.bench(config.name, f, p).Returned?
    ensures !RunFiles(config, files, i, flags, world, s).raised
    ensures forall j :: i <= j < |files| ==>
      AlreadyDone(RunFiles(config, files, i, flags, world, s).results, files[j], config.name)
    decreases |files| - i
  {
    if i < |files| {
      var file := files[i];
      assert world.serverUp(config.name, file);
      assert world.bench(config.name, file, Cold).Returned? && world.bench(config.name, file, Warm).Returned?;
      BenchmarkOneRecords(config, file, flags, world, s);
      var s1 := BenchmarkOne(config, file, flags, world, s).0;
      RunFilesStep(config, files, i, flags, world, s);
      RunFilesCoversFiles(config, files, i + 1, flags, world, s1);
      var r := RunFiles(config, files, i + 1, flags, world, s1);
      assert r == RunFiles(config, files, i, flags, world, s);
      AlreadyDoneExtends(s1.results, r.results, file, config.name);
      forall j | i <= j < |files|
        ensures AlreadyDone(r.results, files[j], config.name)
      {
        if j > i {
          assert AlreadyDone(r.results, files[j], config.name);
        }
      }
    }
  }

  /** One turn of the per-file loop, for a state that has not raised. */
  lemma RunFilesStep(config: RunConfig, files: seq<string>, i: nat, flags: Flags, world: World, s: State)
    requires i < |files| && !s.raised
    ensures var (s1, end) := BenchmarkOne(config, files[i], flags, world, s);
      RunFiles(config, files, i, flags, world, s)
        == if end == Break then s1 else RunFiles(config, files, i + 1, flags, world, s1)
  {
  }

  /** With the server up and neither run raising, one iteration leaves a record for its file. */
  lemma BenchmarkOneRecords(config: RunConfig, file: string, flags: Flags, world: World, s: State)
    requires !s.raised && world.serverUp(config.name, file)
    requires world.bench(config.name, file, Cold).Returned? && world.bench(config.name, file, Warm).Returned?
    ensures BenchmarkOne(config, file, flags, world, s).1 == Next
    ensures !BenchmarkOne(config, file, flags, world, s).0.raised
    ensures AlreadyDone(BenchmarkOne(config, file, flags, world, s).0.results, file, config.name)
  {
    var s1 := BenchmarkOne(config, file, flags, world, s).0;
    if !AlreadyDone(s.results, file, config.name) {
      var k := |s.results|;
      assert s1.results[k].workflow == file && ConfigOf(s1.results[k]) == config.name;
    }
  }

  /** The warm-run rule holds of every attempt the loop makes. */
  lemma {:induction false} RunFilesKeepsWarmRule(config: RunConfig, files: seq<string>, i: nat,
                                                 flags: Flags, world: World, s: State)
    requires i <= |files|
    requires WarmFollowsColdSuccess(s.attempts, flags, world)
    ensures WarmFollowsColdSuccess(RunFiles(config, files, i, flags, world, s).attempts, flags, world)
    decreases |files| - i
  {
    if !s.raised && i < |files| {
      var (s1, end) := BenchmarkOne(config, files[i], flags, world, s);
      if end != Break {
        RunFilesKeepsWarmRule(config, files, i + 1, flags, world, s1);
      }
    }
  }

  /** The loop ends raised only when a cold or warm run of some file from `i` on raised. */
  lemma {:induction false} RunFilesRaisesOnlyOnThrow(config: RunConfig, files: seq<string>, i: nat,
                                                     flags: Flags, world: World, s: State)
    requires i <= |files| && !s.raised
    ensures RunFiles(config, files, i, flags, world, s).raised ==> SomeRunThrows(world, config.name, files, i)
    decreases |files| - i
  {
    if i < |files| {
      var step := BenchmarkOne(config, files[i], flags, world, s);
      RunFilesStep(config, files, i, flags, world, s);
      if step.0.raised {
        SomeRunThrowsAt(world, config.name, files, i, i);
      } else if step.1 != Break {
        RunFilesRaisesOnlyOnThrow(config, files, i + 1, flags, world, step.0);
        if RunFiles(config, files, i + 1, flags, world, step.0).raised {
          SomeRunThrowsShift(world, config.name, files, i);
        }
      }
    }
  }

  /** A file whose run raised, at or after `i`, is a witness. */
  lemma SomeRunThrowsAt(world: World, config: string, files: seq<string>, i: nat, j: nat)
    requires i <= j < |files|
    requires world.bench(config, files[j], Cold).Threw? || world.bench(config, files[j], Warm).Threw?
    ensures SomeRunThrows(world, config, files, i)
  {
  }

  /** A raising run from `i + 1` on is one from `i` on. */
  lemma SomeRunThrowsShift(world: World, config: string, files: seq<string>, i: nat)
    requires SomeRunThrows(world, config, files, i + 1)
    ensures SomeRunThrows(world, config, files, i)
  {
    var j :| i + 1 <= j < |files|
      && (world.bench(config, files[j], Cold).Threw? || world.bench(config, files[j], Warm).Threw?);
    SomeRunThrowsAt(world, config, files, i, j);
  }

  /** The run an attempt stands for raised an exception. */
  predicate RunThrew(world: World, a: Attempt)
  {
    world.bench(a.config, a.file, a.phase).Threw?
  }

  /**
   * The error path without `--skip-errors`, over the runs from position
   * `from` on: a run that raised is the last run made and leaves the state
   * raised, and a raised state comes only from such a run.
   */
  ghost predicate StopsAtFirstThrow(from: nat, r: State, world: World)
  {
    && (forall k :: from <= k < |r.attempts| && RunThrew(world, r.attempts[k]) ==>
          k == |r.attempts| - 1 && r.raised)
    && (r.raised ==> from < |r.attempts| && RunThrew(world, r.attempts[|r.attempts| - 1]))
  }

  /** Without `--skip-errors`, measuring a file raises exactly when its last run raised. */
  lemma MeasureStopsAtFirstThrow(config: RunConfig, file: string, flags: Flags, world: World, s: State)
    requires !s.raised && !flags.skipErrors
    ensures StopsAtFirstThrow(|s.attempts|, Measure(config, file, flags, world, s), world)
  {
    var r := Measure(config, file, flags, world, s);
    assert r.attempts[|s.attempts|] == Attempt(config.name, file, Cold);
  }

  /** Without `--skip-errors`, one iteration raises exactly when its last run raised. */
  lemma BenchmarkOneStopsAtFirstThrow(config: RunConfig, file: string, flags: Flags, world: World, s: State)
    requires !s.raised && !flags.skipErrors
    ensures StopsAtFirstThrow(|s.attempts|, BenchmarkOne(config, file, flags, world, s).0, world)
  {
    if !AlreadyDone(s.results, file, config.name) && world.serverUp(config.name, file) {
      MeasureStopsAtFirstThrow(config, file, flags, world, s);
    }
  }

  /** The error path of two consecutive stretches, the first of which ended without raising. */
  lemma StopsAtFirstThrowChain(s: State, s1: State, r: State, world: World)
    requires s.attempts <= s1.attempts <= r.attempts && !s1.raised
    requires StopsAtFirstThrow(|s.attempts|, s1, world) && StopsAtFirstThrow(|s1.attempts|, r, world)
    ensures StopsAtFirstThrow(|s.attempts|, r, world)
  {
    forall k | |s.attempts| <= k < |s1.attempts|
      ensures !RunThrew(world, r.attempts[k])
    {
      assert r.attempts[k] == s1.attempts[k];
    }
  }

  /**
   * Without `--skip-errors`, the loop ends raised exactly when the last run
   * it made raised, and a run that raises is the last one: no later file is
   * run. In particular a `break` on a server that did not start ends the
   * loop without raising.
   */
  lemma {:induction false} RunFilesStopsAtFirstThrow(config: RunConfig, files: seq<string>, i: nat,
                                                     flags: Flags, world: World, s: State)
    requires i <= |files| && !s.raised && !flags.skipErrors
    ensures StopsAtFirstThrow(|s.attempts|, RunFiles(config, files, i, flags, world, s), world)
    decreases |files| - i
  {
    if i < |files| {
      var (s1, end) := BenchmarkOne(config, files[i], flags, world, s);
      RunFilesStep(config, files, i, flags, world, s);
      BenchmarkOneStopsAtFirstThrow(config, files[i], flags, world, s);
      if end != Break && !s1.raised {
        RunFilesStopsAtFirstThrow(config, files, i + 1, flags, world, s1);
        StopsAtFirstThrowChain(s, s1, RunFiles(config, files, i + 1, flags, world, s1), world);
      }
    }
  }

  /**
   * With `--skip-errors` the loop never raises and does not stop early:
   * neither an exception nor a server that did not start ends it, so every
   * file from `i` on is run cold, already has a result for the config, or
   * is one whose server did not start.
   */
  lemma {:induction false} RunFilesSkipErrorsContinues(config: RunConfig, files: seq<string>, i: nat,
                                                       flags: Flags, world: World, s: State)
    requires i <= |files| && !s.raised && flags.skipErrors
    ensures !RunFiles(config, files, i, flags, world, s).raised
    ensures forall j :: i <= j < |files| ==>
      Attempt(config.name, files[j], Cold) in RunFiles(config, files, i, flags, world, s).attempts
      || AlreadyDone(RunFiles(config, files, i, flags, world, s).results, files[j], config.name)
      || !world.serverUp(config.name, files[j])
    decreases |files| - i
  {
    if i < |files| {
      var file := files[i];
      BenchmarkOneSkipErrors(config, file, flags, world, s);
      var s1 := BenchmarkOne(config, file, flags, world, s).0;
      RunFilesStep(config, files, i, flags, world, s);
      RunFilesSkipErrorsContinues(config, files, i + 1, flags, world, s1);
      var r := RunFiles(config, files, i + 1, flags, world, s1);
      assert r == RunFiles(config, files, i, flags, world, s);
      forall j | i <= j < |files|
        ensures Attempt(config.name, files[j], Cold) in r.attempts || AlreadyDone(r.results, files[j], config.name)
          || !world.serverUp(config.name, files[j])
      {
        if j == i && world.serverUp(config.name, file) {
          if Attempt(config.name, file, Cold) in s1.attempts {
            var k :| 0 <= k < |s1.attempts| && s1.attempts[k] == Attempt(config.name, file, Cold);
            assert r.attempts[k] == s1.attempts[k];
          } else {
            AlreadyDoneExtends(s1.results, r.results, file, config.name);
          }
        }
      }
    }
  }

  /**
   * With `--skip-errors`, one iteration always goes on to the next file and
   * raises nothing; with the server up it runs its file cold or finds it done.
   */
  lemma BenchmarkOneSkipErrors(config: RunConfig, file: string, flags: Flags, world: World, s: State)
    requires !s.raised && flags.skipErrors
    ensures BenchmarkOne(config, file, flags, world, s).1 == Next
    ensures !BenchmarkOne(config, file, flags, world, s).0.raised
    ensures world.serverUp(config.name, file) ==>
      Attempt(config.name, file, Cold) in BenchmarkOne(config, file, flags, world, s).0.attempts
      || AlreadyDone(BenchmarkOne(config, file, flags, world, s).0.results, file, config.name)
  {
    var s1 := BenchmarkOne(config, file, flags, world, s).0;
    if !AlreadyDone(s.results, file, config.name) && world.serverUp(config.name, file) {
      assert s1.attempts[|s.attempts|] == Attempt(config.name, file, Cold);
    }
  }

  /** A `break` on a server that did not start ends the file loop: nothing more runs and nothing changes. */
  lemma RunFilesBreakEnds(config: RunConfig, files: seq<string>, i: nat, flags: Flags, world: World, s: State)
    requires i < |files| && !s.raised && BenchmarkOne(config, files[i], flags, world, s).1 == Break
    ensures RunFiles(config, files, i, flags, world, s) == s
  {
    RunFilesStep(config, files, i, flags, world, s);
  }

  /**
   * Without `--skip-errors`, the loop skips the files that already have a
   * result and stops, unchanged and not raised, at the first one that has
   * none and whose server does not start: no later file is run.
   */
  lemma {:induction false} RunFilesBreaksAtFailedStart(config: RunConfig, files: seq<string>, i: nat, k: nat,
                                                       flags: Flags, world: World, s: State)
    requires i <= k < |files| && !s.raised && !flags.skipErrors
    requires !AlreadyDone(s.results, files[k], config.name) && !world.serverUp(config.name, files[k])
    requires forall j :: i <= j < k ==> AlreadyDone(s.results, files[j], config.name) || files[j] == files[k]
    ensures RunFiles(config, files, i, flags, world, s) == s
    decreases k - i
  {
    RunFilesStep(config, files, i, flags, world, s);
    if AlreadyDone(s.results, files[i], config.name) {
      RunFilesBreaksAtFailedStart(config, files, i + 1, k, flags, world, s);
    } else {
      RunFilesBreakEnds(config, files, i, flags, world, s);
    }
  }

  /** The runs from position `from` on are in order of their file names. */
  ghost predicate FilesInOrder(from: nat, attempts: seq<Attempt>)
  {
    forall k, l :: from <= k < l < |attempts| ==> LessEq(attempts[k].file, attempts[l].file)
  }

  /** Over a sorted file list, the loop runs the files in order. */
  lemma {:induction false} RunFilesInOrder(config: RunConfig, files: seq<string>, i: nat,
                                           flags: Flags, world: World, s: State)
    requires i <= |files| && SortedBy(files, name => name)
    ensures FilesInOrder(|s.attempts|, RunFiles(config, files, i, flags, world, s).attempts)
    decreases |files| - i
  {
    if !s.raised && i < |files| {
      var (s1, end) := BenchmarkOne(config, files[i], flags, world, s);
      RunFilesStep(config, files, i, flags, world, s);
      LessEqReflexive(files[i]);
      RunFilesInOrder(config, files, i + 1, flags, world, s1);
      RunFilesAddsOnlyListedFiles(config, files, i + 1, flags, world, s1);
      var r := RunFiles(config, files, i + 1, flags, world, s1);
      if end != Break {
        forall k, l | |s.attempts| <= k < l < |r.attempts|
          ensures LessEq(r.attempts[k].file, r.attempts[l].file)
        {
          if l < |s1.attempts| {
            assert r.attempts[k] == s1.attempts[k] && r.attempts[l] == s1.attempts[l];
          } else if k < |s1.attempts| {
            assert r.attempts[k] == s1.attempts[k];
            var m :| 0 <= m < |files| - (i + 1) && files[i + 1..][m] == r.attempts[l].file;
            assert files[i + 1 + m] == r.attempts[l].file;
          }
        }
      }
    }
  }

  /** The outer loop over the configurations. */
  function RunConfigs(configs: seq<RunConfig>, files: seq<string>, flags: Flags, world: World, s: State)
    : (r: State)
    ensures s.results <= r.results && s.attempts <= r.attempts
    ensures r.raised ==> s.raised || !flags.skipErrors
    ensures s.raised ==> r == s
  {
    if |configs| == 0 then s
    else RunConfigs(configs[1..], files, flags, world, RunFiles(configs[0], files, 0, flags, world, s))
  }

  /** Over all configurations, new records and attempts name only files of the list, and the warm-run rule holds. */
  lemma {:induction false} RunConfigsFacts(configs: seq<RunConfig>, files: seq<string>, flags: Flags,
                                           world: World, s: State)
    requires WarmFollowsColdSuccess(s.attempts, flags, world)
    ensures AddsOnly(s, RunConfigs(configs, files, flags, world, s), files)
    ensures WarmFollowsColdSuccess(RunConfigs(configs, files, flags, world, s).attempts, flags, world)
  {
    if |configs| > 0 {
      var s1 := RunFiles(configs[0], files, 0, flags, world, s);
      assert files[0..] == files;
      RunFilesAddsOnlyListedFiles(configs[0], files, 0, flags, world, s);
      RunFilesKeepsWarmRule(configs[0], files, 0, flags, world, s);
      RunConfigsFacts(configs[1..], files, flags, world, s1);
      var r := RunConfigs(configs[1..], files, flags, world, s1);
      assert r == RunConfigs(configs, files, flags, world, s);
      forall k | |s.results| <= k < |r.results|
        ensures r.results[k].workflow in files
      {
        if k < |s1.results| {
          assert r.results[k] == s1.results[k];
        }
      }
      forall k | |s.attempts| <= k < |r.attempts|
        ensures r.attempts[k].file in files
      {
        if k < |s1.attempts| {
          assert r.attempts[k] == s1.attempts[k];
        }
      }
    }
  }

  /**
   * Without `--skip-errors`, the loop over configurations ends raised
   * exactly when the last run it made raised, and nothing runs after a run
   * that raised, in this configuration or a later one.
   */
  lemma {:induction false} RunConfigsStopsAtFirstThrow(configs: seq<RunConfig>, files: seq<string>,
                                                       flags: Flags, world: World, s: State)
    requires !s.raised && !flags.skipErrors
    ensures StopsAtFirstThrow(|s.attempts|, RunConfigs(configs, files, flags, world, s), world)
  {
    if |configs| > 0 {
      var s1 := RunFiles(configs[0], files, 0, flags, world, s);
      RunFilesStopsAtFirstThrow(configs[0], files, 0, flags, world, s);
      assert RunConfigs(configs, files, flags, world, s) == RunConfigs(configs[1..], files, flags, world, s1);
      if !s1.raised {
        RunConfigsStopsAtFirstThrow(configs[1..], files, flags, world, s1);
        StopsAtFirstThrowChain(s, s1, RunConfigs(configs[1..], files, flags, world, s1), world);
      }
    }
  }

  /**
   * With `--skip-errors`, the loop over configurations never raises, and
   * under every configuration every file is run cold, already has a result,
   * or is one whose server did not start.
   */
  lemma {:induction false} RunConfigsSkipErrorsContinues(configs: seq<RunConfig>, files: seq<string>,
                                                         flags: Flags, world: World, s: State)
    requires !s.raised && flags.skipErrors
    ensures !RunConfigs(configs, files, flags, world, s).raised
    ensures forall c, j :: c in configs && 0 <= j < |files| ==>
      Attempt(c.name, files[j], Cold) in RunConfigs(configs, files, flags, world, s).attempts
      || AlreadyDone(RunConfigs(configs, files, flags, world, s).results, files[j], c.name)
      || !world.serverUp(c.name, files[j])
  {
    if |configs| > 0 {
      var s1 := RunFiles(configs[0], files, 0, flags, world, s);
      RunFilesSkipErrorsContinues(configs[0], files, 0, flags, world, s);
      RunConfigsSkipErrorsContinues(configs[1..], files, flags, world, s1);
      var r := RunConfigs(configs[1..], files, flags, world, s1);
      assert r == RunConfigs(configs, files, flags, world, s);
      forall c, j | c in configs && 0 <= j < |files|
        ensures Attempt(c.name, files[j], Cold) in r.attempts || AlreadyDone(r.results, files[j], c.name)
          || !world.serverUp(c.name, files[j])
      {
        if c !in configs[1..] && world.serverUp(c.name, files[j]) {
          assert c == configs[0];
          if Attempt(c.name, files[j], Cold) in s1.attempts {
            var k :| 0 <= k < |s1.attempts| && s1.attempts[k] == Attempt(c.name, files[j], Cold);
            assert r.attempts[k] == s1.attempts[k];
          } else {
            AlreadyDoneExtends(s1.results, r.results, files[j], c.name);
          }
        }
      }
    }
  }

  /**
   * A `break` leaves only the file loop of its configuration: when the
   * first configuration stops at a server that did not start, the outer
   * loop goes on with the next configuration from the same state.
   */
  lemma RunConfigsBreakMovesOn(configs: seq<RunConfig>, files: seq<string>, k: nat,
                               flags: Flags, world: World, s: State)
    requires |configs| > 0 && k < |files| && !s.raised && !flags.skipErrors
    requires !AlreadyDone(s.results, files[k], configs[0].name) && !world.serverUp(configs[0].name, files[k])
    requires forall j :: 0 <= j < k ==> AlreadyDone(s.results, files[j], configs[0].name) || files[j] == files[k]
    ensures RunConfigs(configs, files, flags, world, s) == RunConfigs(configs[1..], files, flags, world, s)
  {
    RunFilesBreaksAtFailedStart(configs[0], files, 0, k, flags, world, s);
  }

  /**
   * `main`: with the workflow directory missing or holding no `.json`
   * file nothing happens; otherwise every config runs over the sorted
   * `.json` names, starting from the results already on disk.
   */
  function Main(dirExists: bool, listing: seq<string>, existing: seq<Record>, flags: Flags, world: World)
    : (r: State)
    ensures existing <= r.results
    ensures !dirExists || WithSuffix(listing, ".json") == [] ==> r == State(existing, [], false)
    ensures r.raised ==> !flags.skipErrors
  {
    var start := State(existing, [], false);
    if !dirExists then start
    else
      var files := BenchmarkFiles(listing);
      if |files| == 0 then
        start
      else
        RunConfigs(Configs, files, flags, world, start)
  }

  /** With `.json` files present, `main` is one pass of the file loop under "default". */
  lemma MainRunsDefaultOnce(listing: seq<string>, existing: seq<Record>, flags: Flags, world: World)
    requires |BenchmarkFiles(listing)| > 0
    ensures Main(true, listing, existing, flags, world)
      == RunFiles(Configs[0], BenchmarkFiles(listing), 0, flags, world, State(existing, [], false))
  {
    var files := BenchmarkFiles(listing);
    var start := State(existing, [], false);
    assert RunConfigs(Configs, files, flags, world, start)
      == RunConfigs([], files, flags, world, RunFiles(Configs[0], files, 0, flags, world, start));
  }

  /**
   * Everything `main` adds is about `.json` files of the directory, and
   * every warm run follows a successful cold run of the same file under
   * `--warm-start`.
   */
  lemma MainFacts(dirExists: bool, listing: seq<string>, existing: seq<Record>, flags: Flags, world: World)
    ensures var r := Main(dirExists, listing, existing, flags, world);
      && (forall k :: |existing| <= k < |r.results| ==>
            r.results[k].workflow in listing && EndsWith(r.results[k].workflow, ".json"))
      && (forall k :: 0 <= k < |r.attempts| ==>
            r.attempts[k].file in listing && EndsWith(r.attempts[k].file, ".json"))
      && WarmFollowsColdSuccess(r.attempts, flags, world)
  {
    var start := State(existing, [], false);
    if dirExists && |BenchmarkFiles(listing)| > 0 {
      RunConfigsFacts(Configs, BenchmarkFiles(listing), flags, world, start);
    }
  }

  /**
   * Resuming: when the stored results already hold every `.json` file of the
   * directory under "default", `main` runs nothing and adds nothing.
   */
  lemma MainSkipsFinishedWork(listing: seq<string>, existing: seq<Record>, flags: Flags, world: World)
    requires forall f :: f in listing && EndsWith(f, ".json") ==> AlreadyDone(existing, f, "default")
    ensures Main(true, listing, existing, flags, world) == State(existing, [], false)
  {
    var files := BenchmarkFiles(listing);
    var start := State(existing, [], false);
    if |files| > 0 {
      forall j | 0 <= j < |files|
        ensures AlreadyDone(existing, files[j], Configs[0].name)
      {
        assert files[j] in files;
      }
      RunFilesSkipsDone(Configs[0], files, 0, flags, world, start);
      MainRunsDefaultOnce(listing, existing, flags, world);
    }
  }

  /**
   * When the server always comes up and no run raises, `main` finishes
   * without an exception and every `.json` file of the directory has a
   * "default" record.
   */
  lemma MainCoversEveryFile(listing: seq<string>, existing: seq<Record>, flags: Flags, world: World)
    requires forall f :: world.serverUp("default", f)
    requires forall f, p :: world.bench("default", f, p).Returned?
    ensures !Main(true, listing, existing, flags, world).raised
    ensures forall f :: f in listing && EndsWith(f, ".json") ==>
      AlreadyDone(Main(true, listing, existing, flags, world).results, f, "default")
  {
    var files := BenchmarkFiles(listing);
    var start := State(existing, [], false);
    if |files| > 0 {
      RunFilesCoversFiles(Configs[0], files, 0, flags, world, start);
      MainRunsDefaultOnce(listing, existing, flags, world);
      forall f | f in listing && EndsWith(f, ".json")
        ensures AlreadyDone(Main(true, listing, existing, flags, world).results, f, "default")
      {
        var j :| 0 <= j < |files| && files[j] == f;
      }
    }
  }

  /**
   * Without `--skip-errors`, `main` ends raised exactly when the last run it
   * made raised, and a run that raises is the last one made: the first
   * exception ends the benchmark.
   */
  lemma MainStopsAtFirstThrow(dirExists: bool, listing: seq<string>, existing: seq<Record>,
                              flags: Flags, world: World)
    requires !flags.skipErrors
    ensures StopsAtFirstThrow(0, Main(dirExists, listing, existing, flags, world), world)
  {
    var start := State(existing, [], false);
    if dirExists && |BenchmarkFiles(listing)| > 0 {
      RunConfigsStopsAtFirstThrow(Configs, BenchmarkFiles(listing), flags, world, start);
    }
  }

  /**
   * With `--skip-errors`, `main` finishes without an exception and every
   * `.json` file of the directory is run cold, already has a "default"
   * result, or is one whose server did not start: an exception or a failed
   * start skips only its own file.
   */
  lemma MainSkipErrorsContinues(listing: seq<string>, existing: seq<Record>, flags: Flags, world: World)
    requires flags.skipErrors
    ensures !Main(true, listing, existing, flags, world).raised
    ensures forall f :: f in listing && EndsWith(f, ".json") ==>
      Attempt("default", f, Cold) in Main(true, listing, existing, flags, world).attempts
      || AlreadyDone(Main(true, listing, existing, flags, world).results, f, "default")
      || !world.serverUp("default", f)
  {
    var files := BenchmarkFiles(listing);
    var start := State(existing, [], false);
    if |files| > 0 {
      RunFilesSkipErrorsContinues(Configs[0], files, 0, flags, world, start);
      MainRunsDefaultOnce(listing, existing, flags, world);
      forall f | f in listing && EndsWith(f, ".json")
        ensures Attempt("default", f, Cold) in Main(true, listing, existing, flags, world).attempts
          || AlreadyDone(Main(true, listing, existing, flags, world).results, f, "default")
          || !world.serverUp("default", f)
      {
        var j :| 0 <= j < |files| && files[j] == f;
      }
    }
  }

  /**
   * Without `--skip-errors`, when the first `.json` file in sorted order
   * that has no "default" result is one whose server does not start,
   * `main` ends there without an exception: no run is made and no record
   * is added.
   */
  lemma MainBreaksAtFailedStart(listing: seq<string>, existing: seq<Record>, flags: Flags, world: World,
                                f: string)
    requires !flags.skipErrors
    requires f in listing && EndsWith(f, ".json")
    requires !AlreadyDone(existing, f, "default") && !world.serverUp("default", f)
    requires forall g :: g in listing && EndsWith(g, ".json") && LessEq(g, f) && g != f ==>
      AlreadyDone(existing, g, "default")
    ensures Main(true, listing, existing, flags, world) == State(existing, [], false)
  {
    var files := BenchmarkFiles(listing);
    var start := State(existing, [], false);
    var k :| 0 <= k < |files| && files[k] == f;
    forall j | 0 <= j < k
      ensures AlreadyDone(existing, files[j], "default") || files[j] == files[k]
    {
      assert files[j] in files;
      assert LessEq((name => name)(files[j]), (name => name)(files[k]));
    }
    RunFilesBreaksAtFailedStart(Configs[0], files, 0, k, flags, world, start);
    MainRunsDefaultOnce(listing, existing, flags, world);
  }

  /** `main` runs the workflows in sorted order of their file names. */
  lemma MainRunsInSortedOrder(dirExists: bool, listing: seq<string>, existing: seq<Record>,
                              flags: Flags, world: World)
    ensures FilesInOrder(0, Main(dirExists, listing, existing, flags, world).attempts)
  {
    var files := BenchmarkFiles(listing);
    var start := State(existing, [], false);
    if dirExists && |files| > 0 {
      RunFilesInOrder(Configs[0], files, 0, flags, world, start);
      MainRunsDefaultOnce(listing, existing, flags, world);
    }
  }
}
