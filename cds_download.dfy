/** The download loops and the `main` of download_era5_cds.py. The
    Climate Data Store client is an oracle `retrieve` that says whether a
    call succeeds; the output files are a set of paths. */
module CdsDownload {
  import opened Text
  import opened CdsRequest

  /** One `client.retrieve(dataset, request, target)` call. */
  datatype Call = Call(dataset: string, request: Request, target: string)

  /** The two download functions differ only in dataset, variables,
      pressure levels and target name. */
  datatype Levels = PressureLevels | SingleLevels

  function Dataset(levels: Levels): string
  {
    if levels == PressureLevels then PRESSURE_DATASET else SINGLE_DATASET
  }

  /** The request of one day for either kind of data. */
  function DayRequest(levels: Levels, year: string, month: string, day: string, times: seq<string>,
                      area: Option<seq<string>>): Request
  {
    if levels == PressureLevels then PressureRequest(year, month, day, times, area)
    else SingleRequest(year, month, day, times, area)
  }

  /** The target of one day, inside the stage's output directory. */
  function DayTarget(levels: Levels, outDir: string, year: string, month: string, day: string): string
  {
    if levels == PressureLevels then PressureTarget(outDir, year, month, day)
    else SingleTarget(outDir, year, month, day)
  }

  /** The call a stage makes for one day when that day's file is missing. */
  function DayCall(levels: Levels, outDir: string, year: string, month: string, day: string,
                   times: seq<string>, area: Option<seq<string>>): Call
  {
    Call(Dataset(levels), DayRequest(levels, year, month, day, times, area), DayTarget(levels, outDir, year, month, day))
  }

  /** The calls of a stage in day order, one per day. */
  function StageCalls(levels: Levels, outDir: string, year: string, month: string, days: seq<string>,
                      times: seq<string>, area: Option<seq<string>>): (jobs: seq<Call>)
    ensures |jobs| == |days|
    ensures forall i :: 0 <= i < |days| ==> jobs[i] == DayCall(levels, outDir, year, month, days[i], times, area)
  {
    seq(|days|, i requires 0 <= i < |days| => DayCall(levels, outDir, year, month, days[i], times, area))
  }

  /** The state of a stage: the paths on disk, the calls made so far and
      whether the last one failed (the script then exits with status 1). */
  datatype Stage = Stage(present: set<string>, calls: seq<Call>, failed: bool)

  /** One day: skip an existing target, otherwise call; a success writes
      the target, a failure stops the stage. */
  function Step(s: Stage, c: Call, retrieve: Call -> bool): Stage
  {
    if c.target in s.present then s
    else if retrieve(c) then Stage(s.present + {c.target}, s.calls + [c], false)
    else Stage(s.present, s.calls + [c], true)
  }

  /** The days of a stage in order, stopping at the first failure. */
  function RunStage(jobs: seq<Call>, s: Stage, retrieve: Call -> bool): Stage
  {
    if jobs == [] || s.failed then s else RunStage(jobs[1..], Step(s, jobs[0], retrieve), retrieve)
  }

  /** A stage from a directory listing, with no calls made yet. */
  function Fresh(present: set<string>): Stage
  {
    Stage(present, [], false)
  }

  /** Appending one more job after a run that has not failed is one more step. */
  lemma {:induction false} RunStageSnoc(jobs: seq<Call>, c: Call, s: Stage, retrieve: Call -> bool)
    requires !RunStage(jobs, s, retrieve).failed
    ensures RunStage(jobs + [c], s, retrieve) == Step(RunStage(jobs, s, retrieve), c, retrieve)
    decreases |jobs|
  {
    if jobs == [] {
      assert jobs + [c] == [c];
    } else {
      assert (jobs + [c])[1..] == jobs[1..] + [c];
      RunStageSnoc(jobs[1..], c, Step(s, jobs[0], retrieve), retrieve);
    }
  }

  /** `download_era5_pressure_levels` (levels = PressureLevels) and
      `download_era5_single_levels` (levels = SingleLevels): one request per
      day whose target is missing, stopping at the first failed call. */
  method DownloadStage(levels: Levels, outDir: string, year: string, month: string, days: seq<string>,
                       times: seq<string>, area: Option<seq<string>>, present0: set<string>,
                       retrieve: Call -> bool)
    returns (s: Stage)
    ensures s == RunStage(StageCalls(levels, outDir, year, month, days, times, area), Fresh(present0), retrieve)
  {
    ghost var jobs := StageCalls(levels, outDir, year, month, days, times, area);
    var present := present0;
    var calls: seq<Call> := [];
    var i := 0;
    while i < |days|
      invariant 0 <= i <= |days|
      invariant RunStage(jobs[..i], Fresh(present0), retrieve) == Stage(present, calls, false)
    {
      assert jobs[..i + 1] == jobs[..i] + [jobs[i]];
      RunStageSnoc(jobs[..i], jobs[i], Fresh(present0), retrieve);
      var target := DayTarget(levels, outDir, year, month, days[i]);
      if target in present {
        i := i + 1;
        continue;
      }
      var call := PrepareCall(levels, outDir, year, month, days[i], times, area);
      if !retrieve(call) {
        s := Stage(present, calls + [call], true);
        RunStageFailedStops(jobs[i + 1..], s, retrieve);
        assert jobs == jobs[..i + 1] + jobs[i + 1..];
        RunStageAppend(jobs[..i + 1], jobs[i + 1..], Fresh(present0), retrieve);
        return;
      }
      present := present + {target};
      calls := calls + [call];
      i := i + 1;
    }
    assert jobs[..|days|] == jobs;
    s := Stage(present, calls, false);
  }

  /** The body of one iteration once the target is known to be missing:
      the request dictionary, then the call. */
  method PrepareCall(levels: Levels, outDir: string, year: string, month: string, day: string,
                     times: seq<string>, area: Option<seq<string>>) returns (call: Call)
    ensures call == DayCall(levels, outDir, year, month, day, times, area)
  {
    var variables := if levels == PressureLevels then PRESSURE_VARIABLES else SINGLE_VARIABLES;
    var levelList := if levels == PressureLevels then Some(PRESSURE_LEVELS) else None;
    var request := MakeRequest(variables, levelList, year, month, day, times, area);
    call := Call(Dataset(levels), request, DayTarget(levels, outDir, year, month, day));
  }

  lemma RunStageFailedStops(jobs: seq<Call>, s: Stage, retrieve: Call -> bool)
    requires s.failed
    ensures RunStage(jobs, s, retrieve) == s
  {
  }

  /** Running two lists of jobs one after the other is running their
      concatenation. */
  lemma {:induction false} RunStageAppend(a: seq<Call>, b: seq<Call>, s: Stage, retrieve: Call -> bool)
    ensures RunStage(a + b, s, retrieve) == RunStage(b, RunStage(a, s, retrieve), retrieve)
    decreases |a|
  {
    if a == [] {
      assert a + b == b;
    } else if s.failed {
      RunStageFailedStops(b, s, retrieve);
    } else {
      assert (a + b)[1..] == a[1..] + b;
      RunStageAppend(a[1..], b, Step(s, a[0], retrieve), retrieve);
    }
  }

  // ---------------------------------------------------------------------
  // Properties of a stage

  /** What a stage keeps: the calls made before stay, files on disk stay,
      every new call is one of the jobs, its target was missing at the
      start, and there are at most as many new calls as jobs. */
  lemma {:induction false} StageCallsOnlyMissing(jobs: seq<Call>, s: Stage, retrieve: Call -> bool)
    ensures var t := RunStage(jobs, s, retrieve);
      s.present <= t.present && |s.calls| <= |t.calls| <= |s.calls| + |jobs| && t.calls[..|s.calls|] == s.calls &&
      forall k :: |s.calls| <= k < |t.calls| ==> t.calls[k] in jobs && t.calls[k].target !in s.present
    decreases |jobs|
  {
    if jobs != [] && !s.failed {
      var n := Step(s, jobs[0], retrieve);
      StageCallsOnlyMissing(jobs[1..], n, retrieve);
      var t := RunStage(jobs, s, retrieve);
      assert t.calls[..|n.calls|][..|s.calls|] == t.calls[..|s.calls|];
      forall k | |s.calls| <= k < |t.calls|
        ensures t.calls[k] in jobs && t.calls[k].target !in s.present
      {
        if k < |n.calls| {
          assert t.calls[k] == t.calls[..|n.calls|][k];
        } else {
          assert t.calls[k] in jobs[1..];
        }
      }
    }
  }

  /** A stage stops at its first failure: every new call but the last
      succeeded, and the stage failed exactly when its last call did. */
  lemma {:induction false} StageStopsAtFirstFailure(jobs: seq<Call>, s: Stage, retrieve: Call -> bool)
    requires !s.failed
    ensures var t := RunStage(jobs, s, retrieve);
      |t.calls| >= |s.calls| &&
      (forall k :: |s.calls| <= k < |t.calls| - 1 ==> retrieve(t.calls[k])) &&
      (t.failed <==> |t.calls| > |s.calls| && !retrieve(t.calls[|t.calls| - 1]))
    decreases |jobs|
  {
    if jobs != [] {
      var n := Step(s, jobs[0], retrieve);
      var t := RunStage(jobs, s, retrieve);
      if n.failed {
        RunStageFailedStops(jobs[1..], n, retrieve);
      } else {
        StageStopsAtFirstFailure(jobs[1..], n, retrieve);
        StageCallsOnlyMissing(jobs[1..], n, retrieve);
        assert |n.calls| > |s.calls| ==> t.calls[|s.calls|] == t.calls[..|n.calls|][|s.calls|];
      }
    }
  }

  /** A stage that ends without a failure leaves every day's target on disk,
      whether it was there already or was downloaded. */
  lemma {:induction false} StageCompletes(jobs: seq<Call>, s: Stage, retrieve: Call -> bool)
    requires !RunStage(jobs, s, retrieve).failed
    ensures forall j :: 0 <= j < |jobs| ==> jobs[j].target in RunStage(jobs, s, retrieve).present
    decreases |jobs|
  {
    if jobs != [] {
      var n := Step(s, jobs[0], retrieve);
      StageCompletes(jobs[1..], n, retrieve);
      StageCallsOnlyMissing(jobs[1..], n, retrieve);
      forall j | 0 <= j < |jobs|
        ensures jobs[j].target in RunStage(jobs, s, retrieve).present
      {
        if j > 0 {
          assert jobs[j] == jobs[1..][j - 1];
        }
      }
    }
  }

  /** Every call of a stage goes to the stage's dataset with a well-formed
      request for one of the days and that day's target: `area` exactly
      when an area was given, `pressure_level` exactly for pressure
      levels. */
  lemma StageCallsWellFormed(levels: Levels, outDir: string, year: string, month: string, days: seq<string>,
                             times: seq<string>, area: Option<seq<string>>, present: set<string>,
                             retrieve: Call -> bool)
    ensures var t := RunStage(StageCalls(levels, outDir, year, month, days, times, area), Fresh(present), retrieve);
      forall k :: 0 <= k < |t.calls| ==>
        t.calls[k].dataset == Dataset(levels) && t.calls[k].target !in present &&
        ("area" in t.calls[k].request <==> area.Some?) &&
        ("pressure_level" in t.calls[k].request <==> levels == PressureLevels) &&
        exists j :: 0 <= j < |days| && t.calls[k].target == DayTarget(levels, outDir, year, month, days[j]) &&
          CommonFields(t.calls[k].request, year, month, days[j], times)
  {
    var jobs := StageCalls(levels, outDir, year, month, days, times, area);
    var t := RunStage(jobs, Fresh(present), retrieve);
    StageCallsOnlyMissing(jobs, Fresh(present), retrieve);
    forall k | 0 <= k < |t.calls|
      ensures t.calls[k].dataset == Dataset(levels) && t.calls[k].target !in present &&
        ("area" in t.calls[k].request <==> area.Some?) &&
        ("pressure_level" in t.calls[k].request <==> levels == PressureLevels) &&
        exists j :: 0 <= j < |days| && t.calls[k].target == DayTarget(levels, outDir, year, month, days[j]) &&
          CommonFields(t.calls[k].request, year, month, days[j], times)
    {
      var j :| 0 <= j < |jobs| && jobs[j] == t.calls[k];
      if levels == PressureLevels {
        RequestShape(PRESSURE_VARIABLES, Some(PRESSURE_LEVELS), year, month, days[j], times, area);
      } else {
        RequestShape(SINGLE_VARIABLES, None, year, month, days[j], times, area);
      }
    }
  }

  /** The jobs whose target is not on disk, in day order. */
  function MissingJobs(jobs: seq<Call>, present: set<string>): (r: seq<Call>)
    ensures |r| <= |jobs|
  {
    if jobs == [] then []
    else if jobs[0].target in present then MissingJobs(jobs[1..], present)
    else [jobs[0]] + MissingJobs(jobs[1..], present)
  }

  /** No two jobs write the same target. */
  predicate DistinctTargets(jobs: seq<Call>)
  {
    forall i, j :: 0 <= i < j < |jobs| ==> jobs[i].target != jobs[j].target
  }

  /** A path that is no job's target does not change which jobs are missing. */
  lemma {:induction false} MissingIgnoresOther(jobs: seq<Call>, present: set<string>, path: string)
    requires forall j :: 0 <= j < |jobs| ==> jobs[j].target != path
    ensures MissingJobs(jobs, present + {path}) == MissingJobs(jobs, present)
    decreases |jobs|
  {
    if jobs != [] {
      assert jobs[0].target != path;
      MissingIgnoresOther(jobs[1..], present, path);
    }
  }

  /** With distinct targets a stage calls the missing days in day order,
      without skipping one: its calls are a prefix of the missing jobs, the
      whole of them when the stage does not fail. So after a failed call no
      later day is attempted, and no earlier missing day was passed over. */
  lemma {:induction false} StageCallsExactlyMissing(jobs: seq<Call>, s: Stage, retrieve: Call -> bool)
    requires !s.failed && DistinctTargets(jobs)
    ensures var t := RunStage(jobs, s, retrieve);
      var m := MissingJobs(jobs, s.present);
      |s.calls| <= |t.calls| <= |s.calls| + |m| &&
      t.calls == s.calls + m[..|t.calls| - |s.calls|] &&
      (!t.failed ==> t.calls == s.calls + m)
    decreases |jobs|
  {
    if jobs != [] {
      var rest := jobs[1..];
      var n := Step(s, jobs[0], retrieve);
      assert DistinctTargets(rest) by {
        forall i, j | 0 <= i < j < |rest|
          ensures rest[i].target != rest[j].target
        {
          assert rest[i] == jobs[i + 1] && rest[j] == jobs[j + 1];
        }
      }
      if jobs[0].target in s.present {
        StageCallsExactlyMissing(rest, n, retrieve);
      } else if n.failed {
        RunStageFailedStops(rest, n, retrieve);
        var m := MissingJobs(jobs, s.present);
        assert m[..1] == [jobs[0]];
      } else {
        forall j | 0 <= j < |rest|
          ensures rest[j].target != jobs[0].target
        {
          assert rest[j] == jobs[j + 1];
        }
        MissingIgnoresOther(rest, s.present, jobs[0].target);
        StageCallsExactlyMissing(rest, n, retrieve);
        var t := RunStage(jobs, s, retrieve);
        var m' := MissingJobs(rest, s.present);
        var k := |t.calls| - |n.calls|;
        assert t.calls == s.calls + [jobs[0]] + m'[..k];
        assert ([jobs[0]] + m')[..k + 1] == [jobs[0]] + m'[..k];
      }
    }
  }

  /** Different days of a stage have different targets. */
  lemma StageTargetsDistinct(levels: Levels, outDir: string, year: string, month: string, days: seq<string>,
                             times: seq<string>, area: Option<seq<string>>)
    requires forall i, j :: 0 <= i < j < |days| ==> days[i] != days[j]
    ensures DistinctTargets(StageCalls(levels, outDir, year, month, days, times, area))
  {
    var jobs := StageCalls(levels, outDir, year, month, days, times, area);
    forall i, j | 0 <= i < j < |jobs|
      ensures jobs[i].target != jobs[j].target
    {
      TargetsIdentifyDays(outDir, year, month, days[i], days[j]);
    }
  }

  /** The day list never names a day twice. */
  lemma DayListDistinct(startDay: int, endDay: int)
    ensures var days := DayList(startDay, endDay);
      forall i, j :: 0 <= i < j < |days| ==> days[i] != days[j]
  {
    var days := DayList(startDay, endDay);
    forall i, j | 0 <= i < j < |days|
      ensures days[i] != days[j]
    {
      FormatIntInjective(startDay + i, startDay + j, 2);
    }
  }

  /** Each stage of the script calls `client.retrieve` for the days whose
      target is missing, in day order and without skipping one, up to and
      including the first failure; for all of them when nothing fails. */
  lemma StageRunCallsMissing(levels: Levels, args: CdsArgs, area: Option<seq<string>>, present: set<string>,
                             retrieve: Call -> bool)
    ensures var sub := if levels == PressureLevels then "p_levels" else "s_levels";
      var jobs := StageCalls(levels, JoinPath(args.outDir, sub), args.year, NormaliseMonth(args.month),
                             DayList(args.startDay, args.endDay), TimeList(), area);
      var m := MissingJobs(jobs, present);
      var t := StageRun(levels, args, area, present, retrieve);
      |t.calls| <= |m| && t.calls == m[..|t.calls|] && (!t.failed ==> t.calls == m)
  {
    var sub := if levels == PressureLevels then "p_levels" else "s_levels";
    var days := DayList(args.startDay, args.endDay);
    DayListDistinct(args.startDay, args.endDay);
    StageTargetsDistinct(levels, JoinPath(args.outDir, sub), args.year, NormaliseMonth(args.month), days, TimeList(), area);
    StageCallsExactlyMissing(StageCalls(levels, JoinPath(args.outDir, sub), args.year, NormaliseMonth(args.month),
                                        days, TimeList(), area), Fresh(present), retrieve);
  }

  // ---------------------------------------------------------------------
  // The script

  /** The command line: `--year`, `--month`, `--start-day`, `--end-day`,
      `--out-dir`, `--area`, `--skip-pressure`, `--skip-single`. */
  datatype CdsArgs = CdsArgs(year: string, month: string, startDay: int, endDay: int, outDir: string,
                             area: Option<string>, skipPressure: bool, skipSingle: bool)

  /** The exit status and the calls of each stage. */
  datatype CdsRun = CdsRun(status: int, pressure: seq<Call>, single: seq<Call>)

  /** What a stage of the script does, from the paths already on disk. */
  function StageRun(levels: Levels, args: CdsArgs, area: Option<seq<string>>, present: set<string>,
                    retrieve: Call -> bool): Stage
  {
    var sub := if levels == PressureLevels then "p_levels" else "s_levels";
    RunStage(StageCalls(levels, JoinPath(args.outDir, sub), args.year, NormaliseMonth(args.month),
                        DayList(args.startDay, args.endDay), TimeList(), area), Fresh(present), retrieve)
  }

  /** `main`: an invalid `--area` exits with status 1 before any download;
      otherwise the pressure-level stage runs unless skipped, and a failure
      there exits with status 1 before the single-level stage; then the
      single-level stage runs unless skipped, and a failure there exits
      with status 1; otherwise the script ends with status 0. `isFloat`
      says which texts `float()` accepts. */
  method RunCdsScript(args: CdsArgs, present: set<string>, isFloat: string -> bool, retrieve: Call -> bool)
    returns (run: CdsRun)
    ensures ParseArea(args.area, isFloat).Invalid? ==> run == CdsRun(1, [], [])
    ensures !ParseArea(args.area, isFloat).Invalid? ==>
      var area := if ParseArea(args.area, isFloat).Area? then Some(ParseArea(args.area, isFloat).values) else None;
      var p := StageRun(PressureLevels, args, area, present, retrieve);
      var q := StageRun(SingleLevels, args, area, if args.skipPressure then present else p.present, retrieve);
      var pFailed := !args.skipPressure && p.failed;
      run.pressure == (if args.skipPressure then [] else p.calls) &&
      run.single == (if args.skipSingle || pFailed then [] else q.calls) &&
      run.status == (if pFailed || (!args.skipSingle && q.failed) then 1 else 0)
  {
    var year := args.year;
    var month := NormaliseMonth(args.month);
    var days := DayList(args.startDay, args.endDay);
    var times := TimeList();
    var parsed := ParseArea(args.area, isFloat);
    if parsed.Invalid? {
      return CdsRun(1, [], []);
    }
    var area := if parsed.Area? then Some(parsed.values) else None;
    var plOutDir := JoinPath(args.outDir, "p_levels");
    var slOutDir := JoinPath(args.outDir, "s_levels");
    var disk := present;
    var pressureCalls: seq<Call> := [];
    if !args.skipPressure {
      var p := DownloadStage(PressureLevels, plOutDir, year, month, days, times, area, disk, retrieve);
      if p.failed {
        return CdsRun(1, p.calls, []);
      }
      disk := p.present;
      pressureCalls := p.calls;
    }
    if !args.skipSingle {
      var q := DownloadStage(SingleLevels, slOutDir, year, month, days, times, area, disk, retrieve);
      if q.failed {
        return CdsRun(1, pressureCalls, q.calls);
      }
      return CdsRun(0, pressureCalls, q.calls);
    }
    run := CdsRun(0, pressureCalls, []);
  }
}
