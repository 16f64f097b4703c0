/** The download side of download_era5_rda.py: the error-page check of
    `download_file`, the counting loops of `download_era5_pressure_levels`
    and `download_era5_single_levels`, and the argument handling and exit
    status of `main`. `wget` is an oracle from URL to outcome and the output
    directory is the set of file names in it. */
module RdaDownload {
  import opened Text
  import opened RdaNaming
  import opened RdaCredentials

  newtype byte = b: int | 0 <= b < 256

  /** A download under this many bytes is inspected for an error page. */
  const SIZE_LIMIT: nat := 1000
  /** Number of bytes read for that inspection (`f.read(100)`). */
  const HEADER_LEN: nat := 100
  /** `b'<html'` */
  const HTML_MARK: seq<byte> := [60, 104, 116, 109, 108]
  /** `b'error'` */
  const ERROR_MARK: seq<byte> := [101, 114, 114, 111, 114]

  /** `bytes.lower()` on one byte: only ASCII capitals change. */
  function LowerByte(b: byte): byte
  {
    if 65 <= b <= 90 then b + 32 else b
  }

  function LowerBytes(s: seq<byte>): (r: seq<byte>)
    ensures |r| == |s| && forall i :: 0 <= i < |s| ==> r[i] == LowerByte(s[i])
  {
    seq(|s|, i requires 0 <= i < |s| => LowerByte(s[i]))
  }

  /** The first bytes of the file, as `f.read(100)` returns them. */
  function Header(body: seq<byte>): seq<byte>
  {
    if |body| <= HEADER_LEN then body else body[..HEADER_LEN]
  }

  /** The rule of `download_file` that rejects a downloaded file: it is
      under 1000 bytes and its lowercased header contains `<html` or
      `error`. */
  predicate LooksLikeErrorPage(body: seq<byte>)
  {
    var h := LowerBytes(Header(body));
    |body| < SIZE_LIMIT && (Contains(h, HTML_MARK) || Contains(h, ERROR_MARK))
  }

  /** The (lowercase) marker matches the body at offset i, ignoring case,
      and lies within the first HEADER_LEN bytes. */
  predicate MarkAt(body: seq<byte>, mark: seq<byte>, i: int)
  {
    0 <= i && i + |mark| <= HEADER_LEN && i + |mark| <= |body| &&
    forall k :: 0 <= k < |mark| ==> LowerByte(body[i + k]) == mark[k]
  }

  lemma MarkAtIff(body: seq<byte>, mark: seq<byte>, i: int)
    ensures OccursAt(LowerBytes(Header(body)), mark, i) <==> MarkAt(body, mark, i)
  {
    var h := LowerBytes(Header(body));
    if OccursAt(h, mark, i) {
      forall k | 0 <= k < |mark|
        ensures LowerByte(body[i + k]) == mark[k]
      {
        assert h[i..i + |mark|][k] == mark[k];
      }
    }
    if MarkAt(body, mark, i) {
      assert h[i..i + |mark|] == mark;
    }
  }

  lemma FindsMark(body: seq<byte>, mark: seq<byte>)
    ensures Contains(LowerBytes(Header(body)), mark) <==> exists i :: MarkAt(body, mark, i)
  {
    var h := LowerBytes(Header(body));
    ContainsIff(h, mark);
    if Contains(h, mark) {
      var i :| OccursAt(h, mark, i);
      MarkAtIff(body, mark, i);
    }
    if exists i :: MarkAt(body, mark, i) {
      var i :| MarkAt(body, mark, i);
      MarkAtIff(body, mark, i);
    }
  }

  /** A file is rejected exactly when it is under 1000 bytes and `<html` or
      `error`, in any mix of case, lies wholly within its first 100 bytes
      (so it starts at byte 95 at the latest); a file of 1000 bytes or
      more is always accepted. */
  lemma ErrorPageIff(body: seq<byte>)
    ensures LooksLikeErrorPage(body) <==>
      |body| < SIZE_LIMIT && ((exists i :: MarkAt(body, HTML_MARK, i)) || (exists i :: MarkAt(body, ERROR_MARK, i)))
    ensures |body| >= SIZE_LIMIT ==> !LooksLikeErrorPage(body)
  {
    FindsMark(body, HTML_MARK);
    FindsMark(body, ERROR_MARK);
  }

  /** What `wget` did for a URL: failed (non-zero exit status), or wrote the
      given bytes to the output file. */
  datatype Fetch = WgetFailed | Fetched(body: seq<byte>)

  /** The result of `download_file` and the file names in the output
      directory afterwards. */
  datatype Outcome = Outcome(ok: bool, present: set<string>)

  /** `download_file(url, output_path)` for a file `name` with credentials
      `creds`: missing credentials fail before `wget` runs; a failed `wget`
      or a rejected error page deletes the output file and fails; otherwise
      the file stays. */
  function DownloadFile(creds: Credentials, fetched: Fetch, name: string, present: set<string>): (r: Outcome)
    ensures r.ok <==> Usable(creds) && fetched.Fetched? && !LooksLikeErrorPage(fetched.body)
    ensures r.present - {name} == present - {name}
    ensures name !in present ==> (r.ok <==> name in r.present)
  {
    if !Usable(creds) then Outcome(false, present)
    else
      match fetched
      case WgetFailed => Outcome(false, present - {name})
      case Fetched(body) =>
        if LooksLikeErrorPage(body) then Outcome(false, present - {name})
        else Outcome(true, present + {name})
  }

  /** The three counters of a download function. */
  datatype Tally = Tally(success: nat, skip: nat, fail: nat)

  function Total(t: Tally): nat { t.success + t.skip + t.fail }

  /** The state of a download loop: the counters, the file names in the
      output directory, and the files `download_file` was called for, in
      order (with usable credentials each of those calls runs `wget`). */
  datatype Progress = Progress(tally: Tally, present: set<string>, attempted: seq<RdaFile>)

  function Start(present: set<string>): Progress
  {
    Progress(Tally(0, 0, 0), present, [])
  }

  /** One iteration of a download loop: an existing file is skipped,
      anything else is downloaded and counted as a success or a failure. */
  function Step(p: Progress, f: RdaFile, creds: Credentials, fetch: string -> Fetch): Progress
  {
    if f.filename in p.present then p.(tally := p.tally.(skip := p.tally.skip + 1))
    else
      var o := DownloadFile(creds, fetch(f.url), f.filename, p.present);
      var t := if o.ok then p.tally.(success := p.tally.success + 1) else p.tally.(fail := p.tally.fail + 1);
      Progress(t, o.present, p.attempted + [f])
  }

  /** The loop over a sequence of files, first to last. */
  function RunFiles(files: seq<RdaFile>, p: Progress, creds: Credentials, fetch: string -> Fetch): Progress
    decreases |files|
  {
    if files == [] then p else RunFiles(files[1..], Step(p, files[0], creds, fetch), creds, fetch)
  }

  /** The files of one day, one per variable, in table order. */
  function DayFiles(year: int, month: int, day: int, vars: seq<VarEntry>): (r: seq<RdaFile>)
    ensures |r| == |vars|
  {
    seq(|vars|, j requires 0 <= j < |vars| => BuildRdaUrl(year, month, day, vars[j].param, vars[j].levelType))
  }

  /** The files of a day are, in table order, the daily archive files of
      the selected variables. */
  lemma DayFilesBuilt(year: int, month: int, day: int, vars: seq<VarEntry>)
    ensures forall j :: 0 <= j < |vars| ==>
      DayFiles(year, month, day, vars)[j] == BuildRdaUrl(year, month, day, vars[j].param, vars[j].levelType)
  {
  }

  /** The loop over groups of files, group by group. */
  function RunGroups(groups: seq<seq<RdaFile>>, p: Progress, creds: Credentials, fetch: string -> Fetch): Progress
    decreases |groups|
  {
    if groups == [] then p else RunGroups(groups[1..], RunFiles(groups[0], p, creds, fetch), creds, fetch)
  }

  /** The files of `download_era5_pressure_levels`, day by day. */
  function PressureFiles(year: int, month: int, days: seq<int>, vars: seq<VarEntry>): (r: seq<seq<RdaFile>>)
    ensures |r| == |days| && forall d :: 0 <= d < |days| ==> r[d] == DayFiles(year, month, days[d], vars)
  {
    seq(|days|, d requires 0 <= d < |days| => DayFiles(year, month, days[d], vars))
  }

  /** Every file of the loop is counted exactly once. */
  lemma {:induction false} RunFilesTotal(files: seq<RdaFile>, p: Progress, creds: Credentials, fetch: string -> Fetch)
    ensures Total(RunFiles(files, p, creds, fetch).tally) == Total(p.tally) + |files|
    decreases |files|
  {
    if files != [] {
      RunFilesTotal(files[1..], Step(p, files[0], creds, fetch), creds, fetch);
    }
  }

  /** A loop started on a directory listing counts each file once. */
  lemma RunFilesTotalFromStart(files: seq<RdaFile>, present: set<string>, creds: Credentials, fetch: string -> Fetch)
    ensures Total(RunFiles(files, Start(present), creds, fetch).tally) == |files|
  {
    var p := Start(present);
    assert Total(p.tally) == 0;
    RunFilesTotal(files, p, creds, fetch);
  }

  /** Groups of k files each add k to the counters per group. */
  lemma {:induction false} RunGroupsTotal(groups: seq<seq<RdaFile>>, k: nat, p: Progress,
                                          creds: Credentials, fetch: string -> Fetch)
    requires forall i :: 0 <= i < |groups| ==> |groups[i]| == k
    ensures Total(RunGroups(groups, p, creds, fetch).tally) == Total(p.tally) + |groups| * k
    decreases |groups|
  {
    if groups != [] {
      RunFilesTotal(groups[0], p, creds, fetch);
      RunGroupsTotal(groups[1..], k, RunFiles(groups[0], p, creds, fetch), creds, fetch);
      assert |groups| * k == k + |groups[1..]| * k by {
        assert |groups| == 1 + |groups[1..]|;
      }
    }
  }

  /** The directory only gains files, every download attempt is a success or
      a failure, and `download_file` is never called for a file that was
      already in the directory. */
  lemma {:induction false} NoRefetch(files: seq<RdaFile>, p: Progress, creds: Credentials, fetch: string -> Fetch)
    ensures var q := RunFiles(files, p, creds, fetch);
      p.present <= q.present &&
      |p.attempted| <= |q.attempted| && q.attempted[..|p.attempted|] == p.attempted &&
      |q.attempted| - |p.attempted| == (q.tally.success - p.tally.success) + (q.tally.fail - p.tally.fail) &&
      q.tally.success >= p.tally.success && q.tally.fail >= p.tally.fail &&
      forall k :: |p.attempted| <= k < |q.attempted| ==> q.attempted[k].filename !in p.present
    decreases |files|
  {
    if files != [] {
      var p1 := Step(p, files[0], creds, fetch);
      NoRefetch(files[1..], p1, creds, fetch);
      var q := RunFiles(files, p, creds, fetch);
      assert q.attempted[..|p1.attempted|][..|p.attempted|] == q.attempted[..|p.attempted|];
    }
  }

  /** The files among `files` that are not in the directory, in order. */
  function Missing(files: seq<RdaFile>, present: set<string>): (r: seq<RdaFile>)
    ensures |r| <= |files|
  {
    if files == [] then []
    else if files[0].filename in present then Missing(files[1..], present)
    else [files[0]] + Missing(files[1..], present)
  }

  predicate DistinctNames(files: seq<RdaFile>)
  {
    forall i, j :: 0 <= i < j < |files| ==> files[i].filename != files[j].filename
  }

  lemma {:induction false} MissingAgree(files: seq<RdaFile>, a: set<string>, b: set<string>)
    requires forall f :: f in files ==> (f.filename in a <==> f.filename in b)
    ensures Missing(files, a) == Missing(files, b)
    decreases |files|
  {
    if files != [] {
      assert files[0] in files;
      MissingAgree(files[1..], a, b);
    }
  }

  /** With distinct file names, the loop calls `download_file` for exactly
      the files that were not already in the directory, in order, and skips
      all the others. */
  lemma {:induction false} AttemptsExactlyMissing(files: seq<RdaFile>, p: Progress, creds: Credentials,
                                                  fetch: string -> Fetch)
    requires DistinctNames(files)
    ensures var q := RunFiles(files, p, creds, fetch);
      q.attempted == p.attempted + Missing(files, p.present) &&
      q.tally.skip == p.tally.skip + |files| - |Missing(files, p.present)|
    decreases |files|
  {
    if files != [] {
      var p1 := Step(p, files[0], creds, fetch);
      var rest := files[1..];
      forall f | f in rest
        ensures f.filename in p1.present <==> f.filename in p.present
      {
        var j :| 0 <= j < |rest| && rest[j] == f;
        assert files[j + 1] == f;
      }
      MissingAgree(rest, p1.present, p.present);
      AttemptsExactlyMissing(rest, p1, creds, fetch);
    }
  }

  /** The body of the download loops, run over a sequence of files: skip a
      file already in the directory, otherwise download it and count the
      outcome. */
  method DownloadEach(files: seq<RdaFile>, p0: Progress, creds: Credentials, fetch: string -> Fetch)
    returns (p: Progress)
    ensures p == RunFiles(files, p0, creds, fetch)
    ensures Total(p.tally) == Total(p0.tally) + |files|
  {
    p := p0;
    var v := 0;
    while v < |files|
      invariant 0 <= v <= |files|
      invariant RunFiles(files[v..], p, creds, fetch) == RunFiles(files, p0, creds, fetch)
    {
      var f := files[v];
      assert files[v..][1..] == files[v + 1..];
      if f.filename in p.present {
        p := p.(tally := p.tally.(skip := p.tally.skip + 1));
        v := v + 1;
        continue;
      }
      var o := DownloadFile(creds, fetch(f.url), f.filename, p.present);
      if o.ok {
        p := Progress(p.tally.(success := p.tally.success + 1), o.present, p.attempted + [f]);
      } else {
        p := Progress(p.tally.(fail := p.tally.fail + 1), o.present, p.attempted + [f]);
      }
      v := v + 1;
    }
    RunFilesTotal(files, p0, creds, fetch);
  }

  /** `download_era5_pressure_levels`, with the requested variable names
      ([] for None), the file names already in the output directory, the
      credentials every `download_file` call finds, and the `wget` oracle. */
  method DownloadPressureLevels(year: int, month: int, days: seq<int>, requested: seq<string>,
                                present: set<string>, creds: Credentials, fetch: string -> Fetch)
    returns (p: Progress)
    ensures p == RunGroups(PressureFiles(year, month, days, SelectVars(PRESSURE_LEVEL_VARS, requested)),
                           Start(present), creds, fetch)
    ensures Total(p.tally) == |days| * |SelectVars(PRESSURE_LEVEL_VARS, requested)|
  {
    var vars := SelectVars(PRESSURE_LEVEL_VARS, requested);
    ghost var groups := PressureFiles(year, month, days, vars);
    p := Start(present);
    var d := 0;
    while d < |days|
      invariant 0 <= d <= |days|
      invariant RunGroups(groups[d..], p, creds, fetch) == RunGroups(groups, Start(present), creds, fetch)
    {
      assert groups[d..][1..] == groups[d + 1..];
      p := DownloadEach(DayFiles(year, month, days[d], vars), p, creds, fetch);
      d := d + 1;
    }
    RunGroupsTotal(groups, |vars|, Start(present), creds, fetch);
  }

  /** Every entry has a parameter code made of decimal digits. */
  predicate NumericCodes(vars: seq<VarEntry>)
  {
    forall i :: 0 <= i < |vars| ==> vars[i].param != [] && AllDigits(vars[i].param)
  }

  /** Selecting variables keeps codes numeric. */
  lemma SelectionKeepsCodesNumeric(table: seq<VarEntry>, requested: seq<string>)
    requires NumericCodes(table)
    ensures NumericCodes(SelectVars(table, requested))
  {
    var vars := SelectVars(table, requested);
    forall i | 0 <= i < |vars|
      ensures vars[i].param != [] && AllDigits(vars[i].param)
    {
      SelectVarsFromTable(table, requested, i);
    }
  }

  /** The variables selected from the single-level table all have numeric
      codes, so `int(var_code)` never raises. */
  lemma SelectedCodesAreNumeric(requested: seq<string>)
    ensures NumericCodes(SelectVars(SINGLE_LEVEL_VARS, requested))
  {
    assert NumericCodes(SINGLE_LEVEL_VARS);
    SelectionKeepsCodesNumeric(SINGLE_LEVEL_VARS, requested);
  }

  /** The monthly files of the selected variables, in table order, or None
      when the month has no last day. */
  function MonthlyFiles(year: int, month: int, vars: seq<VarEntry>): (r: Option<seq<RdaFile>>)
    requires NumericCodes(vars)
    ensures r.None? <==> !(1 <= month <= 12)
    ensures r.Some? ==> |r.value| == |vars|
    ensures r.Some? ==> forall j :: 0 <= j < |vars| ==> r.value[j] == MonthlyFile(year, month, vars[j]).value
  {
    match LastDay(year, month)
    case None => None
    case Some(last) => Some(seq(|vars|, j requires 0 <= j < |vars| => MonthFile(year, month, last, vars[j])))
  }

  /** The monthly files of the variables selected from the single-level table. */
  function SingleLevelFiles(year: int, month: int, requested: seq<string>): Option<seq<RdaFile>>
  {
    SelectedCodesAreNumeric(requested);
    MonthlyFiles(year, month, SelectVars(SINGLE_LEVEL_VARS, requested))
  }

  /** What `download_era5_single_levels` does: one file per selected
      variable for the whole month, whatever the days; None where
      `calendar.monthrange` raises, before any download. */
  function SingleLevelRun(year: int, month: int, requested: seq<string>, present: set<string>,
                          creds: Credentials, fetch: string -> Fetch): Option<Progress>
  {
    match SingleLevelFiles(year, month, requested)
    case None => None
    case Some(files) => Some(RunFiles(files, Start(present), creds, fetch))
  }

  /** The single-level stage fails exactly for a month outside 1..12, and
      otherwise counts each selected variable once. */
  lemma SingleLevelTotal(year: int, month: int, requested: seq<string>, present: set<string>,
                         creds: Credentials, fetch: string -> Fetch)
    ensures SingleLevelRun(year, month, requested, present, creds, fetch).None? <==> !(1 <= month <= 12)
    ensures var r := SingleLevelRun(year, month, requested, present, creds, fetch);
      r.Some? ==> Total(r.value.tally) == |SelectVars(SINGLE_LEVEL_VARS, requested)|
  {
    var files := SingleLevelFiles(year, month, requested);
    if files.Some? {
      RunFilesTotalFromStart(files.value, present, creds, fetch);
    }
  }

  /** `download_era5_single_levels` */
  method DownloadSingleLevels(year: int, month: int, days: seq<int>, requested: seq<string>,
                              present: set<string>, creds: Credentials, fetch: string -> Fetch)
    returns (r: Option<Progress>)
    ensures r == SingleLevelRun(year, month, requested, present, creds, fetch)
  {
    SelectedCodesAreNumeric(requested);
    var vars := SelectVars(SINGLE_LEVEL_VARS, requested);
    var files := MonthlyFiles(year, month, vars);
    if files.None? {
      return None;
    }
    var p := DownloadEach(files.value, Start(present), creds, fetch);
    r := Some(p);
  }

  /** Python truthiness of an optional integer argument. */
  predicate TruthyInt(v: Option<int>) { v.Some? && v.value != 0 }

  /** `list(range(lo, hi))` */
  function Range(lo: int, hi: int): (r: seq<int>)
    decreases hi - lo
    ensures |r| == if hi <= lo then 0 else hi - lo
    ensures forall i :: 0 <= i < |r| ==> r[i] == lo + i
  {
    if hi <= lo then [] else [lo] + Range(lo + 1, hi)
  }

  /** A range holds exactly the integers from lo up to hi, ascending. */
  lemma RangeMembers(lo: int, hi: int)
    ensures forall x :: x in Range(lo, hi) <==> lo <= x < hi
    ensures forall i, j :: 0 <= i < j < |Range(lo, hi)| ==> Range(lo, hi)[i] < Range(lo, hi)[j]
  {
    var r := Range(lo, hi);
    forall x | lo <= x < hi
      ensures x in r
    {
      assert r[x - lo] == x;
    }
  }

  /** The days `main` asks for: `--day` when it is truthy, otherwise the
      inclusive range `--start-day`..`--end-day` when both are truthy,
      otherwise None (the script reports an error and exits). */
  function SelectDays(day: Option<int>, startDay: Option<int>, endDay: Option<int>): (r: Option<seq<int>>)
    ensures TruthyInt(day) ==> r == Some([day.value])
    ensures !TruthyInt(day) && !(TruthyInt(startDay) && TruthyInt(endDay)) ==> r.None?
    ensures !TruthyInt(day) && TruthyInt(startDay) && TruthyInt(endDay) ==>
      r == Some(Range(startDay.value, endDay.value + 1)) &&
      (forall x :: x in r.value <==> startDay.value <= x <= endDay.value) &&
      |r.value| == (if endDay.value < startDay.value then 0 else endDay.value - startDay.value + 1) &&
      (forall i :: 0 <= i < |r.value| ==> r.value[i] == startDay.value + i)
  {
    if TruthyInt(day) then Some([day.value])
    else if TruthyInt(startDay) && TruthyInt(endDay) then
      RangeMembers(startDay.value, endDay.value + 1);
      Some(Range(startDay.value, endDay.value + 1))
    else None
  }

  /** `[v.strip() for v in args.vars.split(',')]` when `--vars` is given
      and non-empty; None otherwise. */
  function ParseVarList(vars: Option<string>): (r: Option<seq<string>>)
    ensures r.None? <==> vars.None? || vars.value == ""
    ensures r.Some? ==> |r.value| == Count(vars.value, ',') + 1
    ensures r.Some? ==> forall i :: 0 <= i < |r.value| ==> Strip(r.value[i]) == r.value[i]
    ensures r.Some? ==> |r.value| == |Split(vars.value, ',')|
    ensures r.Some? ==> forall i :: 0 <= i < |r.value| ==> r.value[i] == Strip(Split(vars.value, ',')[i])
  {
    if vars.None? || vars.value == "" then None
    else
      var parts := Split(vars.value, ',');
      SplitCount(vars.value, ',');
      var names := seq(|parts|, i requires 0 <= i < |parts| => Strip(parts[i]));
      forall i | 0 <= i < |names|
        ensures Strip(names[i]) == names[i]
      {
        StripIdempotent(parts[i]);
      }
      Some(names)
  }

  /** Writing stripped names without commas as a comma-separated `--vars`
      argument gives the same names back. */
  lemma ParseVarListJoin(names: seq<string>)
    requires |names| >= 1
    requires forall i :: 0 <= i < |names| ==> Strip(names[i]) == names[i] && ',' !in names[i]
    requires Join(names, ',') != ""
    ensures ParseVarList(Some(Join(names, ','))) == Some(names)
  {
    var v := Join(names, ',');
    SplitJoin(names, ',');
    var r := ParseVarList(Some(v));
    assert r.Some? && |r.value| == |names|;
    forall i | 0 <= i < |names|
      ensures r.value[i] == names[i]
    {
      assert r.value[i] == Strip(Split(v, ',')[i]);
    }
    assert r.value == names;
  }

  function OrEmpty(v: Option<seq<string>>): seq<string>
  {
    if v.Some? then v.value else []
  }

  /** The command-line arguments of the script that matter to the model. */
  datatype RdaArgs = RdaArgs(year: int, month: int, day: Option<int>, startDay: Option<int>, endDay: Option<int>,
                             vars: Option<string>, skipPressure: bool, skipSingle: bool)

  /** The environment of one run: RDA_EMAIL, RDA_KEY, the lines of the
      configuration file (None when it does not exist), the files already in
      the two output directories and the `wget` oracle. */
  datatype Environment = Environment(envEmail: Option<string>, envKey: Option<string>, config: Option<seq<string>>,
                                     pressureDir: set<string>, singleDir: set<string>, fetch: string -> Fetch)

  /** The exit status and the counters of the two stages (zero for a stage
      that did not run or raised). */
  datatype RunResult = RunResult(status: int, pressure: Tally, single: Tally)

  /** `main`: the run stops with status 1 when the configuration file is
      missing (even if the environment holds credentials), when no day is
      given, or when the single-level stage raises on a bad month;
      otherwise it exits with status 1 exactly when some download failed. */
  method RunScript(args: RdaArgs, env: Environment) returns (res: RunResult)
    ensures env.config.None? ==> res == RunResult(1, Tally(0, 0, 0), Tally(0, 0, 0))
    ensures SelectDays(args.day, args.startDay, args.endDay).None? ==> res == RunResult(1, Tally(0, 0, 0), Tally(0, 0, 0))
    ensures env.config.Some? && SelectDays(args.day, args.startDay, args.endDay).Some? ==>
      var days := SelectDays(args.day, args.startDay, args.endDay).value;
      var requested := OrEmpty(ParseVarList(args.vars));
      var creds := Lookup(env.envEmail, env.envKey, env.config);
      (res.pressure == if args.skipPressure then Tally(0, 0, 0)
                       else RunGroups(PressureFiles(args.year, args.month, days, SelectVars(PRESSURE_LEVEL_VARS, requested)),
                                      Start(env.pressureDir), creds, env.fetch).tally) &&
      (res.single == if args.skipSingle then Tally(0, 0, 0)
                     else match SingleLevelRun(args.year, args.month, requested, env.singleDir, creds, env.fetch)
                          case None => Tally(0, 0, 0)
                          case Some(q) => q.tally) &&
      (res.status == 1 <==>
         (!args.skipSingle && !(1 <= args.month <= 12)) || res.pressure.fail + res.single.fail > 0) &&
      (res.status != 1 ==> res.status == 0)
  {
    var none := Tally(0, 0, 0);
    if env.config.None? {
      return RunResult(1, none, none);
    }
    var days := SelectDays(args.day, args.startDay, args.endDay);
    if days.None? {
      return RunResult(1, none, none);
    }
    var requested := OrEmpty(ParseVarList(args.vars));
    var creds := GetRdaCredentials(env.envEmail, env.envKey, env.config);
    var pl, sl := none, none;
    if !args.skipPressure {
      var p := DownloadPressureLevels(args.year, args.month, days.value, requested, env.pressureDir, creds, env.fetch);
      pl := p.tally;
    }
    if !args.skipSingle {
      var s := DownloadSingleLevels(args.year, args.month, days.value, requested, env.singleDir, creds, env.fetch);
      if s.None? {
        return RunResult(1, pl, sl);
      }
      sl := s.value.tally;
    }
    if pl.fail + sl.fail > 0 {
      return RunResult(1, pl, sl);
    }
    return RunResult(0, pl, sl);
  }
}
