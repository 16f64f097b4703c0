/** What the two download stages of download_era5_rda.py fetch: the
    pressure-level stage runs the file loop once per day, which is the loop
    over all its files back to back, and within each stage no file name
    occurs twice, so `download_file` is called for exactly the files that
    were missing from the output directory. */
module RdaStages {
  import opened Text
  import opened RdaNaming
  import opened RdaCredentials
  import opened RdaDownload

  /** The groups' files back to back. */
  function Flatten(groups: seq<seq<RdaFile>>): seq<RdaFile>
    decreases |groups|
  {
    if groups == [] then [] else groups[0] + Flatten(groups[1..])
  }

  /** The names of a sequence of files. */
  function Names(files: seq<RdaFile>): set<string>
  {
    set f | f in files :: f.filename
  }

  /** Running the loop over two sequences in turn is running it over
      their concatenation. */
  lemma {:induction false} RunFilesAppend(a: seq<RdaFile>, b: seq<RdaFile>, p: Progress,
                                          creds: Credentials, fetch: string -> Fetch)
    ensures RunFiles(a + b, p, creds, fetch) == RunFiles(b, RunFiles(a, p, creds, fetch), creds, fetch)
    decreases |a|
  {
    if a == [] {
      assert a + b == b;
    } else {
      assert (a + b)[0] == a[0] && (a + b)[1..] == a[1..] + b;
      RunFilesAppend(a[1..], b, Step(p, a[0], creds, fetch), creds, fetch);
    }
  }

  /** The day-by-day loop is the file loop over all days' files in order. */
  lemma {:induction false} RunGroupsFlat(groups: seq<seq<RdaFile>>, p: Progress, creds: Credentials,
                                         fetch: string -> Fetch)
    ensures RunGroups(groups, p, creds, fetch) == RunFiles(Flatten(groups), p, creds, fetch)
    decreases |groups|
  {
    if groups != [] {
      RunFilesAppend(groups[0], Flatten(groups[1..]), p, creds, fetch);
      RunGroupsFlat(groups[1..], RunFiles(groups[0], p, creds, fetch), creds, fetch);
    }
  }

  /** In the day-by-day loop too, the directory only gains files, every
      download attempt is a success or a failure, and `download_file` is
      never called for a file that was already in the directory. */
  lemma NoRefetchGroups(groups: seq<seq<RdaFile>>, p: Progress, creds: Credentials, fetch: string -> Fetch)
    ensures var q := RunGroups(groups, p, creds, fetch);
      p.present <= q.present &&
      |p.attempted| <= |q.attempted| && q.attempted[..|p.attempted|] == p.attempted &&
      |q.attempted| - |p.attempted| == (q.tally.success - p.tally.success) + (q.tally.fail - p.tally.fail) &&
      q.tally.success >= p.tally.success && q.tally.fail >= p.tally.fail &&
      forall k :: |p.attempted| <= k < |q.attempted| ==> q.attempted[k].filename !in p.present
  {
    RunGroupsFlat(groups, p, creds, fetch);
    NoRefetch(Flatten(groups), p, creds, fetch);
  }

  /** Names are distinct within each group and no name occurs in two
      groups. */
  predicate GroupsDistinct(groups: seq<seq<RdaFile>>)
  {
    (forall d :: 0 <= d < |groups| ==> DistinctNames(groups[d])) &&
    (forall d1, d2, i, j :: 0 <= d1 < d2 < |groups| && 0 <= i < |groups[d1]| && 0 <= j < |groups[d2]| ==>
       groups[d1][i].filename != groups[d2][j].filename)
  }

  lemma {:induction false} FlattenMember(groups: seq<seq<RdaFile>>, f: RdaFile)
    requires f in Flatten(groups)
    ensures exists d, j :: 0 <= d < |groups| && 0 <= j < |groups[d]| && groups[d][j] == f
    decreases |groups|
  {
    if f in groups[0] {
      var j :| 0 <= j < |groups[0]| && groups[0][j] == f;
      assert groups[0][j] == f;
    } else {
      FlattenMember(groups[1..], f);
      var d, j :| 0 <= d < |groups[1..]| && 0 <= j < |groups[1..][d]| && groups[1..][d][j] == f;
      assert groups[d + 1][j] == f;
    }
  }

  lemma DistinctConcat(a: seq<RdaFile>, b: seq<RdaFile>)
    requires DistinctNames(a) && DistinctNames(b)
    requires forall f :: f in b ==> f.filename !in Names(a)
    ensures DistinctNames(a + b)
  {
    var c := a + b;
    forall i, j | 0 <= i < j < |c|
      ensures c[i].filename != c[j].filename
    {
      if j >= |a| {
        assert c[j] == b[j - |a|] && c[j] in b;
        if i < |a| {
          assert c[i] == a[i] && c[i].filename in Names(a);
        } else {
          assert c[i] == b[i - |a|];
        }
      }
    }
  }

  /** Groups with distinct names flatten to files with distinct names. */
  lemma {:induction false} DistinctFlatten(groups: seq<seq<RdaFile>>)
    requires GroupsDistinct(groups)
    ensures DistinctNames(Flatten(groups))
    decreases |groups|
  {
    if groups != [] {
      var rest := groups[1..];
      assert GroupsDistinct(rest) by {
        forall d1, d2, i, j | 0 <= d1 < d2 < |rest| && 0 <= i < |rest[d1]| && 0 <= j < |rest[d2]|
          ensures rest[d1][i].filename != rest[d2][j].filename
        {
          assert rest[d1] == groups[d1 + 1] && rest[d2] == groups[d2 + 1];
        }
        forall d | 0 <= d < |rest|
          ensures DistinctNames(rest[d])
        {
          assert rest[d] == groups[d + 1];
        }
      }
      DistinctFlatten(rest);
      forall f | f in Flatten(rest)
        ensures f.filename !in Names(groups[0])
      {
        FlattenMember(rest, f);
        var d, j :| 0 <= d < |rest| && 0 <= j < |rest[d]| && rest[d][j] == f;
        assert groups[d + 1][j] == f;
        forall i | 0 <= i < |groups[0]|
          ensures groups[0][i].filename != f.filename
        {
          assert groups[0][i].filename != groups[d + 1][j].filename;
        }
      }
      DistinctConcat(groups[0], Flatten(rest));
    }
  }

  /** With distinct names across all groups, the day-by-day loop calls
      `download_file` for exactly the files that were not already in the
      directory, in order, and skips all the others. */
  lemma AttemptsExactlyMissingGroups(groups: seq<seq<RdaFile>>, p: Progress, creds: Credentials,
                                     fetch: string -> Fetch)
    requires GroupsDistinct(groups)
    ensures var q := RunGroups(groups, p, creds, fetch);
      var files := Flatten(groups);
      q.attempted == p.attempted + Missing(files, p.present) &&
      q.tally.skip == p.tally.skip + |files| - |Missing(files, p.present)|
  {
    DistinctFlatten(groups);
    RunGroupsFlat(groups, p, creds, fetch);
    AttemptsExactlyMissing(Flatten(groups), p, creds, fetch);
  }

  /** Two daily files of the same level type and code width are named
      differently unless they are the same variable on the same day. */
  lemma DailyNamesDiffer(year: int, month: int, a: int, b: int, e1: VarEntry, e2: VarEntry)
    requires e1.levelType == e2.levelType && |e1.param| == |e2.param|
    requires a != b || e1.param != e2.param
    ensures BuildRdaUrl(year, month, a, e1.param, e1.levelType).filename !=
            BuildRdaUrl(year, month, b, e2.param, e2.levelType).filename
  {
    if BuildRdaUrl(year, month, a, e1.param, e1.levelType).filename ==
       BuildRdaUrl(year, month, b, e2.param, e2.levelType).filename {
      DailyNamesIdentify(year, month, a, b, e1.param, e2.param, e1.levelType);
    }
  }

  /** Variables of one level type and code width, no code twice. */
  predicate UniformVars(vars: seq<VarEntry>, levelType: string, width: nat)
  {
    DistinctParams(vars) &&
    forall i :: 0 <= i < |vars| ==> vars[i].levelType == levelType && |vars[i].param| == width
  }

  /** On distinct days, the files of the pressure-level loop are all named
      differently. */
  lemma PressureGroupsDistinct(year: int, month: int, days: seq<int>, vars: seq<VarEntry>, levelType: string, width: nat)
    requires forall i, j :: 0 <= i < j < |days| ==> days[i] != days[j]
    requires UniformVars(vars, levelType, width)
    ensures GroupsDistinct(PressureFiles(year, month, days, vars))
  {
    var groups := PressureFiles(year, month, days, vars);
    forall d | 0 <= d < |groups|
      ensures DistinctNames(groups[d])
    {
      DayFilesBuilt(year, month, days[d], vars);
      forall i, j | 0 <= i < j < |groups[d]|
        ensures groups[d][i].filename != groups[d][j].filename
      {
        DailyNamesDiffer(year, month, days[d], days[d], vars[i], vars[j]);
      }
    }
    forall d1, d2, i, j | 0 <= d1 < d2 < |groups| && 0 <= i < |groups[d1]| && 0 <= j < |groups[d2]|
      ensures groups[d1][i].filename != groups[d2][j].filename
    {
      DayFilesBuilt(year, month, days[d1], vars);
      DayFilesBuilt(year, month, days[d2], vars);
      DailyNamesDiffer(year, month, days[d1], days[d2], vars[i], vars[j]);
    }
  }

  /** The variables the pressure-level stage iterates, whatever is
      requested, are "pl" variables with distinct three-digit codes. */
  lemma PressureSelectionUniform(requested: seq<string>)
    ensures UniformVars(SelectVars(PRESSURE_LEVEL_VARS, requested), "pl", 3)
  {
    PressureTableShape();
    SelectVarsDistinct(PRESSURE_LEVEL_VARS, requested);
    SelectVarsKeeps(PRESSURE_LEVEL_VARS, requested);
    var vars := SelectVars(PRESSURE_LEVEL_VARS, requested);
    forall i | 0 <= i < |vars|
      ensures vars[i].levelType == "pl" && |vars[i].param| == 3
    {
      assert vars[i] in vars;
    }
  }

  /** The days `main` selects are distinct. */
  lemma SelectDaysDistinct(day: Option<int>, startDay: Option<int>, endDay: Option<int>)
    requires SelectDays(day, startDay, endDay).Some?
    ensures var days := SelectDays(day, startDay, endDay).value;
      forall i, j :: 0 <= i < j < |days| ==> days[i] != days[j]
  {
  }

  /** For the days `main` selects, the pressure-level stage calls
      `download_file` for exactly the day-by-day files that were missing
      from its directory, in order, and counts every other one as skipped. */
  lemma PressureStageAttemptsMissing(year: int, month: int, day: Option<int>, startDay: Option<int>,
                                     endDay: Option<int>, requested: seq<string>, present: set<string>,
                                     creds: Credentials, fetch: string -> Fetch)
    requires SelectDays(day, startDay, endDay).Some?
    ensures var groups := PressureFiles(year, month, SelectDays(day, startDay, endDay).value,
                                        SelectVars(PRESSURE_LEVEL_VARS, requested));
      var files := Flatten(groups);
      var q := RunGroups(groups, Start(present), creds, fetch);
      DistinctNames(files) &&
      q.attempted == Missing(files, present) &&
      q.tally.skip == |files| - |Missing(files, present)|
  {
    var days := SelectDays(day, startDay, endDay).value;
    var vars := SelectVars(PRESSURE_LEVEL_VARS, requested);
    var groups := PressureFiles(year, month, days, vars);
    SelectDaysDistinct(day, startDay, endDay);
    PressureSelectionUniform(requested);
    PressureGroupsDistinct(year, month, days, vars, "pl", 3);
    DistinctFlatten(groups);
    AttemptsExactlyMissingGroups(groups, Start(present), creds, fetch);
  }

  /** Codes of at most three digits are below 1000. */
  lemma ShortCodeBound(code: string)
    requires AllDigits(code) && |code| <= 3
    ensures ParseNat(code) < 1000
  {
    ParseNatBound(code);
    assert Pow10(|code|) <= 1000 by {
      assert Pow10(3) == 1000;
    }
  }

  /** Variables whose codes are written as `str` writes numbers, with at
      most three digits, and no code twice. */
  predicate MonthlyVars(vars: seq<VarEntry>)
  {
    DistinctParams(vars) &&
    forall i :: 0 <= i < |vars| ==> Canonical(vars[i].param) && |vars[i].param| <= 3
  }

  /** The monthly files of such variables are all named differently: the
      zero-padded codes differ because the codes' values do. */
  lemma MonthlyFilesDistinct(year: int, month: int, vars: seq<VarEntry>)
    requires MonthlyVars(vars)
    ensures NumericCodes(vars)
    ensures MonthlyFiles(year, month, vars).Some? ==> DistinctNames(MonthlyFiles(year, month, vars).value)
  {
    var r := MonthlyFiles(year, month, vars);
    if r.Some? {
      var last := LastDay(year, month).value;
      forall i, j | 0 <= i < j < |r.value|
        ensures r.value[i].filename != r.value[j].filename
      {
        var e1, e2 := vars[i], vars[j];
        assert r.value[i] == MonthFile(year, month, last, e1);
        assert r.value[j] == MonthFile(year, month, last, e2);
        if r.value[i].filename == r.value[j].filename {
          ShortCodeBound(e1.param);
          ShortCodeBound(e2.param);
          MonthlyNamesIdentify(year, month, last, e1, e2);
          CanonicalDigits(e1.param);
          CanonicalDigits(e2.param);
        }
      }
    }
  }

  /** The variables the single-level stage iterates, whatever is
      requested, have distinct codes of at most three digits. */
  lemma SingleSelectionMonthly(requested: seq<string>)
    ensures MonthlyVars(SelectVars(SINGLE_LEVEL_VARS, requested))
  {
    SingleTableDistinct();
    SingleTableCanonical();
    SelectVarsDistinct(SINGLE_LEVEL_VARS, requested);
    var vars := SelectVars(SINGLE_LEVEL_VARS, requested);
    forall i | 0 <= i < |vars|
      ensures Canonical(vars[i].param) && |vars[i].param| <= 3
    {
      SelectVarsFromTable(SINGLE_LEVEL_VARS, requested, i);
    }
  }

  /** The single-level stage calls `download_file` for exactly the monthly
      files that were missing from its directory, in order, and counts
      every other one as skipped. */
  lemma SingleStageAttemptsMissing(year: int, month: int, requested: seq<string>, present: set<string>,
                                   creds: Credentials, fetch: string -> Fetch)
    ensures var files := SingleLevelFiles(year, month, requested);
      var r := SingleLevelRun(year, month, requested, present, creds, fetch);
      r.Some? ==>
        DistinctNames(files.value) &&
        r.value.attempted == Missing(files.value, present) &&
        r.value.tally.skip == |files.value| - |Missing(files.value, present)|
  {
    var files := SingleLevelFiles(year, month, requested);
    if files.Some? {
      SingleSelectionMonthly(requested);
      MonthlyFilesDistinct(year, month, SelectVars(SINGLE_LEVEL_VARS, requested));
      AttemptsExactlyMissing(files.value, Start(present), creds, fetch);
    }
  }
}
