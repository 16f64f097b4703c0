# ERA5 download scripts, modelled in Dafny

This project models the two Python download scripts of era5_for_WPS. Both
fetch one month of ERA5 reanalysis data, to be converted later for the WRF
Preprocessing System.

- **download_era5_rda.py** fetches NetCDF files from the NCAR Research Data
  Archive (dataset ds633.0) with `wget`.
  - Pressure levels: one file per day and variable.
  - Single levels: one file per variable for the whole month.
  - Modules `Calendar`, `RdaNaming`, `RdaCredentials`, `RdaDownload` and
    `RdaStages` cover:
    - the archive's file names and URLs, and the month lengths of
      `calendar.monthrange`;
    - the credentials lookup (environment, then the `[RDA]` section of the
      configuration file);
    - the rule that rejects a small HTML or error page;
    - the two counting loops with their success, skip and fail counters;
    - which files each stage hands to `download_file`;
    - the day and variable arguments, and the exit status of `main`.
- **download_era5_cds.py** fetches one GRIB file per day from the Climate
  Data Store with `cdsapi`. Modules `CdsRequest` and `CdsDownload` cover:
  - the zero-padded month, and the day and hour lists;
  - the target paths under `p_levels` and `s_levels`;
  - the request dictionary, which has `area` only when an area is given;
  - the `--area` check;
  - the two download loops, which skip existing files and stop the script
    at the first failed request;
  - the order of the stages in `main`.
- Module `Text` models the few Python string operations the scripts use:
  - `f"{n:02d}"`, `str.zfill`, `str.strip`;
  - `str.split` with a one-character separator, `split(':', 1)`;
  - `in` on strings and bytes, and `bytes.lower`.

The outside world enters as parameters:
- `wget` is an oracle from URL to outcome.
- `client.retrieve` is an oracle from call to success.
- An output directory is the set of names in it.
- The environment and the configuration file are given as values.

Each loop is a method proved equal to a recursive specification function.
The properties are lemmas about those functions:
- counters add up;
- files already present are never fetched, and within a stage no file
  name occurs twice, so `download_file` is called for exactly the
  missing files;
- a CDS stage calls the missing days in day order, none skipped, stops at
  its first failure, and otherwise leaves every target on disk;
- every request is well formed.

Two behaviours of the scripts are easy to mistake for something else:
- The CDS script's `--end-day` defaults to 31 whatever the month. Only
  the shell wrappers that submit it pick the month's real last day; the
  model follows the script.
- The RDA script exits with status 1 when `~/.cdsapirc` is missing, even
  when RDA_EMAIL and RDA_KEY are set (`check_credentials`, lines 66-85).

## Model

| member | source | states |
|---|---|---|
| Calendar.DaysInMonth | download_era5_rda.py:299-300 | a month has 28 to 31 days: 31 for months 1, 3, 5, 7, 8, 10, 12; 30 for 4, 6, 9, 11; 29 for February of a Gregorian leap year, else 28 |
| RdaNaming.WindGridIsUv | download_era5_rda.py:102-130 | the grid type is "uv" exactly for parameters 131, 132, 165 and 166; an unknown code gets ("unknown", "sc") |
| RdaNaming.TablesAreNamed | download_era5_rda.py:102-130 | every code of the two variable tables has an entry in the short-name map, so no table variable gets the "unknown" name |
| RdaNaming.DateStampDecodes | download_era5_rda.py:99 | the date stamp reads back as the same year, then exactly two digits of month and two of day |
| RdaNaming.BuildRdaUrl | download_era5_rda.py:88-137 | the file name is `e5.oper.an.`, the level type, `.128_`, the code, `_`, the map's short name, `.ll025`, the map's grid type, `.`, then the date stamp with `00`, `_` and the date stamp with `23`, then `.nc`; the URL is the month's archive directory followed by the file name |
| RdaNaming.DateStampInjective | download_era5_rda.py:99 | two days of one month never share a date stamp |
| RdaNaming.DailyNamesIdentify | download_era5_rda.py:99-135 | two daily files of one month and level type, with codes of equal length, share a name only when they have the same code and the same day |
| RdaNaming.MonthlyNamesIdentify | download_era5_rda.py:320-326 | two monthly files of one month share a name only when their codes (below 1000) have the same value |
| RdaNaming.UrlEndsWithFileName | download_era5_rda.py:133-137 | the URL starts with the archive base URL and ends with "/" and the file name |
| RdaNaming.LastDay | download_era5_rda.py:299-300 | the last day exists exactly for months 1..12 and is then the month's Gregorian length |
| RdaNaming.PaddedCodeKeepsValue | download_era5_rda.py:320-321 | a code below 1000 becomes exactly three digits of the same value ("34" becomes "034") |
| RdaNaming.MonthlySpanIsWholeMonth | download_era5_rda.py:324-325 | the monthly span starts at hour 00 of day 01 and ends at hour 23 of the month's last day, in the daily files' stamp format |
| RdaNaming.MonthlyFile | download_era5_rda.py:320-329 | there is no monthly file exactly when the month is outside 1..12 |
| RdaNaming.MonthlyFileSpansMonth | download_era5_rda.py:320-329 | a monthly file has level type sfc, the 3-digit code, the lower-cased table name and grid "sc", and spans the whole month |
| RdaNaming.FilterVarsKeeps | download_era5_rda.py:243-244 | the filter keeps exactly the table entries whose name was requested, in table order |
| RdaNaming.SelectVarsKeeps | download_era5_rda.py:294-296 | without a request the whole table is used, otherwise exactly the requested entries; always in table order |
| RdaNaming.SelectVarsFromTable | download_era5_rda.py:294-296 | every selected entry is an entry of the table |
| RdaNaming.FilterVarsDistinct | download_era5_rda.py:243-244 | filtering a table whose codes are distinct leaves them distinct |
| RdaNaming.SelectVarsDistinct | download_era5_rda.py:242-244 | with or without a request, the selected codes are distinct when the table's are |
| RdaNaming.PressureTableShape | download_era5_rda.py:26-32 | the pressure-level table has level type "pl", three-digit codes and no code twice |
| RdaNaming.SingleTableDistinct | download_era5_rda.py:34-55 | no code appears twice in the single-level table |
| RdaNaming.SingleTableCanonical | download_era5_rda.py:34-55 | the single-level codes are digits without a leading zero, at most three of them |
| RdaCredentials.SectionStart | download_era5_rda.py:156-161 | the section starts at the first line that strips to `[RDA]`, and no earlier line does |
| RdaCredentials.FieldValueAfterPrefix | download_era5_rda.py:162-165 | the value of an `email:` or `key:` line is the stripped text after its prefix |
| RdaCredentials.ScanNext | download_era5_rda.py:157-165 | scanning one more stripped line agrees with reading the whole file declaratively |
| RdaCredentials.GetRdaCredentials | download_era5_rda.py:140-167 | the loop returns the declarative lookup: the environment when both variables are non-empty, otherwise the last `email:` and `key:` lines after the first `[RDA]` line over the environment values |
| RdaCredentials.LinesBeforeSectionIgnored | download_era5_rda.py:156-165 | lines before the first `[RDA]` line have no effect |
| RdaCredentials.LaterLineWins | download_era5_rda.py:162-165 | a later `email:` line in the section overrides the address and leaves the key alone |
| RdaCredentials.LaterKeyLineWins | download_era5_rda.py:162-165 | a later `key:` line in the section overrides the key and leaves the address alone |
| RdaDownload.ErrorPageIff | download_era5_rda.py:203-214 | a file is rejected exactly when it is under 1000 bytes and `<html` or `error`, in any case, lies wholly within its first 100 bytes (so it starts at byte 95 at the latest); a file of 1000 bytes or more is always kept |
| RdaDownload.DownloadFile | download_era5_rda.py:170-228 | the download succeeds exactly with usable credentials, a successful `wget` and no error page; no other file changes; a new file is kept exactly on success |
| RdaDownload.RunFilesTotal | download_era5_rda.py:255-278 | every file of the loop adds one to exactly one of the three counters |
| RdaDownload.RunGroupsTotal | download_era5_rda.py:259-276 | the pressure loop counts one per day and variable |
| RdaDownload.NoRefetch | download_era5_rda.py:259-276 | files only get added to the directory; each `download_file` call counts as a success or a failure; `download_file` is never called for a file already present |
| RdaDownload.AttemptsExactlyMissing | download_era5_rda.py:259-276 | when file names are distinct, `download_file` is called for exactly the missing files, in order, and every other file counts as skipped |
| RdaDownload.DownloadEach | download_era5_rda.py:316-343 | the skip, download and count loop computes the specification's progress, and its counters grow by the number of files |
| RdaDownload.DownloadPressureLevels | download_era5_rda.py:231-278 | the nested day and variable loop computes the specification's progress, and the counters total days times selected variables |
| RdaDownload.SelectedCodesAreNumeric | download_era5_rda.py:320-321 | every code selected from the single-level table is numeric, so `int(var_code)` never raises |
| RdaDownload.MonthlyFiles | download_era5_rda.py:298-329 | there are no monthly files exactly for a month outside 1..12; otherwise one file per selected variable, entry j being the monthly file of variable j |
| RdaDownload.SingleLevelTotal | download_era5_rda.py:311-346 | the single-level stage raises exactly for a month outside 1..12; otherwise its counters total the number of selected variables |
| RdaDownload.DownloadSingleLevels | download_era5_rda.py:281-346 | the method computes the single-level specification, ignoring the days |
| RdaDownload.Range | download_era5_rda.py:389 | `range(lo, hi)` has max(0, hi - lo) elements, element i being lo + i |
| RdaDownload.RangeMembers | download_era5_rda.py:389 | a range holds exactly the integers lo ≤ x < hi, ascending |
| RdaDownload.SelectDays | download_era5_rda.py:385-392 | a truthy `--day` gives that day alone; otherwise two truthy range ends give exactly the days between them, inclusive, ascending, entry i being the start day plus i; otherwise there is no day list |
| RdaDownload.ParseVarList | download_era5_rda.py:395-397 | a missing or empty `--vars` gives no list; otherwise one name per comma-separated piece, name i being piece i stripped |
| RdaDownload.ParseVarListJoin | download_era5_rda.py:395-397 | stripped names without commas, written comma-separated, parse back to the same names |
| RdaDownload.RunScript | download_era5_rda.py:381-446 | a missing configuration file or day list exits with status 1 before any download; otherwise the stage counters are those of the specifications, and the status is 1 exactly when the single-level stage raised or some download failed, else 0 |
| RdaStages.RunFilesAppend | download_era5_rda.py:259-276 | running the loop over two lists of files in turn is running it over their concatenation |
| RdaStages.RunGroupsFlat | download_era5_rda.py:259-276 | the day-by-day loop is the file loop over all days' files back to back |
| RdaStages.NoRefetchGroups | download_era5_rda.py:259-276 | in the pressure-level loop too, files only get added, each `download_file` call counts as a success or a failure, and `download_file` is never called for a file already present |
| RdaStages.DistinctFlatten | download_era5_rda.py:259-276 | files distinct within each day and across days are distinct overall |
| RdaStages.AttemptsExactlyMissingGroups | download_era5_rda.py:259-276 | with names distinct across days, the pressure-level loop calls `download_file` for exactly the missing files, in order, and counts every other file as skipped |
| RdaStages.DailyNamesDiffer | download_era5_rda.py:259-263 | daily files of one level type and code width for different days or different codes have different names |
| RdaStages.PressureGroupsDistinct | download_era5_rda.py:259-263 | on distinct days, no file name of the pressure-level loop occurs twice |
| RdaStages.PressureSelectionUniform | download_era5_rda.py:241-244 | whatever is requested, the pressure-level variables are "pl" variables with distinct three-digit codes |
| RdaStages.SelectDaysDistinct | download_era5_rda.py:386-392 | the days `main` selects are distinct |
| RdaStages.PressureStageAttemptsMissing | download_era5_rda.py:259-276 | for the days `main` selects, the pressure-level files are all named differently, `download_file` is called for exactly those missing from the directory, in order, and every other one counts as skipped |
| RdaStages.MonthlyFilesDistinct | download_era5_rda.py:316-326 | monthly files of variables with distinct canonical codes of at most three digits are all named differently |
| RdaStages.SingleSelectionMonthly | download_era5_rda.py:294-296 | whatever is requested, the single-level variables have distinct canonical codes of at most three digits |
| RdaStages.SingleStageAttemptsMissing | download_era5_rda.py:316-343 | when the single-level stage runs, its monthly files are all named differently, `download_file` is called for exactly those missing from the directory, in order, and every other one counts as skipped |
| CdsRequest.NormaliseMonthPads | download_era5_cds.py:224 | a one-digit month gets a leading zero, a longer month string is kept, and a month of digits keeps its value |
| CdsRequest.DayListSpec | download_era5_cds.py:227 | one entry per day of the inclusive range; days 0..99 are two digits that read back as the day, in ascending order |
| CdsRequest.DefaultDays | download_era5_cds.py:191-196 | without day arguments the days are 01..31, whatever the month |
| CdsRequest.TimeListSpec | download_era5_cds.py:230 | 24 times, entry h being two digits of h followed by ":00" |
| CdsRequest.JoinPathParts | download_era5_cds.py:245-246 | a joined path starts with the directory and ends with the name |
| CdsRequest.TargetsNeverCollide | download_era5_cds.py:245-246 | a pressure-level target and a single-level target under one output directory never coincide |
| CdsRequest.TargetsIdentifyDays | download_era5_cds.py:72-76 | two days of one stage share a target only when they are the same day |
| CdsRequest.RequestShape | download_era5_cds.py:80-92 | a request has the product type, format, variables, year, month, its day and the hour list; `area` exactly when an area is given; `pressure_level` exactly for pressure levels; no other key |
| CdsRequest.MakeRequest | download_era5_cds.py:160-171 | building the dictionary step by step, with `area` added conditionally, gives the declarative request |
| CdsRequest.AreaArity | download_era5_cds.py:233-242 | an accepted area has four values, and joining them with commas gives the argument back; when every piece converts, the area is accepted exactly when it has three commas |
| CdsDownload.DownloadStage | download_era5_cds.py:72-103 | the loop (skip an existing target, call, exit at the first failure) computes the stage specification |
| CdsDownload.StageCallsOnlyMissing | download_era5_cds.py:152-156 | files on disk stay; each call is one of the stage's jobs; its target was missing at the start; there are at most as many calls as days |
| CdsDownload.StageStopsAtFirstFailure | download_era5_cds.py:173-182 | every call but the last succeeded, and the stage failed exactly when its last call failed |
| CdsDownload.StageCompletes | download_era5_cds.py:152-182 | a stage that ends without failure leaves every day's target on disk |
| CdsDownload.StageCallsWellFormed | download_era5_cds.py:160-177 | every call goes to the stage's dataset with a request for one of the days and that day's target, which was missing; `area` exactly when given; `pressure_level` exactly for pressure levels |
| CdsDownload.StageCallsExactlyMissing | download_era5_cds.py:72-103 | with distinct targets, the calls are the jobs whose target was missing, in day order and with none skipped, up to the first failure; all of them when nothing fails |
| CdsDownload.MissingIgnoresOther | download_era5_cds.py:72-75 | a path that is no day's target does not change which days are missing |
| CdsDownload.StageTargetsDistinct | download_era5_cds.py:72-73 | distinct days of a stage have distinct targets |
| CdsDownload.DayListDistinct | download_era5_cds.py:227 | the day list names no day twice |
| CdsDownload.StageRunCallsMissing | download_era5_cds.py:260-283 | each stage of the script calls `client.retrieve` for the missing days in day order, none skipped, up to and including the first failure, and for all of them when nothing fails |
| CdsDownload.RunCdsScript | download_era5_cds.py:222-286 | an invalid area exits with status 1 and no request; a failed pressure stage exits with status 1 and no single-level request; a failed single-level stage exits with status 1; otherwise the status is 0; each stage's calls are those of its specification |

## Left out

- Printing, timing (`datetime.now`), `argparse` and the shell wrappers that
  submit the scripts as batch jobs are not modelled. Their output does not
  affect what is downloaded.
- `wget`, the network and the Climate Data Store are oracles. A `wget` run
  either fails or yields the bytes of the file. A `client.retrieve` call
  either succeeds, writing its target, or raises. The contents of
  downloaded GRIB and NetCDF files are not modelled.
- The filesystem is a set of names per output directory. Creating
  directories (`mkdir`, `ensure_dir`) is left out. A failed CDS request is
  taken to leave no target behind.
- The RDA credentials are looked up once and used for every download. The
  script re-reads them for each file, and they do not change during a run.
- `float()` on the area values is the oracle `isFloat`. The request's
  `area` holds the four texts that `float()` converts, not the floats
  themselves.
- Python's `lower()` is modelled for ASCII only. The variable names it is
  applied to are ASCII.
- CdsRequest.JoinPath: `pathlib` normalisation (collapsing repeated
  slashes and `.` components) is not modelled. The path is `os.path.join`
  of a relative name, so it is the same string for the existence check and
  for the call.
- RdaDownload.DownloadEach: the model computes the list of files of a day
  (or of the month) before the loop. The script builds each URL inside the
  loop. The files and their order are the same.
- RdaDownload.RunScript: an exception raised inside the `try` of
  `download_file` is modelled as a failed download; the configuration file
  is assumed readable. A raising `calendar.monthrange` is
  modelled as exit status 1 with that stage's counters at zero.
- CdsDownload.RunCdsScript: an exception from `client.retrieve` is a failed
  call that ends the script with status 1 (`sys.exit(1)`). Exceptions of
  any other kind are not modelled.
- The RDA script's table of 37 pressure levels is never used by its
  download code, so it is not modelled.
