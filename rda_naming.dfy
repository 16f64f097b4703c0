/** File names and URLs of the ERA5 NetCDF files on the NCAR Research Data
    Archive (dataset ds633.0), the variable tables, and the filter that
    selects variables from them (download_era5_rda.py). */
module RdaNaming {
  import opened Text
  import Calendar

  const RDA_BASE_URL: string := "https://tds.gdex.ucar.edu/thredds/fileServer/files/g/d633000"

  /** One row of a variable table: the WPS name, the ECMWF parameter code and
      the level type. (The description column is only printed.) */
  datatype VarEntry = VarEntry(name: string, param: string, levelType: string)

  /** The pressure-level table, in the order the script iterates it. */
  const PRESSURE_LEVEL_VARS: seq<VarEntry> := [
    VarEntry("Z", "129", "pl"),
    VarEntry("Q", "133", "pl"),
    VarEntry("T", "130", "pl"),
    VarEntry("U", "131", "pl"),
    VarEntry("V", "132", "pl")
  ]

  /** The single-level table, in the order the script iterates it. */
  const SINGLE_LEVEL_VARS: seq<VarEntry> := [
    VarEntry("SP", "134", "sfc"),
    VarEntry("MSL", "151", "sfc"),
    VarEntry("2T", "167", "sfc"),
    VarEntry("2D", "168", "sfc"),
    VarEntry("10U", "165", "sfc"),
    VarEntry("10V", "166", "sfc"),
    VarEntry("SSTK", "34", "sfc"),
    VarEntry("SKT", "235", "sfc"),
    VarEntry("LSM", "172", "sfc"),
    VarEntry("CI", "31", "sfc"),
    VarEntry("SD", "141", "sfc"),
    VarEntry("RSN", "33", "sfc"),
    VarEntry("SWVL1", "39", "sfc"),
    VarEntry("SWVL2", "40", "sfc"),
    VarEntry("SWVL3", "41", "sfc"),
    VarEntry("SWVL4", "42", "sfc"),
    VarEntry("STL1", "139", "sfc"),
    VarEntry("STL2", "170", "sfc"),
    VarEntry("STL3", "183", "sfc"),
    VarEntry("STL4", "236", "sfc")
  ]

  /** Short variable name and grid type ("uv" for wind components, "sc" for
      scalars) that appear in an archive file name. */
  datatype VarInfo = VarInfo(short: string, grid: string)

  const VAR_MAP: map<string, VarInfo> := map[
    "129" := VarInfo("z", "sc"),
    "130" := VarInfo("t", "sc"),
    "131" := VarInfo("u", "uv"),
    "132" := VarInfo("v", "uv"),
    "133" := VarInfo("q", "sc"),
    "134" := VarInfo("sp", "sc"),
    "151" := VarInfo("msl", "sc"),
    "167" := VarInfo("2t", "sc"),
    "168" := VarInfo("2d", "sc"),
    "165" := VarInfo("10u", "uv"),
    "166" := VarInfo("10v", "uv"),
    "34" := VarInfo("sst", "sc"),
    "235" := VarInfo("skt", "sc"),
    "172" := VarInfo("lsm", "sc"),
    "31" := VarInfo("ci", "sc"),
    "141" := VarInfo("sd", "sc"),
    "33" := VarInfo("rsn", "sc"),
    "39" := VarInfo("swvl1", "sc"),
    "40" := VarInfo("swvl2", "sc"),
    "41" := VarInfo("swvl3", "sc"),
    "42" := VarInfo("swvl4", "sc"),
    "139" := VarInfo("stl1", "sc"),
    "170" := VarInfo("stl2", "sc"),
    "183" := VarInfo("stl3", "sc"),
    "236" := VarInfo("stl4", "sc")
  ]

  /** `var_map.get(param, ('unknown', 'sc'))` */
  function LookupVar(param: string): VarInfo
  {
    if param in VAR_MAP then VAR_MAP[param] else VarInfo("unknown", "sc")
  }

  /** The grid is "uv" for exactly the four wind parameters; every other
      code, known or not, gets "sc", and an unknown code is named "unknown". */
  lemma WindGridIsUv(param: string)
    ensures LookupVar(param).grid == "uv" <==> param in {"131", "132", "165", "166"}
    ensures param !in VAR_MAP ==> LookupVar(param) == VarInfo("unknown", "sc")
  {
    if param in VAR_MAP && param !in {"131", "132", "165", "166"} {
      assert param in {"129", "130", "133", "134", "151", "167", "168", "34", "235", "172", "31",
                       "141", "33", "39", "40", "41", "42", "139", "170", "183", "236"};
    }
  }

  /** Every parameter of the two tables has an entry in the name map. */
  lemma TablesAreNamed()
    ensures forall e :: e in PRESSURE_LEVEL_VARS + SINGLE_LEVEL_VARS ==> e.param in VAR_MAP
  {
  }

  /** `f"{year}{month:02d}{day:02d}"` */
  function DateStamp(year: int, month: int, day: int): string
  {
    FormatInt(year, 0) + FormatInt(month, 2) + FormatInt(day, 2)
  }

  /** A calendar date read back from a stamp. */
  datatype Date = Date(year: nat, month: nat, day: nat)

  /** Reads a stamp of at least five digits as its year digits followed by
      two digits of month and two of day. */
  function ReadStamp(d: string): Option<Date>
  {
    if |d| < 5 || !AllDigits(d) then None
    else Some(Date(ParseNat(d[..|d| - 4]), ParseNat(d[|d| - 4..|d| - 2]), ParseNat(d[|d| - 2..])))
  }

  lemma ReadStampParts(y: string, m: string, dd: string)
    requires |y| >= 1 && |m| == 2 && |dd| == 2
    requires AllDigits(y) && AllDigits(m) && AllDigits(dd)
    ensures ReadStamp(y + m + dd) == Some(Date(ParseNat(y), ParseNat(m), ParseNat(dd)))
  {
    var d := y + m + dd;
    assert d[..|d| - 4] == y;
    assert d[|d| - 4..|d| - 2] == m;
    assert d[|d| - 2..] == dd;
  }

  /** The date stamp of a day decodes to that day: the year's digits, then
      exactly two digits of month and two of day. */
  lemma DateStampDecodes(year: nat, month: nat, day: nat)
    requires month < 100 && day < 100
    ensures ReadStamp(DateStamp(year, month, day)) == Some(Date(year, month, day))
  {
    FormatPlain(year);
    FormatFixedWidth(month, 2);
    FormatFixedWidth(day, 2);
    ReadStampParts(FormatInt(year, 0), FormatInt(month, 2), FormatInt(day, 2));
  }

  /** A download location: the full URL and the bare file name it ends in. */
  datatype RdaFile = RdaFile(url: string, filename: string)

  /** The archive directory of one month of one level type:
      base + `/e5.oper.an.{level_type}/` + year + 2-digit month + `/`. */
  function MonthDirectory(levelType: string, year: int, month: int): (d: string)
    ensures StartsWith(d, RDA_BASE_URL)
    ensures d != [] && d[|d| - 1] == '/'
  {
    var rest := "/e5.oper.an." + levelType + "/" + FormatInt(year, 0) + FormatInt(month, 2) + "/";
    StartsWithConcat(RDA_BASE_URL, rest);
    RDA_BASE_URL + rest
  }

  /** The archive's file name pattern:
      `e5.oper.an.{level_type}.128_{code}_{short}.ll025{grid}.{from}_{to}.nc`. */
  function FileName(levelType: string, code: string, short: string, grid: string, from: string, to: string): string
  {
    "e5.oper.an." + levelType + ".128_" + code + "_" + short + ".ll025" + grid + "." + from + "_" + to + ".nc"
  }

  /** `build_rda_url`: the archive file holding all 24 hours of one day of
      one parameter. */
  function BuildRdaUrl(year: int, month: int, day: int, param: string, levelType: string): (f: RdaFile)
    ensures f.url == MonthDirectory(levelType, year, month) + f.filename
    ensures f.filename == FileName(levelType, param, LookupVar(param).short, LookupVar(param).grid,
                                   DateStamp(year, month, day) + "00", DateStamp(year, month, day) + "23")
  {
    var date := DateStamp(year, month, day);
    var info := LookupVar(param);
    var filename := FileName(levelType, param, info.short, info.grid, date + "00", date + "23");
    RdaFile(MonthDirectory(levelType, year, month) + filename, filename)
  }

  /** Equal date stamps of one month are stamps of the same day. */
  lemma DateStampInjective(year: int, month: int, d1: int, d2: int)
    ensures DateStamp(year, month, d1) == DateStamp(year, month, d2) ==> d1 == d2
  {
    var ym := FormatInt(year, 0) + FormatInt(month, 2);
    assert FormatInt(d1, 2) == DateStamp(year, month, d1)[|ym|..];
    assert FormatInt(d2, 2) == DateStamp(year, month, d2)[|ym|..];
    FormatIntInjective(d1, d2, 2);
  }

  /** The parameter code sits at a fixed offset in a file name of a given
      level type. */
  lemma FileNameCode(levelType: string, code: string, short: string, grid: string, from: string, to: string)
    ensures var n := FileName(levelType, code, short, grid, from, to);
      |levelType| + 16 + |code| <= |n| && n[|levelType| + 16..|levelType| + 16 + |code|] == code
  {
    var head := "e5.oper.an." + levelType + ".128_";
    var tail := "_" + short + ".ll025" + grid + "." + from + "_" + to + ".nc";
    assert FileName(levelType, code, short, grid, from, to) == head + code + tail;
  }

  /** A daily file name holds the day's stamp twice, after a part that
      depends only on the level type and the variable. */
  lemma DailyNameShape(levelType: string, code: string, short: string, grid: string, stamp: string)
    ensures FileName(levelType, code, short, grid, stamp + "00", stamp + "23") ==
      ("e5.oper.an." + levelType + ".128_" + code + "_" + short + ".ll025" + grid + ".") + stamp + ("00_" + stamp + "23.nc")
  {
  }

  /** File names of one level type with codes of equal length agree on
      the code. */
  lemma NamesAgreeOnCode(levelType: string, c1: string, c2: string, sh1: string, sh2: string, g1: string, g2: string,
                         from1: string, from2: string, to1: string, to2: string)
    requires |c1| == |c2|
    requires FileName(levelType, c1, sh1, g1, from1, to1) == FileName(levelType, c2, sh2, g2, from2, to2)
    ensures c1 == c2
  {
    FileNameCode(levelType, c1, sh1, g1, from1, to1);
    FileNameCode(levelType, c2, sh2, g2, from2, to2);
  }

  /** Daily file names of one variable agree on the day's stamp. */
  lemma NamesAgreeOnStamp(levelType: string, code: string, short: string, grid: string, s1: string, s2: string)
    requires FileName(levelType, code, short, grid, s1 + "00", s1 + "23") ==
             FileName(levelType, code, short, grid, s2 + "00", s2 + "23")
    ensures s1 == s2
  {
    var head := "e5.oper.an." + levelType + ".128_" + code + "_" + short + ".ll025" + grid + ".";
    var n1 := FileName(levelType, code, short, grid, s1 + "00", s1 + "23");
    var n2 := FileName(levelType, code, short, grid, s2 + "00", s2 + "23");
    DailyNameShape(levelType, code, short, grid, s1);
    DailyNameShape(levelType, code, short, grid, s2);
    assert |s1| == |s2| by {
      assert |n1| == |head| + 2 * |s1| + 8;
      assert |n2| == |head| + 2 * |s2| + 8;
    }
    assert s1 == n1[|head|..|head| + |s1|];
    assert s2 == n2[|head|..|head| + |s2|];
  }

  /** Two daily files of one month and level type with codes of equal
      length share a name only when they are the same variable on the same
      day. */
  lemma DailyNamesIdentify(year: int, month: int, d1: int, d2: int, p1: string, p2: string, levelType: string)
    requires |p1| == |p2|
    ensures BuildRdaUrl(year, month, d1, p1, levelType).filename == BuildRdaUrl(year, month, d2, p2, levelType).filename ==>
      p1 == p2 && d1 == d2
  {
    if BuildRdaUrl(year, month, d1, p1, levelType).filename == BuildRdaUrl(year, month, d2, p2, levelType).filename {
      var s1, s2 := DateStamp(year, month, d1), DateStamp(year, month, d2);
      var i1, i2 := LookupVar(p1), LookupVar(p2);
      NamesAgreeOnCode(levelType, p1, p2, i1.short, i2.short, i1.grid, i2.grid, s1 + "00", s2 + "00", s1 + "23", s2 + "23");
      NamesAgreeOnStamp(levelType, p1, i1.short, i1.grid, s1, s2);
      DateStampInjective(year, month, d1, d2);
    }
  }

  /** The URL lies under the archive base and always ends with the file name. */
  lemma UrlEndsWithFileName(year: int, month: int, day: int, param: string, levelType: string)
    ensures var f := BuildRdaUrl(year, month, day, param, levelType);
      StartsWith(f.url, RDA_BASE_URL) && EndsWith(f.url, "/" + f.filename)
  {
    var f := BuildRdaUrl(year, month, day, param, levelType);
    var dir := MonthDirectory(levelType, year, month);
    DirectoryAndName(dir, f.filename);
    StartsWithExtend(dir, RDA_BASE_URL, f.filename);
  }

  /** `calendar.monthrange(year, month)[1]`, or None where it raises
      (a month outside 1..12). */
  function LastDay(year: int, month: int): (r: Option<nat>)
    ensures r.Some? <==> 1 <= month <= 12
    ensures r.Some? ==> r.value == Calendar.DaysInMonth(year, month)
  {
    if 1 <= month <= 12 then Some(Calendar.DaysInMonth(year, month)) else None
  }

  /** `f"{int(var_code):03d}"`: the parameter code zero-padded to 3 digits. */
  function PaddedCode(param: string): string
    requires param != [] && AllDigits(param)
  {
    FormatInt(ParseNat(param), 3)
  }

  /** A code below 1000 is padded to exactly three digits of the same value,
      so "34" becomes "034". */
  lemma PaddedCodeKeepsValue(param: string)
    requires param != [] && AllDigits(param) && ParseNat(param) < 1000
    ensures |PaddedCode(param)| == 3 && AllDigits(PaddedCode(param))
    ensures ParseNat(PaddedCode(param)) == ParseNat(param)
  {
    FormatFixedWidth(ParseNat(param), 3);
  }

  /** The two ends of a monthly file's time span: hour 00 of day 01 and hour
      23 of the last day (`str(last_day)`, not padded). */
  function MonthlySpan(year: int, month: int, last: nat): (string, string)
  {
    var ym := FormatInt(year, 0) + FormatInt(month, 2);
    (ym + "0100", ym + FormatInt(last, 0) + "23")
  }

  /** The monthly span runs from the first to the last day of the month, in
      the same stamp format as the daily files. */
  lemma MonthlySpanIsWholeMonth(year: int, month: int)
    requires 1 <= month <= 12
    ensures var span := MonthlySpan(year, month, Calendar.DaysInMonth(year, month));
      span.0 == DateStamp(year, month, 1) + "00" &&
      span.1 == DateStamp(year, month, Calendar.DaysInMonth(year, month)) + "23"
  {
    SpanStamps(year, month, Calendar.DaysInMonth(year, month));
  }

  /** With a two-digit last day, the span's ends are the daily stamps of
      day 1, hour 00 and of the last day, hour 23. */
  lemma SpanStamps(year: int, month: int, last: nat)
    requires 10 <= last < 100
    ensures MonthlySpan(year, month, last).0 == DateStamp(year, month, 1) + "00"
    ensures MonthlySpan(year, month, last).1 == DateStamp(year, month, last) + "23"
  {
    var ym := FormatInt(year, 0) + FormatInt(month, 2);
    TwoDigitDayUnpadded(last);
    assert FormatInt(1, 2) == "01";
    assert DateStamp(year, month, 1) + "00" == ym + "0100";
    assert DateStamp(year, month, last) + "23" == ym + FormatInt(last, 0) + "23";
  }

  /** A day of two digits prints the same with or without padding. */
  lemma TwoDigitDayUnpadded(day: nat)
    requires 10 <= day < 100
    ensures FormatInt(day, 0) == FormatInt(day, 2)
  {
    DigitsLength(day, 2);
    assert |Digits(day)| == 2 by {
      assert Digits(day) == Digits(day / 10) + [DigitChar(day % 10)];
    }
  }

  /** The single-level file of one table entry holding all hours of a
      month whose last day is `last`. */
  function MonthFile(year: int, month: int, last: nat, entry: VarEntry): (f: RdaFile)
    requires entry.param != [] && AllDigits(entry.param)
    ensures f.url == MonthDirectory("sfc", year, month) + f.filename
  {
    var span := MonthlySpan(year, month, last);
    var filename := FileName("sfc", PaddedCode(entry.param), Lower(entry.name), "sc", span.0, span.1);
    RdaFile(MonthDirectory("sfc", year, month) + filename, filename)
  }

  /** The monthly single-level file of one table entry, or None when the
      month is not a calendar month (`calendar.monthrange` raises). */
  function MonthlyFile(year: int, month: int, entry: VarEntry): (r: Option<RdaFile>)
    requires entry.param != [] && AllDigits(entry.param)
    ensures r.None? <==> !(1 <= month <= 12)
  {
    match LastDay(year, month)
    case None => None
    case Some(last) => Some(MonthFile(year, month, last, entry))
  }

  /** A monthly file of a calendar month is named like the daily files but
      with the 3-digit code, the lowercased table name, grid "sc" whatever
      the parameter, and a span from hour 00 of day 01 to hour 23 of the
      month's last Gregorian day. */
  lemma MonthlyFileSpansMonth(year: int, month: int, entry: VarEntry)
    requires 1 <= month <= 12 && entry.param != [] && AllDigits(entry.param)
    ensures MonthlyFile(year, month, entry).Some?
    ensures MonthlyFile(year, month, entry).value.filename ==
      FileName("sfc", PaddedCode(entry.param), Lower(entry.name), "sc",
               DateStamp(year, month, 1) + "00", DateStamp(year, month, Calendar.DaysInMonth(year, month)) + "23")
  {
    MonthlySpanIsWholeMonth(year, month);
  }

  /** Two monthly files of one month share a name only when their codes
      have the same value (codes of at most three digits). */
  lemma MonthlyNamesIdentify(year: int, month: int, last: nat, e1: VarEntry, e2: VarEntry)
    requires e1.param != [] && AllDigits(e1.param) && ParseNat(e1.param) < 1000
    requires e2.param != [] && AllDigits(e2.param) && ParseNat(e2.param) < 1000
    requires MonthFile(year, month, last, e1).filename == MonthFile(year, month, last, e2).filename
    ensures ParseNat(e1.param) == ParseNat(e2.param)
  {
    var span := MonthlySpan(year, month, last);
    PaddedCodeKeepsValue(e1.param);
    PaddedCodeKeepsValue(e2.param);
    FileNameCode("sfc", PaddedCode(e1.param), Lower(e1.name), "sc", span.0, span.1);
    FileNameCode("sfc", PaddedCode(e2.param), Lower(e2.name), "sc", span.0, span.1);
  }

  /** `b` contains the elements of `a` in the same relative order. */
  predicate IsSubsequence<T(==)>(a: seq<T>, b: seq<T>)
    decreases |b|
  {
    a == [] || (b != [] && ((a[0] == b[0] && IsSubsequence(a[1..], b[1..])) || IsSubsequence(a, b[1..])))
  }

  /** `{k: v for k, v in TABLE.items() if k in variables}` */
  function FilterVars(table: seq<VarEntry>, requested: seq<string>): seq<VarEntry>
  {
    if table == [] then []
    else if table[0].name in requested then [table[0]] + FilterVars(table[1..], requested)
    else FilterVars(table[1..], requested)
  }

  /** The filter keeps exactly the table entries whose name was requested,
      in table order. */
  lemma {:induction false} FilterVarsKeeps(table: seq<VarEntry>, requested: seq<string>)
    ensures forall e :: e in FilterVars(table, requested) <==> e in table && e.name in requested
    ensures IsSubsequence(FilterVars(table, requested), table)
    decreases |table|
  {
    if table != [] {
      FilterVarsKeeps(table[1..], requested);
      var rest := FilterVars(table[1..], requested);
      assert table == [table[0]] + table[1..];
      if table[0].name in requested {
        assert ([table[0]] + rest)[1..] == rest;
      }
    }
  }

  /** The variables a download function iterates: the whole table when no
      (or an empty) list is requested, otherwise the filtered table. */
  function SelectVars(table: seq<VarEntry>, requested: seq<string>): seq<VarEntry>
  {
    if requested == [] then table else FilterVars(table, requested)
  }

  /** The selection is the table itself without a request, otherwise exactly
      the requested entries; either way in table order. */
  lemma SelectVarsKeeps(table: seq<VarEntry>, requested: seq<string>)
    ensures requested == [] ==> SelectVars(table, requested) == table
    ensures requested != [] ==> forall e :: e in SelectVars(table, requested) <==> e in table && e.name in requested
    ensures IsSubsequence(SelectVars(table, requested), table)
  {
    if requested == [] {
      IsSubsequenceRefl(table);
    } else {
      FilterVarsKeeps(table, requested);
    }
  }

  /** Every selected entry comes from the table. */
  lemma SelectVarsFromTable(table: seq<VarEntry>, requested: seq<string>, i: int)
    requires 0 <= i < |SelectVars(table, requested)|
    ensures exists j :: 0 <= j < |table| && table[j] == SelectVars(table, requested)[i]
  {
    SelectVarsKeeps(table, requested);
    assert SelectVars(table, requested)[i] in SelectVars(table, requested);
  }

  /** No two entries share a parameter code. */
  predicate DistinctParams(vars: seq<VarEntry>)
  {
    forall i, j :: 0 <= i < j < |vars| ==> vars[i].param != vars[j].param
  }

  /** Filtering a table with distinct codes keeps them distinct. */
  lemma {:induction false} FilterVarsDistinct(table: seq<VarEntry>, requested: seq<string>)
    requires DistinctParams(table)
    ensures DistinctParams(FilterVars(table, requested))
    decreases |table|
  {
    if table != [] {
      FilterVarsDistinct(table[1..], requested);
      if table[0].name in requested {
        HeadCodeFresh(table, requested);
        PrependDistinct(table[0], FilterVars(table[1..], requested));
      }
    }
  }

  /** The first entry's code appears nowhere in the filtered rest. */
  lemma HeadCodeFresh(table: seq<VarEntry>, requested: seq<string>)
    requires table != [] && DistinctParams(table)
    ensures forall j :: 0 <= j < |FilterVars(table[1..], requested)| ==>
      FilterVars(table[1..], requested)[j].param != table[0].param
  {
    var rest := FilterVars(table[1..], requested);
    FilterVarsKeeps(table[1..], requested);
    forall j | 0 <= j < |rest|
      ensures rest[j].param != table[0].param
    {
      assert rest[j] in rest;
      var k :| 0 <= k < |table[1..]| && table[1..][k] == rest[j];
      assert table[k + 1] == rest[j];
    }
  }

  /** An entry whose code is new keeps the codes distinct when prepended. */
  lemma PrependDistinct(e: VarEntry, rest: seq<VarEntry>)
    requires DistinctParams(rest)
    requires forall j :: 0 <= j < |rest| ==> rest[j].param != e.param
    ensures DistinctParams([e] + rest)
  {
    var r := [e] + rest;
    forall i, j | 0 <= i < j < |r|
      ensures r[i].param != r[j].param
    {
      assert r[j] == rest[j - 1];
      if i > 0 {
        assert r[i] == rest[i - 1];
      }
    }
  }

  /** Whatever is requested, the selected variables have distinct codes
      when the table does. */
  lemma SelectVarsDistinct(table: seq<VarEntry>, requested: seq<string>)
    requires DistinctParams(table)
    ensures DistinctParams(SelectVars(table, requested))
  {
    if requested != [] {
      FilterVarsDistinct(table, requested);
    }
  }

  /** The pressure-level table: level type "pl", three-digit codes, no code
      twice. */
  lemma PressureTableShape()
    ensures DistinctParams(PRESSURE_LEVEL_VARS)
    ensures forall e :: e in PRESSURE_LEVEL_VARS ==> e.levelType == "pl" && |e.param| == 3
  {
  }

  /** No code appears twice in the single-level table. */
  lemma SingleTableDistinct()
    ensures DistinctParams(SINGLE_LEVEL_VARS)
  {
    var t := SINGLE_LEVEL_VARS;
    forall i, j | 0 <= i < j < |t|
      ensures t[i].param != t[j].param
    {
      SingleCodeUnique(i, j);
    }
  }

  /** Two entries of the single-level table have different codes. */
  lemma SingleCodeUnique(i: int, j: int)
    requires 0 <= i < j < |SINGLE_LEVEL_VARS|
    ensures SINGLE_LEVEL_VARS[i].param != SINGLE_LEVEL_VARS[j].param
  {
    var t := SINGLE_LEVEL_VARS;
    var a, b := t[i].param, t[j].param;
    assert |a| != |b| || a[0] != b[0] || a[1] != b[1] || (|a| == 3 && a[2] != b[2]);
  }

  /** The codes of the single-level table are written as `str` writes
      numbers, with at most three digits. */
  lemma SingleTableCanonical()
    ensures forall i :: 0 <= i < |SINGLE_LEVEL_VARS| ==> Canonical(SINGLE_LEVEL_VARS[i].param) && |SINGLE_LEVEL_VARS[i].param| <= 3
  {
    var t := SINGLE_LEVEL_VARS;
    forall i | 0 <= i < |t|
      ensures Canonical(t[i].param) && |t[i].param| <= 3
    {
      var c := t[i].param;
      assert |c| == 2 || |c| == 3;
      assert '1' <= c[0] <= '9' && IsDigit(c[1]) && (|c| == 3 ==> IsDigit(c[2]));
    }
  }

  lemma {:induction false} IsSubsequenceRefl<T>(a: seq<T>)
    ensures IsSubsequence(a, a)
  {
    if a != [] {
      IsSubsequenceRefl(a[1..]);
    }
  }
}
