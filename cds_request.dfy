/** Request preparation of download_era5_cds.py: the normalised month, the
    day and hour lists, the per-day target paths, the request dictionary
    and the `--area` argument. */
module CdsRequest {
  import opened Text

  const PRESSURE_DATASET: string := "reanalysis-era5-pressure-levels"
  const SINGLE_DATASET: string := "reanalysis-era5-single-levels"

  /** The variables of a pressure-level request. */
  const PRESSURE_VARIABLES: seq<string> := [
    "divergence", "fraction_of_cloud_cover", "geopotential", "ozone_mass_mixing_ratio",
    "potential_vorticity", "relative_humidity", "specific_cloud_ice_water_content",
    "specific_cloud_liquid_water_content", "specific_humidity", "specific_rain_water_content",
    "specific_snow_water_content", "temperature", "u_component_of_wind", "v_component_of_wind",
    "vertical_velocity", "vorticity"
  ]

  /** The pressure levels (hPa) of a pressure-level request. */
  const PRESSURE_LEVELS: seq<string> := [
    "10", "20", "30", "50", "70", "100", "125", "150", "175", "200",
    "225", "250", "300", "350", "400", "450", "500", "550", "600", "650",
    "700", "750", "775", "800", "825", "850", "875", "900", "925", "950",
    "975", "1000"
  ]

  /** The variables of a single-level request. */
  const SINGLE_VARIABLES: seq<string> := [
    "10m_u_component_of_wind", "10m_v_component_of_wind", "2m_dewpoint_temperature",
    "2m_temperature", "land_sea_mask", "mean_sea_level_pressure", "sea_ice_cover",
    "sea_surface_temperature", "skin_temperature", "snow_density", "snow_depth",
    "soil_temperature_level_1", "soil_temperature_level_2", "soil_temperature_level_3",
    "soil_temperature_level_4", "surface_pressure", "volumetric_soil_water_layer_1",
    "volumetric_soil_water_layer_2", "volumetric_soil_water_layer_3",
    "volumetric_soil_water_layer_4"
  ]

  // ---------------------------------------------------------------------
  // Month, days and hours

  /** `args.month.zfill(2)` */
  function NormaliseMonth(month: string): string
  {
    Zfill(month, 2)
  }

  /** A one-digit month gains a leading zero, a longer month string is
      kept as it is, and a month of digits keeps its value. */
  lemma NormaliseMonthPads(month: string)
    ensures |month| == 1 && IsDigit(month[0]) ==> NormaliseMonth(month) == ['0'] + month
    ensures |month| >= 2 ==> NormaliseMonth(month) == month
    ensures |NormaliseMonth(month)| >= 2
    ensures AllDigits(month) ==> AllDigits(NormaliseMonth(month)) && ParseNat(NormaliseMonth(month)) == ParseNat(month)
  {
    if AllDigits(month) {
      ZfillKeepsValue(month, 2);
    }
  }

  /** `[f"{d:02d}" for d in range(start_day, end_day + 1)]` */
  function DayList(startDay: int, endDay: int): (r: seq<string>)
  {
    seq(if endDay < startDay then 0 else endDay - startDay + 1, i requires 0 <= i => FormatInt(startDay + i, 2))
  }

  /** The day list holds one entry per day of the inclusive range; days
      0..99 appear as exactly two digits that read back as the day, in
      ascending order. */
  lemma DayListSpec(startDay: int, endDay: int)
    ensures |DayList(startDay, endDay)| == if endDay < startDay then 0 else endDay - startDay + 1
    ensures forall i :: 0 <= i < |DayList(startDay, endDay)| && 0 <= startDay + i < 100 ==>
      |DayList(startDay, endDay)[i]| == 2 && AllDigits(DayList(startDay, endDay)[i]) &&
      ParseNat(DayList(startDay, endDay)[i]) == startDay + i
  {
    var r := DayList(startDay, endDay);
    forall i | 0 <= i < |r| && 0 <= startDay + i < 100
      ensures |r[i]| == 2 && AllDigits(r[i]) && ParseNat(r[i]) == startDay + i
    {
      FormatFixedWidth(startDay + i, 2);
    }
  }

  /** Without `--start-day` and `--end-day` the days are 01..31, whatever
      the month. */
  lemma DefaultDays()
    ensures |DayList(1, 31)| == 31
    ensures forall i :: 0 <= i < 31 ==> ParseNat(DayList(1, 31)[i]) == i + 1
  {
    DayListSpec(1, 31);
  }

  /** `[f"{h:02d}:00" for h in range(24)]` */
  function TimeList(): (r: seq<string>)
  {
    seq(24, h requires 0 <= h < 24 => FormatInt(h, 2) + ":00")
  }

  /** There are 24 times, one per hour in order: two digits of the hour,
      then ":00". */
  lemma TimeListSpec()
    ensures |TimeList()| == 24
    ensures forall h :: 0 <= h < 24 ==>
      |TimeList()[h]| == 5 && AllDigits(TimeList()[h][..2]) && ParseNat(TimeList()[h][..2]) == h &&
      TimeList()[h][2..] == ":00"
  {
    forall h | 0 <= h < 24
      ensures |TimeList()[h]| == 5 && AllDigits(TimeList()[h][..2]) && ParseNat(TimeList()[h][..2]) == h &&
        TimeList()[h][2..] == ":00"
    {
      FormatFixedWidth(h, 2);
      var t := FormatInt(h, 2) + ":00";
      assert t[..2] == FormatInt(h, 2);
      assert t[2..] == ":00";
    }
  }

  // ---------------------------------------------------------------------
  // Paths

  /** The directory part `os.path.join` puts before a relative name: nothing
      for an empty directory, the directory itself when it ends with '/',
      otherwise the directory and a '/'. */
  function DirPrefix(dir: string): (r: string)
    ensures StartsWith(r, dir)
    ensures r == [] || r[|r| - 1] == '/'
  {
    if dir == [] || dir[|dir| - 1] == '/' then dir else dir + "/"
  }

  /** `os.path.join(dir, name)` (and `Path(dir) / name`) for a name that
      does not start with '/'. */
  function JoinPath(dir: string, name: string): string
  {
    DirPrefix(dir) + name
  }

  /** The joined path starts with the directory and ends with the name. */
  lemma JoinPathParts(dir: string, name: string)
    ensures StartsWith(JoinPath(dir, name), dir) && EndsWith(JoinPath(dir, name), name)
  {
    StartsWithExtend(DirPrefix(dir), dir, name);
    EndsWithConcat(DirPrefix(dir), name);
  }

  /** The per-day file names: `era5_pl_{year}{month}{day}.grib` and
      `era5_sl_{year}{month}{day}.grib`. */
  function TargetName(prefix: string, year: string, month: string, day: string): string
  {
    prefix + year + month + day + ".grib"
  }

  /** The target of one day of pressure-level data: under `out_dir/p_levels`. */
  function PressureTarget(outDir: string, year: string, month: string, day: string): string
  {
    JoinPath(JoinPath(outDir, "p_levels"), TargetName("era5_pl_", year, month, day))
  }

  /** The target of one day of single-level data: under `out_dir/s_levels`. */
  function SingleTarget(outDir: string, year: string, month: string, day: string): string
  {
    JoinPath(JoinPath(outDir, "s_levels"), TargetName("era5_sl_", year, month, day))
  }

  lemma SubdirectoryPath(dir: string, sub: string, name: string)
    requires sub != [] && sub[|sub| - 1] != '/'
    ensures JoinPath(JoinPath(dir, sub), name) == DirPrefix(dir) + sub + "/" + name
  {
  }

  /** A pressure-level target and a single-level target under the same
      output directory are never the same path, whatever the dates. */
  lemma TargetsNeverCollide(outDir: string, y1: string, m1: string, d1: string, y2: string, m2: string, d2: string)
    ensures PressureTarget(outDir, y1, m1, d1) != SingleTarget(outDir, y2, m2, d2)
  {
    var pre := DirPrefix(outDir);
    var n1 := TargetName("era5_pl_", y1, m1, d1);
    var n2 := TargetName("era5_sl_", y2, m2, d2);
    SubdirectoryPath(outDir, "p_levels", n1);
    SubdirectoryPath(outDir, "s_levels", n2);
    assert (pre + "p_levels" + "/" + n1)[|pre|] == 'p';
    assert (pre + "s_levels" + "/" + n2)[|pre|] == 's';
  }

  lemma CancelSides<T>(a: seq<T>, x: seq<T>, y: seq<T>, c: seq<T>)
    requires a + x + c == a + y + c
    ensures x == y
  {
    assert |x| == |y|;
    assert x == (a + x + c)[|a|..|a| + |x|];
    assert y == (a + y + c)[|a|..|a| + |y|];
  }

  lemma TargetShape(dir: string, prefix: string, year: string, month: string, day: string)
    ensures JoinPath(dir, TargetName(prefix, year, month, day)) == (DirPrefix(dir) + prefix + year + month) + day + ".grib"
  {
  }

  lemma {:induction false} SameDirDaysAgree(dir: string, prefix: string, year: string, month: string, d1: string, d2: string)
    requires JoinPath(dir, TargetName(prefix, year, month, d1)) == JoinPath(dir, TargetName(prefix, year, month, d2))
    ensures d1 == d2
  {
    TargetShape(dir, prefix, year, month, d1);
    TargetShape(dir, prefix, year, month, d2);
    CancelSides(DirPrefix(dir) + prefix + year + month, d1, d2, ".grib");
  }

  /** Within one run the targets of different days are different paths, so
      a file written for one day is never taken for another. */
  lemma TargetsIdentifyDays(outDir: string, year: string, month: string, d1: string, d2: string)
    ensures PressureTarget(outDir, year, month, d1) == PressureTarget(outDir, year, month, d2) ==> d1 == d2
    ensures SingleTarget(outDir, year, month, d1) == SingleTarget(outDir, year, month, d2) ==> d1 == d2
  {
    if PressureTarget(outDir, year, month, d1) == PressureTarget(outDir, year, month, d2) {
      SameDirDaysAgree(JoinPath(outDir, "p_levels"), "era5_pl_", year, month, d1, d2);
    }
    if SingleTarget(outDir, year, month, d1) == SingleTarget(outDir, year, month, d2) {
      SameDirDaysAgree(JoinPath(outDir, "s_levels"), "era5_sl_", year, month, d1, d2);
    }
  }

  // ---------------------------------------------------------------------
  // Requests

  /** A value of the request dictionary: one string or a list of strings. */
  datatype Value = Str(s: string) | Strs(items: seq<string>)

  /** The dictionary handed to `client.retrieve`. */
  type Request = map<string, Value>

  /** The request of one day, as the download functions build it:
      `pressure_level` only for pressure levels, `area` only when given. */
  function BuildRequest(variables: seq<string>, levels: Option<seq<string>>, year: string, month: string,
                        day: string, times: seq<string>, area: Option<seq<string>>): (r: Request)
  {
    var base := map["product_type" := Str("reanalysis"), "format" := Str("grib"), "variable" := Strs(variables),
                    "year" := Str(year), "month" := Str(month), "day" := Str(day), "time" := Strs(times)];
    var withLevels := if levels.Some? then base["pressure_level" := Strs(levels.value)] else base;
    if area.Some? then withLevels["area" := Strs(area.value)] else withLevels
  }

  /** The fields every request carries, for any day. */
  predicate CommonFields(r: Request, year: string, month: string, day: string, times: seq<string>)
  {
    "product_type" in r && r["product_type"] == Str("reanalysis") &&
    "format" in r && r["format"] == Str("grib") &&
    "year" in r && r["year"] == Str(year) &&
    "month" in r && r["month"] == Str(month) &&
    "day" in r && r["day"] == Str(day) &&
    "time" in r && r["time"] == Strs(times)
  }

  /** A request carries the product type, format, variables, year, month,
      its single day and the hour list; it has an `area` key exactly when an
      area was given and a `pressure_level` key exactly for pressure levels;
      and it has no other keys. */
  lemma RequestShape(variables: seq<string>, levels: Option<seq<string>>, year: string, month: string,
                     day: string, times: seq<string>, area: Option<seq<string>>)
    ensures var r := BuildRequest(variables, levels, year, month, day, times, area);
      CommonFields(r, year, month, day, times) &&
      "variable" in r && r["variable"] == Strs(variables) &&
      ("area" in r <==> area.Some?) && (area.Some? ==> r["area"] == Strs(area.value)) &&
      ("pressure_level" in r <==> levels.Some?) && (levels.Some? ==> r["pressure_level"] == Strs(levels.value)) &&
      r.Keys == {"product_type", "format", "variable", "year", "month", "day", "time"}
                + (if levels.Some? then {"pressure_level"} else {})
                + (if area.Some? then {"area"} else {})
  {
  }

  /** The request of a pressure-level day. */
  function PressureRequest(year: string, month: string, day: string, times: seq<string>, area: Option<seq<string>>): Request
  {
    BuildRequest(PRESSURE_VARIABLES, Some(PRESSURE_LEVELS), year, month, day, times, area)
  }

  /** The request of a single-level day. */
  function SingleRequest(year: string, month: string, day: string, times: seq<string>, area: Option<seq<string>>): Request
  {
    BuildRequest(SINGLE_VARIABLES, None, year, month, day, times, area)
  }

  /** The dictionary built step by step as the download functions do: the
      literal, then `request["area"] = area` when an area is given. */
  method MakeRequest(variables: seq<string>, levels: Option<seq<string>>, year: string, month: string,
                     day: string, times: seq<string>, area: Option<seq<string>>) returns (request: Request)
    ensures request == BuildRequest(variables, levels, year, month, day, times, area)
  {
    request := map["product_type" := Str("reanalysis"), "format" := Str("grib"), "variable" := Strs(variables)];
    if levels.Some? {
      request := request["pressure_level" := Strs(levels.value)];
    }
    request := request["year" := Str(year)]["month" := Str(month)]["day" := Str(day)]["time" := Strs(times)];
    if area.Some? {
      request := request["area" := Strs(area.value)];
    }
  }

  // ---------------------------------------------------------------------
  // The area argument

  /** The `--area` argument after parsing: absent (global), the four
      comma-separated values (kept as the text `float` converts), or
      invalid. */
  datatype AreaArg = Global | Area(values: seq<string>) | Invalid

  /** The `--area` check of `main`. `isFloat` says which texts `float()`
      accepts. An absent or empty argument means the whole globe; otherwise
      every comma-separated piece must convert and there must be exactly
      four of them. */
  function ParseArea(arg: Option<string>, isFloat: string -> bool): (r: AreaArg)
  {
    if arg.None? || arg.value == "" then Global
    else
      var pieces := Split(arg.value, ',');
      if exists i :: 0 <= i < |pieces| && !isFloat(pieces[i]) then Invalid
      else if |pieces| != 4 then Invalid
      else Area(pieces)
  }

  /** An accepted area has four values, which are exactly the text between
      the argument's three commas: joining them back with commas gives the
      argument. With values that all convert, the argument is accepted
      exactly when it has three commas. */
  lemma AreaArity(arg: string, isFloat: string -> bool)
    requires arg != ""
    ensures ParseArea(Some(arg), isFloat).Area? ==>
      |ParseArea(Some(arg), isFloat).values| == 4 && Count(arg, ',') == 3 &&
      Join(ParseArea(Some(arg), isFloat).values, ',') == arg
    ensures (forall i :: 0 <= i < |Split(arg, ',')| ==> isFloat(Split(arg, ',')[i])) ==>
      (ParseArea(Some(arg), isFloat).Area? <==> Count(arg, ',') == 3)
    ensures ParseArea(Some(arg), isFloat).Global? == false
  {
    SplitCount(arg, ',');
    JoinSplit(arg, ',');
  }
}
