/** Walltime strings: `scheduler.rs` and the duration helpers of `cli.rs`. */
module Durations {
  import opened Prelude
  import opened Text

  const HOUR: nat := 3600
  const DAY: nat := 86_400

  /** `format_hms_secs` in `scheduler.rs` and its twin `format_hms` in `cli.rs`. */
  function FormatHms(total: nat): string {
    Padded(total / HOUR, 2) + ":" + Padded(total % HOUR / 60, 2) + ":" + Padded(total % 60, 2)
  }

  function ParseField(s: string): Option<nat> {
    ParseU64(Trim(s))
  }

  /** `p.trim().parse::<u64>().unwrap_or(0)` for each part. */
  function LenientFields(parts: seq<string>): (nums: seq<nat>)
    ensures |nums| == |parts|
  {
    seq(|parts|, i requires 0 <= i < |parts| => ParseField(parts[i]).GetOr(0))
  }

  /** `parts.map(parse).collect::<Option<Vec<u64>>>()`: one bad field spoils the whole. */
  function StrictFields(parts: seq<string>): (nums: Option<seq<nat>>)
    ensures nums.Some? ==> |nums.value| == |parts|
  {
    if forall i :: 0 <= i < |parts| ==> ParseField(parts[i]).Some? then
      Some(seq(|parts|, i requires 0 <= i < |parts| => ParseField(parts[i]).value))
    else None
  }

  /** `parse_hms_to_seconds`: HH:MM:SS, MM:SS or SS. */
  function ParseHms(hms: string): nat {
    var t := Trim(hms);
    if t == "" then 0 else
    var nums := LenientFields(Split(t, ':'));
    if |nums| == 3 then nums[0] * HOUR + nums[1] * 60 + nums[2]
    else if |nums| == 2 then nums[0] * 60 + nums[1]
    else if |nums| == 1 then nums[0]
    else 0
  }

  /** `parse_slurm_time`: the six shapes Slurm accepts; a bare number is minutes. */
  function ParseSlurmTime(spec: string): Option<nat> {
    var t := Trim(spec);
    if t == "" || EqIgnoreCase(t, "unlimited") then None else ParseTrimmedTime(t)
  }

  function ParseTrimmedTime(t: string): Option<nat> {
    match SplitOnce(t, '-')
    case None => SecondsOf(0, StrictFields(Split(t, ':')), false)
    case Some((d, r)) =>
      (match ParseField(d)
       case None => None
       case Some(days) => SecondsOf(days, StrictFields(Split(Trim(r), ':')), true))
  }

  function SecondsOf(days: nat, fields: Option<seq<nat>>, hadDay: bool): Option<nat> {
    match fields
    case None => None
    case Some(nums) =>
      if hadDay && |nums| == 1 then Some(days * DAY + nums[0] * HOUR)
      else if hadDay && |nums| == 2 then Some(days * DAY + nums[0] * HOUR + nums[1] * 60)
      else if !hadDay && |nums| == 1 then Some(nums[0] * 60)
      else if !hadDay && |nums| == 2 then Some(nums[0] * 60 + nums[1])
      else if |nums| == 3 then Some(days * DAY + nums[0] * HOUR + nums[1] * 60 + nums[2])
      else None
  }

  /** The shapes in which Slurm writes a time limit. */
  datatype SlurmTime =
    | Minutes(m: nat)
    | MinutesSeconds(m: nat, s: nat)
    | HoursMinutesSeconds(h: nat, m: nat, s: nat)
    | DaysHours(d: nat, h: nat)
    | DaysHoursMinutes(d: nat, h: nat, m: nat)
    | DaysHoursMinutesSeconds(d: nat, h: nat, m: nat, s: nat)
  {
    function Seconds(): nat {
      match this
      case Minutes(m) => m * 60
      case MinutesSeconds(m, s) => m * 60 + s
      case HoursMinutesSeconds(h, m, s) => h * HOUR + m * 60 + s
      case DaysHours(d, h) => d * DAY + h * HOUR
      case DaysHoursMinutes(d, h, m) => d * DAY + h * HOUR + m * 60
      case DaysHoursMinutesSeconds(d, h, m, s) => d * DAY + h * HOUR + m * 60 + s
    }

    function Days(): Option<nat> {
      match this
      case DaysHours(d, _) => Some(d)
      case DaysHoursMinutes(d, _, _) => Some(d)
      case DaysHoursMinutesSeconds(d, _, _, _) => Some(d)
      case _ => None
    }

    function Fields(): (fs: seq<nat>)
      ensures |fs| >= 1
    {
      match this
      case Minutes(m) => [m]
      case MinutesSeconds(m, s) => [m, s]
      case HoursMinutesSeconds(h, m, s) => [h, m, s]
      case DaysHours(_, h) => [h]
      case DaysHoursMinutes(_, h, m) => [h, m]
      case DaysHoursMinutesSeconds(_, h, m, s) => [h, m, s]
    }

    /** The text form, with every field zero-padded to at least `width` digits. */
    function Print(width: nat): string {
      (match Days()
       case None => ""
       case Some(d) => Padded(d, width) + "-")
      + Join(PrintFields(Fields(), width), ":")
    }
  }

  function PrintFields(fields: seq<nat>, width: nat): (parts: seq<string>)
    ensures |parts| == |fields|
    ensures forall i :: 0 <= i < |fields| ==> parts[i] == Padded(fields[i], width)
  {
    seq(|fields|, i requires 0 <= i < |fields| => Padded(fields[i], width))
  }

  /** Characters a printed time can contain, none of which is white space. */
  predicate IsTimeChar(c: char) {
    IsDigit(c) || c == ':'
  }

  lemma {:induction false} JoinOfNumbers(fields: seq<nat>, width: nat)
    requires fields != []
    ensures var text := Join(PrintFields(fields, width), ":");
            && text != "" && IsDigit(text[0]) && IsTrimmed(text)
            && (forall c :: c in text ==> IsTimeChar(c))
  {
    var parts := PrintFields(fields, width);
    var text := Join(parts, ":");
    assert parts[0] == Padded(fields[0], width);
    if |fields| > 1 {
      JoinOfNumbers(fields[1..], width);
      assert parts[1..] == PrintFields(fields[1..], width);
      var tail := Join(parts[1..], ":");
      assert text == parts[0] + ":" + tail;
      assert text[|text| - 1] == tail[|tail| - 1];
    }
  }

  /** Splitting and reading a printed list of numbers gives the numbers back. */
  lemma FieldsParseBack(fields: seq<nat>, width: nat)
    requires fields != []
    requires forall i :: 0 <= i < |fields| ==> fields[i] <= U64_MAX
    ensures var parts := Split(Join(PrintFields(fields, width), ":"), ':');
            StrictFields(parts) == Some(fields) && LenientFields(parts) == fields
  {
    var parts := PrintFields(fields, width);
    forall i | 0 <= i < |fields|
      ensures ParseField(parts[i]) == Some(fields[i]) && ':' !in parts[i]
    {
      ParseOfPadded(fields[i], width, U64_MAX);
      TrimOfTrimmed(parts[i]);
    }
    SplitOfJoin(parts, ':');
    assert LenientFields(parts) == fields;
    assert StrictFields(parts).value == fields;
  }

  lemma NotUnlimited(t: string)
    requires t != "" && IsDigit(t[0])
    ensures !EqIgnoreCase(t, "unlimited")
  {
    assert Lower(t)[0] == t[0];
    assert Lower("unlimited")[0] == 'u';
  }

  lemma FieldsFit(t: SlurmTime)
    requires t.Seconds() <= U64_MAX
    ensures forall i :: 0 <= i < |t.Fields()| ==> t.Fields()[i] <= U64_MAX
    ensures t.Days().Some? ==> t.Days().value <= U64_MAX
  {
  }

  lemma SecondsOfFields(t: SlurmTime)
    ensures SecondsOf(t.Days().GetOr(0), Some(t.Fields()), t.Days().Some?) == Some(t.Seconds())
  {
  }

  /** How text made of digits and colons alone is read. */
  lemma DaylessTextReadsAs(text: string, fields: seq<nat>)
    requires text != "" && IsDigit(text[0]) && IsTrimmed(text) && forall c :: c in text ==> IsTimeChar(c)
    requires StrictFields(Split(text, ':')) == Some(fields)
    ensures ParseSlurmTime(text) == SecondsOf(0, Some(fields), false)
  {
    TrimOfTrimmed(text);
    NotUnlimited(text);
    SplitOnceWithoutSeparator(text, '-');
    assert ParseSlurmTime(text) == ParseTrimmedTime(text);
  }

  /** How such text is read behind a number of days. */
  lemma DatedTextReadsAs(day: string, d: nat, text: string, fields: seq<nat>)
    requires day != "" && IsDigit(day[0]) && '-' !in day && ParseField(day) == Some(d)
    requires text != "" && IsTrimmed(text) && !IsSpace(text[|text| - 1])
    requires StrictFields(Split(text, ':')) == Some(fields)
    ensures ParseSlurmTime(day + "-" + text) == SecondsOf(d, Some(fields), true)
  {
    var whole := day + "-" + text;
    assert whole[0] == day[0] && whole[|whole| - 1] == text[|text| - 1];
    DigitIsNotSpace(day[0]);
    TrimOfTrimmed(text);
    TrimOfTrimmed(whole);
    NotUnlimited(whole);
    SplitOnceAtSeparator(day, text, '-');
    assert ParseSlurmTime(whole) == ParseTrimmedTime(whole);
  }

  lemma DaylessTimeRoundTrips(t: SlurmTime, width: nat)
    requires t.Seconds() <= U64_MAX && t.Days().None?
    ensures ParseSlurmTime(t.Print(width)) == Some(t.Seconds())
  {
    var fields := t.Fields();
    var text := Join(PrintFields(fields, width), ":");
    FieldsFit(t);
    PrintedFieldsRead(fields, width, text);
    SecondsOfFields(t);
    assert t.Print(width) == text;
  }

  lemma DatedTimeRoundTrips(t: SlurmTime, width: nat)
    requires t.Seconds() <= U64_MAX && t.Days().Some?
    ensures ParseSlurmTime(t.Print(width)) == Some(t.Seconds())
  {
    var fields, d := t.Fields(), t.Days().value;
    var text, day := Join(PrintFields(fields, width), ":"), Padded(d, width);
    FieldsFit(t);
    JoinOfNumbers(fields, width);
    FieldsParseBack(fields, width);
    ParseOfPadded(d, width, U64_MAX);
    TrimOfTrimmed(day);
    DatedTextReadsAs(day, d, text, fields);
    SecondsOfFields(t);
    assert t.Print(width) == day + "-" + text;
  }

  /** Reading any printed Slurm time gives the seconds it stands for, whenever they fit in a u64. */
  lemma SlurmTimeRoundTrips(t: SlurmTime, width: nat)
    requires t.Seconds() <= U64_MAX
    ensures ParseSlurmTime(t.Print(width)) == Some(t.Seconds())
  {
    if t.Days().None? {
      DaylessTimeRoundTrips(t, width);
    } else {
      DatedTimeRoundTrips(t, width);
    }
  }

  lemma JoinOfThree(a: string, b: string, c: string, sep: string)
    ensures Join([a, b, c], sep) == a + sep + b + sep + c
  {
    assert [a, b, c][1..] == [b, c];
    JoinOfTwo(b, c, sep);
    assert a + sep + (b + sep + c) == a + sep + b + sep + c;
  }

  lemma JoinOfTwo(a: string, b: string, sep: string)
    ensures Join([a, b], sep) == a + sep + b
  {
    assert [a, b][1..] == [b];
  }

  lemma PrintOfThree(a: nat, b: nat, c: nat, width: nat)
    ensures PrintFields([a, b, c], width) == [Padded(a, width), Padded(b, width), Padded(c, width)]
  {
  }

  function HmsFields(total: nat): seq<nat> {
    [total / HOUR, total % HOUR / 60, total % 60]
  }

  lemma HmsIsAJoin(total: nat)
    ensures FormatHms(total) == Join(PrintFields(HmsFields(total), 2), ":")
  {
    var h, m, s := total / HOUR, total % HOUR / 60, total % 60;
    PrintOfThree(h, m, s, 2);
    JoinOfThree(Padded(h, 2), Padded(m, 2), Padded(s, 2), ":");
  }

  lemma PartsAddUp(total: nat)
    ensures total / HOUR * HOUR + total % HOUR / 60 * 60 + total % 60 == total
  {
    var r := total % HOUR;
    assert total == total / HOUR * HOUR + r;
    assert r == r / 60 * 60 + r % 60;
  }

  lemma PrintedFieldsRead(fields: seq<nat>, width: nat, text: string)
    requires fields != [] && forall i :: 0 <= i < |fields| ==> fields[i] <= U64_MAX
    requires text == Join(PrintFields(fields, width), ":")
    ensures text != "" && IsTrimmed(text) && LenientFields(Split(text, ':')) == fields
    ensures ParseSlurmTime(text) == SecondsOf(0, Some(fields), false)
  {
    JoinOfNumbers(fields, width);
    FieldsParseBack(fields, width);
    DaylessTextReadsAs(text, fields);
  }

  lemma FieldsAreHms(text: string, fields: seq<nat>)
    requires text != "" && IsTrimmed(text) && LenientFields(Split(text, ':')) == fields && fields != []
    ensures ParseHms(text)
         == if |fields| == 3 then fields[0] * HOUR + fields[1] * 60 + fields[2]
            else if |fields| == 2 then fields[0] * 60 + fields[1]
            else if |fields| == 1 then fields[0]
            else 0
  {
    TrimOfTrimmed(text);
  }

  lemma ThreeFieldSeconds(fields: seq<nat>, parsed: Option<nat>, total: nat)
    requires |fields| == 3 && parsed == SecondsOf(0, Some(fields), false)
    requires fields[0] * HOUR + fields[1] * 60 + fields[2] == total
    ensures parsed == Some(total)
  {
  }

  lemma HmsFieldsOf(total: nat) returns (fields: seq<nat>)
    requires total <= U64_MAX
    ensures |fields| == 3 && fields[0] * HOUR + fields[1] * 60 + fields[2] == total
    ensures FormatHms(total) == Join(PrintFields(fields, 2), ":")
    ensures forall i :: 0 <= i < |fields| ==> fields[i] <= U64_MAX
  {
    fields := HmsFields(total);
    HmsIsAJoin(total);
    PartsAddUp(total);
  }

  lemma HmsRoundTrips(text: string, fields: seq<nat>, width: nat, total: nat)
    requires |fields| == 3 && fields[0] * HOUR + fields[1] * 60 + fields[2] == total
    requires text == Join(PrintFields(fields, width), ":") && forall i :: 0 <= i < |fields| ==> fields[i] <= U64_MAX
    ensures ParseHms(text) == total
  {
    PrintedFieldsRead(fields, width, text);
    FieldsAreHms(text, fields);
  }

  lemma SlurmReadsHms(text: string, fields: seq<nat>, width: nat, total: nat)
    requires |fields| == 3 && fields[0] * HOUR + fields[1] * 60 + fields[2] == total
    requires text == Join(PrintFields(fields, width), ":") && forall i :: 0 <= i < |fields| ==> fields[i] <= U64_MAX
    ensures ParseSlurmTime(text) == Some(total)
  {
    PrintedFieldsRead(fields, width, text);
    ThreeFieldSeconds(fields, ParseSlurmTime(text), total);
  }

  /** Hours, minutes and seconds, minutes and seconds, or seconds: each field counts sixty of the next. */
  function Sexagesimal(fields: seq<nat>): nat {
    if fields == [] then 0 else 60 * Sexagesimal(fields[..|fields| - 1]) + fields[|fields| - 1]
  }

  lemma SexagesimalOfThree(fields: seq<nat>)
    requires 1 <= |fields| <= 3
    ensures Sexagesimal(fields)
         == if |fields| == 3 then fields[0] * HOUR + fields[1] * 60 + fields[2]
            else if |fields| == 2 then fields[0] * 60 + fields[1]
            else fields[0]
  {
    var init := fields[..|fields| - 1];
    assert init != [] ==> Sexagesimal(init) == 60 * Sexagesimal(init[..|init| - 1]) + init[|init| - 1];
    if |fields| == 3 {
      assert init[..1] == [fields[0]] && Sexagesimal([fields[0]]) == fields[0];
    }
  }

  /** A printed walltime of up to three fields is read to base sixty; more fields are worth nothing. */
  lemma HmsShapesRead(fields: seq<nat>, width: nat)
    requires fields != [] && forall i :: 0 <= i < |fields| ==> fields[i] <= U64_MAX
    ensures |fields| <= 3 && Sexagesimal(fields) <= U64_MAX ==>
              ParseHms(Join(PrintFields(fields, width), ":")) == Sexagesimal(fields)
    ensures |fields| > 3 ==> ParseHms(Join(PrintFields(fields, width), ":")) == 0
  {
    var text := Join(PrintFields(fields, width), ":");
    PrintedFieldsRead(fields, width, text);
    FieldsAreHms(text, fields);
    if |fields| <= 3 {
      SexagesimalOfThree(fields);
    }
  }

  /**
   * A rendered walltime reads back exactly, by both readers, for every u64 number of
   * seconds; since no intermediate sum exceeds the result, nothing overflows on the way.
   */
  lemma WalltimeRoundTrips(total: nat)
    requires total <= U64_MAX
    ensures ParseHms(FormatHms(total)) == total
    ensures ParseSlurmTime(FormatHms(total)) == Some(total)
  {
    var fields := HmsFieldsOf(total);
    HmsRoundTrips(FormatHms(total), fields, 2, total);
    SlurmReadsHms(FormatHms(total), fields, 2, total);
  }

  /** `slurm_walltime_from` over the environment it looks variables up in. */
  function SlurmWalltime(env: map<string, string>): Option<string> {
    var fromLimit :=
      if "SLURM_TIMELIMIT" in env then ParseSlurmTime(env["SLURM_TIMELIMIT"]) else None;
    var secs := if fromLimit.Some? then fromLimit else BookedSpan(env);
    match secs
    case None => None
    case Some(n) => Some(FormatHms(n))
  }

  /** The difference of the exported start and end timestamps, when both make sense. */
  function BookedSpan(env: map<string, string>): (span: Option<nat>)
    ensures span.Some? ==> 0 < span.value <= U64_MAX
  {
    if "SLURM_JOB_START_TIME" in env && "SLURM_JOB_END_TIME" in env then
      match (ParseField(env["SLURM_JOB_START_TIME"]), ParseField(env["SLURM_JOB_END_TIME"]))
      case (Some(start), Some(end)) => if start > 0 && end > start then Some(end - start) else None
      case _ => None
    else None
  }

  /** Two printed timestamps book the time between them, provided the second comes after a first that is set. */
  lemma TimestampsBookTheirDifference(env: map<string, string>, start: nat, end: nat)
    requires start <= U64_MAX && end <= U64_MAX
    requires "SLURM_JOB_START_TIME" in env && env["SLURM_JOB_START_TIME"] == Digits(start)
    requires "SLURM_JOB_END_TIME" in env && env["SLURM_JOB_END_TIME"] == Digits(end)
    ensures BookedSpan(env).Some? <==> 0 < start < end
    ensures BookedSpan(env).Some? ==> start + BookedSpan(env).value == end
  {
    PaddedToNothing(start);
    PaddedToNothing(end);
    ParseOfPadded(start, 0, U64_MAX);
    ParseOfPadded(end, 0, U64_MAX);
    TrimOfTrimmed(Digits(start));
    TrimOfTrimmed(Digits(end));
  }

  /** The seconds a Slurm site has booked: the limit if it can be read, else the span of the two timestamps. */
  function BookedSeconds(env: map<string, string>): Option<nat> {
    if "SLURM_TIMELIMIT" in env && ParseSlurmTime(env["SLURM_TIMELIMIT"]).Some?
    then ParseSlurmTime(env["SLURM_TIMELIMIT"])
    else BookedSpan(env)
  }

  /**
   * In every environment, the booking that a Slurm site exports survives the trip through
   * `HH:MM:SS` into the number of seconds the logger books; a limit that cannot be read
   * leaves the timestamps to be used, and nothing is booked exactly when neither is there.
   */
  lemma SlurmBookingReachesTheLogger(env: map<string, string>)
    ensures SlurmWalltime(env).Some? <==> BookedSeconds(env).Some?
    ensures BookedSeconds(env).Some? && BookedSeconds(env).value <= U64_MAX ==>
              ParseHms(SlurmWalltime(env).value) == BookedSeconds(env).value
  {
    if BookedSeconds(env).Some? && BookedSeconds(env).value <= U64_MAX {
      WalltimeRoundTrips(BookedSeconds(env).value);
    }
  }

  /** And a limit printed in any of Slurm's shapes is the one that is booked. */
  lemma PrintedLimitIsBooked(env: map<string, string>, t: SlurmTime, width: nat)
    requires t.Seconds() <= U64_MAX
    requires "SLURM_TIMELIMIT" in env && env["SLURM_TIMELIMIT"] == t.Print(width)
    ensures SlurmWalltime(env).Some? && ParseHms(SlurmWalltime(env).value) == t.Seconds()
  {
    SlurmTimeRoundTrips(t, width);
    SlurmBookingReachesTheLogger(env);
  }
}
