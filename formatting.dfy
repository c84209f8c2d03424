/**
 * `StdFormatter.Format` (log.go, lines 90-148): the optional date and time segments, the
 * level name, the prefix, the optional caller `file:line` and the message, joined by
 * single spaces. The clock reading and the result of the caller lookup are parameters.
 */
module Formatting {
  import opened Options
  import opened Decimal
  import opened Levels

  /** The flags of the standard `log` package that the formatter reads, as booleans. */
  datatype Flags = Flags(date: bool, time: bool, microseconds: bool, shortFile: bool, longFile: bool)

  /** `StdFormatter`: a literal prefix, the flags, and whether level names are coloured. */
  datatype StdFormatter = StdFormatter(prefix: string, flag: Flags, colored: bool)

  /** The fields of a `time.Time` reading that the formatter prints. */
  datatype Instant = Instant(year: int, month: nat, day: nat, hour: nat, minute: nat, second: nat, nanosecond: nat)

  /** A resolved call site: file path and line number. */
  datatype Site = Site(file: string, line: int)

  /** `strings.Join(segs, sep)`. */
  function Join(segs: seq<string>, sep: string): string
  {
    if segs == [] then ""
    else if |segs| == 1 then segs[0]
    else segs[0] + sep + Join(segs[1..], sep)
  }

  /** Joining two non-empty runs of segments puts exactly one separator between their joins. */
  lemma {:induction false} JoinConcat(a: seq<string>, b: seq<string>, sep: string)
    requires a != [] && b != []
    ensures Join(a + b, sep) == Join(a, sep) + sep + Join(b, sep)
    decreases |a|
  {
    assert (a + b)[1..] == a[1..] + b;
    if |a| > 1 {
      JoinConcat(a[1..], b, sep);
    }
  }

  /** A join of at least two segments ends with the separator and the last segment. */
  lemma JoinEndsWithLast(segs: seq<string>, sep: string)
    requires |segs| >= 2
    ensures var j, last := Join(segs, sep), segs[|segs| - 1];
      |j| >= |sep| + |last| && j[|j| - |sep| - |last|..] == sep + last
  {
    var n := |segs| - 1;
    assert segs == segs[..n] + [segs[n]];
    JoinConcat(segs[..n], [segs[n]], sep);
  }

  // ---- date and time ----

  /**
   * The date segment `%v-%02d-%02d`: the year, then month and day zero-padded to two digits.
   * For a date of a non-negative year it is the year's digits, '-', the month in two digits,
   * '-', the day in two digits.
   */
  function DateSegment(now: Instant): (s: string)
    ensures now.year >= 0 && now.month < 100 && now.day < 100 ==>
      var y := |NatToString(now.year)|;
      && |s| == y + 6 && s[y] == '-' && s[y + 3] == '-'
      && AllDigits(s[..y]) && Value(s[..y]) == now.year
      && AllDigits(s[y + 1..y + 3]) && Value(s[y + 1..y + 3]) == now.month
      && AllDigits(s[y + 4..]) && Value(s[y + 4..]) == now.day
  {
    var year, m, d := IntToString(now.year), ZeroPad(now.month, 2), ZeroPad(now.day, 2);
    var s := year + "-" + m + "-" + d;
    assert Pow10(2) == 100;
    assert now.month < 100 && now.day < 100 ==> |m| == 2 && |d| == 2;
    assert now.month < 100 && now.day < 100 ==>
      s[..|year|] == year && s[|year| + 1..|year| + 3] == m && s[|year| + 4..] == d;
    s
  }

  /**
   * The time of day `%02d:%02d:%02d`. For a valid time of day it is `HH:MM:SS`: eight
   * characters, colons at positions 2 and 5, and each two-digit field reads back as its value.
   */
  function ClockSegment(now: Instant): (s: string)
    ensures now.hour < 24 && now.minute < 60 && now.second < 60 ==>
      && |s| == 8 && s[2] == ':' && s[5] == ':'
      && AllDigits(s[0..2]) && Value(s[0..2]) == now.hour
      && AllDigits(s[3..5]) && Value(s[3..5]) == now.minute
      && AllDigits(s[6..8]) && Value(s[6..8]) == now.second
  {
    var h, m, c := ZeroPad(now.hour, 2), ZeroPad(now.minute, 2), ZeroPad(now.second, 2);
    var s := h + ":" + m + ":" + c;
    assert Pow10(2) == 100;
    assert now.hour < 100 && now.minute < 100 && now.second < 100 ==> |h| == 2 && |m| == 2 && |c| == 2;
    assert now.hour < 100 && now.minute < 100 && now.second < 100 ==>
      s[0..2] == h && s[3..5] == m && s[6..8] == c;
    s
  }

  /**
   * The fractional field of the time segment as log.go line 109 computes it:
   * `Nanosecond()/1000000`, the milliseconds, printed with `%06d`.
   */
  function FractionAsWritten(nanosecond: nat): (f: string)
    ensures AllDigits(f) && Value(f) == nanosecond / 1000000
    ensures nanosecond < 1000000000 ==> |f| == 6
  {
    assert Pow10(6) == 1000000;
    ZeroPad(nanosecond / 1000000, 6)
  }

  /**
   * At 123456789 nanoseconds past the second the field reads 000123 (the milliseconds),
   * not the 123456 microseconds a six-digit fraction stands for.
   */
  lemma FractionAsWrittenLosesMicroseconds()
    ensures var f := FractionAsWritten(123456789);
      |f| == 6 && Value(f) == 123 && Value(f) != 123456789 / 1000
  {
  }

  /** The six-digit microsecond field: `Nanosecond()/1000` printed with `%06d`. */
  function Fraction(nanosecond: nat): (f: string)
    ensures AllDigits(f) && Value(f) == nanosecond / 1000
    ensures nanosecond < 1000000000 ==> |f| == 6
  {
    assert Pow10(6) == 1000000;
    ZeroPad(nanosecond / 1000, 6)
  }

  /**
   * The date and time segments in order: the date when the date flag is set, then the
   * time with the fractional field if the microseconds flag is set, otherwise the plain
   * time if the time flag is. The fractional field is the one log.go line 109 prints.
   */
  function TimeSegments(flag: Flags, now: Instant): (segs: seq<string>)
    ensures |segs| == (if flag.date then 1 else 0) + (if flag.microseconds || flag.time then 1 else 0)
    ensures flag.date ==> segs[0] == DateSegment(now)
    ensures flag.microseconds ==> segs[|segs| - 1] == ClockSegment(now) + "." + FractionAsWritten(now.nanosecond)
    ensures !flag.microseconds && flag.time ==> segs[|segs| - 1] == ClockSegment(now)
  {
    (if flag.date then [DateSegment(now)] else [])
    + (if flag.microseconds then [ClockSegment(now) + "." + FractionAsWritten(now.nanosecond)]
       else if flag.time then [ClockSegment(now)]
       else [])
  }

  // ---- level ----

  /**
   * The level segment: the name from the coloured or the plain table when the level has
   * one, otherwise the level's decimal value (`strconv.Itoa`).
   */
  function LevelName(level: Level, colored: bool, ansi: AnsiEscape): (r: string)
    ensures level in LevelStrings && !colored ==> r == LevelStrings[level]
    ensures level in LevelStrings && colored ==> r == LevelCStrings(ansi)[level]
    ensures level !in LevelStrings ==> AllDigits(r) && Value(r) == level as int
  {
    var table := if colored then LevelCStrings(ansi) else LevelStrings;
    if level in table then table[level]
    else
      ValueOfNatToString(level as int);
      NatToString(level as int)
  }

  /**
   * Colouring never reaches Trace, Debug or a level without a name: for them the segment
   * is the same with and without `Colored`, and a level without a name is its shortest
   * decimal rendering.
   */
  lemma LevelNameUncolored(level: Level, ansi: AnsiEscape)
    requires level == Trace || level == Debug || level !in LevelStrings
    ensures LevelName(level, true, ansi) == LevelName(level, false, ansi)
    ensures level !in LevelStrings ==> LevelName(level, true, ansi) == NatToString(level as int)
  {
  }

  /** Level 99 has no name and renders as "99", coloured or not. */
  lemma LevelNameOf99(colored: bool, ansi: AnsiEscape)
    ensures LevelName(99, colored, ansi) == "99"
  {
    assert (99 as Level) !in LevelStrings;
    assert NatToString(99) == NatToString(9) + [DigitChar(9)];
  }

  // ---- caller ----

  /**
   * The backwards scan of the short-file loop: the largest index in 1..i holding '/', if any.
   * Index 0 is never examined.
   */
  function LastSlash(file: string, i: int): (r: Option<nat>)
    requires i < |file|
    ensures r.Some? ==> 1 <= r.value <= i && file[r.value] == '/'
    ensures r.Some? ==> forall k :: r.value < k <= i ==> file[k] != '/'
    ensures r.None? ==> forall k :: 1 <= k <= i ==> file[k] != '/'
    decreases i
  {
    if i <= 0 then None
    else if file[i] == '/' then Some(i)
    else LastSlash(file, i - 1)
  }

  /**
   * The short file name: what follows the last '/' at an index of at least 1. A path with no
   * such '/' (none at all, or only one at index 0) is left as it is.
   */
  function ShortFile(file: string): (r: string)
    ensures r == file <==> forall k :: 1 <= k < |file| ==> file[k] != '/'
    ensures r != file ==>
      && |r| + 2 <= |file|
      && file[|file| - |r| - 1] == '/'
      && r == file[|file| - |r|..]
      && forall k :: 0 <= k < |r| ==> r[k] != '/'
  {
    match LastSlash(file, |file| - 1)
    case None => file
    case Some(i) =>
      assert |file[i + 1..]| < |file|;
      file[i + 1..]
  }

  /**
   * The caller segment: nothing unless a file flag is set; then `file:line`, with the file
   * shortened under the short-file flag, or "???" when the call site could not be resolved.
   */
  function CallerSegment(flag: Flags, caller: Option<Site>): (segs: seq<string>)
    ensures |segs| <= 1
    ensures segs == [] <==> !flag.shortFile && !flag.longFile
    ensures (flag.shortFile || flag.longFile) && caller.None? ==> segs == ["???"]
    ensures (flag.shortFile || flag.longFile) && caller.Some? ==>
      segs == [(if flag.shortFile then ShortFile(caller.value.file) else caller.value.file)
               + ":" + IntToString(caller.value.line)]
  {
    if flag.shortFile || flag.longFile then
      match caller
      case None => ["???"]
      case Some(site) =>
        var file := if flag.shortFile then ShortFile(site.file) else site.file;
        [file + ":" + IntToString(site.line)]
    else []
  }

  // ---- the whole line ----

  /** The segments `Format` joins, in order: time, level, prefix, caller, message. */
  function Segments(f: StdFormatter, level: Level, msg: string, now: Instant, caller: Option<Site>, ansi: AnsiEscape): (segs: seq<string>)
    ensures var t := |TimeSegments(f.flag, now)|;
      && |segs| == t + 3 + |CallerSegment(f.flag, caller)|
      && segs[..t] == TimeSegments(f.flag, now)
      && segs[t] == LevelName(level, f.colored, ansi)
      && segs[t + 1] == f.prefix
      && segs[t + 2..|segs| - 1] == CallerSegment(f.flag, caller)
      && segs[|segs| - 1] == msg
  {
    TimeSegments(f.flag, now) + [LevelName(level, f.colored, ansi), f.prefix]
    + CallerSegment(f.flag, caller) + [msg]
  }

  /** `StdFormatter.Format`: the segments joined with single spaces; every line ends with a space and the message. */
  function Format(f: StdFormatter, level: Level, msg: string, now: Instant, caller: Option<Site>, ansi: AnsiEscape): (line: string)
    ensures |line| >= |msg| + 1 && line[|line| - |msg| - 1..] == " " + msg
  {
    var segs := Segments(f, level, msg, now, caller, ansi);
    JoinEndsWithLast(segs, " ");
    Join(segs, " ")
  }

  /** Joining `ts + [name, prefix] + cs + [msg]` with spaces, written out segment by segment. */
  lemma {:induction false} JoinLayout(ts: seq<string>, name: string, prefix: string, cs: seq<string>, msg: string)
    requires |cs| <= 1
    ensures Join(ts + [name, prefix] + cs + [msg], " ") ==
      (if ts == [] then "" else Join(ts, " ") + " ")
      + name + " " + prefix + (if cs == [] then "" else " " + cs[0]) + " " + msg
  {
    var core := [name, prefix] + cs;
    assert ts + [name, prefix] + cs + [msg] == ts + (core + [msg]);
    assert Join([name, prefix], " ") == name + " " + prefix by {
      assert [name, prefix][1..] == [prefix];
    }
    JoinConcat(core, [msg], " ");
    if cs != [] {
      JoinConcat([name, prefix], cs, " ");
    } else {
      assert core == [name, prefix];
    }
    if ts != [] {
      JoinConcat(ts, core + [msg], " ");
    } else {
      assert ts + (core + [msg]) == core + [msg];
    }
  }

  /**
   * The layout of a formatted line: the time segments each followed by a space, the level
   * name, a space, the prefix (present even when empty), then " file:line" or " ???" when a
   * file flag is set, then a space and the message.
   */
  lemma FormatLayout(f: StdFormatter, level: Level, msg: string, now: Instant, caller: Option<Site>, ansi: AnsiEscape)
    ensures
      var ts, cs := TimeSegments(f.flag, now), CallerSegment(f.flag, caller);
      Format(f, level, msg, now, caller, ansi) ==
        (if ts == [] then "" else Join(ts, " ") + " ")
        + LevelName(level, f.colored, ansi) + " " + f.prefix
        + (if cs == [] then "" else " " + cs[0])
        + " " + msg
  {
    JoinLayout(TimeSegments(f.flag, now), LevelName(level, f.colored, ansi), f.prefix, CallerSegment(f.flag, caller), msg);
  }

  /** Without date, time or file flags a line is `name + " " + prefix + " " + msg`. */
  lemma FormatPlain(f: StdFormatter, level: Level, msg: string, now: Instant, caller: Option<Site>, ansi: AnsiEscape)
    requires !f.flag.date && !f.flag.time && !f.flag.microseconds && !f.flag.shortFile && !f.flag.longFile
    ensures Format(f, level, msg, now, caller, ansi) == LevelName(level, f.colored, ansi) + " " + f.prefix + " " + msg
  {
    FormatLayout(f, level, msg, now, caller, ansi);
  }

  /** With an empty prefix the level name and the message are separated by two spaces. */
  lemma FormatEmptyPrefix(f: StdFormatter, level: Level, msg: string, now: Instant, caller: Option<Site>, ansi: AnsiEscape)
    requires !f.flag.date && !f.flag.time && !f.flag.microseconds && !f.flag.shortFile && !f.flag.longFile
    requires f.prefix == ""
    ensures Format(f, level, msg, now, caller, ansi) == LevelName(level, f.colored, ansi) + "  " + msg
  {
    FormatPlain(f, level, msg, now, caller, ansi);
  }

  /** An unresolved call site shows up as the segment "???" between the prefix and the message. */
  lemma FormatUnresolvedCaller(f: StdFormatter, level: Level, msg: string, now: Instant, ansi: AnsiEscape)
    requires !f.flag.date && !f.flag.time && !f.flag.microseconds
    requires f.flag.shortFile || f.flag.longFile
    ensures Format(f, level, msg, now, None, ansi) == LevelName(level, f.colored, ansi) + " " + f.prefix + " ??? " + msg
  {
    assert TimeSegments(f.flag, now) == [];
    assert CallerSegment(f.flag, None) == ["???"];
    FormatLayout(f, level, msg, now, None, ansi);
  }

}
