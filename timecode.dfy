/** `format_time` (slider.py): milliseconds to the `HH:MM:SS` stamp written
    into the timecode listing. The program goes through Python's
    `str(datetime.timedelta(seconds=s))`, splits it on `:` and zero-fills each
    field to two places; all three steps are modelled, so the function is
    total and its form from one day on is stated as well. */
module Timecode {
  import opened Text
  import opened Sequences

  const MsPerSecond: nat := 1000
  const SecondsPerDay: nat := 86400
  const MsPerDay: nat := 86_400_000

  /** The `H:MM:SS` clock of a timedelta: hours unpadded, minutes and seconds
      `%02d`, computed by timedelta's own `divmod` steps. */
  function ClockFields(seconds: nat): seq<string>
  {
    var mm := seconds / 60;
    [Decimal(mm / 60), ZFill(Decimal(mm % 60), 2), ZFill(Decimal(seconds % 60), 2)]
  }

  /** The `"N day, "` / `"N days, "` prefix a timedelta of at least one day has. */
  function DayPrefix(days: nat): string
  {
    Decimal(days) + " day" + (if days == 1 then "" else "s") + ", "
  }

  /** `str(datetime.timedelta(seconds=s))`. */
  function TimedeltaString(s: nat): string
  {
    var days := s / SecondsPerDay;
    var clock := Join(ClockFields(s % SecondsPerDay), ":");
    if days == 0 then clock else DayPrefix(days) + clock
  }

  /** What `split(":")` of the timedelta string yields: the day prefix (if any)
      stays glued to the hours field. */
  function SplitFields(s: nat): seq<string>
  {
    var c := ClockFields(s % SecondsPerDay);
    var days := s / SecondsPerDay;
    [if days == 0 then c[0] else DayPrefix(days) + c[0], c[1], c[2]]
  }

  lemma SplitTimedelta(s: nat)
    ensures SplitOn(TimedeltaString(s), ':') == SplitFields(s)
  {
    var f := SplitFields(s);
    var c := ClockFields(s % SecondsPerDay);
    var days := s / SecondsPerDay;
    assert ':' !in c[0] && ':' !in c[1] && ':' !in c[2] by {
      var mm := (s % SecondsPerDay) / 60;
      TwoDigits(mm % 60);
      TwoDigits(s % SecondsPerDay % 60);
    }
    if days != 0 {
      NoColonInDayPrefix(days);
      PrefixJoin(DayPrefix(days), c, ":");
      assert f == [DayPrefix(days) + c[0]] + c[1..];
    }
    SplitOnJoin(f, ':');
  }

  lemma NoColonInDayPrefix(days: nat)
    ensures ':' !in DayPrefix(days)
  {
    var d := Decimal(days);
    assert forall i :: 0 <= i < |d| ==> d[i] != ':';
    assert ':' !in " day" && ':' !in "s" && ':' !in ", ";
  }

  /** Gluing a prefix onto a joined list glues it onto the first part. */
  lemma PrefixJoin(p: string, parts: seq<string>, sep: string)
    requires |parts| >= 2
    ensures p + Join(parts, sep) == Join([p + parts[0]] + parts[1..], sep)
  {
    var glued := [p + parts[0]] + parts[1..];
    assert glued[1..] == parts[1..];
    var rest := Join(parts[1..], sep);
    assert Join(parts, sep) == parts[0] + sep + rest;
    assert Join(glued, sep) == p + parts[0] + sep + rest;
    AppendAssoc(p, parts[0], sep);
    AppendAssoc(p, parts[0] + sep, rest);
  }

  /** A stamp of the form `HH:MM:SS`: eight characters, two colons, digits
      elsewhere. */
  predicate IsClock(r: string)
  {
    && |r| == 8 && r[2] == ':' && r[5] == ':'
    && AllDigits(r[0..2]) && AllDigits(r[3..5]) && AllDigits(r[6..8])
  }

  /** The number of seconds an `HH:MM:SS` stamp denotes. */
  function ClockValue(r: string): nat
    requires IsClock(r)
  {
    3600 * DigitsValue(r[0..2]) + 60 * DigitsValue(r[3..5]) + DigitsValue(r[6..8])
  }

  /** `format_time(ms)`. Below one day it is a two-digit, zero-padded
      `HH:MM:SS` of `ms // 1000` seconds, with hours below 24 and minutes and
      seconds below 60. */
  function FormatTime(ms: nat): (r: string)
    ensures ms < MsPerDay ==> IsClock(r) && ClockValue(r) == ms / MsPerSecond
    ensures ms < MsPerDay ==>
      && DigitsValue(r[0..2]) == ms / MsPerSecond / 3600
      && DigitsValue(r[3..5]) == ms / MsPerSecond % 3600 / 60
      && DigitsValue(r[6..8]) == ms / MsPerSecond % 60
  {
    var s := ms / MsPerSecond;
    SplitTimedelta(s);
    var fields := SplitOn(TimedeltaString(s), ':');
    var r := ZFill(fields[0], 2) + ":" + ZFill(fields[1], 2) + ":" + ZFill(fields[2], 2);
    if ms < MsPerDay then
      ClockOfSmall(s);
      ClockStamp(ZFill(fields[0], 2), ZFill(fields[1], 2), ZFill(fields[2], 2));
      r
    else r
  }

  /** Three two-digit fields joined by colons form an `HH:MM:SS` stamp whose
      fields read back as the three numbers. */
  lemma ClockStamp(h: string, m: string, s: string)
    requires |h| == 2 && |m| == 2 && |s| == 2
    requires AllDigits(h) && AllDigits(m) && AllDigits(s)
    ensures var r := h + ":" + m + ":" + s;
      IsClock(r) && r[0..2] == h && r[3..5] == m && r[6..8] == s
  {
    var r := h + ":" + m + ":" + s;
    assert r[0..2] == h && r[3..5] == m && r[6..8] == s;
  }

  /** How timedelta's `divmod` steps relate to hours, minutes and seconds. */
  lemma DivModClock(s: nat)
    ensures (s / 60) / 60 == s / 3600
    ensures (s / 60) % 60 == s % 3600 / 60
    ensures 3600 * (s / 3600) + 60 * (s % 3600 / 60) + s % 60 == s
  {
    var h, r := s / 3600, s % 3600;
    assert s == 3600 * h + r;
    var m, ss := r / 60, r % 60;
    assert r == 60 * m + ss;
    assert s == 60 * (60 * h + m) + ss;
    assert s % 60 == ss;
    assert s / 60 == 60 * h + m;
  }

  /** Below one day the three zero-filled fields are the two-digit hours,
      minutes and seconds. */
  lemma ClockOfSmall(s: nat)
    requires s < SecondsPerDay
    ensures var f := SplitFields(s);
      && |ZFill(f[0], 2)| == 2 && AllDigits(ZFill(f[0], 2)) && DigitsValue(ZFill(f[0], 2)) == s / 3600
      && |ZFill(f[1], 2)| == 2 && AllDigits(ZFill(f[1], 2)) && DigitsValue(ZFill(f[1], 2)) == s % 3600 / 60
      && |ZFill(f[2], 2)| == 2 && AllDigits(ZFill(f[2], 2)) && DigitsValue(ZFill(f[2], 2)) == s % 60
      && 3600 * (s / 3600) + 60 * (s % 3600 / 60) + s % 60 == s
  {
    DivModClock(s);
    assert s % SecondsPerDay == s;
    var mm := s / 60;
    var f := SplitFields(s);
    assert f[0] == Decimal(s / 3600);
    TwoDigits(s / 3600);
    TwoDigits(mm % 60);
    TwoDigits(s % 60);
    assert f[1] == ZFill(Decimal(s % 3600 / 60), 2);
    assert f[2] == ZFill(Decimal(s % 60), 2);
  }

  /** From one day on, the hours field carries timedelta's day prefix and is
      not a two-digit field: `format_time` then yields `"N day(s), H:MM:SS"`. */
  lemma FormatTimeFromOneDay(ms: nat)
    requires ms >= MsPerDay
    ensures var s := ms / MsPerSecond;
      FormatTime(ms) == DayPrefix(s / SecondsPerDay) + Join(ClockFields(s % SecondsPerDay), ":")
  {
    var s := ms / MsPerSecond;
    assert s >= SecondsPerDay;
    SplitTimedelta(s);
    var f := SplitFields(s);
    assert FormatTime(ms) == ZFill(f[0], 2) + ":" + ZFill(f[1], 2) + ":" + ZFill(f[2], 2);
    DayFields(s);
  }

  /** From one day on, zero-filling leaves the three split fields unchanged. */
  lemma DayFields(s: nat)
    requires s >= SecondsPerDay
    ensures var f := SplitFields(s);
      ZFill(f[0], 2) + ":" + ZFill(f[1], 2) + ":" + ZFill(f[2], 2)
        == DayPrefix(s / SecondsPerDay) + Join(ClockFields(s % SecondsPerDay), ":")
  {
    var days := s / SecondsPerDay;
    var c := ClockFields(s % SecondsPerDay);
    var f := SplitFields(s);
    assert f == [DayPrefix(days) + c[0], c[1], c[2]];
    MinutesSecondsWide(s % SecondsPerDay);
    assert ZFill(f[0], 2) == f[0] by {
      assert |DayPrefix(days)| >= 2;
    }
    JoinThree(c[0], c[1], c[2], ":");
    assert c == [c[0], c[1], c[2]];
    AppendAssoc(DayPrefix(days), c[0] + ":" + c[1] + ":", c[2]);
    AppendAssoc(DayPrefix(days), c[0] + ":" + c[1], ":");
    AppendAssoc(DayPrefix(days), c[0] + ":", c[1]);
    AppendAssoc(DayPrefix(days), c[0], ":");
  }

  /** The minutes and seconds fields are two characters wide already. */
  lemma MinutesSecondsWide(seconds: nat)
    ensures var c := ClockFields(seconds);
      ZFill(c[1], 2) == c[1] && ZFill(c[2], 2) == c[2]
  {
    TwoDigits(seconds / 60 % 60);
    TwoDigits(seconds % 60);
  }

  /** A stamp taken at a whole second below one day loses nothing: reading it
      back gives the exact millisecond value. */
  lemma AlignedStampExact(ms: nat)
    requires ms < MsPerDay && ms % MsPerSecond == 0
    ensures IsClock(FormatTime(ms)) && ClockValue(FormatTime(ms)) * MsPerSecond == ms
  {
  }
}
