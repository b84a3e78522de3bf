/**
 * The subset of Python's `datetime.fromisoformat` that XMP timestamps use,
 * and the `isoformat` writer that it reads back:
 *
 *   YYYY-MM-DD [ <any one character> HH:MM [ :SS [ .f{1,6} ] ] [ (+|-)HH:MM ] ]
 *
 * Fields are range-checked as `datetime` does (month 1-12, day within the
 * month of that year, hour < 24, minute < 60, second < 60); an offset is kept
 * in minutes east of UTC and a string without one gives a naive value.
 */
module PyDateTime {
  import opened Wrappers
  import opened PyNumbers

  datatype DateTime = DateTime(
    year: int, month: int, day: int,
    hour: int, minute: int, second: int, microsecond: int,
    utcOffset: Option<int>)

  predicate IsLeapYear(y: int) {
    y % 4 == 0 && (y % 100 != 0 || y % 400 == 0)
  }

  function DaysInMonth(y: int, m: int): int
    requires 1 <= m <= 12
  {
    if m == 2 then (if IsLeapYear(y) then 29 else 28)
    else if m == 4 || m == 6 || m == 9 || m == 11 then 30
    else 31
  }

  predicate ValidOffset(minutes: int) {
    -(24 * 60) < minutes < 24 * 60
  }

  /** The values a `datetime` object can hold. */
  predicate Valid(dt: DateTime) {
    && 1 <= dt.year <= 9999
    && 1 <= dt.month <= 12
    && 1 <= dt.day <= DaysInMonth(dt.year, dt.month)
    && 0 <= dt.hour < 24 && 0 <= dt.minute < 60 && 0 <= dt.second < 60
    && 0 <= dt.microsecond < 1000000
    && (dt.utcOffset.Some? ==> ValidOffset(dt.utcOffset.value))
  }

  datatype Date = Date(year: int, month: int, day: int)

  datatype Clock = Clock(hour: int, minute: int, second: int, microsecond: int)

  /** "YYYY-MM-DD" with a real calendar date. */
  function ParseDate(s: string): (r: Option<Date>)
    ensures r.Some? ==> 1 <= r.value.year <= 9999 && 1 <= r.value.month <= 12
    ensures r.Some? ==> 1 <= r.value.day <= DaysInMonth(r.value.year, r.value.month)
  {
    if |s| == 10 && s[4] == '-' && s[7] == '-'
       && AllDigits(s[..4]) && AllDigits(s[5..7]) && AllDigits(s[8..])
    then
      var y, m, d := DigitsValue(s[..4]), DigitsValue(s[5..7]), DigitsValue(s[8..]);
      DigitsValueBound(s[..4]);
      if 1 <= y && 1 <= m <= 12 && 1 <= d <= DaysInMonth(y, m) then Some(Date(y, m, d)) else None
    else None
  }

  /** "HH:MM", "HH:MM:SS" or "HH:MM:SS.f" with one to six fraction digits. */
  function ParseClock(s: string): (r: Option<Clock>)
    ensures r.Some? ==> 0 <= r.value.hour < 24 && 0 <= r.value.minute < 60 && 0 <= r.value.second < 60
    ensures r.Some? ==> 0 <= r.value.microsecond < 1000000
  {
    if |s| < 5 || s[2] != ':' || !AllDigits(s[..2]) || !AllDigits(s[3..5]) then None
    else
      var h, mi := DigitsValue(s[..2]), DigitsValue(s[3..5]);
      var seconds: Option<(nat, nat)> :=
        if |s| == 5 then Some((0, 0))
        else if |s| < 8 || s[5] != ':' || !AllDigits(s[6..8]) then None
        else if |s| == 8 then Some((DigitsValue(s[6..8]), 0))
        else if s[8] == '.' && 10 <= |s| <= 15 && AllDigits(s[9..]) then
          DigitsValueBound(s[9..]);
          Some((DigitsValue(s[6..8]), DigitsValue(s[9..]) * Pow10(6 - (|s| - 9))))
        else None;
      if seconds.Some? && h < 24 && mi < 60 && seconds.value.0 < 60 && seconds.value.1 < 1000000 then
        Some(Clock(h, mi, seconds.value.0, seconds.value.1))
      else None
  }

  predicate IsSign(c: char) {
    c == '+' || c == '-'
  }

  /** "" (no offset) or "+HH:MM" / "-HH:MM"; the outer None is a parse failure. */
  function ParseZone(s: string): (r: Option<Option<int>>)
    ensures r.Some? && r.value.Some? ==> ValidOffset(r.value.value)
  {
    if s == "" then Some(None)
    else if |s| == 6 && IsSign(s[0]) && s[3] == ':' && AllDigits(s[1..3]) && AllDigits(s[4..]) then
      var h, m := DigitsValue(s[1..3]), DigitsValue(s[4..]);
      if h < 24 && m < 60 then Some(Some(if s[0] == '-' then -(h * 60 + m) else h * 60 + m))
      else None
    else None
  }

  /** The index of the first '+' or '-' in `s`, where an offset begins. */
  function FirstSign(s: string): (r: Option<nat>)
    ensures r.None? <==> forall i :: 0 <= i < |s| ==> !IsSign(s[i])
    ensures r.Some? ==> r.value < |s| && IsSign(s[r.value])
    ensures r.Some? ==> forall i :: 0 <= i < r.value ==> !IsSign(s[i])
  {
    if s == [] then None
    else if IsSign(s[0]) then Some(0)
    else
      var rest := FirstSign(s[1..]);
      if rest.None? then None else Some(rest.value + 1)
  }

  /** `datetime.fromisoformat(s)`, restricted to the forms above; None when it raises. */
  function ParseIsoFormat(s: string): (r: Option<DateTime>)
    ensures r.Some? ==> Valid(r.value)
  {
    if |s| < 10 then None
    else
      var date := ParseDate(s[..10]);
      if date.None? then None
      else if |s| == 10 then Some(DateTime(date.value.year, date.value.month, date.value.day, 0, 0, 0, 0, None))
      else
        var t := s[11..];
        var z := FirstSign(t);
        var clock := ParseClock(if z.Some? then t[..z.value] else t);
        var zone := ParseZone(if z.Some? then t[z.value..] else "");
        if clock.None? || zone.None? then None
        else
          Some(DateTime(date.value.year, date.value.month, date.value.day,
                        clock.value.hour, clock.value.minute, clock.value.second,
                        clock.value.microsecond, zone.value))
  }

  function FormatDate(dt: DateTime): (s: string)
    requires Valid(dt)
    ensures |s| == 10 && 'Z' !in s
  {
    PadNat(dt.year, 4) + "-" + PadNat(dt.month, 2) + "-" + PadNat(dt.day, 2)
  }

  function FormatClock(dt: DateTime): (s: string)
    requires Valid(dt)
    ensures forall i :: 0 <= i < |s| ==> !IsSign(s[i])
    ensures 'Z' !in s
  {
    var hms := PadNat(dt.hour, 2) + ":" + PadNat(dt.minute, 2) + ":" + PadNat(dt.second, 2);
    if dt.microsecond == 0 then hms else hms + "." + PadNat(dt.microsecond, 6)
  }

  function FormatZone(offset: Option<int>): (s: string)
    requires offset.Some? ==> ValidOffset(offset.value)
    ensures offset.None? <==> s == ""
    ensures s != "" ==> IsSign(s[0])
    ensures 'Z' !in s
  {
    match offset
    case None => ""
    case Some(m) =>
      var a := if m < 0 then -m else m;
      (if m < 0 then "-" else "+") + PadNat(a / 60, 2) + ":" + PadNat(a % 60, 2)
  }

  /** `dt.isoformat()`: the fraction only when non-zero, the offset only when aware. */
  function FormatIso(dt: DateTime): (s: string)
    requires Valid(dt)
    ensures 'Z' !in s
  {
    FormatDate(dt) + "T" + FormatClock(dt) + FormatZone(dt.utcOffset)
  }

  lemma ParseDateFormatDate(dt: DateTime)
    requires Valid(dt)
    ensures ParseDate(FormatDate(dt)) == Some(Date(dt.year, dt.month, dt.day))
  {
    var s := FormatDate(dt);
    assert s[..4] == PadNat(dt.year, 4);
    assert s[5..7] == PadNat(dt.month, 2);
    assert s[8..] == PadNat(dt.day, 2);
  }

  lemma ParseClockFormatClock(dt: DateTime)
    requires Valid(dt)
    ensures ParseClock(FormatClock(dt)) == Some(Clock(dt.hour, dt.minute, dt.second, dt.microsecond))
  {
    var hh, mm, ss := PadNat(dt.hour, 2), PadNat(dt.minute, 2), PadNat(dt.second, 2);
    var tail := if dt.microsecond == 0 then "" else "." + PadNat(dt.microsecond, 6);
    var s := FormatClock(dt);
    assert s == hh + ":" + mm + ":" + ss + tail;
    ClockSlices(hh, mm, ss, tail);
    if dt.microsecond != 0 {
      assert s[8] == '.' && s[9..] == PadNat(dt.microsecond, 6);
    }
    ParseClockOfParts(s, dt.hour, dt.minute, dt.second, dt.microsecond);
  }

  /** A clock text whose fields read as in-range numbers parses to those numbers. */
  lemma ParseClockOfParts(s: string, h: nat, mi: nat, sec: nat, us: nat)
    requires |s| == 8 || (|s| == 15 && s[8] == '.' && AllDigits(s[9..]) && DigitsValue(s[9..]) == us)
    requires |s| == 8 ==> us == 0
    requires s[2] == ':' && s[5] == ':' && AllDigits(s[..2]) && AllDigits(s[3..5]) && AllDigits(s[6..8])
    requires DigitsValue(s[..2]) == h && DigitsValue(s[3..5]) == mi && DigitsValue(s[6..8]) == sec
    requires h < 24 && mi < 60 && sec < 60 && us < 1000000
    ensures ParseClock(s) == Some(Clock(h, mi, sec, us))
  {
  }

  /** The hours, minutes, seconds and fraction of a clock text sit at fixed positions. */
  lemma ClockSlices(hh: string, mm: string, ss: string, tail: string)
    requires |hh| == 2 && |mm| == 2 && |ss| == 2
    ensures var s := hh + ":" + mm + ":" + ss + tail;
      && |s| == 8 + |tail| && s[..2] == hh && s[2] == ':' && s[3..5] == mm
      && s[5] == ':' && s[6..8] == ss && s[8..] == tail
  {
  }

  lemma ParseZoneFormatZone(offset: Option<int>)
    requires offset.Some? ==> ValidOffset(offset.value)
    ensures ParseZone(FormatZone(offset)) == Some(offset)
  {
    if offset.Some? {
      var m := offset.value;
      var a := if m < 0 then -m else m;
      var h, mi := HoursMinutes(a);
      var sign := if m < 0 then '-' else '+';
      assert FormatZone(offset) == [sign] + PadNat(h, 2) + ":" + PadNat(mi, 2);
      ParseZoneOfParts(sign, h, mi);
    }
  }

  /** Splits a number of minutes below a day into whole hours and the remaining minutes. */
  lemma HoursMinutes(a: nat) returns (h: nat, mi: nat)
    requires a < 24 * 60
    ensures h == a / 60 && mi == a % 60
    ensures h < 24 && mi < 60 && h * 60 + mi == a
  {
    h, mi := a / 60, a % 60;
  }

  /** An offset text built from a sign, hours and minutes reads back as that signed number of minutes. */
  lemma ParseZoneOfParts(sign: char, h: nat, mi: nat)
    requires IsSign(sign) && h < 24 && mi < 60
    ensures ParseZone([sign] + PadNat(h, 2) + ":" + PadNat(mi, 2))
         == Some(Some(if sign == '-' then -(h * 60 + mi) else h * 60 + mi))
  {
    var hh, mm := PadNat(h, 2), PadNat(mi, 2);
    var s := [sign] + hh + ":" + mm;
    assert |s| == 6 && s[0] == sign && s[1..3] == hh && s[3] == ':' && s[4..] == mm;
  }

  /** The offset of `clock + zone` starts right after a clock that holds no sign. */
  lemma FirstSignAfterClock(clock: string, zone: string)
    requires forall i :: 0 <= i < |clock| ==> !IsSign(clock[i])
    requires zone != "" ==> IsSign(zone[0])
    ensures FirstSign(clock + zone) == if zone == "" then None else Some(|clock|)
  {
    var s := clock + zone;
    var r := FirstSign(s);
    if zone == "" {
      assert s == clock;
    } else {
      assert IsSign(s[|clock|]);
      assert forall i :: 0 <= i < |clock| ==> s[i] == clock[i];
    }
  }

  /** `fromisoformat` reads back every value that `isoformat` writes. */
  lemma {:induction false} ParseIsoFormatRoundTrip(dt: DateTime)
    requires Valid(dt)
    ensures ParseIsoFormat(FormatIso(dt)) == Some(dt)
  {
    var d, c, z := FormatDate(dt), FormatClock(dt), FormatZone(dt.utcOffset);
    var s := FormatIso(dt);
    assert s == d + "T" + (c + z);
    DateTimeSlices(d, c + z);
    ParseDateFormatDate(dt);
    ParseClockFormatClock(dt);
    ParseZoneFormatZone(dt.utcOffset);
    ClockZoneSlices(c, z);
    ParseIsoFormatOfParts(s, Date(dt.year, dt.month, dt.day),
                          Clock(dt.hour, dt.minute, dt.second, dt.microsecond), dt.utcOffset);
  }

  /** A timestamp with a time part whose date, clock and zone each parse gives their combination. */
  lemma ParseIsoFormatOfParts(s: string, date: Date, clock: Clock, zone: Option<int>)
    requires |s| > 10 && ParseDate(s[..10]) == Some(date)
    requires var fs := FirstSign(s[11..]);
      && ParseClock(if fs.Some? then s[11..][..fs.value] else s[11..]) == Some(clock)
      && ParseZone(if fs.Some? then s[11..][fs.value..] else "") == Some(zone)
    ensures ParseIsoFormat(s)
         == Some(DateTime(date.year, date.month, date.day,
                          clock.hour, clock.minute, clock.second, clock.microsecond, zone))
  {
  }

  /** The first ten characters of a timestamp are its date, and the rest after the separator its time. */
  lemma DateTimeSlices(d: string, t: string)
    requires |d| == 10
    ensures |d + "T" + t| > 10 && (d + "T" + t)[..10] == d && (d + "T" + t)[11..] == t
  {
  }

  /** The first sign after a sign-free clock splits the time text back into the clock and the zone. */
  lemma ClockZoneSlices(c: string, z: string)
    requires forall i :: 0 <= i < |c| ==> !IsSign(c[i])
    requires z != "" ==> IsSign(z[0])
    ensures var t := c + z; var fs := FirstSign(t);
      && (if fs.Some? then t[..fs.value] else t) == c
      && (if fs.Some? then t[fs.value..] else "") == z
  {
    FirstSignAfterClock(c, z);
    if z != "" {
      assert (c + z)[..|c|] == c;
      assert (c + z)[|c|..] == z;
    } else {
      assert c + z == c;
    }
  }
}
