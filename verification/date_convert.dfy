/**
 * `convert_date` of the spreadsheet converter: a native Excel date-time
 * string "<date> <time>" is rebuilt as "<date>T<hours>:00:00", parsed with
 * `datetime.strptime(..., '%Y-%m-%dT%H:%M:%S')` and printed back with
 * `isoformat(timespec='minutes')`.  Minutes, seconds and anything after the
 * first ':' of the time are discarded.
 */
module DateConvert {
  import opened Wrappers
  import opened PyBuiltins

  predicate IsDigit(c: char) { '0' <= c <= '9' }

  predicate AllDigits(s: string) { forall i :: 0 <= i < |s| ==> IsDigit(s[i]) }

  /** The decimal value of a string of digits (`int(s)`). */
  function DigitsValue(s: string): nat
    requires AllDigits(s)
  {
    if s == [] then 0 else 10 * DigitsValue(s[..|s| - 1]) + (s[|s| - 1] as int - '0' as int)
  }

  function Digit(d: nat): char
    requires d < 10
  {
    (d + '0' as int) as char
  }

  function Pow10(n: nat): nat
  {
    if n == 0 then 1 else 10 * Pow10(n - 1)
  }

  /**
   * `'%0<width>d' % n` for a number below 10^width: its decimal digits,
   * padded with zeros to `width`, which read back as the number.  Python
   * never truncates a wider number, whereas this function keeps only the
   * last `width` digits; the two agree on every number below 10^width, and
   * every field `isoformat` prints here is below that bound.
   */
  function Pad(n: nat, width: nat): (r: string)
    ensures |r| == width && AllDigits(r)
    ensures n < Pow10(width) ==> DigitsValue(r) == n
  {
    if width == 0 then ""
    else
      var r := Pad(n / 10, width - 1) + [Digit(n % 10)];
      assert r[..|r| - 1] == Pad(n / 10, width - 1);
      r
  }

  /** The other direction of the round trip: padding the value of a digit string to its own width gives it back. */
  lemma {:induction false} PadDigitsValue(s: string)
    requires AllDigits(s)
    ensures Pad(DigitsValue(s), |s|) == s
  {
    if s != [] {
      var init := s[..|s| - 1];
      PadDigitsValue(init);
      assert s == init + [s[|s| - 1]];
    }
  }

  /** A number written with `n` digits is below 10^n. */
  lemma {:induction false} DigitsValueBound(s: string)
    requires AllDigits(s)
    ensures DigitsValue(s) < Pow10(|s|)
  {
    if s != [] {
      DigitsValueBound(s[..|s| - 1]);
    }
  }

  predicate IsLeap(year: nat)
  {
    year % 4 == 0 && (year % 100 != 0 || year % 400 == 0)
  }

  /** Days in a month of the proleptic Gregorian calendar that `datetime` uses. */
  function DaysInMonth(year: nat, month: nat): nat
  {
    if month == 2 then (if IsLeap(year) then 29 else 28)
    else if month == 4 || month == 6 || month == 9 || month == 11 then 30
    else 31
  }

  datatype DateTime = DateTime(year: nat, month: nat, day: nat, hour: nat, minute: nat, second: nat)

  /** What the `datetime` constructor accepts (MINYEAR is 1, MAXYEAR 9999). */
  predicate ValidDateTime(dt: DateTime)
  {
    && 1 <= dt.year <= 9999
    && 1 <= dt.month <= 12
    && 1 <= dt.day <= DaysInMonth(dt.year, dt.month)
    && dt.hour <= 23 && dt.minute <= 59 && dt.second <= 59
  }

  /** A field of one or two digits, as `%m`, `%d`, `%H`, `%M` and `%S` read them. */
  predicate ShortField(s: string)
  {
    1 <= |s| <= 2 && AllDigits(s)
  }

  /**
   * `datetime.strptime(s, '%Y-%m-%dT%H:%M:%S')`: `%Y` takes exactly four
   * digits, the other fields one or two, and the whole string must match;
   * the values must then form a valid date and time.  Every field is made
   * of digits only, so a match splits at exactly one 'T', two '-' and two ':'.
   * (The library matches the literal 'T' case-insensitively; the converter
   * only ever passes strings in which it wrote an upper-case 'T' itself.)
   */
  function Strptime(s: string): (r: Option<DateTime>)
    ensures r.Some? ==> ValidDateTime(r.value)
  {
    var halves := Split(s, 'T');
    if |halves| != 2 then None
    else
      var date := Split(halves[0], '-');
      var time := Split(halves[1], ':');
      if |date| != 3 || |time| != 3 then None
      else if !(|date[0]| == 4 && AllDigits(date[0])) then None
      else if !(ShortField(date[1]) && ShortField(date[2])) then None
      else if !(ShortField(time[0]) && ShortField(time[1]) && ShortField(time[2])) then None
      else
        var dt := DateTime(DigitsValue(date[0]), DigitsValue(date[1]), DigitsValue(date[2]),
                           DigitsValue(time[0]), DigitsValue(time[1]), DigitsValue(time[2]));
        if ValidDateTime(dt) then Some(dt) else None
  }

  /**
   * `dt.isoformat(timespec='minutes')`: "YYYY-MM-DDTHH:MM", sixteen
   * characters with digit fields between the separators; for a valid date
   * and time each field reads back as the value it prints.
   */
  function IsoMinutes(dt: DateTime): (r: string)
    ensures |r| == 16 && r[4] == '-' && r[7] == '-' && r[10] == 'T' && r[13] == ':'
    ensures AllDigits(r[..4]) && AllDigits(r[5..7]) && AllDigits(r[8..10]) && AllDigits(r[11..13]) && AllDigits(r[14..])
    ensures ValidDateTime(dt) ==>
      && DigitsValue(r[..4]) == dt.year && DigitsValue(r[5..7]) == dt.month && DigitsValue(r[8..10]) == dt.day
      && DigitsValue(r[11..13]) == dt.hour && DigitsValue(r[14..]) == dt.minute
  {
    IsoFields(Pad(dt.year, 4), Pad(dt.month, 2), Pad(dt.day, 2), Pad(dt.hour, 2), Pad(dt.minute, 2));
    assert Pow10(2) == 100 && Pow10(4) == 10000;
    Pad(dt.year, 4) + "-" + Pad(dt.month, 2) + "-" + Pad(dt.day, 2) + "T" + Pad(dt.hour, 2) + ":" + Pad(dt.minute, 2)
  }

  /** Helper: where the five fields sit in "YYYY-MM-DDTHH:MM". */
  lemma IsoFields(y: string, mo: string, d: string, h: string, mi: string)
    requires |y| == 4 && |mo| == 2 && |d| == 2 && |h| == 2 && |mi| == 2
    ensures var r := y + "-" + mo + "-" + d + "T" + h + ":" + mi;
      && |r| == 16 && r[4] == '-' && r[7] == '-' && r[10] == 'T' && r[13] == ':'
      && r[..4] == y && r[5..7] == mo && r[8..10] == d && r[11..13] == h && r[14..] == mi
  {
    var r := y + "-" + mo + "-" + d + "T" + h + ":" + mi;
    var tail := "-" + mo + "-" + d + "T" + h + ":" + mi;
    assert r == y + tail;
    assert tail == "-" + mo + ("-" + d + "T" + h + ":" + mi);
    var dayTail := "-" + d + "T" + h + ":" + mi;
    assert dayTail == "-" + d + ("T" + h + ":" + mi);
    var timeTail := "T" + h + ":" + mi;
    assert timeTail == "T" + h + (":" + mi);
    assert r[5..7] == tail[1..3] == mo;
    assert r[8..10] == dayTail[1..3] == d;
    assert r[11..13] == timeTail[1..3] == h;
  }

  /** The shape of every string `convert_date` returns. */
  predicate IsoMinutesShape(t: string)
  {
    && |t| == 16
    && t[4] == '-' && t[7] == '-' && t[10] == 'T' && t[13] == ':'
    && AllDigits(t[..4]) && AllDigits(t[5..7]) && AllDigits(t[8..10]) && AllDigits(t[11..13])
    && t[14..] == "00"
  }

  /**
   * `convert_date(date_string)`.  The unpacking `date_str, time_str =
   * date_string.split(' ')` raises unless the input holds exactly one space;
   * that exception is not caught.  A rebuilt string that does not parse gives
   * `None`; otherwise the result is the normalised "YYYY-MM-DDTHH:00".
   */
  function ConvertDate(dateString: string): (r: Raised<Option<string>>)
    ensures r.Raises? <==> Count(dateString, ' ') != 1
    ensures r.Raises? ==> r.error == ValueError
    ensures r.Returned? && r.value.Some? ==> IsoMinutesShape(r.value.value)
  {
    var parts := Split(dateString, ' ');
    if |parts| != 2 then Raises(ValueError)
    else
      var hours := Split(parts[1], ':')[0];
      var datetimeStr := parts[0] + "T" + hours + ":00:00";
      match Strptime(datetimeStr)
      case None => Returned(None)
      case Some(dt) =>
        StrptimeRebuilt(parts[0], hours);
        IsoMinutesOnTheHour(dt);
        Returned(Some(IsoMinutes(dt)))
  }

  /** A string rebuilt as "<date>T<hours>:00:00" parses, if at all, with zero minutes and seconds. */
  lemma StrptimeRebuilt(date: string, hours: string)
    requires ':' !in hours
    ensures var r := Strptime(date + "T" + hours + ":00:00");
      r.Some? ==> r.value.minute == 0 && r.value.second == 0
  {
    var rest := hours + ":00:00";
    var s := date + "T" + rest;
    assert s == date + ['T'] + rest == date + "T" + hours + ":00:00";
    var halves := Split(s, 'T');
    if |halves| == 2 {
      CountAppend(date + ['T'], rest, 'T');
      CountAppend(date, ['T'], 'T');
      CountZero(date, 'T');
      CountZero(rest, 'T');
      SplitShape(date, rest, 'T', halves);
      assert halves[1] == rest;
      assert "00:00" == Join(["00", "00"], ':');
      SplitJoin(["00", "00"], ':');
      assert rest == hours + [':'] + "00:00";
      SplitCons(hours, "00:00", ':');
      var time := Split(rest, ':');
      assert time == [hours, "00", "00"];
      assert DigitsValue("0") == 0;
      assert DigitsValue("00") == 0;
    }
  }

  /** The printed form of a time on the hour has the shape "YYYY-MM-DDTHH:00". */
  lemma IsoMinutesOnTheHour(dt: DateTime)
    requires dt.minute == 0
    ensures IsoMinutesShape(IsoMinutes(dt))
  {
    IsoFields(Pad(dt.year, 4), Pad(dt.month, 2), Pad(dt.day, 2), Pad(dt.hour, 2), Pad(dt.minute, 2));
    assert IsoMinutes(dt)[14..] == Pad(0, 2) == "00";
  }

  /** Helper: when `halves` is the split of `a + sep + b`, a split into two parts is exactly `[a, b]`. */
  lemma SplitShape(a: string, b: string, sep: char, halves: seq<string>)
    requires halves == Split(a + [sep] + b, sep)
    ensures |halves| == 2 && sep !in a && sep !in b ==> halves == [a, b]
  {
    if sep !in a && sep !in b {
      SplitJoin([a, b], sep);
    }
  }

  /** Helper: a string of digits holds none of the separators the parser splits at. */
  lemma DigitsHaveNoSeparators(s: string)
    requires AllDigits(s)
    ensures ' ' !in s && 'T' !in s && '-' !in s && ':' !in s
  {
  }

  /** Helper: how `convert_date` takes apart an input "<date> <hours>:<rest>". */
  lemma ConvertDateInput(date: string, hours: string, rest: string)
    requires ' ' !in date && ' ' !in hours && ' ' !in rest && ':' !in hours
    ensures var parts := Split(date + " " + hours + ":" + rest, ' ');
      parts == [date, hours + ":" + rest] && Split(parts[1], ':')[0] == hours
  {
    var time := hours + ":" + rest;
    assert date + " " + time == Join([date, time], ' ') == date + " " + hours + ":" + rest;
    SplitJoin([date, time], ' ');
    assert time == hours + [':'] + rest;
    SplitCons(hours, rest, ':');
  }

  /**
   * Minutes, seconds and anything else after the first ':' of the time are
   * ignored: two inputs that agree on the date and the hours convert alike.
   */
  lemma ConvertDateIgnoresMinutes(date: string, hours: string, rest1: string, rest2: string)
    requires ' ' !in date && ' ' !in hours && ':' !in hours
    requires ' ' !in rest1 && ' ' !in rest2
    ensures ConvertDate(date + " " + hours + ":" + rest1) == ConvertDate(date + " " + hours + ":" + rest2)
  {
    ConvertDateInput(date, hours, rest1);
    ConvertDateInput(date, hours, rest2);
  }

  /** A date written "YYYY-MM-DD" in digits. */
  predicate CanonicalDate(date: string)
  {
    && |date| == 10 && date[4] == '-' && date[7] == '-'
    && AllDigits(date[..4]) && AllDigits(date[5..7]) && AllDigits(date[8..])
  }

  /** A canonical date that names a real day of the years 1 to 9999. */
  predicate CalendarDate(date: string)
    requires CanonicalDate(date)
  {
    var y, m, d := DigitsValue(date[..4]), DigitsValue(date[5..7]), DigitsValue(date[8..]);
    1 <= y && 1 <= m <= 12 && 1 <= d <= DaysInMonth(y, m)
  }

  /** Helper: a join of three parts, written out. */
  lemma Join3(a: string, b: string, c: string, sep: char)
    ensures Join([a, b, c], sep) == a + [sep] + b + [sep] + c
  {
    assert [a, b, c][1..] == [b, c];
    assert [b, c][1..] == [c];
    assert Join([b, c], sep) == b + [sep] + c;
    assert Join([a, b, c], sep) == a + [sep] + (b + [sep] + c);
  }

  /** Helper: a canonical date is its three fields joined by '-'. */
  lemma CanonicalFields(date: string)
    requires CanonicalDate(date)
    ensures date == date[..4] + "-" + date[5..7] + "-" + date[8..]
    ensures date == Join([date[..4], date[5..7], date[8..]], '-')
  {
    Join3(date[..4], date[5..7], date[8..], '-');
    var r := date[..4] + "-" + date[5..7] + "-" + date[8..];
    assert |r| == 10;
    forall i | 0 <= i < 10 ensures r[i] == date[i] {
      if i < 4 {} else if i == 4 {} else if i < 7 {} else if i == 7 {} else {}
    }
  }

  /** Helper: a canonical date holds no space. */
  lemma CanonicalHasNoSpace(date: string)
    requires CanonicalDate(date)
    ensures ' ' !in date
  {
    forall i | 0 <= i < |date| ensures date[i] != ' ' {
      if i < 4 {
        assert date[..4][i] == date[i];
      } else if 4 < i < 7 {
        assert date[5..7][i - 5] == date[i];
      } else if 7 < i {
        assert date[8..][i - 8] == date[i];
      }
    }
  }

  /** The date and time a canonical date and a two-digit hour stand for. */
  function CanonicalDateTime(date: string, hh: string): DateTime
    requires CanonicalDate(date) && |hh| == 2 && AllDigits(hh)
  {
    DateTime(DigitsValue(date[..4]), DigitsValue(date[5..7]), DigitsValue(date[8..]), DigitsValue(hh), 0, 0)
  }

  /** Helper: how the rebuilt string of a canonical date parses. */
  lemma StrptimeCanonical(date: string, hh: string)
    requires CanonicalDate(date) && |hh| == 2 && AllDigits(hh)
    ensures var dt := CanonicalDateTime(date, hh);
      Strptime(date + "T" + hh + ":00:00") == if ValidDateTime(dt) then Some(dt) else None
  {
    var y, m, d := date[..4], date[5..7], date[8..];
    DigitsHaveNoSeparators(y);
    DigitsHaveNoSeparators(m);
    DigitsHaveNoSeparators(d);
    DigitsHaveNoSeparators(hh);
    CanonicalFields(date);
    var tail := hh + ":00:00";
    var s := date + "T" + tail;
    assert s == date + "T" + hh + ":00:00";
    assert 'T' !in tail;
    SplitJoin([date, tail], 'T');
    assert Join([date, tail], 'T') == s;
    SplitJoin([y, m, d], '-');
    Join3(hh, "00", "00", ':');
    assert hh + [':'] + "00" + [':'] + "00" == tail;
    SplitJoin([hh, "00", "00"], ':');
    assert DigitsValue("0") == 0 && DigitsValue("00") == 0;
    var halves := Split(s, 'T');
    assert halves == [date, tail];
    assert Split(halves[0], '-') == [y, m, d];
    assert Split(halves[1], ':') == [hh, "00", "00"];
    assert |y| == 4 && ShortField(m) && ShortField(d) && ShortField(hh) && ShortField("00");
  }

  /** Helper: printing the date and time of a canonical date gives "YYYY-MM-DDTHH:00". */
  lemma IsoMinutesCanonical(date: string, hh: string)
    requires CanonicalDate(date) && |hh| == 2 && AllDigits(hh)
    requires ValidDateTime(CanonicalDateTime(date, hh))
    ensures IsoMinutes(CanonicalDateTime(date, hh)) == date + "T" + hh + ":00"
  {
    var y, m, d := date[..4], date[5..7], date[8..];
    var dt := CanonicalDateTime(date, hh);
    PadDigitsValue(y);
    PadDigitsValue(m);
    PadDigitsValue(d);
    PadDigitsValue(hh);
    assert Pad(dt.year, 4) == y && Pad(dt.month, 2) == m && Pad(dt.day, 2) == d && Pad(dt.hour, 2) == hh;
    assert Pad(dt.minute, 2) == "00";
    assert IsoMinutes(dt) == y + "-" + m + "-" + d + "T" + hh + ":" + "00";
    CanonicalFields(date);
    var prefix := y + "-" + m + "-" + d + "T" + hh;
    assert date + "T" + hh == prefix;
    AppendAssoc(prefix, ":", "00");
  }

  /** Helper: `convert_date` of a canonical input prints the date and time it stands for, if that is valid. */
  lemma ConvertDateOfCanonical(date: string, hh: string, rest: string)
    requires CanonicalDate(date) && |hh| == 2 && AllDigits(hh) && ' ' !in rest
    ensures var dt := CanonicalDateTime(date, hh);
      ConvertDate(date + " " + hh + ":" + rest) ==
        if ValidDateTime(dt) then Returned(Some(IsoMinutes(dt))) else Returned(None)
  {
    CanonicalHasNoSpace(date);
    DigitsHaveNoSeparators(hh);
    ConvertDateRebuilt(date, hh, rest);
    StrptimeCanonical(date, hh);
  }

  /**
   * For "YYYY-MM-DD HH:<anything>" the result is "YYYY-MM-DDTHH:00" when the
   * date exists and the hour is at most 23, and `None` otherwise.
   */
  lemma ConvertDateCanonical(date: string, hh: string, rest: string)
    requires CanonicalDate(date) && |hh| == 2 && AllDigits(hh) && ' ' !in rest
    ensures ConvertDate(date + " " + hh + ":" + rest) ==
      if CalendarDate(date) && DigitsValue(hh) <= 23 then Returned(Some(date + "T" + hh + ":00"))
      else Returned(None)
  {
    var dt := CanonicalDateTime(date, hh);
    ConvertDateOfCanonical(date, hh, rest);
    assert dt.year <= 9999 by {
      DigitsValueBound(date[..4]);
      assert Pow10(4) == 10000;
    }
    if ValidDateTime(dt) {
      IsoMinutesCanonical(date, hh);
      assert CalendarDate(date) && DigitsValue(hh) <= 23;
    } else {
      assert !(CalendarDate(date) && DigitsValue(hh) <= 23);
    }
  }

  /** Helper: `convert_date` of "<date> <hours>:<rest>" is decided by the rebuilt "<date>T<hours>:00:00". */
  lemma ConvertDateRebuilt(date: string, hours: string, rest: string)
    requires ' ' !in date && ' ' !in hours && ' ' !in rest && ':' !in hours
    ensures ConvertDate(date + " " + hours + ":" + rest) ==
      match Strptime(date + "T" + hours + ":00:00")
      case None => Returned(None)
      case Some(dt) => Returned(Some(IsoMinutes(dt)))
  {
    ConvertDateInput(date, hours, rest);
  }
}
