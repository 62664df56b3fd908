/** The query-string helpers of core/views.py: `_parse_date` and
    `_parse_pagination`. */
module RequestParams {
  import opened Wrappers
  import opened Text

  /** Python's `param or default` on an optional query parameter: an absent
      or empty parameter gives `default`. */
  function OrElse(param: Option<string>, default: string): (s: string)
    ensures param.None? || param == Some("") ==> s == default
    ensures param.Some? && param.value != "" ==> s == param.value
  {
    match param
    case Some(v) => if v == "" then default else v
    case None => default
  }

  /** The zero-padded `YYYY-MM-DD` text of `date.isoformat()`: four digits,
      month 01-12, day 01-31. */
  predicate IsIsoDate(s: string) {
    |s| == 10
    && IsDigit(s[0]) && IsDigit(s[1]) && IsDigit(s[2]) && IsDigit(s[3])
    && s[4] == '-'
    && ((s[5] == '0' && '1' <= s[6] <= '9') || (s[5] == '1' && '0' <= s[6] <= '2'))
    && s[7] == '-'
    && (('0' <= s[8] <= '2' && IsDigit(s[9]) && !(s[8] == '0' && s[9] == '0')) || (s[8] == '3' && '0' <= s[9] <= '1'))
  }

  /** Python's `s[:10]`. */
  function Truncate10(s: string): (r: string)
    ensures r <= s && |r| == if |s| < 10 then |s| else 10
  {
    if |s| <= 10 then s else s[..10]
  }

  /** The fields `strptime` reads: the year as its four digits, month and day
      as numbers. */
  datatype Ymd = Ymd(year: string, month: nat, day: nat)

  /** The `%m` directive matching a whole field: `1[0-2]`, `0[1-9]` or `[1-9]`. */
  function MonthField(t: string): (m: Option<nat>)
    ensures m.Some? ==> 1 <= m.value <= 12
  {
    if |t| == 1 && '1' <= t[0] <= '9' then Some(DigitValue(t[0]))
    else if |t| == 2 && ((t[0] == '1' && '0' <= t[1] <= '2') || (t[0] == '0' && '1' <= t[1] <= '9'))
    then Some(10 * DigitValue(t[0]) + DigitValue(t[1]))
    else None
  }

  /** The `%d` directive matching a whole field: `3[01]`, `[12][0-9]`, `0[1-9]`,
      `[1-9]` or a blank followed by `[1-9]`. */
  function DayField(t: string): (d: Option<nat>)
    ensures d.Some? ==> 1 <= d.value <= 31
  {
    if |t| == 1 && '1' <= t[0] <= '9' then Some(DigitValue(t[0]))
    else if |t| == 2 && t[0] == ' ' && '1' <= t[1] <= '9' then Some(DigitValue(t[1]))
    else if |t| == 2 && ((t[0] == '3' && '0' <= t[1] <= '1') || ('1' <= t[0] <= '2' && IsDigit(t[1]))
                         || (t[0] == '0' && '1' <= t[1] <= '9'))
    then Some(10 * DigitValue(t[0]) + DigitValue(t[1]))
    else None
  }

  /** The pattern of `"%Y-%m-%d"` matched against the whole string: four
      digits, a dash, the month field, a dash, the day field and nothing
      after it. The month never holds a dash, so the second dash ends it. */
  function MatchYmd(s: string): (r: Option<Ymd>)
    ensures r.Some? ==> |r.value.year| == 4 && AllDigits(r.value.year)
                        && 1 <= r.value.month <= 12 && 1 <= r.value.day <= 31
  {
    if |s| < 7 || !(IsDigit(s[0]) && IsDigit(s[1]) && IsDigit(s[2]) && IsDigit(s[3])) || s[4] != '-' then None
    else
      var rest := s[5..];
      var cut := if rest[1] == '-' then 1 else if |rest| >= 3 && rest[2] == '-' then 2 else 0;
      if cut == 0 then None
      else
        match (MonthField(rest[..cut]), DayField(rest[cut + 1..]))
        case (Some(m), Some(d)) =>
          assert forall c :: c in s[..4] ==> c == s[0] || c == s[1] || c == s[2] || c == s[3];
          Some(Ymd(s[..4], m, d))
        case _ => None
  }

  predicate IsLeapYear(y: nat) {
    y % 4 == 0 && (y % 100 != 0 || y % 400 == 0)
  }

  function DaysInMonth(y: nat, m: nat): nat {
    if m == 2 then (if IsLeapYear(y) then 29 else 28)
    else if m == 4 || m == 6 || m == 9 || m == 11 then 30
    else 31
  }

  /** What `date(year, month, day)` accepts: a year from 1, a month 1-12 and a
      day that the month has. */
  predicate IsCalendarDate(d: Ymd) {
    DigitsValue(d.year) >= 1 && 1 <= d.month <= 12 && 1 <= d.day <= DaysInMonth(DigitsValue(d.year), d.month)
  }

  /** Two digits, zero-padded. */
  function Pad2(n: nat): (s: string)
    requires n < 100
    ensures |s| == 2 && IsDigit(s[0]) && IsDigit(s[1])
  {
    [DigitChar(n / 10), DigitChar(n % 10)]
  }

  /** `date.isoformat()`. */
  function IsoFormat(d: Ymd): (s: string)
    requires |d.year| == 4 && AllDigits(d.year) && 1 <= d.month <= 12 && 1 <= d.day <= 31
    ensures IsIsoDate(s)
  {
    assert d.year[0] in d.year && d.year[1] in d.year && d.year[2] in d.year && d.year[3] in d.year;
    d.year + "-" + Pad2(d.month) + "-" + Pad2(d.day)
  }

  /** The fields of a zero-padded date. */
  function IsoFields(s: string): (d: Ymd)
    requires IsIsoDate(s)
    ensures |d.year| == 4 && AllDigits(d.year) && 1 <= d.month <= 12 && 1 <= d.day <= 31
  {
    assert forall c :: c in s[..4] ==> c == s[0] || c == s[1] || c == s[2] || c == s[3];
    Ymd(s[..4], 10 * DigitValue(s[5]) + DigitValue(s[6]), 10 * DigitValue(s[8]) + DigitValue(s[9]))
  }

  lemma PadDigits(n: nat)
    requires n < 100
    ensures 10 * DigitValue(Pad2(n)[0]) + DigitValue(Pad2(n)[1]) == n
  {
  }

  /** Formatting a date and reading its fields back gives the same date. */
  lemma IsoFieldsOfFormat(d: Ymd)
    requires |d.year| == 4 && AllDigits(d.year) && 1 <= d.month <= 12 && 1 <= d.day <= 31
    ensures IsoFields(IsoFormat(d)) == d
  {
    var s := IsoFormat(d);
    assert s[..4] == d.year;
    assert s[5..7] == Pad2(d.month) && s[8..10] == Pad2(d.day);
    PadDigits(d.month);
    PadDigits(d.day);
  }

  /** `_parse_date`: an absent or empty parameter gives no date; otherwise the
      first ten characters must match `"%Y-%m-%d"` and name a real calendar
      date, which comes back zero-padded. */
  function ParseDate(param: Option<string>): (r: Option<string>)
    ensures param.None? || param == Some("") ==> r.None?
    ensures r.Some? ==> IsIsoDate(r.value) && IsCalendarDate(IsoFields(r.value))
  {
    match param
    case None => None
    case Some(s) =>
      if s == [] then None
      else
        match MatchYmd(Truncate10(s))
        case None => None
        case Some(d) =>
          if IsCalendarDate(d) then
            IsoFieldsOfFormat(d);
            Some(IsoFormat(d))
          else None
  }

  lemma DigitRoundTrip(c: char)
    requires IsDigit(c)
    ensures DigitChar(DigitValue(c)) == c
  {
  }

  /** Two digits read as a number and padded back give the same digits. */
  lemma PadOfDigits(a: char, b: char)
    requires IsDigit(a) && IsDigit(b)
    ensures Pad2(10 * DigitValue(a) + DigitValue(b)) == [a, b]
  {
    var n := 10 * DigitValue(a) + DigitValue(b);
    assert n / 10 == DigitValue(a) && n % 10 == DigitValue(b);
    DigitRoundTrip(a);
    DigitRoundTrip(b);
  }

  /** A zero-padded date matches the pattern with its own fields. */
  lemma MatchIsoDate(s: string)
    requires IsIsoDate(s)
    ensures MatchYmd(s) == Some(IsoFields(s))
  {
    var rest := s[5..];
    assert rest[1] == s[6] && rest[2] == s[7];
    assert rest[..2] == s[5..7] && rest[3..] == s[8..10];
  }

  /** A zero-padded date is the `isoformat()` of its own fields. */
  lemma FormatOfIsoFields(s: string)
    requires IsIsoDate(s)
    ensures IsoFormat(IsoFields(s)) == s
  {
    var d := IsoFields(s);
    PadOfDigits(s[5], s[6]);
    PadOfDigits(s[8], s[9]);
    assert s == s[..4] + "-" + [s[5], s[6]] + "-" + [s[8], s[9]];
  }

  /** Parsing a zero-padded calendar date gives the date back. */
  lemma ParseDateAcceptsIsoDate(s: string)
    requires IsIsoDate(s) && IsCalendarDate(IsoFields(s))
    ensures ParseDate(Some(s)) == Some(s)
  {
    MatchIsoDate(s);
    FormatOfIsoFields(s);
  }

  /** A parsed date is in canonical form: parsing it again gives it back. */
  lemma ParseDateCanonical(param: Option<string>)
    requires ParseDate(param).Some?
    ensures ParseDate(Some(ParseDate(param).value)) == ParseDate(param)
  {
    ParseDateAcceptsIsoDate(ParseDate(param).value);
  }

  /** A zero-padded date is accepted exactly when it names a calendar day. */
  lemma ParseIsoDate(s: string)
    requires IsIsoDate(s)
    ensures ParseDate(Some(s)) == if IsCalendarDate(IsoFields(s)) then Some(s) else None
  {
    MatchIsoDate(s);
    FormatOfIsoFields(s);
  }

  /** A one-digit month and a one-digit day are read as if zero-padded. */
  lemma ParseDateUnpadded(year: string, m: char, d: char)
    requires |year| == 4 && AllDigits(year) && '1' <= m <= '9' && '1' <= d <= '9'
    ensures ParseDate(Some(year + "-" + [m] + "-" + [d])) == ParseDate(Some(year + "-0" + [m] + "-0" + [d]))
  {
    MatchUnpadded(year, m, d);
    MatchPadded(year, m, d);
  }

  lemma MatchUnpadded(year: string, m: char, d: char)
    requires |year| == 4 && AllDigits(year) && '1' <= m <= '9' && '1' <= d <= '9'
    ensures MatchYmd(year + "-" + [m] + "-" + [d]) == Some(Ymd(year, DigitValue(m), DigitValue(d)))
  {
    var s := year + "-" + [m] + "-" + [d];
    assert year[0] in year && year[1] in year && year[2] in year && year[3] in year;
    assert s[..4] == year && s[4] == '-';
    assert s[5..] == [m, '-', d];
    assert MonthField([m]) == Some(DigitValue(m));
    assert DayField([d]) == Some(DigitValue(d));
  }

  lemma MatchPadded(year: string, m: char, d: char)
    requires |year| == 4 && AllDigits(year) && '1' <= m <= '9' && '1' <= d <= '9'
    ensures MatchYmd(year + "-0" + [m] + "-0" + [d]) == Some(Ymd(year, DigitValue(m), DigitValue(d)))
  {
    var s := year + "-0" + [m] + "-0" + [d];
    assert year[0] in year && year[1] in year && year[2] in year && year[3] in year;
    assert s[..4] == year && s[4] == '-';
    assert s[5..] == ['0', m, '-', '0', d];
    assert MonthField(['0', m]) == Some(DigitValue(m));
    assert DayField(['0', d]) == Some(DigitValue(d));
  }

  /** A blank in place of the day's leading zero changes nothing. */
  lemma ParseDateBlankDay(s: string)
    requires IsIsoDate(s) && s[8] == '0'
    ensures ParseDate(Some(s[..8] + " " + [s[9]])) == ParseDate(Some(s))
  {
    var blank := s[..8] + " " + [s[9]];
    assert blank[..8] == s[..8] && blank[8] == ' ' && blank[9] == s[9];
    assert blank[5..][..2] == s[5..][..2] && blank[5..][3..] == [' ', s[9]];
    assert s[5..][3..] == ['0', s[9]];
    assert blank[..4] == s[..4];
    assert MatchYmd(blank) == MatchYmd(s);
  }

  /** The cut at ten characters leaves part of a time behind a date with a
      one-digit month and day, so such a date-time gives no date. */
  lemma ParseDateShortDateWithTime(date: string, time: string)
    requires |date| == 8 && date[6] == '-' && |time| >= 2
    ensures ParseDate(Some(date + time)).None?
  {
    var head := Truncate10(date + time);
    assert head[5..][1] == '-';
    assert |head[5..][2..]| == 3;
  }

  /** Year 0 and days that a month does not have are not calendar dates; the
      leap day exists only in leap years. */
  lemma CalendarExamples()
    ensures !IsCalendarDate(Ymd("0000", 1, 1))
    ensures !IsCalendarDate(Ymd("2023", 2, 29)) && IsCalendarDate(Ymd("2024", 2, 29))
    ensures !IsCalendarDate(Ymd("1900", 2, 29)) && IsCalendarDate(Ymd("2000", 2, 29))
    ensures !IsCalendarDate(Ymd("2024", 4, 31))
  {
    YearDigits('0', '0', '0', '0');
    YearDigits('2', '0', '2', '3');
    YearDigits('2', '0', '2', '4');
    YearDigits('1', '9', '0', '0');
    YearDigits('2', '0', '0', '0');
  }

  lemma YearDigits(a: char, b: char, c: char, d: char)
    requires IsDigit(a) && IsDigit(b) && IsDigit(c) && IsDigit(d)
    ensures DigitsValue([a, b, c, d])
         == 1000 * DigitValue(a) + 100 * DigitValue(b) + 10 * DigitValue(c) + DigitValue(d)
  {
    assert [a][..0] == [];
    assert DigitsValue([a]) == DigitValue(a);
    assert [a, b][..1] == [a];
    assert DigitsValue([a, b]) == 10 * DigitValue(a) + DigitValue(b);
    assert [a, b, c][..2] == [a, b];
    assert DigitsValue([a, b, c]) == 100 * DigitValue(a) + 10 * DigitValue(b) + DigitValue(c);
    assert [a, b, c, d][..3] == [a, b, c];
  }

  /** Whatever follows the first ten characters (a time, say) does not change
      the parsed date. */
  lemma ParseDateIgnoresSuffix(s: string, tail: string)
    requires |s| == 10
    ensures ParseDate(Some(s + tail)) == ParseDate(Some(s))
  {
    assert (s + tail)[..10] == s;
    assert Truncate10(s + tail) == s == Truncate10(s);
  }

  datatype Window = Window(limit: nat, offset: nat)

  const DefaultLimit: nat := 50
  const MaxLimit: nat := 200

  /** `_parse_pagination`: `int()` of the `limit` and `offset` parameters
      (absent ones read as "50" and "0"); a value `int()` rejects falls back to
      50 and 0; then the limit is clamped to 1..200 and the offset to 0 and up. */
  function ParsePagination(limitParam: Option<string>, offsetParam: Option<string>): (w: Window)
    ensures 1 <= w.limit <= MaxLimit
    ensures var n := ParseInt(limitParam.GetOr("50"));
      && (n.None? ==> w.limit == DefaultLimit)
      && (n.Some? && n.value < 1 ==> w.limit == 1)
      && (n.Some? && n.value > MaxLimit ==> w.limit == MaxLimit)
      && (n.Some? && 1 <= n.value <= MaxLimit ==> w.limit == n.value)
    ensures var n := ParseInt(offsetParam.GetOr("0"));
      && (n.None? ==> w.offset == 0)
      && (n.Some? && n.value < 0 ==> w.offset == 0)
      && (n.Some? && n.value >= 0 ==> w.offset == n.value)
  {
    var limit := match ParseInt(limitParam.GetOr("50")) case Some(n) => n case None => 50;
    var offset := match ParseInt(offsetParam.GetOr("0")) case Some(n) => n case None => 0;
    var clampedLimit := if limit < 1 then 1 else if limit > MaxLimit then MaxLimit else limit;
    var clampedOffset := if offset < 0 then 0 else offset;
    Window(clampedLimit, clampedOffset)
  }

  /** With neither parameter given, the window is the first 50 rows. */
  lemma ParsePaginationDefaults()
    ensures ParsePagination(None, None) == Window(DefaultLimit, 0)
  {
    ParseFifty();
    ParseZero();
  }

  lemma ParseFifty()
    ensures ParseInt("50") == Some(50)
  {
    assert AllDigits("50");
    ParseUnsigned("50");
    assert "50"[..1] == "5";
  }

  lemma ParseZero()
    ensures ParseInt("0") == Some(0)
  {
    assert AllDigits("0");
    ParseUnsigned("0");
  }

  /** Any integer of at most `MaxStrDigits` digits written as `limit`/`offset`
      is clamped, never replaced by the default: a limit of 0 or less becomes 1,
      not 50. */
  lemma ParsePaginationClampsIntegers(limit: int, offset: int)
    requires DigitCount(limit) <= MaxStrDigits && DigitCount(offset) <= MaxStrDigits
    ensures var w := ParsePagination(Some(IntToString(limit)), Some(IntToString(offset)));
      && w.limit == (if limit < 1 then 1 else if limit > MaxLimit then MaxLimit else limit)
      && w.offset == (if offset < 0 then 0 else offset)
  {
    ParseIntRoundTrip(limit);
    ParseIntRoundTrip(offset);
  }

  /** A digit run longer than `MaxStrDigits` is refused by `int()`, so it gives
      the default window, however large the number it spells. */
  lemma ParsePaginationLongNumbers(limitDigits: string, offsetDigits: string)
    requires AllDigits(limitDigits) && |limitDigits| > MaxStrDigits
    requires AllDigits(offsetDigits) && |offsetDigits| > MaxStrDigits
    ensures ParsePagination(Some(limitDigits), Some(offsetDigits)) == Window(DefaultLimit, 0)
  {
    ParseIntRefusesLong(limitDigits);
    ParseIntRefusesLong(offsetDigits);
  }
}
