/**
  The calendar month a remote pull covers (services.py, `fetch_data_for_month_from_pb`):
  from the 1st of the month at 00:00 to the last microsecond of the month, both
  ends included, and the `%Y-%m-%d %H:%M:%S` text of those instants.  The text
  has no fraction of a second, so the end bound the filter carries is the
  start of the month's last second.
*/
module MonthRange {

  /** A proleptic Gregorian date and time of day, to the microsecond (Python's `datetime`). */
  datatype DateTime = DateTime(year: int, month: int, day: int, hour: int, minute: int, second: int, micro: int)

  predicate IsLeapYear(year: int) {
    year % 4 == 0 && (year % 100 != 0 || year % 400 == 0)
  }

  function DaysInMonth(year: int, month: int): (n: int)
    requires 1 <= month <= 12
    ensures 28 <= n <= 31
    ensures month == 2 ==> (n == 29 <==> IsLeapYear(year))
  {
    if month == 2 then (if IsLeapYear(year) then 29 else 28)
    else if month == 4 || month == 6 || month == 9 || month == 11 then 30
    else 31
  }

  /** The values Python's `datetime` accepts. */
  predicate ValidDateTime(t: DateTime) {
    && 1 <= t.year <= 9999 && 1 <= t.month <= 12 && 1 <= t.day <= DaysInMonth(t.year, t.month)
    && 0 <= t.hour < 24 && 0 <= t.minute < 60 && 0 <= t.second < 60 && 0 <= t.micro < 1000000
  }

  /** Chronological order of date-times: lexicographic on the fields. */
  predicate AtOrBefore(a: DateTime, b: DateTime) {
    if a.year != b.year then a.year < b.year
    else if a.month != b.month then a.month < b.month
    else if a.day != b.day then a.day < b.day
    else if a.hour != b.hour then a.hour < b.hour
    else if a.minute != b.minute then a.minute < b.minute
    else if a.second != b.second then a.second < b.second
    else a.micro <= b.micro
  }

  /** `t - timedelta(microseconds=1)`, borrowing through seconds, minutes, hours, days, months and years. */
  function MinusOneMicro(t: DateTime): (r: DateTime)
    requires ValidDateTime(t)
    requires t != DateTime(1, 1, 1, 0, 0, 0, 0)
    ensures ValidDateTime(r)
    ensures AtOrBefore(r, t) && r != t
  {
    if t.micro > 0 then t.(micro := t.micro - 1)
    else if t.second > 0 then t.(second := t.second - 1, micro := 999999)
    else if t.minute > 0 then t.(minute := t.minute - 1, second := 59, micro := 999999)
    else if t.hour > 0 then t.(hour := t.hour - 1, minute := 59, second := 59, micro := 999999)
    else if t.day > 1 then DateTime(t.year, t.month, t.day - 1, 23, 59, 59, 999999)
    else if t.month > 1 then DateTime(t.year, t.month - 1, DaysInMonth(t.year, t.month - 1), 23, 59, 59, 999999)
    else DateTime(t.year - 1, 12, 31, 23, 59, 59, 999999)
  }

  function MonthStart(year: int, month: int): DateTime {
    DateTime(year, month, 1, 0, 0, 0, 0)
  }

  /** The end of the range: one microsecond before the next month's 1st, except
      December, which is spelled out so that no year `year + 1` is built. */
  function MonthEnd(year: int, month: int): (r: DateTime)
    requires 1 <= year <= 9999 && 1 <= month <= 12
    ensures ValidDateTime(r)
    ensures r.year == year && r.month == month && r.day == DaysInMonth(year, month)
    ensures r.hour == 23 && r.minute == 59 && r.second == 59 && r.micro == 999999
  {
    if month < 12 then MinusOneMicro(DateTime(year, month + 1, 1, 0, 0, 0, 0))
    else DateTime(year, month, 31, 23, 59, 59, 999999)
  }

  /** Both branches give the last microsecond of the month's last day, and for
      December that is also one microsecond before the next New Year. */
  lemma MonthEndIsLastMicro(year: int, month: int)
    requires 1 <= year <= 9999 && 1 <= month <= 12
    ensures MonthEnd(year, month) == DateTime(year, month, DaysInMonth(year, month), 23, 59, 59, 999999)
    ensures year < 9999 && month == 12 ==> MonthEnd(year, month) == MinusOneMicro(MonthStart(year + 1, 1))
  {
  }

  /** The closed range `[MonthStart, MonthEnd]` holds exactly the instants of the month. */
  lemma MonthRangeIsClosed(year: int, month: int, t: DateTime)
    requires 1 <= year <= 9999 && 1 <= month <= 12
    requires ValidDateTime(t)
    ensures AtOrBefore(MonthStart(year, month), t) && AtOrBefore(t, MonthEnd(year, month)) <==>
      t.year == year && t.month == month
  {
    MonthEndIsLastMicro(year, month);
  }

  /** Decimal digits of `n`, without leading zeros. */
  function Digits(n: nat): (s: string)
    ensures |s| >= 1
    ensures forall i :: 0 <= i < |s| ==> '0' <= s[i] <= '9'
  {
    if n < 10 then [DigitChar(n)] else Digits(n / 10) + [DigitChar(n % 10)]
  }

  function DigitChar(d: nat): (c: char)
    requires d < 10
    ensures '0' <= c <= '9'
  {
    (48 + d) as char
  }

  /** The number a string of decimal digits denotes. */
  function DigitsValue(s: string): nat
    requires forall i :: 0 <= i < |s| ==> '0' <= s[i] <= '9'
  {
    if |s| == 0 then 0 else 10 * DigitsValue(s[..|s| - 1]) + ((s[|s| - 1] as int) - 48)
  }

  /** `Digits` writes `n` in decimal: reading the digits back gives `n`. */
  lemma {:induction false} DigitsRoundTrip(n: nat)
    ensures DigitsValue(Digits(n)) == n
  {
    if n >= 10 {
      DigitsRoundTrip(n / 10);
      var s := Digits(n);
      assert s[..|s| - 1] == Digits(n / 10);
    }
  }

  /** Two digits, zero-padded (`%m`, `%d`, `%H`, `%M`, `%S`). */
  function Pad2(n: nat): (s: string)
    requires n < 100
    ensures |s| == 2
    ensures forall i :: 0 <= i < |s| ==> '0' <= s[i] <= '9'
    ensures DigitsValue(s) == n
  {
    DigitsRoundTrip(n);
    if n < 10 then "0" + Digits(n) else Digits(n)
  }

  predicate AllDigits(s: string) {
    forall i :: 0 <= i < |s| ==> '0' <= s[i] <= '9'
  }

  /** The number written in `s[from..from + len]`, or -1 when that is not all digits. */
  function NumberAt(s: string, from: nat, len: nat): int
    requires from + len <= |s|
  {
    if AllDigits(s[from..from + len]) then DigitsValue(s[from..from + len]) else -1
  }

  /** Where the fields of a `%Y-%m-%d %H:%M:%S` text lie, after a year of `|y|` digits. */
  lemma Layout(y: string, mo: string, d: string, h: string, mi: string, se: string)
    requires |mo| == 2 && |d| == 2 && |h| == 2 && |mi| == 2 && |se| == 2
    ensures var s := y + "-" + mo + "-" + d + " " + h + ":" + mi + ":" + se;
      var w := |y|;
      && |s| == w + 15
      && s[0..0 + w] == y && s[w] == '-' && s[w + 1..w + 1 + 2] == mo && s[w + 3] == '-'
      && s[w + 4..w + 4 + 2] == d && s[w + 6] == ' ' && s[w + 7..w + 7 + 2] == h && s[w + 9] == ':'
      && s[w + 10..w + 10 + 2] == mi && s[w + 12] == ':' && s[w + 13..w + 13 + 2] == se
  {
  }

  /** A field written as `piece` at `from` reads back as the value of `piece`. */
  lemma NumberAtPiece(s: string, from: nat, piece: string)
    requires from + |piece| <= |s| && s[from..from + |piece|] == piece && AllDigits(piece)
    ensures NumberAt(s, from, |piece|) == DigitsValue(piece)
  {
  }

  /** The date fields of a `%Y-%m-%d %H:%M:%S` text read back as the numbers they were written from. */
  lemma DateFieldsReadBack(y: string, mo: string, d: string, h: string, mi: string, se: string)
    requires |mo| == 2 && |d| == 2 && |h| == 2 && |mi| == 2 && |se| == 2
    requires AllDigits(y) && AllDigits(mo) && AllDigits(d)
    ensures var s := y + "-" + mo + "-" + d + " " + h + ":" + mi + ":" + se;
      var w := |y|;
      && NumberAt(s, 0, w) == DigitsValue(y)
      && NumberAt(s, w + 1, 2) == DigitsValue(mo)
      && NumberAt(s, w + 4, 2) == DigitsValue(d)
  {
    var s := y + "-" + mo + "-" + d + " " + h + ":" + mi + ":" + se;
    Layout(y, mo, d, h, mi, se);
    NumberAtPiece(s, 0, y);
    NumberAtPiece(s, |y| + 1, mo);
    NumberAtPiece(s, |y| + 4, d);
  }

  /** The time-of-day fields of a `%Y-%m-%d %H:%M:%S` text read back as the numbers they were written from. */
  lemma ClockFieldsReadBack(y: string, mo: string, d: string, h: string, mi: string, se: string)
    requires |mo| == 2 && |d| == 2 && |h| == 2 && |mi| == 2 && |se| == 2
    requires AllDigits(h) && AllDigits(mi) && AllDigits(se)
    ensures var s := y + "-" + mo + "-" + d + " " + h + ":" + mi + ":" + se;
      var w := |y|;
      && NumberAt(s, w + 7, 2) == DigitsValue(h)
      && NumberAt(s, w + 10, 2) == DigitsValue(mi)
      && NumberAt(s, w + 13, 2) == DigitsValue(se)
  {
    var s := y + "-" + mo + "-" + d + " " + h + ":" + mi + ":" + se;
    Layout(y, mo, d, h, mi, se);
    NumberAtPiece(s, |y| + 7, h);
    NumberAtPiece(s, |y| + 10, mi);
    NumberAtPiece(s, |y| + 13, se);
  }

  /** `strftime('%Y-%m-%d %H:%M:%S')`: each field reads back from its place in
      the text, and the microseconds are not written. */
  function FormatSeconds(t: DateTime): (s: string)
    requires ValidDateTime(t)
    ensures |s| == |Digits(t.year)| + 15
    ensures var w := |Digits(t.year)|;
      && NumberAt(s, 0, w) == t.year && s[w] == '-'
      && NumberAt(s, w + 1, 2) == t.month && s[w + 3] == '-'
      && NumberAt(s, w + 4, 2) == t.day && s[w + 6] == ' '
      && NumberAt(s, w + 7, 2) == t.hour && s[w + 9] == ':'
      && NumberAt(s, w + 10, 2) == t.minute && s[w + 12] == ':'
      && NumberAt(s, w + 13, 2) == t.second
  {
    var y, mo, d := Digits(t.year), Pad2(t.month), Pad2(t.day);
    var h, mi, se := Pad2(t.hour), Pad2(t.minute), Pad2(t.second);
    DigitsRoundTrip(t.year);
    Layout(y, mo, d, h, mi, se);
    DateFieldsReadBack(y, mo, d, h, mi, se);
    ClockFieldsReadBack(y, mo, d, h, mi, se);
    var s := y + "-" + mo + "-" + d + " " + h + ":" + mi + ":" + se;
    s
  }

  /** The instant the filter's end bound denotes: the start of the month's last second. */
  function LastWholeSecond(year: int, month: int): (r: DateTime)
    requires 1 <= year <= 9999 && 1 <= month <= 12
    ensures ValidDateTime(r)
  {
    DateTime(year, month, DaysInMonth(year, month), 23, 59, 59, 0)
  }

  /** The text of the end bound is that of the month's last whole second: the
      999999 microseconds of `MonthEnd` are lost in formatting. */
  lemma EndBoundTextIsLastWholeSecond(year: int, month: int)
    requires 1 <= year <= 9999 && 1 <= month <= 12
    ensures FormatSeconds(MonthEnd(year, month)) == FormatSeconds(LastWholeSecond(year, month))
  {
  }

  /** The range the filter text describes holds the instants of the month except
      those inside its last second after that second's start. */
  lemma FilterRangeSkipsLastSecond(year: int, month: int, t: DateTime)
    requires 1 <= year <= 9999 && 1 <= month <= 12
    requires ValidDateTime(t)
    ensures AtOrBefore(MonthStart(year, month), t) && AtOrBefore(t, LastWholeSecond(year, month)) <==>
      && t.year == year && t.month == month
      && !(t.day == DaysInMonth(year, month) && t.hour == 23 && t.minute == 59 && t.second == 59 && t.micro > 0)
  {
  }
}
