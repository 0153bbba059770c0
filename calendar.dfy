/**
 * The date picker's arithmetic and the strings it packs into Telegram
 * callback data: `CALENDAR|<action>|<year>|<month>|<day>` on calendar
 * buttons, `del_<date>` on the buttons of the /list reply, and the
 * `YYYY-MM-DD` date string stored in the watches table.
 */
module Calendar {
  import opened Wrappers
  import opened PyStr

  datatype YearMonth = YearMonth(year: int, month: int)

  /** Months counted from January of year 0: consecutive months have consecutive indexes. */
  function MonthIndex(ym: YearMonth): int
  {
    ym.year * 12 + ym.month - 1
  }

  /** The month the "<" button of `create_calendar` leads to. */
  function PrevMonth(ym: YearMonth): (p: YearMonth)
    ensures 1 <= ym.month <= 12 ==> 1 <= p.month <= 12 && MonthIndex(p) == MonthIndex(ym) - 1
  {
    if ym.month - 1 == 0 then YearMonth(ym.year - 1, 12) else YearMonth(ym.year, ym.month - 1)
  }

  /** The month the ">" button of `create_calendar` leads to. */
  function NextMonth(ym: YearMonth): (n: YearMonth)
    ensures 1 <= ym.month <= 12 ==> 1 <= n.month <= 12 && MonthIndex(n) == MonthIndex(ym) + 1
  {
    if ym.month + 1 == 13 then YearMonth(ym.year + 1, 1) else YearMonth(ym.year, ym.month + 1)
  }

  /** A proper month is determined by its index. */
  lemma MonthIndexInjective(a: YearMonth, b: YearMonth)
    requires 1 <= a.month <= 12 && 1 <= b.month <= 12
    requires MonthIndex(a) == MonthIndex(b)
    ensures a == b
  {
  }

  /** "<" then ">" (or ">" then "<") comes back to the month shown. */
  lemma NavigationRoundTrip(ym: YearMonth)
    requires 1 <= ym.month <= 12
    ensures NextMonth(PrevMonth(ym)) == ym
    ensures PrevMonth(NextMonth(ym)) == ym
  {
    MonthIndexInjective(NextMonth(PrevMonth(ym)), ym);
    MonthIndexInjective(PrevMonth(NextMonth(ym)), ym);
  }

  // ---------------------------------------------------------------------------
  // The stored date string
  // ---------------------------------------------------------------------------

  /** `f"{n:02d}"`: zero-padded to two characters; a sign counts toward the width. */
  function Pad2(n: int): (s: string)
    ensures n >= 0 ==> AllDigits(s)
  {
    if 0 <= n <= 9 then ['0', DigitChar(n)] else IntToString(n)
  }

  /** Months and days (0 to 99) always take exactly two digits. */
  lemma Pad2TwoDigits(n: int)
    requires 0 <= n <= 99
    ensures |Pad2(n)| == 2
  {
    if n >= 10 {
      assert NatToString(n) == NatToString(n / 10) + [DigitChar(n % 10)];
    }
  }

  /** `f"{year}-{month:02d}-{day:02d}"`, the date `add_watch` stores: only
      digits and '-', so never the '_' or '|' the button payloads split on. */
  function FormatDate(year: int, month: int, day: int): (date: string)
    ensures forall i :: 0 <= i < |date| ==> IsDigit(date[i]) || date[i] == '-'
  {
    IntToString(year) + "-" + Pad2(month) + "-" + Pad2(day)
  }

  lemma ParseIntOfPad2(n: int)
    ensures ParseInt(Pad2(n)) == Some(n)
  {
    if 0 <= n <= 9 {
      var s := Pad2(n);
      assert s == ['0', DigitChar(n)];
      assert s[..1] == "0" && s[..1][..0] == [];
      assert DigitsValue(s[..1]) == 0;
      assert DigitsValue(s) == n;
    } else {
      ParseIntOfIntToString(n);
    }
  }

  /** For non-negative fields the date string splits back on '-' into its three fields. */
  lemma {:induction false} FormatDateFields(year: int, month: int, day: int)
    requires 0 <= year && 0 <= month && 0 <= day
    ensures Split(FormatDate(year, month, day), '-') == [IntToString(year), Pad2(month), Pad2(day)]
  {
    var fields := [IntToString(year), Pad2(month), Pad2(day)];
    assert Join(fields, '-') == FormatDate(year, month, day) by {
      assert fields[1..][1..] == [Pad2(day)];
      assert Join(fields[1..][1..], '-') == Pad2(day);
      assert Join(fields[1..], '-') == Pad2(month) + ['-'] + Pad2(day);
      assert Join(fields, '-') == IntToString(year) + ['-'] + (Pad2(month) + ['-'] + Pad2(day));
    }
    SplitJoin(fields, '-');
  }

  /** Distinct calendar days give distinct date strings, so UNIQUE(user_id, date)
      is uniqueness per user and day. */
  lemma FormatDateInjective(y1: int, m1: int, d1: int, y2: int, m2: int, d2: int)
    requires 0 <= y1 && 0 <= m1 && 0 <= d1 && 0 <= y2 && 0 <= m2 && 0 <= d2
    requires FormatDate(y1, m1, d1) == FormatDate(y2, m2, d2)
    ensures y1 == y2 && m1 == m2 && d1 == d2
  {
    FormatDateFields(y1, m1, d1);
    FormatDateFields(y2, m2, d2);
    ParseIntOfIntToString(y1);
    ParseIntOfIntToString(y2);
    ParseIntOfPad2(m1);
    ParseIntOfPad2(m2);
    ParseIntOfPad2(d1);
    ParseIntOfPad2(d2);
  }

  lemma FourDigitYear(year: int)
    requires 1000 <= year <= 9999
    ensures |IntToString(year)| == 4 && AllDigits(IntToString(year))
    ensures DigitsValue(IntToString(year)) == year
  {
    assert |NatToString(year / 10 / 10 / 10)| == 1;
    assert |NatToString(year / 10 / 10)| == 2;
    assert |NatToString(year / 10)| == 3;
    assert |NatToString(year)| == 4;
    DigitsValueOfNatToString(year);
  }

  lemma Pad2Value(n: int)
    requires 0 <= n <= 99
    ensures |Pad2(n)| == 2 && AllDigits(Pad2(n)) && DigitsValue(Pad2(n)) == n
  {
    Pad2TwoDigits(n);
    ParseIntOfPad2(n);
  }

  lemma Regroup(a: string, b: string, c: string, d: string, e: string)
    ensures a + b + c + d + e == a + (b + c + d + e)
  {
  }

  lemma Regroup4(a: string, b: string, c: string, d: string)
    ensures a + b + c + d == a + (b + c + d) == a + (b + (c + d))
  {
  }

  /** The "-MM-DD" part of two date strings compares as (month, day). */
  lemma MonthDayOrder(m1: int, d1: int, m2: int, d2: int)
    requires 0 <= m1 <= 99 && 0 <= d1 <= 99 && 0 <= m2 <= 99 && 0 <= d2 <= 99
    ensures Below("-" + Pad2(m1) + "-" + Pad2(d1), "-" + Pad2(m2) + "-" + Pad2(d2)) <==>
      m1 < m2 || (m1 == m2 && d1 < d2)
  {
    var ms1, ds1, ms2, ds2 := Pad2(m1), Pad2(d1), Pad2(m2), Pad2(d2);
    Pad2Value(m1);
    Pad2Value(m2);
    Pad2Value(d1);
    Pad2Value(d2);
    BelowDigits(ms1, ms2);
    BelowDigits(ds1, ds2);
    BelowIrreflexive("-");
    BelowConcat("-", ds1, "-", ds2);
    BelowConcat(ms1, "-" + ds1, ms2, "-" + ds2);
    BelowConcat("-", ms1 + "-" + ds1, "-", ms2 + "-" + ds2);
    Regroup4("-", ms1, "-", ds1);
    Regroup4("-", ms2, "-", ds2);
  }

  /** `ORDER BY date` on the stored strings is calendar order: for four-digit
      years and months and days below 100, one date string sorts before another
      exactly when its (year, month, day) comes first. */
  lemma FormatDateOrder(y1: int, m1: int, d1: int, y2: int, m2: int, d2: int)
    requires 1000 <= y1 <= 9999 && 0 <= m1 <= 99 && 0 <= d1 <= 99
    requires 1000 <= y2 <= 9999 && 0 <= m2 <= 99 && 0 <= d2 <= 99
    ensures Below(FormatDate(y1, m1, d1), FormatDate(y2, m2, d2)) <==>
      y1 < y2 || (y1 == y2 && (m1 < m2 || (m1 == m2 && d1 < d2)))
  {
    var ys1, ys2 := IntToString(y1), IntToString(y2);
    var rest1, rest2 := "-" + Pad2(m1) + "-" + Pad2(d1), "-" + Pad2(m2) + "-" + Pad2(d2);
    FourDigitYear(y1);
    FourDigitYear(y2);
    BelowDigits(ys1, ys2);
    MonthDayOrder(m1, d1, m2, d2);
    BelowConcat(ys1, rest1, ys2, rest2);
    Regroup(ys1, "-", Pad2(m1), "-", Pad2(d1));
    Regroup(ys2, "-", Pad2(m2), "-", Pad2(d2));
  }

  // ---------------------------------------------------------------------------
  // Calendar button payloads
  // ---------------------------------------------------------------------------

  /** `f"CALENDAR|{action}|{year}|{month}|{day}"`: it starts with the
      `CALENDAR|` prefix that routes a press to the calendar handler. */
  function CalendarPayload(action: string, year: int, month: int, day: int): (data: string)
    ensures |data| > 9 && data[..9] == "CALENDAR|"
  {
    var fields := ["CALENDAR", action, IntToString(year), IntToString(month), IntToString(day)];
    assert Join(fields, '|') == "CALENDAR|" + Join(fields[1..], '|');
    assert |Join(fields[1..], '|')| > 0 by { assert |fields[1..]| > 1; }
    Join(fields, '|')
  }

  /** A day button of the month grid: pressing it adds the watch on that
      day's date string. */
  function SelectPayload(year: int, month: int, day: int): (data: string)
    ensures DecodeCalendar(data) == SelectDate(FormatDate(year, month, day))
  {
    CalendarPayloadRoundTrip("SELECT", year, month, day);
    CalendarPayload("SELECT", year, month, day)
  }

  /** The "<" button of the calendar showing `ym`: it redraws the previous month. */
  function PrevPayload(ym: YearMonth): (data: string)
    ensures DecodeCalendar(data) == ShowMonth(PrevMonth(ym))
  {
    var p := PrevMonth(ym);
    CalendarPayloadRoundTrip("PREV", p.year, p.month, 0);
    CalendarPayload("PREV", p.year, p.month, 0)
  }

  /** The ">" button of the calendar showing `ym`: it redraws the next month. */
  function NextPayload(ym: YearMonth): (data: string)
    ensures DecodeCalendar(data) == ShowMonth(NextMonth(ym))
  {
    var n := NextMonth(ym);
    CalendarPayloadRoundTrip("NEXT", n.year, n.month, 0);
    CalendarPayload("NEXT", n.year, n.month, 0)
  }

  datatype Callback = Callback(action: string, year: int, month: int, day: int)

  /** `_, action, year, month, day = call.data.split('|')` followed by three
      `int` calls; None where the unpacking or an `int` raises. */
  function ParseCallback(data: string): (r: Option<Callback>)
    ensures r.Some? ==> |Split(data, '|')| == 5 && r.value.action == Split(data, '|')[1]
  {
    var parts := Split(data, '|');
    if |parts| != 5 then None
    else
      match (ParseInt(parts[2]), ParseInt(parts[3]), ParseInt(parts[4]))
      case (Some(y), Some(m), Some(d)) => Some(Callback(parts[1], y, m, d))
      case _ => None
  }

  /** What `callback_calendar` decides to do with a payload. */
  datatype CalendarCommand =
    | Ignore                      // answer the query, nothing else
    | SelectDate(date: string)    // add a watch on `date`
    | ShowMonth(ym: YearMonth)    // redraw the calendar at `ym`
    | NoAction                    // an unknown action: nothing happens
    | CalendarError               // the `except` branch

  /** `callback_calendar`'s dispatch: any payload that does not unpack into
      five fields with three integers ends in the error branch; a day press
      stores a date made of digits and '-'; an action other than the four
      known ones does nothing. */
  function DecodeCalendar(data: string): (c: CalendarCommand)
    ensures c == CalendarError <==> ParseCallback(data).None?
    ensures c.SelectDate? ==> forall i :: 0 <= i < |c.date| ==> IsDigit(c.date[i]) || c.date[i] == '-'
    ensures c == NoAction ==> Split(data, '|')[1] !in ["IGNORE", "SELECT", "PREV", "NEXT"]
  {
    match ParseCallback(data)
    case None => CalendarError
    case Some(cb) =>
      if cb.action == "IGNORE" then Ignore
      else if cb.action == "SELECT" then SelectDate(FormatDate(cb.year, cb.month, cb.day))
      else if cb.action == "PREV" || cb.action == "NEXT" then ShowMonth(YearMonth(cb.year, cb.month))
      else NoAction
  }

  lemma IntToStringHasNoSeparator(n: int, sep: char)
    requires !IsDigit(sep) && sep != '-'
    ensures sep !in IntToString(n)
  {
  }

  /** A calendar payload has exactly five '|'-separated fields and parses back
      to what was packed, for any action without a '|'. */
  lemma CalendarPayloadRoundTrip(action: string, year: int, month: int, day: int)
    requires '|' !in action
    ensures |Split(CalendarPayload(action, year, month, day), '|')| == 5
    ensures ParseCallback(CalendarPayload(action, year, month, day)) == Some(Callback(action, year, month, day))
  {
    var fields := ["CALENDAR", action, IntToString(year), IntToString(month), IntToString(day)];
    IntToStringHasNoSeparator(year, '|');
    IntToStringHasNoSeparator(month, '|');
    IntToStringHasNoSeparator(day, '|');
    assert forall i :: 0 <= i < |fields| ==> '|' !in fields[i];
    SplitJoin(fields, '|');
    ParseIntOfIntToString(year);
    ParseIntOfIntToString(month);
    ParseIntOfIntToString(day);
  }

  // ---------------------------------------------------------------------------
  // The /list buttons
  // ---------------------------------------------------------------------------

  predicate IsDeletePayload(data: string)
  {
    |data| >= 4 && data[..4] == "del_"
  }

  /** `f"del_{date}"`. */
  function DeletePayload(date: string): (data: string)
    ensures IsDeletePayload(data)
  {
    "del_" + date
  }

  /** `call.data.split('_')[1]`, reached only for data starting with `del_`:
      the text after `del_` up to the next '_' or the end. */
  function DeletedDate(data: string): (date: string)
    requires IsDeletePayload(data)
    ensures date <= data[4..] && '_' !in date
    ensures |date| == |data| - 4 || data[4 + |date|] == '_'
  {
    assert data == "del" + ['_'] + data[4..];
    SplitAtSeparator("del", data[4..], '_');
    Split(data, '_')[1]
  }

  /** The date a delete button removes is the date it was made for, as long as
      the date has no '_'. */
  lemma DeletePayloadRoundTrip(date: string)
    requires '_' !in date
    ensures DeletedDate(DeletePayload(date)) == date
  {
    var data := DeletePayload(date);
    assert data == "del" + ['_'] + date;
    SplitAtSeparator("del", date, '_');
    SplitWithoutSeparator(date, '_');
  }

  /** Every date the calendar stores survives the delete button. */
  lemma DeleteButtonForFormattedDate(year: int, month: int, day: int)
    ensures DeletedDate(DeletePayload(FormatDate(year, month, day))) == FormatDate(year, month, day)
  {
    DeletePayloadRoundTrip(FormatDate(year, month, day));
  }
}
