/** Day arithmetic on the proleptic Gregorian calendar, and timestamps. */
module CivilDays {
  import opened Wrappers
  import opened Codec
  import Utf8

  // ----- the calendar -----

  predicate Leap(y: int) {
    y % 4 == 0 && (y % 100 != 0 || y % 400 == 0)
  }

  function DaysInMonth(y: int, m: int): int {
    if m == 2 then (if Leap(y) then 29 else 28)
    else if m == 4 || m == 6 || m == 9 || m == 11 then 30
    else 31
  }

  predicate ValidDate(y: int, m: int, d: int) {
    1 <= m <= 12 && 1 <= d <= DaysInMonth(y, m)
  }

  function YearLength(y: int): int {
    if Leap(y) then 366 else 365
  }

  function DaysBeforeYear(y: nat): int {
    if y == 0 then 0 else DaysBeforeYear(y - 1) + YearLength(y - 1)
  }

  function DaysBeforeMonth(y: int, m: int): int
    requires 1 <= m <= 12
  {
    if m == 1 then 0 else DaysBeforeMonth(y, m - 1) + DaysInMonth(y, m - 1)
  }

  /** Counting the days since the first of January of year 0, one year and month at a time. */
  function NaiveDays(y: nat, m: int, d: int): int
    requires ValidDate(y, m, d)
  {
    DaysBeforeYear(y) + DaysBeforeMonth(y, m) + d - 1
  }

  function NextDay(y: int, m: int, d: int): (int, int, int)
    requires ValidDate(y, m, d)
  {
    if d < DaysInMonth(y, m) then (y, m, d + 1)
    else if m < 12 then (y, m + 1, 1)
    else (y + 1, 1, 1)
  }

  // ----- the constant-time formula -----

  /** Division that rounds toward zero. */
  function TruncDiv(a: int, b: nat): int
    requires b > 0
  {
    if a >= 0 then a / b else -(-a / b)
  }

  function DaysFromCivil(y0: int, m: int, d: int): int {
    var y := if m <= 2 then y0 - 1 else y0;
    var era := if y >= 0 then TruncDiv(y, 400) else TruncDiv(y - 399, 400);
    var yoe := y - era * 400;
    var doy := (153 * (if m > 2 then m - 3 else m + 9) + 2) / 5 + d - 1;
    var doe := yoe * 365 + yoe / 4 - yoe / 100 + doy;
    era * 146097 + doe - 719468
  }

  /** Days before the first of March of year `y`, up to a constant. */
  function MarchDays(y: int): int {
    365 * y + y / 4 - y / 100 + y / 400
  }

  lemma EraIsFloor(y: int)
    ensures (if y >= 0 then TruncDiv(y, 400) else TruncDiv(y - 399, 400)) == y / 400
  {
  }

  lemma FormulaIsMarchDays(y0: int, m: int, d: int)
    requires 1 <= m <= 12
    ensures var y := if m <= 2 then y0 - 1 else y0;
      DaysFromCivil(y0, m, d) == MarchDays(y) + (153 * (if m > 2 then m - 3 else m + 9) + 2) / 5 + d - 1 - 719468
  {
    var y := if m <= 2 then y0 - 1 else y0;
    EraIsFloor(y);
    var era := y / 400;
    var yoe := y - era * 400;
    assert 0 <= yoe < 400;
    assert y / 4 == 100 * era + yoe / 4;
    assert y / 100 == 4 * era + yoe / 100;
  }

  lemma MarchYear(y: int)
    ensures MarchDays(y) == MarchDays(y - 1) + YearLength(y)
  {
    Steps(y, 4);
    Steps(y, 100);
    Steps(y, 400);
  }

  lemma Steps(y: int, n: int)
    requires n > 1
    ensures y / n == (y - 1) / n + if y % n == 0 then 1 else 0
  {
    var q, r := (y - 1) / n, (y - 1) % n;
    assert y == n * q + r + 1;
    if r + 1 == n {
      Quotient(y, n, q + 1, 0);
    } else {
      Quotient(y, n, q, r + 1);
    }
  }

  lemma Quotient(y: int, n: int, q: int, r: int)
    requires n > 0 && y == n * q + r && 0 <= r < n
    ensures y / n == q && y % n == r
  {
    var k := y / n - q;
    assert n * k == r - y % n;
    Multiple(n, k);
  }

  lemma Multiple(n: int, k: int)
    requires n > 0
    ensures k > 0 ==> n * k >= n
    ensures k < 0 ==> n * k <= -n
  {
  }

  /** Consecutive dates are one day apart, in any year. */
  lemma ConsecutiveDays(y: int, m: int, d: int)
    requires ValidDate(y, m, d)
    ensures var (y', m', d') := NextDay(y, m, d);
      ValidDate(y', m', d') && DaysFromCivil(y', m', d') == DaysFromCivil(y, m, d) + 1
  {
    hide DaysFromCivil, MarchDays, Leap;
    var (y', m', d') := NextDay(y, m, d);
    FormulaIsMarchDays(y, m, d);
    FormulaIsMarchDays(y', m', d');
    MarchYear(y);
  }

  lemma {:induction false} FirstOfJanuary(y: nat)
    ensures DaysFromCivil(y, 1, 1) == DaysBeforeYear(y) - 719528
  {
    hide DaysFromCivil, MarchDays, YearLength;
    FormulaIsMarchDays(y, 1, 1);
    if y == 0 {
      MarchBeforeZero();
    } else {
      FirstOfJanuary(y - 1);
      FormulaIsMarchDays(y - 1, 1, 1);
      MarchYear(y - 1);
    }
  }

  lemma MarchBeforeZero()
    ensures MarchDays(-1) == -366
  {
  }

  lemma {:induction false} FirstOfMonth(y: nat, m: int)
    requires 1 <= m <= 12
    ensures DaysFromCivil(y, m, 1) == DaysFromCivil(y, 1, 1) + DaysBeforeMonth(y, m)
    decreases m
  {
    hide DaysFromCivil, MarchDays, Leap;
    if m > 1 {
      FirstOfMonth(y, m - 1);
      FormulaIsMarchDays(y, m, 1);
      FormulaIsMarchDays(y, m - 1, 1);
      MarchYear(y);
    }
  }

  lemma DayOfMonth(y: int, m: int, d: int)
    ensures DaysFromCivil(y, m, d) == DaysFromCivil(y, m, 1) + d - 1
  {
  }

  /** The formula is the naive count since the first of January 1970. */
  lemma FormulaIsNaiveCount(y: nat, m: int, d: int)
    requires ValidDate(y, m, d)
    ensures DaysFromCivil(y, m, d) == NaiveDays(y, m, d) - NaiveDays(1970, 1, 1)
  {
    Epoch();
    hide DaysFromCivil, DaysBeforeYear, DaysInMonth;
    FirstOfJanuary(y);
    FirstOfMonth(y, m);
    DayOfMonth(y, m, d);
    FirstOfJanuary(1970);
    hide DaysBeforeMonth;
    JanuaryStarts();
  }

  lemma Epoch()
    ensures DaysFromCivil(1970, 1, 1) == 0 && ValidDate(1970, 1, 1)
  {
  }

  lemma JanuaryStarts()
    ensures DaysBeforeMonth(1970, 1) == 0
  {
  }

  predicate DateBefore(y: int, m: int, d: int, y': int, m': int, d': int) {
    y < y' || (y == y' && (m < m' || (m == m' && d < d')))
  }

  lemma {:induction false} MonthsAdd(y: int, m: int, m': int)
    requires 1 <= m < m' <= 12
    ensures DaysBeforeMonth(y, m) + DaysInMonth(y, m) <= DaysBeforeMonth(y, m')
    decreases m'
  {
    hide DaysInMonth;
    if m + 1 < m' {
      MonthsAdd(y, m, m' - 1);
      MonthPositive(y, m' - 1);
    }
  }

  lemma MonthPositive(y: int, m: int)
    ensures DaysInMonth(y, m) >= 28
  {
  }

  lemma {:induction false} YearsAdd(y: nat, y': nat)
    requires y < y'
    ensures DaysBeforeYear(y) + YearLength(y) <= DaysBeforeYear(y')
    decreases y'
  {
    if y + 1 < y' {
      YearsAdd(y, y' - 1);
    }
  }

  lemma WholeYear(y: int)
    ensures DaysBeforeMonth(y, 12) + DaysInMonth(y, 12) == YearLength(y)
  {
    assert DaysBeforeMonth(y, 4) == DaysBeforeMonth(y, 3) + 31 == DaysBeforeMonth(y, 2) + DaysInMonth(y, 2) + 31;
    assert DaysBeforeMonth(y, 8) == DaysBeforeMonth(y, 4) + 30 + 31 + 30 + 31 by {
      assert DaysBeforeMonth(y, 6) == DaysBeforeMonth(y, 4) + 30 + 31;
    }
    assert DaysBeforeMonth(y, 12) == DaysBeforeMonth(y, 8) + 31 + 30 + 31 + 30 by {
      assert DaysBeforeMonth(y, 10) == DaysBeforeMonth(y, 8) + 31 + 30;
    }
  }

  lemma WithinYear(y: int, m: int, d: int)
    requires ValidDate(y, m, d)
    ensures 0 <= DaysBeforeMonth(y, m) && DaysBeforeMonth(y, m) + d <= YearLength(y)
    decreases 12 - m
  {
    hide DaysInMonth, YearLength;
    WholeYear(y);
    if m > 1 { MonthsAdd(y, 1, m); MonthPositive(y, 1); }
    if m < 12 { MonthsAdd(y, m, 12); MonthPositive(y, 12); }
  }

  /** Later dates have larger day numbers. */
  lemma DaysMonotone(y: nat, m: int, d: int, y': nat, m': int, d': int)
    requires ValidDate(y, m, d) && ValidDate(y', m', d') && DateBefore(y, m, d, y', m', d')
    ensures DaysFromCivil(y, m, d) < DaysFromCivil(y', m', d')
  {
    FormulaIsNaiveCount(y, m, d);
    FormulaIsNaiveCount(y', m', d');
    WithinYear(y, m, d);
    WithinYear(y', m', d');
    hide DaysFromCivil, DaysBeforeYear, DaysBeforeMonth, YearLength;
    if y < y' {
      YearsAdd(y, y');
    } else if m < m' {
      MonthsAdd(y, m, m');
    }
  }

  // ----- the formula in 32-bit words -----

  const U32: int := 0x1_0000_0000

  function MonthDays(m: nat): nat {
    (153 * (if m > 2 then m - 3 else m + 9) + 2) / 5
  }

  /** Adding the day and then taking one away goes below zero. */
  predicate Underflows(m: nat, d: nat) {
    MonthDays(m) + d < 1
  }

  function AsI32(word: nat): int {
    if word < 0x8000_0000 then word else word - U32
  }

  /** The formula as a build without overflow checks computes it: unsigned words wrap. */
  function WrappedDays(y0: nat, m: nat, d: nat): int {
    var y := if m <= 2 then y0 - 1 else y0;
    var era := if y >= 0 then TruncDiv(y, 400) else TruncDiv(y - 399, 400);
    var yoe := y - era * 400;
    var doy := (MonthDays(m) + d - 1) % U32;
    var doe := (yoe * 365 + yoe / 4 - yoe / 100 + doy) % U32;
    era * 146097 + AsI32(doe) - 719468
  }

  /** Of all months and days, only day 0 of month 3 underflows. */
  lemma UnderflowExactly(m: nat, d: nat)
    ensures Underflows(m, d) <==> m == 3 && d == 0
  {
  }

  /** Where the words wrap they come out right again. */
  lemma WrappedIsDays(y: nat, m: nat, d: nat)
    requires y <= 9999 && m <= 99 && d <= 99
    ensures WrappedDays(y, m, d) == DaysFromCivil(y, m, d)
  {
    var y1 := if m <= 2 then y - 1 else y;
    EraIsFloor(y1);
    var yoe, n := y1 - y1 / 400 * 400, MonthDays(m) + d - 1;
    assert 0 <= yoe < 400 && -1 <= n < 4000;
    var x := yoe * 365 + yoe / 4 - yoe / 100;
    assert 0 <= x < 200000;
    hide MonthDays, TruncDiv, AsI32;
    WordIsSum(x, n);
  }

  lemma WordIsSum(x: int, n: int)
    requires 0 <= x < 200000 && -1 <= n < 4000
    ensures 0 <= (x + n % U32) % U32 && AsI32((x + n % U32) % U32) == x + n
  {
    if n < 0 {
      assert n % U32 == U32 - 1;
      if x == 0 {
        assert AsI32(U32 - 1) == -1;
      } else {
        assert (x + (U32 - 1)) % U32 == x - 1;
      }
    } else {
      assert n % U32 == n;
    }
  }

  // ----- timestamps -----

  predicate IsDigit(b: Byte) {
    '0' as int <= b <= '9' as int
  }

  /** The number a run of digits spells, read from the left. */
  function Number(s: seq<Byte>): Option<nat> {
    if s == [] then Some(0)
    else
      match Number(s[..|s| - 1])
      case None => None
      case Some(v) => if IsDigit(s[|s| - 1]) then Some(v * 10 + (s[|s| - 1] as int - '0' as int)) else None
  }

  method ToInt(s: seq<Byte>) returns (r: Option<nat>)
    ensures r == Number(s)
  {
    var v: nat := 0;
    for i := 0 to |s|
      invariant Number(s[..i]) == Some(v)
    {
      assert s[..i + 1][..i] == s[..i];
      if !IsDigit(s[i]) {
        NotANumber(s, i);
        return None;
      }
      v := v * 10 + (s[i] as int - '0' as int);
    }
    assert s[..|s|] == s;
    r := Some(v);
  }

  lemma {:induction false} NotANumber(s: seq<Byte>, i: nat)
    requires i < |s| && !IsDigit(s[i])
    ensures Number(s).None?
    decreases |s|
  {
    if i < |s| - 1 {
      NotANumber(s[..|s| - 1], i);
    }
  }

  lemma TwoDigits(s: seq<Byte>)
    requires |s| == 2
    ensures Number(s).Some? <==> IsDigit(s[0]) && IsDigit(s[1])
    ensures Number(s).Some? ==> Number(s).value == 10 * (s[0] as int - '0' as int) + (s[1] as int - '0' as int) <= 99
  {
    var t := s[..1];
    assert t[0] == s[0] && t[..0] == [];
    assert Number([]) == Some(0);
  }

  lemma FourDigits(s: seq<Byte>)
    requires |s| == 4
    ensures Number(s).Some? <==> Number(s[..2]).Some? && IsDigit(s[2]) && IsDigit(s[3])
    ensures Number(s).Some? ==>
      Number(s).value == 100 * Number(s[..2]).value + 10 * (s[2] as int - '0' as int) + (s[3] as int - '0' as int)
          <= 9999
  {
    var t := s[..3];
    assert t[..2] == s[..2] && t[2] == s[2];
    TwoDigits(s[..2]);
  }

  datatype Stamp = Stamp(year: nat, month: nat, day: nat, hour: nat, minute: nat, second: nat)

  function Seconds(t: Stamp): int {
    DaysFromCivil(t.year, t.month, t.day) * 86400 + t.hour * 3600 + t.minute * 60 + t.second
  }

  predicate Separated(s: seq<Byte>)
    requires |s| >= 20
  {
    && s[4] == '-' as int && s[7] == '-' as int && s[10] == 'T' as int && s[13] == ':' as int && s[16] == ':' as int
  }

  function Fields(s: seq<Byte>): Option<Stamp> {
    if |s| < 20 || !Separated(s) then None
    else
      match (Number(s[0..4]), Number(s[5..7]), Number(s[8..10]), Number(s[11..13]), Number(s[14..16]),
          Number(s[17..19]))
      case (Some(y), Some(mo), Some(d), Some(h), Some(mi), Some(sec)) => Some(Stamp(y, mo, d, h, mi, sec))
      case _ => None
  }

  /** A build with overflow checks may stop; any other wraps. */
  datatype Parsed = NoTimestamp | At(seconds: int) | Stopped

  function ParsedAs(t: Stamp, checked: bool): Parsed {
    if checked && t.month == 3 && t.day == 0 then Stopped else At(Seconds(t))
  }

  /** The epoch seconds of a timestamp. Only its shape is checked, not its calendar. */
  method ParseMwTimestamp(text: string, checked: bool) returns (r: Parsed)
    ensures r == match Fields(Utf8.Encode(text)) case None => NoTimestamp case Some(t) => ParsedAs(t, checked)
  {
    hide Number, DaysFromCivil, WrappedDays, MonthDays;
    var s := Utf8.Encode(text);
    if |s| < 20 || !Separated(s) {
      return NoTimestamp;
    }
    var year := ToInt(s[0..4]);
    if year.None? { return NoTimestamp; }
    var month := ToInt(s[5..7]);
    if month.None? { return NoTimestamp; }
    var day := ToInt(s[8..10]);
    if day.None? { return NoTimestamp; }
    var hour := ToInt(s[11..13]);
    if hour.None? { return NoTimestamp; }
    var minute := ToInt(s[14..16]);
    if minute.None? { return NoTimestamp; }
    var second := ToInt(s[17..19]);
    if second.None? { return NoTimestamp; }
    FourDigits(s[0..4]);
    TwoDigits(s[5..7]);
    TwoDigits(s[8..10]);
    UnderflowExactly(month.value, day.value);
    WrappedIsDays(year.value, month.value, day.value);
    if checked && Underflows(month.value, day.value) {
      return Stopped;
    }
    r := At(WrappedDays(year.value, month.value, day.value) * 86400 + hour.value * 3600 + minute.value * 60
        + second.value);
  }

  lemma {:induction false} AsciiBytes(text: string)
    requires forall i :: 0 <= i < |text| ==> text[i] as int < 0x80
    ensures |Utf8.Encode(text)| == |text|
    ensures forall i :: 0 <= i < |text| ==> Utf8.Encode(text)[i] == text[i] as int
  {
    if text != "" {
      AsciiBytes(text[1..]);
      var bs := Utf8.Encode(text);
      assert bs == [text[0] as int] + Utf8.Encode(text[1..]);
      forall i | 0 < i < |text| ensures bs[i] == text[i] as int { assert bs[i] == Utf8.Encode(text[1..])[i - 1]; }
    }
  }

  const MARCH_ZERO: string := "2024-" + "03-00" + "T00:0" + "0:00Z"

  /** The digits of that text, and its separators. */
  ghost predicate MarchZero(s: seq<Byte>) {
    && |s| == 20 && Separated(s)
    && s[0] == s[2] == '2' as int && s[1] == '0' as int && s[3] == '4' as int
    && s[5] == '0' as int && s[6] == '3' as int && s[8] == s[9] == '0' as int
    && s[11] == s[12] == s[14] == s[15] == s[17] == s[18] == '0' as int
  }

  lemma MarchZeroFields(s: seq<Byte>)
    requires MarchZero(s)
    ensures Fields(s) == Some(Stamp(2024, 3, 0, 0, 0, 0))
  {
    hide Number;
    assert s[0..4][..2] == s[0..2];
    FourDigits(s[0..4]);
    TwoDigits(s[0..2]);
    TwoDigits(s[5..7]);
    TwoDigits(s[8..10]);
    TwoDigits(s[11..13]);
    TwoDigits(s[14..16]);
    TwoDigits(s[17..19]);
  }

  lemma MarchZeroText()
    ensures |MARCH_ZERO| == 20 && (forall i :: 0 <= i < 20 ==> MARCH_ZERO[i] as int < 0x80)
    ensures MARCH_ZERO[4] == MARCH_ZERO[7] == '-' && MARCH_ZERO[10] == 'T' && MARCH_ZERO[13] == MARCH_ZERO[16] == ':'
    ensures MARCH_ZERO[0] == MARCH_ZERO[2] == '2' && MARCH_ZERO[1] == '0' && MARCH_ZERO[3] == '4'
    ensures MARCH_ZERO[5] == '0' && MARCH_ZERO[6] == '3' && MARCH_ZERO[8] == MARCH_ZERO[9] == '0'
    ensures MARCH_ZERO[11] == MARCH_ZERO[12] == MARCH_ZERO[14] == MARCH_ZERO[15] == MARCH_ZERO[17] == MARCH_ZERO[18]
        == '0'
  {
    var a, b, c, d := "2024-", "03-00", "T00:0", "0:00Z";
    assert MARCH_ZERO == (a + b) + (c + d);
    assert
      forall i :: 0 <= i < 5
        ==> (a + b)[i] == a[i] && (a + b)[5 + i] == b[i] && (c + d)[i] == c[i] && (c + d)[5 + i] == d[i];
    assert forall i :: 0 <= i < 10 ==> MARCH_ZERO[i] == (a + b)[i] && MARCH_ZERO[10 + i] == (c + d)[i];
  }

  /** A timestamp on which a build with overflow checks stops. */
  lemma MarchZeroStops()
    ensures Fields(Utf8.Encode(MARCH_ZERO)) == Some(Stamp(2024, 3, 0, 0, 0, 0))
    ensures ParsedAs(Stamp(2024, 3, 0, 0, 0, 0), true) == Stopped
  {
    MarchZeroText();
    hide Utf8.Encode, Fields;
    AsciiBytes(MARCH_ZERO);
    MarchZeroFields(Utf8.Encode(MARCH_ZERO));
  }

  predicate ValidStamp(t: Stamp) {
    ValidDate(t.year, t.month, t.day) && t.hour < 24 && t.minute < 60 && t.second < 60
  }

  predicate StampBefore(t: Stamp, u: Stamp) {
    DateBefore(t.year, t.month, t.day, u.year, u.month, u.day)
    || (t.year == u.year && t.month == u.month && t.day == u.day
        && (t.hour < u.hour || (t.hour == u.hour
            && (t.minute < u.minute || (t.minute == u.minute && t.second < u.second)))))
  }

  /** On valid timestamps, parsing keeps the order of time, and only equal ones coincide. */
  lemma TimestampOrder(t: Stamp, u: Stamp)
    requires ValidStamp(t) && ValidStamp(u)
    ensures Seconds(t) < Seconds(u) <==> StampBefore(t, u)
    ensures Seconds(t) == Seconds(u) <==> t == u
  {
    hide DaysFromCivil, DaysInMonth;
    if StampBefore(t, u) {
      EarlierSeconds(t, u);
    } else if StampBefore(u, t) {
      EarlierSeconds(u, t);
    }
  }

  function TwoOf(n: nat): seq<Byte>
    requires n <= 99
  {
    ['0' as int + n / 10, '0' as int + n % 10]
  }

  /** The text `YYYY-MM-DDThh:mm:ssZ`. */
  function StampBytes(t: Stamp): seq<Byte>
    requires t.year <= 9999 && t.month <= 99 && t.day <= 99 && t.hour <= 99 && t.minute <= 99 && t.second <= 99
  {
    TwoOf(t.year / 100) + TwoOf(t.year % 100) + ['-' as int] + TwoOf(t.month) + ['-' as int] + TwoOf(t.day)
    + ['T' as int] + TwoOf(t.hour) + [':' as int] + TwoOf(t.minute) + [':' as int] + TwoOf(t.second) + ['Z' as int]
  }

  lemma TwoReads(n: nat)
    requires n <= 99
    ensures |TwoOf(n)| == 2 && Number(TwoOf(n)) == Some(n)
  {
    TwoDigits(TwoOf(n));
  }

  lemma FourReads(n: nat, s: seq<Byte>)
    requires n <= 9999 && s == TwoOf(n / 100) + TwoOf(n % 100)
    ensures Number(s) == Some(n)
  {
    FourDigits(s);
    TwoReads(n / 100);
    hide Number;
    assert s[..2] == TwoOf(n / 100);
  }

  /** A timestamp as MediaWiki writes it has the fields it was written from. */
  lemma FieldsRoundTrip(t: Stamp)
    requires t.year <= 9999 && t.month <= 99 && t.day <= 99 && t.hour <= 99 && t.minute <= 99 && t.second <= 99
    ensures Fields(StampBytes(t)) == Some(t)
  {
    var s := StampBytes(t);
    assert s[0..4] == TwoOf(t.year / 100) + TwoOf(t.year % 100);
    assert s[5..7] == TwoOf(t.month) && s[8..10] == TwoOf(t.day);
    assert s[11..13] == TwoOf(t.hour) && s[14..16] == TwoOf(t.minute) && s[17..19] == TwoOf(t.second);
    hide TwoOf, Number;
    FourReads(t.year, s[0..4]);
    TwoReads(t.month);
    TwoReads(t.day);
    TwoReads(t.hour);
    TwoReads(t.minute);
    TwoReads(t.second);
  }

  function NextSecond(t: Stamp): Stamp
    requires ValidStamp(t)
  {
    if t.second < 59 then t.(second := t.second + 1)
    else if t.minute < 59 then t.(minute := t.minute + 1, second := 0)
    else if t.hour < 23 then t.(hour := t.hour + 1, minute := 0, second := 0)
    else
      var (y, m, d) := NextDay(t.year, t.month, t.day);
      Stamp(y, m, d, 0, 0, 0)
  }

  /** The parsed number counts seconds: it grows by one from each second to the next, midnight,
      the end of a month and leap days included, and is 0 where 1970 starts. */
  lemma CountsSeconds(t: Stamp)
    requires ValidStamp(t)
    ensures ValidStamp(NextSecond(t)) && Seconds(NextSecond(t)) == Seconds(t) + 1
    ensures Seconds(Stamp(1970, 1, 1, 0, 0, 0)) == 0
  {
    Epoch();
    hide DaysFromCivil, Leap;
    ConsecutiveDays(t.year, t.month, t.day);
  }

  lemma EarlierSeconds(t: Stamp, u: Stamp)
    requires ValidStamp(t) && ValidStamp(u) && StampBefore(t, u)
    ensures Seconds(t) < Seconds(u)
  {
    hide DaysFromCivil, DaysInMonth;
    if DateBefore(t.year, t.month, t.day, u.year, u.month, u.day) {
      DaysMonotone(t.year, t.month, t.day, u.year, u.month, u.day);
    }
  }
}
