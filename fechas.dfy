/** Calendar dates as year/month/day triples (proleptic Gregorian calendar),
    with the date-fns operations the visit views use: `addDays`/`subDays`,
    `getDay`, `startOfWeek(…, { weekStartsOn: 1 })`, and the two ways the
    views turn a date into text and back.

    Arithmetic on dates goes through `DayNumber`, the number of days since
    0000-01-01; `DayNumberInyectivo` shows that a valid date is determined
    by it, so "same day" is equality of triples. */
module Fechas {
  import opened Tipos
  import opened Texto

  /** `month` is 1-based (JavaScript's `getMonth() + 1`). */
  datatype Date = Date(year: int, month: int, day: int)

  predicate IsLeap(y: int)
  {
    y % 4 == 0 && (y % 100 != 0 || y % 400 == 0)
  }

  function DaysInMonth(y: int, m: int): (n: int)
    requires 1 <= m <= 12
    ensures 28 <= n <= 31
    ensures m == 2 ==> (n == 29 <==> IsLeap(y))
  {
    if m == 2 then (if IsLeap(y) then 29 else 28)
    else if m == 4 || m == 6 || m == 9 || m == 11 then 30
    else 31
  }

  predicate Valid(d: Date)
  {
    1 <= d.month <= 12 && 1 <= d.day <= DaysInMonth(d.year, d.month)
  }

  function DaysInYear(y: int): int
  {
    if IsLeap(y) then 366 else 365
  }

  /** Days of year `y` before the first of month `m` (`m == 13`: the whole year). */
  function DaysBeforeMonth(y: int, m: int): (n: int)
    requires 1 <= m <= 13
    ensures m == 13 ==> n == DaysInYear(y)
  {
    var l := if IsLeap(y) then 1 else 0;
    match m
    case 1 => 0
    case 2 => 31
    case 3 => 59 + l
    case 4 => 90 + l
    case 5 => 120 + l
    case 6 => 151 + l
    case 7 => 181 + l
    case 8 => 212 + l
    case 9 => 243 + l
    case 10 => 273 + l
    case 11 => 304 + l
    case 12 => 334 + l
    case _ => 365 + l
  }

  /** Days from 0000-01-01 to the first of January of year `y` (negative
      before year 0): 365 a year plus one for every leap year in between. */
  function DaysBeforeYear(y: int): int
  {
    365 * y + (y + 3) / 4 - (y + 99) / 100 + (y + 399) / 400
  }

  function DayNumber(d: Date): int
    requires 1 <= d.month <= 12
  {
    DaysBeforeYear(d.year) + DaysBeforeMonth(d.year, d.month) + d.day - 1
  }

  /** Each month starts where the previous one ends. */
  lemma DaysBeforeMonthStep(y: int, m: int)
    requires 1 <= m <= 12
    ensures DaysBeforeMonth(y, m) + DaysInMonth(y, m) == DaysBeforeMonth(y, m + 1)
  {
  }

  lemma {:induction false} DaysBeforeMonthMonotono(y: int, m1: int, m2: int)
    requires 1 <= m1 < m2 <= 13
    ensures DaysBeforeMonth(y, m1) + DaysInMonth(y, m1) <= DaysBeforeMonth(y, m2)
    decreases m2 - m1
  {
    DaysBeforeMonthStep(y, m1);
    if m1 + 1 < m2 {
      DaysBeforeMonthMonotono(y, m1 + 1, m2);
    }
  }

  /** Each of the three floor divisions of `DaysBeforeYear` steps up by one
      from year `n` to year `n + 1` exactly when its divisor divides `n`. */
  lemma PasoDivision(n: int)
    ensures (n + 4) / 4 == (n + 3) / 4 + (if n % 4 == 0 then 1 else 0)
    ensures (n + 100) / 100 == (n + 99) / 100 + (if n % 100 == 0 then 1 else 0)
    ensures (n + 400) / 400 == (n + 399) / 400 + (if n % 400 == 0 then 1 else 0)
  {
    PasoDivision4(n);
    PasoDivision100(n);
    PasoDivision400(n);
  }

  lemma PasoDivision4(n: int)
    ensures (n + 4) / 4 == (n + 3) / 4 + (if n % 4 == 0 then 1 else 0)
  {
    var q, r := n / 4, n % 4;
    assert n == 4 * q + r;
    assert (n + 4) / 4 == q + 1;
    assert (n + 3) / 4 == if r == 0 then q else q + 1;
  }

  lemma PasoDivision100(n: int)
    ensures (n + 100) / 100 == (n + 99) / 100 + (if n % 100 == 0 then 1 else 0)
  {
    var q, r := n / 100, n % 100;
    assert n == 100 * q + r;
    assert (n + 100) / 100 == q + 1;
    assert (n + 99) / 100 == if r == 0 then q else q + 1;
  }

  lemma PasoDivision400(n: int)
    ensures (n + 400) / 400 == (n + 399) / 400 + (if n % 400 == 0 then 1 else 0)
  {
    var q, r := n / 400, n % 400;
    assert n == 400 * q + r;
    assert (n + 400) / 400 == q + 1;
    assert (n + 399) / 400 == if r == 0 then q else q + 1;
  }

  /** Multiples of 400 are multiples of 100, and multiples of 100 of 4. */
  lemma Divisores(y: int)
    ensures y % 400 == 0 ==> y % 100 == 0
    ensures y % 100 == 0 ==> y % 4 == 0
  {
    Divisores400(y);
    Divisores100(y);
  }

  lemma Divisores400(y: int)
    ensures y % 400 == 0 ==> y % 100 == 0
  {
    var q, d, m := y / 400, y / 100, y % 100;
    assert y == 400 * q + y % 400;
    assert y == 100 * d + m && 0 <= m < 100;
    if y % 400 == 0 {
      assert m == 100 * (4 * q - d);
    }
  }

  lemma Divisores100(y: int)
    ensures y % 100 == 0 ==> y % 4 == 0
  {
    var q, d, m := y / 100, y / 4, y % 4;
    assert y == 100 * q + y % 100;
    assert y == 4 * d + m && 0 <= m < 4;
    if y % 100 == 0 {
      assert m == 4 * (25 * q - d);
    }
  }

  /** Consecutive years start `DaysInYear` apart: the three floor divisions
      step up at multiples of 4, 100 and 400, which is the leap-year rule. */
  lemma DaysBeforeYearStep(y: int)
    ensures DaysBeforeYear(y + 1) == DaysBeforeYear(y) + DaysInYear(y)
  {
    PasoDivision(y);
    Divisores(y);
  }

  lemma {:induction false} DaysBeforeYearMonotono(y1: int, y2: int)
    requires y1 <= y2
    ensures DaysBeforeYear(y1) <= DaysBeforeYear(y2)
    decreases y2 - y1
  {
    if y1 < y2 {
      DaysBeforeYearStep(y2 - 1);
      DaysBeforeYearMonotono(y1, y2 - 1);
    }
  }

  /** Day number `n` falls in year `y`. */
  predicate EnAnio(y: int, n: int)
  {
    DaysBeforeYear(y) <= n < DaysBeforeYear(y + 1)
  }

  /** A valid date's day number lies within its year. */
  lemma DayNumberEnAnio(d: Date)
    requires Valid(d)
    ensures EnAnio(d.year, DayNumber(d))
  {
    DaysBeforeYearStep(d.year);
    DaysBeforeMonthMonotono(d.year, d.month, 13);
  }

  /** Two valid dates with the same day number are the same date. */
  lemma DayNumberInyectivo(a: Date, b: Date)
    requires Valid(a) && Valid(b) && DayNumber(a) == DayNumber(b)
    ensures a == b
  {
    DayNumberEnAnio(a);
    DayNumberEnAnio(b);
    AnioUnico(a.year, b.year, DayNumber(a));
    MismoMes(a, b);
  }

  /** A day number lies within one year only. */
  lemma AnioUnico(y1: int, y2: int, n: int)
    requires EnAnio(y1, n) && EnAnio(y2, n)
    ensures y1 == y2
  {
    if y1 < y2 {
      DaysBeforeYearMonotono(y1 + 1, y2);
    } else if y2 < y1 {
      DaysBeforeYearMonotono(y2 + 1, y1);
    }
  }

  lemma MismoMes(a: Date, b: Date)
    requires Valid(a) && Valid(b) && a.year == b.year
    requires DaysBeforeMonth(a.year, a.month) + a.day == DaysBeforeMonth(b.year, b.month) + b.day
    ensures a.month == b.month
  {
    if a.month < b.month {
      DaysBeforeMonthMonotono(a.year, a.month, b.month);
    } else if b.month < a.month {
      DaysBeforeMonthMonotono(a.year, b.month, a.month);
    }
  }

  /** The calendar day after `d`. */
  function NextDay(d: Date): (n: Date)
    requires Valid(d)
    ensures Valid(n) && DayNumber(n) == DayNumber(d) + 1
  {
    if d.day < DaysInMonth(d.year, d.month) then Date(d.year, d.month, d.day + 1)
    else if d.month < 12 then
      DaysBeforeMonthStep(d.year, d.month);
      Date(d.year, d.month + 1, 1)
    else
      DaysBeforeYearStep(d.year);
      Date(d.year + 1, 1, 1)
  }

  /** The calendar day before `d`. */
  function PrevDay(d: Date): (p: Date)
    requires Valid(d)
    ensures Valid(p) && DayNumber(p) == DayNumber(d) - 1
  {
    if d.day > 1 then Date(d.year, d.month, d.day - 1)
    else if d.month > 1 then
      DaysBeforeMonthStep(d.year, d.month - 1);
      Date(d.year, d.month - 1, DaysInMonth(d.year, d.month - 1))
    else
      DaysBeforeYearStep(d.year - 1);
      Date(d.year - 1, 12, 31)
  }

  /** date-fns `addDays(d, n)`; `subDays(d, n)` is `AddDays(d, -n)`. */
  function AddDays(d: Date, n: int): (r: Date)
    requires Valid(d)
    ensures Valid(r) && DayNumber(r) == DayNumber(d) + n
    decreases if n >= 0 then n else -n
  {
    if n == 0 then d
    else if n > 0 then AddDays(NextDay(d), n - 1)
    else AddDays(PrevDay(d), n + 1)
  }

  /** `Date.prototype.getDay`: 0 is Sunday, 1 Monday, …, 6 Saturday.
      0000-01-01 of the proleptic Gregorian calendar was a Saturday. */
  function Weekday(d: Date): (w: int)
    requires 1 <= d.month <= 12
    ensures 0 <= w < 7
  {
    (DayNumber(d) + 6) % 7
  }

  /** Known weekdays: 1970-01-01 was a Thursday and 2024-06-24 a Monday. */
  lemma WeekdayCalibrado()
    ensures Weekday(Date(1970, 1, 1)) == 4
    ensures Weekday(Date(2024, 6, 24)) == 1
  {
  }

  /** date-fns `startOfWeek(d, { weekStartsOn: 1 })`: the Monday on or
      before `d`. */
  function StartOfWeek(d: Date): (s: Date)
    requires Valid(d)
    ensures Valid(s) && Weekday(s) == 1
    ensures DayNumber(d) - 6 <= DayNumber(s) <= DayNumber(d)
  {
    var day := Weekday(d);
    var diff := (if day < 1 then 7 else 0) + day - 1;
    LunesAnterior(DayNumber(d) + 6);
    AddDays(d, -diff)
  }

  /** Going back `diff` days from weekday `t % 7` lands on a Monday. */
  lemma LunesAnterior(t: int)
    ensures var w := t % 7;
            (t - ((if w < 1 then 7 else 0) + w - 1)) % 7 == 1
  {
    var w := t % 7;
    var q := t / 7;
    assert t == 7 * q + w;
    if w < 1 {
      assert t - 6 == 7 * (q - 1) + 1;
    } else {
      assert t - (w - 1) == 7 * q + 1;
    }
  }

  /** The seven days of the week (Monday first) that contains `ref`:
      `Array.from({ length: 7 }, (_, i) => addDays(inicioSemana, i))`. */
  function DiasSemana(ref: Date): (dias: seq<Date>)
    requires Valid(ref)
    ensures |dias| == 7
    ensures Valid(dias[0])
    ensures forall i :: 0 <= i < 7 ==> Valid(dias[i]) && DayNumber(dias[i]) == DayNumber(dias[0]) + i
    ensures Weekday(dias[0]) == 1
    ensures DayNumber(dias[0]) <= DayNumber(ref) <= DayNumber(dias[0]) + 6
    ensures ref in dias
  {
    var inicio := StartOfWeek(ref);
    var dias := seq(7, i requires 0 <= i < 7 => AddDays(inicio, i));
    var k := DayNumber(ref) - DayNumber(inicio);
    DayNumberInyectivo(dias[k], ref);
    dias
  }

  /** The seven days of a week are seven different dates. */
  lemma DiasSemanaDistintos(ref: Date, i: int, j: int)
    requires Valid(ref) && 0 <= i < 7 && 0 <= j < 7 && i != j
    ensures DiasSemana(ref)[i] != DiasSemana(ref)[j]
  {
  }

  // ---- text forms ----

  predicate AllDigits(s: string)
  {
    forall i :: 0 <= i < |s| ==> IsDigit(s[i])
  }

  /** `String(n).padStart(2, '0')`. */
  function Pad2(n: nat): (s: string)
    ensures AllDigits(s)
    ensures n < 100 ==> |s| == 2 && ParseNat(s) == n
  {
    LongitudNatToString(n);
    ParseNatToString(n);
    if n < 10 then
      var s := "0" + NatToString(n);
      assert s[..1] == "0" && s[1] == DigitChar(n);
      s
    else NatToString(n)
  }

  /** `String(y)` for an integer year. */
  function YearString(y: int): string
  {
    if y >= 0 then NatToString(y) else "-" + NatToString(-y)
  }

  /** The local-midnight reading `new Date(s + 'T00:00:00')` of a date string,
      as a calendar date: exactly `YYYY-MM-DD` naming a real date, and
      `None` (an Invalid Date, which is the same day as no date) otherwise. */
  function Parse(s: string): (r: Option<Date>)
    ensures r.Some? ==> Valid(r.value) && 0 <= r.value.year <= 9999
    ensures r.Some? ==> |s| == 10 && s[4] == '-' && s[7] == '-'
    ensures r.Some? ==> AllDigits(s[..4]) && AllDigits(s[5..7]) && AllDigits(s[8..])
  {
    if |s| == 10 && s[4] == '-' && s[7] == '-'
       && AllDigits(s[..4]) && AllDigits(s[5..7]) && AllDigits(s[8..]) then
      var d := Date(ParseNat(s[..4]), ParseNat(s[5..7]), ParseNat(s[8..]));
      ParseNatCotaCuatro(s[..4]);
      if Valid(d) then Some(d) else None
    else None
  }

  lemma ParseNatCotaCuatro(s: string)
    requires AllDigits(s) && |s| == 4
    ensures ParseNat(s) <= 9999
  {
    var s3, s2, s1 := s[..3], s[..2], s[..1];
    assert s3[..2] == s2 && s2[..1] == s1 && s1[..0] == [];
    assert ParseNat(s1) <= 9;
    assert ParseNat(s2) <= 99;
    assert ParseNat(s3) <= 999;
  }

  /** A date read from text is the date its digits name: for four-digit
      years the text is exactly what `yyyy-MM-dd` formatting writes for it. */
  lemma ParseLeeLoEscrito(s: string)
    requires Parse(s).Some? && Parse(s).value.year >= 1000
    ensures var d := Parse(s).value;
            s == YearString(d.year) + "-" + Pad2(d.month) + "-" + Pad2(d.day)
  {
    var d := Parse(s).value;
    var y, m, dd := s[..4], s[5..7], s[8..];
    assert d == Date(ParseNat(y), ParseNat(m), ParseNat(dd));
    AnioParseNat(y);
    Pad2ParseNat(m);
    Pad2ParseNat(dd);
    assert s == y + "-" + m + "-" + dd;
  }

  /** Four digits reading as a year from 1000 on are that year's `String`. */
  lemma AnioParseNat(t: string)
    requires |t| == 4 && AllDigits(t) && ParseNat(t) >= 1000
    ensures YearString(ParseNat(t)) == t
  {
    var s3, s2, s1 := t[..3], t[..2], t[..1];
    assert s3[..2] == s2 && s2[..1] == s1 && s1[..0] == [];
    var a := DigitValue(t[0]);
    assert ParseNat(s1) == a;
    assert ParseNat(s2) <= 10 * a + 9;
    assert ParseNat(s3) <= 100 * a + 99;
    assert ParseNat(t) <= 1000 * a + 999;
    assert a >= 1;
    NatToStringParseNat(t);
  }

  /** Two digits are the `padStart(2, '0')` text of the number they read as. */
  lemma Pad2ParseNat(t: string)
    requires |t| == 2 && AllDigits(t)
    ensures ParseNat(t) < 100 && Pad2(ParseNat(t)) == t
  {
    var s1 := t[..1];
    assert s1[..0] == [];
    var a, u := DigitValue(t[0]), DigitValue(t[1]);
    assert ParseNat(s1) == a;
    assert ParseNat(t) == 10 * a + u;
    if t[0] == '0' {
      assert ParseNat(t) == u;
      assert t == "0" + [DigitChar(u)];
    } else {
      NatToStringParseNat(t);
    }
  }
}
