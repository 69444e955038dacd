/**
 * The proleptic Gregorian calendar as Python's `datetime.date` and
 * `calendar.monthcalendar` use it: ordinals count days from 0001-01-01
 * (ordinal 1), weekdays run Monday = 0 .. Sunday = 6, and a month
 * calendar is a list of Monday-first weeks padded with zeros.
 */
module Gregorian {
  const MIN_YEAR := 1
  const MAX_YEAR := 9999

  predicate IsLeap(y: int) {
    y % 4 == 0 && (y % 100 != 0 || y % 400 == 0)
  }

  function DaysInMonth(y: int, m: int): (r: nat)
    requires 1 <= m <= 12
    ensures 28 <= r <= 31
  {
    if m == 2 then (if IsLeap(y) then 29 else 28)
    else if m == 4 || m == 6 || m == 9 || m == 11 then 30
    else 31
  }

  datatype Date = Date(year: int, month: int, day: int)

  /** The dates `date(year, month, day)` accepts. */
  predicate ValidDate(d: Date) {
    MIN_YEAR <= d.year <= MAX_YEAR && 1 <= d.month <= 12 && 1 <= d.day <= DaysInMonth(d.year, d.month)
  }

  function DaysBeforeYear(y: int): int
    requires y >= 1
  {
    var p := y - 1;
    p * 365 + p / 4 - p / 100 + p / 400
  }

  function DaysBeforeMonth(y: int, m: int): nat
    requires 1 <= m <= 12
  {
    if m == 1 then 0 else DaysBeforeMonth(y, m - 1) + DaysInMonth(y, m - 1)
  }

  /** `date.toordinal()`. */
  function ToOrdinal(d: Date): int
    requires ValidDate(d)
  {
    DaysBeforeYear(d.year) + DaysBeforeMonth(d.year, d.month) + d.day
  }

  /** `date.weekday()`: Monday is 0. */
  function Weekday(d: Date): (r: nat)
    requires ValidDate(d)
    ensures r < 7
  {
    (ToOrdinal(d) + 6) % 7
  }

  /** The day after `d`, by the calendar's rules (the reference for the ordinal count). */
  function NextDay(d: Date): Date
    requires ValidDate(d)
  {
    if d.day < DaysInMonth(d.year, d.month) then Date(d.year, d.month, d.day + 1)
    else if d.month < 12 then Date(d.year, d.month + 1, 1)
    else Date(d.year + 1, 1, 1)
  }

  /** The months before December hold 306 days besides February. */
  lemma DaysBeforeDecember(y: int)
    ensures DaysBeforeMonth(y, 12) == 306 + DaysInMonth(y, 2)
  {
    var feb := DaysInMonth(y, 2);
    assert DaysBeforeMonth(y, 2) == 31;
    assert DaysBeforeMonth(y, 3) == 31 + feb;
    assert DaysBeforeMonth(y, 4) == 62 + feb;
    assert DaysBeforeMonth(y, 5) == 92 + feb;
    assert DaysBeforeMonth(y, 6) == 123 + feb;
    assert DaysBeforeMonth(y, 7) == 153 + feb;
    assert DaysBeforeMonth(y, 8) == 184 + feb;
    assert DaysBeforeMonth(y, 9) == 215 + feb;
    assert DaysBeforeMonth(y, 10) == 245 + feb;
    assert DaysBeforeMonth(y, 11) == 276 + feb;
  }

  /** Going from `y - 1` to `y`, each leap-rule quotient grows by one exactly when its divisor divides `y`. */
  lemma QuotientSteps(y: int)
    ensures y / 4 == (y - 1) / 4 + (if y % 4 == 0 then 1 else 0)
    ensures y / 100 == (y - 1) / 100 + (if y % 100 == 0 then 1 else 0)
    ensures y / 400 == (y - 1) / 400 + (if y % 400 == 0 then 1 else 0)
    ensures y % 400 == 0 ==> y % 100 == 0
    ensures y % 100 == 0 ==> y % 4 == 0
  {
  }

  lemma YearLength(y: int)
    requires y >= 1
    ensures DaysBeforeMonth(y, 12) + DaysInMonth(y, 12) == if IsLeap(y) then 366 else 365
    ensures DaysBeforeYear(y + 1) == DaysBeforeYear(y) + if IsLeap(y) then 366 else 365
  {
    DaysBeforeDecember(y);
    QuotientSteps(y);
    var leapDays := (y / 4 - (y - 1) / 4) - (y / 100 - (y - 1) / 100) + (y / 400 - (y - 1) / 400);
    assert leapDays == if IsLeap(y) then 1 else 0;
    assert DaysBeforeYear(y + 1) - DaysBeforeYear(y) == 365 + leapDays;
  }

  /** Ordinals count days without gaps: the next calendar day has the next ordinal. */
  lemma NextDayOrdinal(d: Date)
    requires ValidDate(d) && d.year < MAX_YEAR
    ensures ValidDate(NextDay(d)) && ToOrdinal(NextDay(d)) == ToOrdinal(d) + 1
  {
    if d.day == DaysInMonth(d.year, d.month) && d.month == 12 {
      YearLength(d.year);
    }
  }

  /** 0001-01-01 is ordinal 1. */
  lemma FirstOrdinal()
    ensures ToOrdinal(Date(1, 1, 1)) == 1
  {
    assert DaysBeforeYear(1) == 0;
  }

  /** 2024-01-01 is ordinal 738886, a Monday. */
  lemma KnownMonday()
    ensures ToOrdinal(Date(2024, 1, 1)) == 738_886 && Weekday(Date(2024, 1, 1)) == 0
  {
    assert DaysBeforeYear(2024) == 738_885;
  }

  // ---------------------------------------------------------------------
  // `calendar.monthcalendar`

  function Zeros(k: nat): (r: seq<int>)
    ensures |r| == k && forall i :: 0 <= i < k ==> r[i] == 0
  {
    seq(k, _ => 0)
  }

  /** The day numbers 1..n. */
  function DayNumbers(n: nat): (r: seq<int>)
    ensures |r| == n && forall i :: 0 <= i < n ==> r[i] == i + 1
  {
    seq(n, i => i + 1)
  }

  function Chunks(s: seq<int>): seq<seq<int>>
    requires |s| % 7 == 0
    decreases |s|
  {
    if s == [] then [] else [s[..7]] + Chunks(s[7..])
  }

  function Flatten(weeks: seq<seq<int>>): seq<int> {
    if weeks == [] then [] else weeks[0] + Flatten(weeks[1..])
  }

  /** The cells that hold a day of the month. */
  function NonZero(s: seq<int>): seq<int> {
    if s == [] then [] else (if s[0] != 0 then [s[0]] else []) + NonZero(s[1..])
  }

  /** The Monday-first grid: `lead` zeros, the days 1..n, then zeros to the end of the last week. */
  function MonthCells(lead: nat, n: nat): (r: seq<int>)
    ensures |r| % 7 == 0 && lead + n <= |r| < lead + n + 7
    ensures forall j :: 0 <= j < |r| ==> r[j] == if lead <= j < lead + n then j - lead + 1 else 0
  {
    var trail := (7 - (lead + n) % 7) % 7;
    Zeros(lead) + DayNumbers(n) + Zeros(trail)
  }

  function MonthCalendar(y: int, m: int): (weeks: seq<seq<int>>)
    requires MIN_YEAR <= y <= MAX_YEAR && 1 <= m <= 12
  {
    Chunks(MonthCells(Weekday(Date(y, m, 1)), DaysInMonth(y, m)))
  }

  lemma {:induction false} ChunksFacts(s: seq<int>)
    requires |s| % 7 == 0
    ensures Flatten(Chunks(s)) == s
    ensures forall i :: 0 <= i < |Chunks(s)| ==> |Chunks(s)[i]| == 7
    ensures |Chunks(s)| == |s| / 7
    decreases |s|
  {
    if s != [] {
      ChunksFacts(s[7..]);
      assert s == s[..7] + s[7..];
    }
  }

  lemma {:induction false} ChunksIndex(s: seq<int>, w: nat, c: nat)
    requires |s| % 7 == 0 && w < |s| / 7 && c < 7
    ensures |Chunks(s)| == |s| / 7 && |Chunks(s)[w]| == 7 && Chunks(s)[w][c] == s[7 * w + c]
    decreases |s|
  {
    ChunksFacts(s);
    if w > 0 {
      ChunksIndex(s[7..], w - 1, c);
    }
  }

  /** Cell `c` of week `w` holds day `7w + c - lead + 1`, or 0 outside the month. */
  lemma MonthCalendarCell(y: int, m: int, w: nat, c: nat)
    requires MIN_YEAR <= y <= MAX_YEAR && 1 <= m <= 12
    requires w < |MonthCalendar(y, m)| && c < 7
    ensures var lead := Weekday(Date(y, m, 1));
            var n := DaysInMonth(y, m);
      && |MonthCalendar(y, m)[w]| == 7
      && MonthCalendar(y, m)[w][c] == if lead <= 7 * w + c < lead + n then 7 * w + c - lead + 1 else 0
  {
    var cells := MonthCells(Weekday(Date(y, m, 1)), DaysInMonth(y, m));
    ChunksFacts(cells);
    ChunksIndex(cells, w, c);
  }

  /** The weeks cover the whole month. */
  lemma MonthCalendarLength(y: int, m: int)
    requires MIN_YEAR <= y <= MAX_YEAR && 1 <= m <= 12
    ensures Weekday(Date(y, m, 1)) + DaysInMonth(y, m) <= 7 * |MonthCalendar(y, m)|
    ensures 4 <= |MonthCalendar(y, m)| <= 6
  {
    ChunksFacts(MonthCells(Weekday(Date(y, m, 1)), DaysInMonth(y, m)));
  }

  lemma {:induction false} NonZeroConcat(a: seq<int>, b: seq<int>)
    ensures NonZero(a + b) == NonZero(a) + NonZero(b)
  {
    if a == [] {
      assert a + b == b;
    } else {
      assert (a + b)[1..] == a[1..] + b;
      NonZeroConcat(a[1..], b);
    }
  }

  lemma {:induction false} NonZeroOfZeros(s: seq<int>)
    requires forall i :: 0 <= i < |s| ==> s[i] == 0
    ensures NonZero(s) == []
  {
    if s != [] {
      NonZeroOfZeros(s[1..]);
    }
  }

  lemma {:induction false} NonZeroOfPositive(s: seq<int>)
    requires forall i :: 0 <= i < |s| ==> s[i] > 0
    ensures NonZero(s) == s
  {
    if s != [] {
      NonZeroOfPositive(s[1..]);
      assert s == [s[0]] + s[1..];
    }
  }

  /**
   * The month calendar is whole weeks of seven cells, and its non-zero
   * cells, read week by week, are exactly the days 1..N of the month.
   */
  lemma MonthCalendarDays(y: int, m: int)
    requires MIN_YEAR <= y <= MAX_YEAR && 1 <= m <= 12
    ensures forall i :: 0 <= i < |MonthCalendar(y, m)| ==> |MonthCalendar(y, m)[i]| == 7
    ensures NonZero(Flatten(MonthCalendar(y, m))) == DayNumbers(DaysInMonth(y, m))
  {
    var lead := Weekday(Date(y, m, 1));
    var n := DaysInMonth(y, m);
    var trail := (7 - (lead + n) % 7) % 7;
    var z1, dn, z2 := Zeros(lead), DayNumbers(n), Zeros(trail);
    ChunksFacts(MonthCells(lead, n));
    assert Flatten(MonthCalendar(y, m)) == z1 + dn + z2;
    NonZeroConcat(z1 + dn, z2);
    NonZeroConcat(z1, dn);
    NonZeroOfZeros(z1);
    NonZeroOfZeros(z2);
    NonZeroOfPositive(dn);
    assert NonZero(z1 + dn + z2) == NonZero(z1) + NonZero(dn) + NonZero(z2);
    assert NonZero(z1) + NonZero(dn) + NonZero(z2) == dn;
  }

  lemma ModShift(a: int, k: int)
    ensures (a + k) % 7 == ((a % 7) + k) % 7
  {
    var q := a / 7;
    assert a == 7 * q + a % 7;
    assert a + k == 7 * q + (a % 7 + k);
  }

  /** Laid end to end, the weeks are the grid's cells. */
  lemma MonthCalendarFlat(y: int, m: int)
    requires MIN_YEAR <= y <= MAX_YEAR && 1 <= m <= 12
    ensures Flatten(MonthCalendar(y, m)) == MonthCells(Weekday(Date(y, m, 1)), DaysInMonth(y, m))
  {
    ChunksFacts(MonthCells(Weekday(Date(y, m, 1)), DaysInMonth(y, m)));
  }

  /** Within a month, ordinals advance one per day. */
  lemma OrdinalInMonth(y: int, m: int, d: int)
    requires ValidDate(Date(y, m, d))
    ensures ToOrdinal(Date(y, m, d)) == ToOrdinal(Date(y, m, 1)) + d - 1
  {
  }

  /** The weekday of day `d` is `d - 1` steps on from the weekday of the first. */
  lemma WeekdayInMonth(y: int, m: int, d: int)
    requires ValidDate(Date(y, m, d))
    ensures Weekday(Date(y, m, d)) == (Weekday(Date(y, m, 1)) + d - 1) % 7
  {
    var o := ToOrdinal(Date(y, m, 1));
    OrdinalInMonth(y, m, d);
    assert Weekday(Date(y, m, d)) == (o + 6 + (d - 1)) % 7;
    ModShift(o + 6, d - 1);
  }

  /** Day `d` sits in the column of its weekday (Monday first). */
  lemma MonthCalendarColumns(y: int, m: int, d: int)
    requires ValidDate(Date(y, m, d))
    ensures var lead := Weekday(Date(y, m, 1));
      && lead + d - 1 < |Flatten(MonthCalendar(y, m))|
      && Flatten(MonthCalendar(y, m))[lead + d - 1] == d
      && (lead + d - 1) % 7 == Weekday(Date(y, m, d))
  {
    MonthCalendarFlat(y, m);
    WeekdayInMonth(y, m, d);
  }

  /** February 2030 has 28 days, February 2024 has 29 and February 1900 has 28. */
  lemma FebruaryLengths()
    ensures DaysInMonth(2030, 2) == 28 && DaysInMonth(2024, 2) == 29 && DaysInMonth(1900, 2) == 28 && DaysInMonth(2000, 2) == 29
  {
  }
}
