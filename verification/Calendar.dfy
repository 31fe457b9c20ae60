/** Subscription cadences over the proleptic Gregorian calendar.

    A time is a civil date and a time of day. Adding months or days normalises
    the way Go's time.AddDate does: an overflowing day rolls over into the next
    month, it is never clamped to the month's last day. */
module Calendar {

  datatype Cadence = Daily | Weekly | Monthly | OtherCadence(name: string)
  {
    predicate Valid() {
      !OtherCadence?
    }
  }

  datatype Date = Date(year: int, month: int, day: int)

  datatype Time = Time(date: Date, nanos: nat)

  predicate IsLeap(y: int) {
    y % 4 == 0 && (y % 100 != 0 || y % 400 == 0)
  }

  function DaysIn(y: int, m: int): (n: int)
    requires 1 <= m <= 12
    ensures 28 <= n <= 31
  {
    if m == 2 then (if IsLeap(y) then 29 else 28)
    else if m == 4 || m == 6 || m == 9 || m == 11 then 30
    else 31
  }

  predicate ValidDate(date: Date) {
    1 <= date.month <= 12 && 1 <= date.day <= DaysIn(date.year, date.month)
  }

  predicate ValidTime(t: Time) {
    ValidDate(t.date) && t.nanos < 86_400_000_000_000
  }

  // ---------- the day count, an order isomorphism on valid dates ----------

  /** Days before the first of January of year y, counted from year 0. */
  function DaysBeforeYear(y: int): int {
    365 * y + (y + 3) / 4 - (y + 99) / 100 + (y + 399) / 400
  }

  function DaysBeforeMonth(y: int, m: int): int
    requires 1 <= m <= 12
    decreases m
  {
    if m == 1 then 0 else DaysBeforeMonth(y, m - 1) + DaysIn(y, m - 1)
  }

  /** The number of a date's day on one uninterrupted count of days. */
  function DayNumber(date: Date): int
    requires 1 <= date.month <= 12
  {
    DaysBeforeYear(date.year) + DaysBeforeMonth(date.year, date.month) + date.day - 1
  }

  /** A point on the time line. */
  function Stamp(t: Time): int
    requires 1 <= t.date.month <= 12
  {
    DayNumber(t.date) * 86_400_000_000_000 + t.nanos
  }

  /** Points on the time line come in the order of the days, then of the time of day. */
  lemma StampOrder(a: Time, b: Time)
    requires ValidTime(a) && ValidTime(b)
    ensures Stamp(a) < Stamp(b) <==> Earlier(a.date, b.date) || (a.date == b.date && a.nanos < b.nanos)
    ensures Stamp(a) == Stamp(b) <==> a == b
  {
    hide DayNumber, ValidDate;
    DayNumberOrder(a.date, b.date);
    DayNumberOrder(b.date, a.date);
  }

  function NextMonthYear(y: int, m: int): int {
    if m == 12 then y + 1 else y
  }

  function NextMonth(m: int): int {
    if m == 12 then 1 else m + 1
  }

  lemma YearLength(y: int)
    ensures DaysBeforeYear(y + 1) == DaysBeforeYear(y) + (if IsLeap(y) then 366 else 365)
  {
    FloorStep4(y);
    FloorStep100(y);
    FloorStep400(y);
    LeapRules(y);
  }

  lemma FloorStep4(y: int)
    ensures (y + 4) / 4 == (y + 3) / 4 + (if y % 4 == 0 then 1 else 0)
  {
  }

  lemma FloorStep100(y: int)
    ensures (y + 100) / 100 == (y + 99) / 100 + (if y % 100 == 0 then 1 else 0)
  {
  }

  lemma FloorStep400(y: int)
    ensures (y + 400) / 400 == (y + 399) / 400 + (if y % 400 == 0 then 1 else 0)
  {
  }

  lemma LeapRules(y: int)
    ensures y % 400 == 0 ==> y % 100 == 0
    ensures y % 100 == 0 ==> y % 4 == 0
  {
  }

  lemma DecemberEndsTheYear(y: int)
    ensures DaysBeforeMonth(y, 12) + 31 == if IsLeap(y) then 366 else 365
  {
    assert DaysBeforeMonth(y, 4) == DaysBeforeMonth(y, 2) + DaysIn(y, 2) + 31;
    assert DaysBeforeMonth(y, 7) == DaysBeforeMonth(y, 4) + 30 + 31 + 30;
    assert DaysBeforeMonth(y, 10) == DaysBeforeMonth(y, 7) + 31 + 31 + 30;
    assert DaysBeforeMonth(y, 12) == DaysBeforeMonth(y, 10) + 31 + 30;
  }

  /** The first of the next month comes exactly one month's days later. */
  lemma MonthLength(y: int, m: int)
    requires 1 <= m <= 12
    ensures DayNumber(Date(NextMonthYear(y, m), NextMonth(m), 1))
         == DayNumber(Date(y, m, 1)) + DaysIn(y, m)
  {
    if m == 12 {
      YearLength(y);
      DecemberEndsTheYear(y);
    }
  }

  /** Months counted on one line, so that the order of months is the order of numbers. */
  function MonthIndex(date: Date): int {
    12 * date.year + date.month - 1
  }

  predicate Earlier(a: Date, b: Date) {
    MonthIndex(a) < MonthIndex(b) || (MonthIndex(a) == MonthIndex(b) && a.day < b.day)
  }

  lemma {:induction false} EarlierMonthEndsBefore(y: int, m: int, b: Date)
    requires 1 <= m <= 12 && ValidDate(b) && 12 * y + m - 1 < MonthIndex(b)
    ensures DayNumber(Date(y, m, 1)) + DaysIn(y, m) <= DayNumber(b)
    decreases MonthIndex(b) - (12 * y + m - 1)
  {
    MonthLength(y, m);
    var y', m' := NextMonthYear(y, m), NextMonth(m);
    if 12 * y' + m' - 1 < MonthIndex(b) {
      EarlierMonthEndsBefore(y', m', b);
    } else {
      assert y' == b.year && m' == b.month;
    }
  }

  /** The day count orders valid dates exactly as the calendar does, so a date is
      determined by its day number. */
  lemma DayNumberOrder(a: Date, b: Date)
    requires ValidDate(a) && ValidDate(b)
    ensures Earlier(a, b) <==> DayNumber(a) < DayNumber(b)
    ensures a == b <==> DayNumber(a) == DayNumber(b)
  {
    if MonthIndex(a) < MonthIndex(b) {
      EarlierMonthEndsBefore(a.year, a.month, b);
    } else if MonthIndex(b) < MonthIndex(a) {
      EarlierMonthEndsBefore(b.year, b.month, a);
    } else {
      assert a.year == b.year && a.month == b.month;
    }
  }

  // ---------- AddDate and Advance ----------

  /** Rolls a day that overflows its month into the following months. */
  function RollDay(y: int, m: int, d: int): (date: Date)
    requires 1 <= m <= 12 && d >= 1
    ensures ValidDate(date)
    ensures DayNumber(date) == DayNumber(Date(y, m, 1)) + d - 1
    decreases d
  {
    if d <= DaysIn(y, m) then Date(y, m, d)
    else
      MonthLength(y, m);
      RollDay(NextMonthYear(y, m), NextMonth(m), d - DaysIn(y, m))
  }

  /** Carries a count of months into the year, then rolls the day. */
  function RollMonth(y: int, m: int, months: nat, d: int): (date: Date)
    requires 1 <= m <= 12 && d >= 1
    ensures ValidDate(date)
    decreases months
  {
    if months == 0 then RollDay(y, m, d)
    else RollMonth(NextMonthYear(y, m), NextMonth(m), months - 1, d)
  }

  function AddDate(t: Time, months: nat, days: nat): (r: Time)
    requires ValidTime(t)
    ensures ValidTime(r)
  {
    Time(RollMonth(t.date.year, t.date.month, months, t.date.day + days), t.nanos)
  }

  function Advance(c: Cadence, t: Time): (r: Time)
    requires ValidTime(t)
    ensures ValidTime(r)
  {
    match c
    case Daily => AddDate(t, 0, 1)
    case Weekly => AddDate(t, 0, 7)
    case Monthly => AddDate(t, 1, 0)
    case OtherCadence(_) => t
  }

  /** How many days one cadence unit is from a given date. */
  function Period(c: Cadence, date: Date): int
    requires 1 <= date.month <= 12
  {
    match c
    case Daily => 1
    case Weekly => 7
    case Monthly => DaysIn(date.year, date.month)
    case OtherCadence(_) => 0
  }

  /** Advancing moves forward by exactly the period: one day, seven days, or the
      number of days of the current month; the time of day is kept. Together with
      DayNumberOrder this determines the resulting date. */
  lemma AdvanceMovesOnePeriod(c: Cadence, t: Time)
    requires ValidTime(t)
    ensures DayNumber(Advance(c, t).date) == DayNumber(t.date) + Period(c, t.date)
    ensures Advance(c, t).nanos == t.nanos
    ensures Stamp(Advance(c, t)) == Stamp(t) + Period(c, t.date) * 86_400_000_000_000
  {
    if c.Monthly? {
      MonthLength(t.date.year, t.date.month);
    }
  }

  /** Every valid cadence is strictly forward: a day, a week, or 28 to 31 days. */
  lemma AdvanceIsForward(c: Cadence, t: Time)
    requires ValidTime(t) && c.Valid()
    ensures Stamp(t) + 86_400_000_000_000 <= Stamp(Advance(c, t)) <= Stamp(t) + 31 * 86_400_000_000_000
    ensures c.Monthly? ==> Stamp(t) + 28 * 86_400_000_000_000 <= Stamp(Advance(c, t))
  {
    AdvanceMovesOnePeriod(c, t);
  }

  // ---------- monthly schedules ----------

  /** The k-th charge time of a schedule starting at t. */
  function At(c: Cadence, t: Time, k: nat): (r: Time)
    requires ValidTime(t)
    ensures ValidTime(r)
  {
    if k == 0 then t else Advance(c, At(c, t, k - 1))
  }

  predicate FitsNextMonth(date: Date)
    requires 1 <= date.month <= 12
  {
    date.day <= DaysIn(NextMonthYear(date.year, date.month), NextMonth(date.month))
  }

  /** One monthly step in civil terms: the same day of the next month when that
      month has it, otherwise the first, second or third of the month after. */
  lemma MonthlyStep(t: Time)
    requires ValidTime(t)
    ensures var r := Advance(Monthly, t).date;
            if FitsNextMonth(t.date) then
              MonthIndex(r) == MonthIndex(t.date) + 1 && r.day == t.date.day
            else
              && MonthIndex(r) == MonthIndex(t.date) + 2 && 1 <= r.day <= 3 && t.date.day >= 29
              && r.day == t.date.day - DaysIn(NextMonthYear(t.date.year, t.date.month), NextMonth(t.date.month))
  {
    var y, m := NextMonthYear(t.date.year, t.date.month), NextMonth(t.date.month);
    assert Advance(Monthly, t).date == RollMonth(y, m, 0, t.date.day) == RollDay(y, m, t.date.day);
    RollOnce(y, m, t.date.day);
  }

  lemma RollOnce(y: int, m: int, d: int)
    requires 1 <= m <= 12 && 1 <= d <= 31
    ensures d <= DaysIn(y, m) ==> RollDay(y, m, d) == Date(y, m, d)
    ensures d > DaysIn(y, m) ==> RollDay(y, m, d) == Date(NextMonthYear(y, m), NextMonth(m), d - DaysIn(y, m))
  {
  }

  /** The last day of the month a clamping rule would choose. */
  function ClampedMonthly(t: Time): Time
    requires ValidTime(t)
  {
    var y, m := NextMonthYear(t.date.year, t.date.month), NextMonth(t.date.month);
    Time(Date(y, m, if t.date.day <= DaysIn(y, m) then t.date.day else DaysIn(y, m)), t.nanos)
  }

  /** Rolling over agrees with clamping, the rule of the source comment, exactly
      when the next month has the day; otherwise rolling over lands later. */
  lemma MonthlyClampsIff(t: Time)
    requires ValidTime(t)
    ensures Advance(Monthly, t) == ClampedMonthly(t) <==> FitsNextMonth(t.date)
    ensures !FitsNextMonth(t.date) ==> MonthIndex(Advance(Monthly, t).date) == MonthIndex(ClampedMonthly(t).date) + 1
  {
    MonthlyStep(t);
    assert 12 * NextMonthYear(t.date.year, t.date.month) + NextMonth(t.date.month) - 1 == MonthIndex(t.date) + 1;
  }

  /** The documented end-of-January example. */
  lemma JanuaryEndRollsOver()
    ensures Advance(Monthly, Time(Date(2026, 1, 31), 0)) == Time(Date(2026, 3, 3), 0)
    ensures ClampedMonthly(Time(Date(2026, 1, 31), 0)) == Time(Date(2026, 2, 28), 0)
  {
    MonthlyStep(Time(Date(2026, 1, 31), 0));
  }

  // ---------- the calendar itself, in literal dates ----------

  lemma LeapRule(y: int)
    ensures IsLeap(y) <==> y % 400 == 0 || (y % 4 == 0 && y % 100 != 0)
  {
  }

  lemma MonthParity(m: int)
    requires 1 <= m <= 12 && m != 2
    ensures (m + m / 8) % 2 == if m == 4 || m == 6 || m == 9 || m == 11 then 0 else 1
  {
    if m < 8 {
      assert m / 8 == 0;
    } else {
      assert m / 8 == 1;
    }
  }

  /** The leap rule and the month lengths, from closed forms. */
  lemma MonthsOfTheYear(y: int, m: int)
    requires 1 <= m <= 12
    ensures DaysIn(y, m) == if m != 2 then 30 + (m + m / 8) % 2
                            else if y % 400 == 0 || (y % 4 == 0 && y % 100 != 0) then 29 else 28
  {
    hide IsLeap;
    LeapRule(y);
    if m != 2 {
      MonthParity(m);
    }
  }

  /** Both dates exist and a month leads from the one to the other. */
  predicate MonthLeads(from: Date, to: Date) {
    && ValidDate(from) && ValidDate(to)
    && forall nanos: nat :: nanos < 86_400_000_000_000 ==>
         Advance(Monthly, Time(from, nanos)) == Time(to, nanos)
  }

  /** A month after the last day of each month, in every year. */
  lemma MonthEndsRollOver(y: int)
    ensures var leap := y % 400 == 0 || (y % 4 == 0 && y % 100 != 0);
            && MonthLeads(Date(y, 1, 31), if leap then Date(y, 3, 2) else Date(y, 3, 3))
            && (if leap then MonthLeads(Date(y, 2, 29), Date(y, 3, 29)) else MonthLeads(Date(y, 2, 28), Date(y, 3, 28)))
            && MonthLeads(Date(y, 3, 31), Date(y, 5, 1)) && MonthLeads(Date(y, 4, 30), Date(y, 5, 30))
            && MonthLeads(Date(y, 5, 31), Date(y, 7, 1)) && MonthLeads(Date(y, 6, 30), Date(y, 7, 30))
            && MonthLeads(Date(y, 7, 31), Date(y, 8, 31)) && MonthLeads(Date(y, 8, 31), Date(y, 10, 1))
            && MonthLeads(Date(y, 9, 30), Date(y, 10, 30)) && MonthLeads(Date(y, 10, 31), Date(y, 12, 1))
            && MonthLeads(Date(y, 11, 30), Date(y, 12, 30)) && MonthLeads(Date(y, 12, 31), Date(y + 1, 1, 31))
  {
    hide MonthLeads, RollDay, IsLeap, Advance, ValidDate;
    LeapRule(y);
    LeadsByOneMonth(y, 1, 31);
    LeadsByOneMonth(y, 2, 28);
    LeadsByOneMonth(y, 2, 29);
    LeadsByOneMonth(y, 3, 31);
    LeadsByOneMonth(y, 4, 30);
    LeadsByOneMonth(y, 5, 31);
    LeadsByOneMonth(y, 6, 30);
    LeadsByOneMonth(y, 7, 31);
    LeadsByOneMonth(y, 8, 31);
    LeadsByOneMonth(y, 9, 30);
    LeadsByOneMonth(y, 10, 31);
    LeadsByOneMonth(y, 11, 30);
    LeadsByOneMonth(y, 12, 31);
  }

  lemma LeadsByOneMonth(y: int, m: int, d: int)
    requires 1 <= m <= 12 && 1 <= d <= 31
    ensures var y', m' := NextMonthYear(y, m), NextMonth(m);
            d <= DaysIn(y, m) ==>
              MonthLeads(Date(y, m, d),
                         if d <= DaysIn(y', m') then Date(y', m', d)
                         else Date(NextMonthYear(y', m'), NextMonth(m'), d - DaysIn(y', m')))
  {
    hide RollDay;
    var y', m' := NextMonthYear(y, m), NextMonth(m);
    RollOnce(y', m', d);
    if d <= DaysIn(y, m) {
      forall nanos: nat | nanos < 86_400_000_000_000
        ensures Advance(Monthly, Time(Date(y, m, d), nanos)) == Time(RollDay(y', m', d), nanos)
      {
        assert RollMonth(y, m, 1, d) == RollMonth(y', m', 0, d);
      }
    }
  }

  /** From any first of a month up to the 28th a month later is the same day of the next
      month; a day and a week later are one and seven days on. */
  lemma WithinTheMonth(y: int, m: int, d: int, nanos: nat)
    requires 1 <= m <= 12 && 1 <= d <= 28 && nanos < 86_400_000_000_000
    ensures ValidTime(Time(Date(y, m, d), nanos))
    ensures Advance(Monthly, Time(Date(y, m, d), nanos))
         == Time(if m == 12 then Date(y + 1, 1, d) else Date(y, m + 1, d), nanos)
    ensures d <= 27 ==> Advance(Daily, Time(Date(y, m, d), nanos)) == Time(Date(y, m, d + 1), nanos)
    ensures d <= 21 ==> Advance(Weekly, Time(Date(y, m, d), nanos)) == Time(Date(y, m, d + 7), nanos)
  {
  }

  predicate ChangesDay(t: Time, k: nat)
    requires ValidTime(t)
  {
    At(Monthly, t, k + 1).date.day != At(Monthly, t, k).date.day
  }

  lemma ScheduleStep(t: Time, k: nat)
    requires ValidTime(t)
    ensures var a, b := At(Monthly, t, k).date, At(Monthly, t, k + 1).date;
            || (!ChangesDay(t, k) && MonthIndex(b) == MonthIndex(a) + 1)
            || (ChangesDay(t, k) && MonthIndex(b) == MonthIndex(a) + 2 && a.day >= 29 && 1 <= b.day <= 3)
  {
    MonthlyStep(At(Monthly, t, k));
  }

  lemma {:induction false} DayStaysSmall(t: Time, j: nat, k: nat)
    requires ValidTime(t) && j <= k && At(Monthly, t, j).date.day <= 28
    ensures At(Monthly, t, k).date.day == At(Monthly, t, j).date.day
  {
    hide Advance;
    if j < k {
      DayStaysSmall(t, j, k - 1);
      ScheduleStep(t, k - 1);
    }
  }

  lemma NoChangeAfterAChange(t: Time, j: nat, k: nat)
    requires ValidTime(t) && j < k
    ensures ChangesDay(t, j) ==> !ChangesDay(t, k)
  {
    hide Advance;
    if ChangesDay(t, j) {
      ScheduleStep(t, j);
      DayStaysSmall(t, j + 1, k);
      ScheduleStep(t, k);
    }
  }

  /** Over an entire infinite monthly schedule the day of the month changes at most
      once, to the first, second or third. */
  lemma DayChangesAtMostOnce(t: Time, j: nat, k: nat)
    requires ValidTime(t)
    ensures ChangesDay(t, j) ==> 1 <= At(Monthly, t, j + 1).date.day <= 3
    ensures ChangesDay(t, j) && ChangesDay(t, k) ==> k == j
  {
    hide Advance;
    ScheduleStep(t, j);
    if j < k {
      NoChangeAfterAChange(t, j, k);
    } else if k < j {
      NoChangeAfterAChange(t, k, j);
    }
  }

  /** Some charge before the k-th changed the day of the month. */
  ghost predicate ChangedBefore(t: Time, k: nat)
    requires ValidTime(t)
  {
    exists j: nat :: j < k && ChangesDay(t, j)
  }

  /** Over an entire schedule at most one calendar month is skipped: the k-th charge
      falls k months after the start, or k + 1 once the one day change has happened. */
  lemma {:induction false} AtMostOneMonthSkipped(t: Time, k: nat)
    requires ValidTime(t)
    ensures MonthIndex(At(Monthly, t, k).date)
         == MonthIndex(t.date) + k + (if ChangedBefore(t, k) then 1 else 0)
  {
    hide Advance;
    if k > 0 {
      AtMostOneMonthSkipped(t, k - 1);
      ScheduleStep(t, k - 1);
      if ChangedBefore(t, k - 1) {
        var j: nat :| j < k - 1 && ChangesDay(t, j);
        NoChangeAfterAChange(t, j, k - 1);
        assert ChangedBefore(t, k);
      } else {
        assert ChangedBefore(t, k) <==> ChangesDay(t, k - 1);
      }
    }
  }
}
