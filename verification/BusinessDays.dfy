/** The seller's ship-by clock (packages/backend/src/fulfillment.ts). Dates are UTC
    timestamps in milliseconds. */
module BusinessDays {

  const DAY_MS := 86_400_000

  /** 0 is Sunday; the epoch was a Thursday. */
  function UtcDay(t: int): int {
    (t / DAY_MS + 4) % 7
  }

  predicate IsWeekday(t: int) {
    UtcDay(t) != 0 && UtcDay(t) != 6
  }

  function DaysAfter(from: int, k: nat): int {
    from + k * DAY_MS
  }

  function IfWeekday(t: int): nat {
    if IsWeekday(t) then 1 else 0
  }

  /** The number of weekdays among the `k` dates that follow `from`. */
  function WeekdaysAfter(from: int, k: nat): nat {
    if k == 0 then 0 else WeekdaysAfter(from, k - 1) + IfWeekday(DaysAfter(from, k))
  }

  /** How many weekend dates come up before the next weekday. */
  function WeekendAhead(day: int): nat {
    if day == 5 then 2 else if day == 6 then 1 else 0
  }

  lemma NextDate(t: int)
    ensures UtcDay(t + DAY_MS) == (UtcDay(t) + 1) % 7
  {
    assert (t + DAY_MS) / DAY_MS == t / DAY_MS + 1;
  }

  /** Counting further never loses a weekday. */
  lemma {:induction false} WeekdaysGrow(from: int, j: nat, k: nat)
    requires j <= k
    ensures WeekdaysAfter(from, j) <= WeekdaysAfter(from, k)
  {
    if j < k {
      WeekdaysGrow(from, j, k - 1);
    }
  }

  /** The `k`-th date after `from` is the earliest weekday that makes `n` weekdays. */
  ghost predicate NthWeekday(from: int, n: int, k: nat) {
    && k >= 1
    && WeekdaysAfter(from, k) == n
    && WeekdaysAfter(from, k - 1) < n
  }

  /** Step date by date, counting the weekdays. The result is the earliest date with `n`
      weekdays after the start and up to it, and it is a weekday itself; for no days at
      all it is the start. */
  method AddBusinessDays(from: int, n: int) returns (d: int)
    ensures n <= 0 ==> d == from
    ensures n >= 1 ==>
      exists k: nat ::
        && NthWeekday(from, n, k)
        && d == DaysAfter(from, k)
        && IsWeekday(d)
        && WeekdaysAfter(from, k) == n
        && forall j: nat | j < k :: WeekdaysAfter(from, j) < n
  {
    d := from;
    var added := 0;
    ghost var k: nat := 0;
    while added < n
      invariant d == DaysAfter(from, k)
      invariant added == WeekdaysAfter(from, k)
      invariant if n <= 0 then k == 0 else added <= n
      invariant added == n >= 1 ==> NthWeekday(from, n, k)
      decreases n - added, WeekendAhead(UtcDay(d))
    {
      NextDate(d);
      d := d + DAY_MS;
      k := k + 1;
      if IsWeekday(d) {
        added := added + 1;
      }
    }
    if n >= 1 {
      forall j: nat | j < k
        ensures WeekdaysAfter(from, j) < n
      {
        WeekdaysGrow(from, j, k - 1);
      }
    }
  }

  /** Every full week has five weekdays, wherever it starts, so the seven business days a
      seller gets always span nine to eleven calendar days. */
  lemma SevenBusinessDaysSpan(from: int, k: nat)
    requires NthWeekday(from, 7, k)
    ensures 9 <= k <= 11
  {
    UpToElevenDays(from);
    if k < 9 {
      WeekdaysGrow(from, k, 8);
    } else if k > 11 {
      WeekdaysGrow(from, 11, k - 1);
    }
  }

  lemma DayOfWeek(from: int, k: nat)
    ensures UtcDay(DaysAfter(from, k)) == (UtcDay(from) + k) % 7
  {
    assert DaysAfter(from, k) / DAY_MS == from / DAY_MS + k;
  }

  /** The same count, from the day of the week alone. */
  function WeekdaysFrom(day: int, k: nat): nat {
    if k == 0 then 0 else WeekdaysFrom(day, k - 1) + IfWorkday(day + k)
  }

  lemma {:induction false} CountFromDay(from: int, k: nat)
    ensures WeekdaysAfter(from, k) == WeekdaysFrom(UtcDay(from), k)
  {
    if k > 0 {
      CountFromDay(from, k - 1);
      DayOfWeek(from, k);
    }
  }

  lemma UpToElevenDays(from: int)
    ensures WeekdaysAfter(from, 8) < 7 <= WeekdaysAfter(from, 11)
  {
    CountFromDay(from, 8);
    CountFromDay(from, 11);
    ElevenFrom(UtcDay(from));
  }

  function IfWorkday(day: int): nat {
    if day % 7 in {0, 6} then 0 else 1
  }

  lemma EightFrom(u: int)
    ensures WeekdaysFrom(u, 8) == IfWorkday(u + 1) + IfWorkday(u + 2) + IfWorkday(u + 3) + IfWorkday(u + 4)
              + IfWorkday(u + 5) + IfWorkday(u + 6) + IfWorkday(u + 7) + IfWorkday(u + 8)
  {
    assert WeekdaysFrom(u, 4) == IfWorkday(u + 1) + IfWorkday(u + 2) + IfWorkday(u + 3) + IfWorkday(u + 4) by {
      assert WeekdaysFrom(u, 2) == IfWorkday(u + 1) + IfWorkday(u + 2) by {
        assert WeekdaysFrom(u, 1) == IfWorkday(u + 1);
      }
      assert WeekdaysFrom(u, 3) == WeekdaysFrom(u, 2) + IfWorkday(u + 3);
    }
    assert WeekdaysFrom(u, 5) == WeekdaysFrom(u, 4) + IfWorkday(u + 5);
    assert WeekdaysFrom(u, 6) == WeekdaysFrom(u, 5) + IfWorkday(u + 6);
    assert WeekdaysFrom(u, 7) == WeekdaysFrom(u, 6) + IfWorkday(u + 7);
  }

  lemma ThreeMore(u: int)
    ensures WeekdaysFrom(u, 10) == WeekdaysFrom(u, 8) + IfWorkday(u + 9) + IfWorkday(u + 10)
    ensures WeekdaysFrom(u, 11) == WeekdaysFrom(u, 10) + IfWorkday(u + 11)
  {
    assert WeekdaysFrom(u, 9) == WeekdaysFrom(u, 8) + IfWorkday(u + 9);
  }

  lemma ElevenFrom(u: int)
    requires 0 <= u < 7
    ensures WeekdaysFrom(u, 8) < 7 <= WeekdaysFrom(u, 11)
    ensures u == 4 ==> WeekdaysFrom(u, 10) == 6 && WeekdaysFrom(u, 11) == 7
  {
    EightFrom(u);
    ThreeMore(u);
  }

  /** Dates that fix the calendar: 1 January 2024 was a Monday, 31 December 1969 a Wednesday;
      the 6th and 7th of January 2024 were a weekend. */
  lemma KnownDates()
    ensures UtcDay(1_704_067_200_000) == 1 && UtcDay(-1) == 3 && UtcDay(0) == 4
    ensures !IsWeekday(1_704_499_200_000) && !IsWeekday(1_704_585_600_000 + 86_399_999)
    ensures forall k: nat | k < 5 :: IsWeekday(1_704_067_200_000 + k * 86_400_000)
  {
  }

  const NO_SHIP_BUSINESS_DAYS := 7

  /** The ship-by deadline of a shipping payment made at `now`. */
  ghost predicate ShipDeadline(now: int, deadline: int) {
    exists k: nat :: NthWeekday(now, NO_SHIP_BUSINESS_DAYS, k) && deadline == DaysAfter(now, k)
  }

  /** The seller has nine to eleven days, and the deadline is never on a weekend. */
  lemma DeadlineSpan(now: int, deadline: int)
    requires ShipDeadline(now, deadline)
    ensures 9 * 24 * 3_600_000 <= deadline - now <= 11 * 24 * 3_600_000
    ensures IsWeekday(deadline)
  {
    var k: nat :| NthWeekday(now, NO_SHIP_BUSINESS_DAYS, k) && deadline == DaysAfter(now, k);
    SevenBusinessDaysSpan(now, k);
  }

  /** From a Thursday, seven business days end on the Monday after next. */
  lemma DeadlineFromThursday(now: int)
    requires UtcDay(now) == 4
    ensures ShipDeadline(now, DaysAfter(now, 11))
  {
    CountFromDay(now, 10);
    CountFromDay(now, 11);
    ElevenFrom(4);
    assert NthWeekday(now, 7, 11);
  }
}
