/** The event form's date and time picker (`components/DateTimePicker.jsx`):
    the quarter-hour slots grouped into four periods, the period of an hour,
    the `YYYY-MM-DD` string a picked day becomes, the calendar grid of a
    month and the test for the selected day. Locale display strings and the
    weekday computation are not modelled: a month's length and its first
    weekday are inputs. */
module DateTimePicker {
  import opened Common

  // ---------------------------------------------------------------------------
  // Time slots
  // ---------------------------------------------------------------------------

  /** A time option: its `HH:MM` value and its hour. */
  datatype Slot = Slot(value: string, hour: nat)

  /** The number of quarter hours in a day. */
  const SLOTS_PER_DAY: nat := 96

  /** The `i`-th quarter hour of the day. */
  function SlotAt(i: nat): (s: Slot)
    requires i < SLOTS_PER_DAY
    ensures s.hour == i / 4
  {
    Slot(Pad2(i / 4) + ":" + Pad2(15 * (i % 4)), i / 4)
  }

  /** The value reads back as the hour and the minute it was made from, so
      distinct quarter hours have distinct values. */
  lemma SlotValueRoundTrip(i: nat)
    requires i < SLOTS_PER_DAY
    ensures ParseDecimal(SlotAt(i).value[..2]) == i / 4
    ensures ParseDecimal(SlotAt(i).value[3..]) == 15 * (i % 4)
  {
    var v := SlotAt(i).value;
    assert v[..2] == Pad2(i / 4);
    assert v[3..] == Pad2(15 * (i % 4));
    Pad2RoundTrip(i / 4);
    Pad2RoundTrip(15 * (i % 4));
  }

  lemma SlotValuesDistinct(i: nat, j: nat)
    requires i < SLOTS_PER_DAY && j < SLOTS_PER_DAY && i != j
    ensures SlotAt(i).value != SlotAt(j).value
  {
    SlotValueRoundTrip(i);
    SlotValueRoundTrip(j);
  }

  datatype Period = Morning | Afternoon | Evening | Night

  /** `getTimePeriod`. */
  function GetTimePeriod(hour: int): Period {
    if 6 <= hour < 12 then Morning
    else if 12 <= hour < 17 then Afternoon
    else if 17 <= hour < 21 then Evening
    else Night
  }

  /** The period of the `n`-th quarter hour, by quarter-hour index. */
  function PeriodOfIndex(n: nat): (p: Period)
    ensures n < SLOTS_PER_DAY ==> p == GetTimePeriod(n / 4)
  {
    if 24 <= n < 48 then Morning
    else if 48 <= n < 68 then Afternoon
    else if 68 <= n < 84 then Evening
    else Night
  }

  /** The quarter hours `lo` up to `hi`, as far as the first `n` have been
      generated. */
  function Band(lo: nat, hi: nat, n: nat): (r: seq<Slot>)
    requires lo <= hi <= SLOTS_PER_DAY
    ensures |r| == (if n <= lo then 0 else if n >= hi then hi - lo else n - lo)
  {
    var count := if n <= lo then 0 else if n >= hi then hi - lo else n - lo;
    seq(count, j requires 0 <= j < count => SlotAt(lo + j))
  }

  /** The four period lists `generateTimeOptions` returns. */
  datatype TimeOptions = TimeOptions(morning: seq<Slot>, afternoon: seq<Slot>, evening: seq<Slot>, night: seq<Slot>)

  /** The lists after the first `n` quarter hours: Morning holds [6, 12),
      Afternoon [12, 17), Evening [17, 21) and Night the rest, each in the
      order of generation. */
  function OptionsAfter(n: nat): TimeOptions
    requires n <= SLOTS_PER_DAY
  {
    TimeOptions(Band(24, 48, n), Band(48, 68, n), Band(68, 84, n), Band(0, 24, n) + Band(84, 96, n))
  }

  /** One more generated quarter hour extends a band exactly when it lies in
      the band. */
  lemma BandStep(lo: nat, hi: nat, n: nat)
    requires lo <= hi <= SLOTS_PER_DAY && n < SLOTS_PER_DAY
    ensures Band(lo, hi, n + 1) == if lo <= n < hi then Band(lo, hi, n) + [SlotAt(n)] else Band(lo, hi, n)
  {
  }

  /** `periods[k].times.push(slot)` for the list of period `p`. */
  function Push(t: TimeOptions, p: Period, s: Slot): TimeOptions {
    match p
    case Morning => t.(morning := t.morning + [s])
    case Afternoon => t.(afternoon := t.afternoon + [s])
    case Evening => t.(evening := t.evening + [s])
    case Night => t.(night := t.night + [s])
  }

  /** Generating one more quarter hour appends it to the list of its period
      and leaves the other three lists alone. */
  lemma OptionsStep(n: nat)
    requires n < SLOTS_PER_DAY
    ensures OptionsAfter(n + 1) == Push(OptionsAfter(n), PeriodOfIndex(n), SlotAt(n))
  {
    BandStep(24, 48, n);
    BandStep(48, 68, n);
    BandStep(68, 84, n);
    BandStep(0, 24, n);
    BandStep(84, 96, n);
  }

  /** The slot the generator builds from an hour and a quarter of it. */
  lemma QuarterHour(hour: nat, quarter: nat)
    requires hour < 24 && quarter < 4
    ensures SlotAt(4 * hour + quarter) == Slot(Pad2(hour) + ":" + Pad2(15 * quarter), hour)
    ensures PeriodOfIndex(4 * hour + quarter) == GetTimePeriod(hour)
  {
    assert (4 * hour + quarter) / 4 == hour && (4 * hour + quarter) % 4 == quarter;
  }

  /** `generateTimeOptions`: for each hour and each quarter of it, the slot
      is pushed onto its period's list. */
  method GenerateTimeOptions() returns (periods: TimeOptions)
    ensures periods == OptionsAfter(SLOTS_PER_DAY)
  {
    periods := TimeOptions([], [], [], []);
    ghost var generated := 0;
    var hour := 0;
    while hour < 24
      invariant 0 <= hour <= 24 && generated == 4 * hour
      invariant periods == OptionsAfter(generated)
    {
      var minute := 0;
      ghost var quarter := 0;
      while minute < 60
        invariant 0 <= quarter <= 4 && minute == 15 * quarter && generated == 4 * hour + quarter
        invariant periods == OptionsAfter(generated)
      {
        QuarterHour(hour, quarter);
        OptionsStep(generated);
        var timeObj := Slot(Pad2(hour) + ":" + Pad2(minute), hour);
        if hour >= 6 && hour < 12 {
          periods := Push(periods, Morning, timeObj);
        } else if hour >= 12 && hour < 17 {
          periods := Push(periods, Afternoon, timeObj);
        } else if hour >= 17 && hour < 21 {
          periods := Push(periods, Evening, timeObj);
        } else {
          periods := Push(periods, Night, timeObj);
        }
        minute, quarter, generated := minute + 15, quarter + 1, generated + 1;
      }
      hour := hour + 1;
    }
  }

  /** The list of one period. */
  function PeriodList(t: TimeOptions, p: Period): seq<Slot> {
    match p
    case Morning => t.morning
    case Afternoon => t.afternoon
    case Evening => t.evening
    case Night => t.night
  }

  /** 96 slots: 24 in the morning, 20 in the afternoon, 16 in the evening and
      36 at night. */
  lemma PeriodSizes()
    ensures var t := OptionsAfter(SLOTS_PER_DAY);
      |t.morning| == 24 && |t.afternoon| == 20 && |t.evening| == 16 && |t.night| == 36
  {
  }

  /** The quarter hour at position `k` of period `p`'s list. */
  function IndexInPeriod(p: Period, k: nat): nat {
    match p
    case Morning => 24 + k
    case Afternoon => 48 + k
    case Evening => 68 + k
    case Night => if k < 24 then k else 60 + k
  }

  /** Position `k` of a period's list holds the `IndexInPeriod(p, k)`-th
      quarter hour, and that quarter hour belongs to the period. */
  lemma PeriodEntry(p: Period, k: nat)
    requires k < |PeriodList(OptionsAfter(SLOTS_PER_DAY), p)|
    ensures IndexInPeriod(p, k) < SLOTS_PER_DAY
    ensures PeriodList(OptionsAfter(SLOTS_PER_DAY), p)[k] == SlotAt(IndexInPeriod(p, k))
    ensures PeriodOfIndex(IndexInPeriod(p, k)) == p
  {
    var t := OptionsAfter(SLOTS_PER_DAY);
    match p
    case Morning =>
      assert t.morning == Band(24, 48, SLOTS_PER_DAY);
    case Afternoon =>
      assert t.afternoon == Band(48, 68, SLOTS_PER_DAY);
    case Evening =>
      assert t.evening == Band(68, 84, SLOTS_PER_DAY);
    case Night =>
      var early, late := Band(0, 24, SLOTS_PER_DAY), Band(84, 96, SLOTS_PER_DAY);
      assert t.night == early + late && |early| == 24;
      if k >= 24 {
        assert t.night[k] == late[k - 24];
      }
  }

  /** A quarter hour is in its own period's list. */
  lemma SlotInOwnPeriod(i: nat)
    requires i < SLOTS_PER_DAY
    ensures SlotAt(i) in PeriodList(OptionsAfter(SLOTS_PER_DAY), PeriodOfIndex(i))
  {
    var p := PeriodOfIndex(i);
    var k: nat := match p
      case Morning => i - 24
      case Afternoon => i - 48
      case Evening => i - 68
      case Night => if i < 24 then i else i - 60;
    PeriodEntry(p, k);
  }

  /** A period's list holds only quarter hours of that period. */
  lemma PeriodHoldsOwnSlots(i: nat, p: Period)
    requires i < SLOTS_PER_DAY
    requires SlotAt(i) in PeriodList(OptionsAfter(SLOTS_PER_DAY), p)
    ensures p == PeriodOfIndex(i)
  {
    var l := PeriodList(OptionsAfter(SLOTS_PER_DAY), p);
    var k :| 0 <= k < |l| && l[k] == SlotAt(i);
    PeriodEntry(p, k);
    if IndexInPeriod(p, k) != i {
      SlotValuesDistinct(i, IndexInPeriod(p, k));
    }
  }

  /** Every quarter hour is offered in exactly one period, the one
      `getTimePeriod` names for its hour. */
  lemma SlotInItsPeriodOnly(i: nat, p: Period)
    requires i < SLOTS_PER_DAY
    ensures SlotAt(i) in PeriodList(OptionsAfter(SLOTS_PER_DAY), p) <==> p == GetTimePeriod(SlotAt(i).hour)
  {
    SlotInOwnPeriod(i);
    if SlotAt(i) in PeriodList(OptionsAfter(SLOTS_PER_DAY), p) {
      PeriodHoldsOwnSlots(i, p);
    }
  }

  /** Within each period the slots appear in the order of the day. */
  lemma PeriodsIncreasing(p: Period, a: nat, b: nat)
    requires a < b < |PeriodList(OptionsAfter(SLOTS_PER_DAY), p)|
    ensures var l := PeriodList(OptionsAfter(SLOTS_PER_DAY), p);
      exists i: nat, j: nat :: i < j < SLOTS_PER_DAY && l[a] == SlotAt(i) && l[b] == SlotAt(j)
  {
    PeriodEntry(p, a);
    PeriodEntry(p, b);
    assert IndexInPeriod(p, a) < IndexInPeriod(p, b);
  }

  /** A later quarter hour has a later time of day. */
  lemma SlotOrder(i: nat, j: nat)
    requires i < j < SLOTS_PER_DAY
    ensures SlotAt(i).hour * 60 + 15 * (i % 4) < SlotAt(j).hour * 60 + 15 * (j % 4)
    ensures ParseDecimal(SlotAt(i).value[..2]) * 60 + ParseDecimal(SlotAt(i).value[3..])
          < ParseDecimal(SlotAt(j).value[..2]) * 60 + ParseDecimal(SlotAt(j).value[3..])
  {
    SlotValueRoundTrip(i);
    SlotValueRoundTrip(j);
  }

  // ---------------------------------------------------------------------------
  // Dates
  // ---------------------------------------------------------------------------

  /** A local calendar day as a `Date` gives it: the full year, the month
      counted from 0, and the day of the month. */
  datatype CalendarDate = CalendarDate(year: nat, month: nat, day: nat)

  /** A day of a real month: month below 12, day between 1 and 31. */
  predicate IsCalendarDay(d: CalendarDate) {
    d.month < 12 && 1 <= d.day <= 31
  }

  /** `${year}-${month}-${day}` with the month shifted to start at 1 and both
      padded to two digits. */
  function FormatDate(d: CalendarDate): (r: string)
    requires IsCalendarDay(d)
    ensures |r| >= 7 && r[|r| - 3] == '-' && r[|r| - 6] == '-'
  {
    Decimal(d.year) + "-" + Pad2(d.month + 1) + "-" + Pad2(d.day)
  }

  /** The parts of a formatted date read back as the day it came from. */
  lemma FormatDateRoundTrip(d: CalendarDate)
    requires IsCalendarDay(d)
    ensures var s := FormatDate(d);
      ParseDecimal(s[..|s| - 6]) == d.year && ParseDecimal(s[|s| - 5..|s| - 3]) == d.month + 1
      && ParseDecimal(s[|s| - 2..]) == d.day
  {
    var s := FormatDate(d);
    assert s[..|s| - 6] == Decimal(d.year);
    assert s[|s| - 5..|s| - 3] == Pad2(d.month + 1);
    assert s[|s| - 2..] == Pad2(d.day);
    DecimalRoundTrip(d.year);
    Pad2RoundTrip(d.month + 1);
    Pad2RoundTrip(d.day);
  }

  /** Distinct days give distinct strings. */
  lemma FormatDateInjective(d: CalendarDate, e: CalendarDate)
    requires IsCalendarDay(d) && IsCalendarDay(e)
    ensures FormatDate(d) == FormatDate(e) <==> d == e
  {
    FormatDateRoundTrip(d);
    FormatDateRoundTrip(e);
  }

  /** What `handleDateChange` receives: typed text, or a picked day. */
  datatype DateInput = Typed(text: string) | Picked(date: CalendarDate)

  /** `handleDateChange`'s new `selectedDate`: a string passes unchanged, a
      day is formatted. */
  function HandleDateChange(input: DateInput): (r: string)
    requires input.Picked? ==> IsCalendarDay(input.date)
    ensures input.Typed? ==> r == input.text
    ensures input.Picked? ==> r == FormatDate(input.date)
  {
    match input
    case Typed(text) => text
    case Picked(date) => FormatDate(date)
  }

  /** `isSelected`: a calendar cell is selected when a date is selected and
      the cell's day formats to it. An empty cell is never selected. */
  predicate IsSelected(selectedDate: string, cell: Option<CalendarDate>)
    requires cell.Some? ==> IsCalendarDay(cell.value)
  {
    selectedDate != "" && cell.Some? && selectedDate == FormatDate(cell.value)
  }

  /** After a day is picked, that day and no other is shown selected. */
  lemma PickedDaySelected(picked: CalendarDate, cell: CalendarDate)
    requires IsCalendarDay(picked) && IsCalendarDay(cell)
    ensures IsSelected(HandleDateChange(Picked(picked)), Some(cell)) <==> cell == picked
  {
    FormatDateInjective(picked, cell);
  }

  /** Nothing is selected before a date is chosen. */
  lemma NothingSelectedInitially(cell: Option<CalendarDate>)
    requires cell.Some? ==> IsCalendarDay(cell.value)
    ensures !IsSelected("", cell)
  {
  }

  /** `getDaysInMonth`: one empty cell per weekday before the 1st, then the
      days 1 to `daysInMonth` of the month in order. */
  method GetDaysInMonth(year: nat, month: nat, startingDayOfWeek: nat, daysInMonth: nat)
    returns (days: seq<Option<CalendarDate>>)
    ensures |days| == startingDayOfWeek + daysInMonth
    ensures forall i :: 0 <= i < startingDayOfWeek ==> days[i].None?
    ensures forall i :: startingDayOfWeek <= i < |days| ==>
      days[i] == Some(CalendarDate(year, month, i - startingDayOfWeek + 1))
  {
    days := [];
    var i := 0;
    while i < startingDayOfWeek
      invariant 0 <= i <= startingDayOfWeek && |days| == i
      invariant forall k :: 0 <= k < i ==> days[k].None?
    {
      days := days + [None];
      i := i + 1;
    }
    var day := 1;
    while day <= daysInMonth
      invariant 1 <= day <= daysInMonth + 1 && |days| == startingDayOfWeek + day - 1
      invariant forall k :: 0 <= k < startingDayOfWeek ==> days[k].None?
      invariant forall k :: startingDayOfWeek <= k < |days| ==>
        days[k] == Some(CalendarDate(year, month, k - startingDayOfWeek + 1))
    {
      days := days + [Some(CalendarDate(year, month, day))];
      day := day + 1;
    }
  }
}
