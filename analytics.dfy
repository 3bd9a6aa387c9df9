/**
 * The analytics page: the period filter over expenses and income, the
 * per-category breakdown drawn as a pie chart, progress against the monthly
 * category goals, and the twelve months offered by the month picker.
 */
module Analytics {
  import opened Text
  import opened Calendar
  import opened Seqs
  import opened FinanceTypes
  import opened Dashboard

  // ---------------------------------------------------------------------
  // Period filter
  // ---------------------------------------------------------------------

  /** The quick-select periods: past week, month, three months and year. */
  datatype Preset = PastWeek | PastMonth | PastThreeMonths | PastYear

  /**
   * The three filter kinds with the page state each one reads: the preset,
   * the `YYYY-MM` text of the month picker, and the two custom date fields
   * (`None` for a field left empty).
   */
  datatype PeriodFilter =
    | PresetPeriod(preset: Preset)
    | ByMonth(selectedMonth: string)
    | CustomRange(customStart: Option<Date>, customEnd: Option<Date>)

  /**
   * The two bounds records are compared against. A bound is `None` when it
   * is an invalid JavaScript date (built from `NaN`), which compares false
   * with everything.
   */
  datatype Window = Window(start: Option<Instant>, end: Option<Instant>)

  /** `t` lies between the two bounds, both included; never inside a window with an invalid bound. */
  predicate InWindow(t: Instant, w: Window) {
    w.start.Some? && w.end.Some? && AtOrBefore(w.start.value, t) && AtOrBefore(t, w.end.value)
  }

  /** How many months back the month index of a preset's start may lie. */
  function MonthsBack(p: Preset): nat {
    match p
    case PastWeek => 1
    case PastMonth => 1
    case PastThreeMonths => 3
    case PastYear => 12
  }

  /**
   * The start of a preset period: today's date with the day of month moved
   * back 7 (`setDate`), the month moved back 1 or 3 (`setMonth`) or the year
   * moved back 1 (`setFullYear`), each normalised as `Date` does, at the
   * current time of day.
   */
  function PresetStart(p: Preset, now: Instant): (start: Instant)
    requires now.Valid()
    ensures start.Valid() && start.millis == now.millis
  {
    var d := now.date;
    var date := match p
      case PastWeek => NewDate(d.year, d.month - 1, d.day - 7)
      case PastMonth => NewDate(d.year, d.month - 2, d.day)
      case PastThreeMonths => NewDate(d.year, d.month - 4, d.day)
      case PastYear => NewDate(d.year - 1, d.month - 1, d.day);
    Instant(date, now.millis)
  }

  /**
   * The year and month of a month-picker value: the numbers read from the
   * first two dash-separated parts, or `None` when either part is missing or
   * does not start with a digit.
   */
  function ParseSelectedMonth(selected: string): (r: Option<(nat, nat)>)
    ensures r.Some? ==> selected != [] && IsDigit(selected[0])
  {
    var parts := Split(selected, '-');
    var year := ParseInt(parts[0]);
    var month := if |parts| >= 2 then ParseInt(parts[1]) else None;
    if year.Some? && month.Some? then Some((year.value, month.value)) else None
  }

  /** The window a filter selects at instant `now`. */
  function FilterWindow(filter: PeriodFilter, now: Instant): (w: Window)
    requires now.Valid()
    ensures filter.PresetPeriod? ==> w.end == Some(now) && w.start.Some?
    ensures w.start.None? <==> w.end.None?
    ensures w.start.None? ==> filter.ByMonth? && ParseSelectedMonth(filter.selectedMonth).None?
  {
    match filter
    case PresetPeriod(p) => Window(Some(PresetStart(p, now)), Some(now))
    case ByMonth(selected) =>
      (match ParseSelectedMonth(selected)
       case None => Window(None, None)
       case Some((year, month)) =>
         Window(Some(Midnight(DateFromParts(year, month - 1, 1))),
                Some(Midnight(DateFromParts(year, month, 0)))))
    case CustomRange(s, e) =>
      if s.Some? && e.Some? then Window(Some(Midnight(s.value)), Some(Midnight(e.value)))
      else Window(Some(now), Some(now))
  }

  /** The expenses whose date falls in the window, in their original order. */
  function ExpensesIn(expenses: seq<Expense>, w: Window): (r: seq<Expense>)
    ensures |r| <= |expenses|
    ensures forall i :: 0 <= i < |r| ==> r[i] in expenses && InWindow(Midnight(r[i].date), w)
  {
    Filter(expenses, (e: Expense) => InWindow(Midnight(e.date), w))
  }

  /** The income records whose date falls in the window, in their original order. */
  function IncomeIn(income: seq<Income>, w: Window): (r: seq<Income>)
    ensures |r| <= |income|
    ensures forall i :: 0 <= i < |r| ==> r[i] in income && InWindow(Midnight(r[i].date), w)
  {
    Filter(income, (i: Income) => InWindow(Midnight(i.date), w))
  }

  /**
   * `getFilteredData`: start and end begin at the current instant and are
   * then moved according to the filter kind; both lists are filtered by the
   * resulting window.
   */
  method GetFilteredData(expenses: seq<Expense>, income: seq<Income>, filter: PeriodFilter, now: Instant)
    returns (filteredExpenses: seq<Expense>, filteredIncome: seq<Income>)
    requires now.Valid()
    ensures filteredExpenses == ExpensesIn(expenses, FilterWindow(filter, now))
    ensures filteredIncome == IncomeIn(income, FilterWindow(filter, now))
  {
    var startDate: Option<Instant> := Some(now);
    var endDate: Option<Instant> := Some(now);
    if filter.PresetPeriod? {
      var d := now.date;
      match filter.preset {
        case PastWeek =>
          startDate := Some(Instant(NewDate(d.year, d.month - 1, d.day - 7), now.millis));
        case PastMonth =>
          startDate := Some(Instant(NewDate(d.year, d.month - 2, d.day), now.millis));
        case PastThreeMonths =>
          startDate := Some(Instant(NewDate(d.year, d.month - 4, d.day), now.millis));
        case PastYear =>
          startDate := Some(Instant(NewDate(d.year - 1, d.month - 1, d.day), now.millis));
      }
      assert startDate == Some(PresetStart(filter.preset, now));
    } else if filter.ByMonth? {
      var parts := Split(filter.selectedMonth, '-');
      var year := ParseInt(parts[0]);
      var month := if |parts| >= 2 then ParseInt(parts[1]) else None;
      if year.Some? && month.Some? {
        startDate := Some(Midnight(DateFromParts(year.value, month.value as int - 1, 1)));
        endDate := Some(Midnight(DateFromParts(year.value, month.value, 0)));
        assert ParseSelectedMonth(filter.selectedMonth) == Some((year.value, month.value));
      } else {
        assert ParseSelectedMonth(filter.selectedMonth).None?;
        startDate := None;
        endDate := None;
      }
    } else if filter.customStart.Some? && filter.customEnd.Some? {
      startDate := Some(Midnight(filter.customStart.value));
      endDate := Some(Midnight(filter.customEnd.value));
    }
    assert Window(startDate, endDate) == FilterWindow(filter, now);
    filteredExpenses := ExpensesIn(expenses, Window(startDate, endDate));
    filteredIncome := IncomeIn(income, Window(startDate, endDate));
  }

  /**
   * A preset window ends now and starts at the current time of day on an
   * earlier date, whose month lies `MonthsBack(p)` months back or one month
   * later than that (when the day of month overflowed a shorter month).
   */
  lemma PresetWindowEndsNow(p: Preset, now: Instant)
    requires now.Valid()
    ensures FilterWindow(PresetPeriod(p), now).end == Some(now)
    ensures var start := PresetStart(p, now);
      FilterWindow(PresetPeriod(p), now).start == Some(start)
      && start.date.Ordinal() < now.date.Ordinal()
      && now.date.MonthIndex() - MonthsBack(p) <= start.date.MonthIndex() <= now.date.MonthIndex() - MonthsBack(p) + 1
  {
    var d := now.date;
    var start := PresetStart(p, now).date;
    match p {
      case PastWeek => NewDateLanding(d.year, d.month - 1, d.day - 7);
      case PastMonth => NewDateLanding(d.year, d.month - 2, d.day);
      case PastThreeMonths => NewDateLanding(d.year, d.month - 4, d.day);
      case PastYear => NewDateLanding(d.year - 1, d.month - 1, d.day);
    }
    OrdinalInMonthBlock(start);
    OrdinalInMonthBlock(d);
  }

  /** The value of a month option: the year, a dash and the month as two digits. */
  function MonthValue(year: int, month: int): (value: string)
    ensures year >= 0 && month >= 0 ==> ParseSelectedMonth(value) == Some((year, month))
  {
    if year >= 0 && month >= 0 then
      MonthValueRoundTrip(year, month);
      IntString(year) + "-" + Pad2(month)
    else
      IntString(year) + "-" + Pad2(month)
  }

  /** The year, a dash and the two-digit month read back as that year and month. */
  lemma MonthValueRoundTrip(year: nat, month: nat)
    ensures ParseSelectedMonth(IntString(year) + "-" + Pad2(month)) == Some((year, month))
  {
    var y, m := IntString(year), Pad2(month);
    ParseIntString(year);
    ParseIntPad2(month);
    assert forall i :: 0 <= i < |y| ==> y[i] != '-' by {
      assert forall i :: 0 <= i < |y| ==> IsDigit(y[i]);
    }
    SplitAtFirstSeparator(y, '-', m);
    SplitWithoutSeparator(m, '-');
    assert y + "-" + m == y + ['-'] + m;
  }

  /**
   * Filtering by the month value of a month admits exactly the dates of
   * that calendar month, from its first to its last day.
   */
  lemma MonthWindowIsWholeMonth(year: nat, month: int, now: Instant, d: Date)
    requires year >= 100 && 1 <= month <= 12
    requires now.Valid() && d.Valid()
    ensures InWindow(Midnight(d), FilterWindow(ByMonth(MonthValue(year, month)), now))
        <==> d.year == year && d.month == month
  {
    var first, last := Date(year, month, 1), Date(year, month, DaysInMonth(year, month));
    MonthWindowBounds(year, month, now);
    assert InWindow(Midnight(d), FilterWindow(ByMonth(MonthValue(year, month)), now))
       <==> first.Ordinal() <= d.Ordinal() <= last.Ordinal();
    OrdinalInMonthBlock(d);
    if d.year == year && d.month == month {
      assert first.Ordinal() <= d.Ordinal() <= last.Ordinal();
    } else {
      MonthIndexInjective(d, first);
      OrdinalInMonthBlock(first);
    }
  }

  /** The window of a month value runs from midnight of its first day to midnight of its last. */
  lemma MonthWindowBounds(year: nat, month: int, now: Instant)
    requires year >= 100 && 1 <= month <= 12
    requires now.Valid()
    ensures FilterWindow(ByMonth(MonthValue(year, month)), now)
         == Window(Some(Midnight(Date(year, month, 1))), Some(Midnight(Date(year, month, DaysInMonth(year, month)))))
  {
    assert ParseSelectedMonth(MonthValue(year, month)) == Some((year, month));
    MonthBoundDates(year, month);
  }

  /** The dates the month filter builds are the first and the last day of the month. */
  lemma MonthBoundDates(year: nat, month: int)
    requires year >= 100 && 1 <= month <= 12
    ensures DateFromParts(year, month - 1, 1) == Date(year, month, 1)
    ensures DateFromParts(year, month, 0) == Date(year, month, DaysInMonth(year, month))
  {
    var last := DateFromParts(year, month, 0);
    NewDateDayZero(year, month);
    MonthIndexInjective(last, Date(year, month, 1));
  }

  /** A month value that does not parse gives a window no record falls in. */
  lemma UnparsedMonthShowsNothing(selected: string, now: Instant, t: Instant)
    requires now.Valid() && ParseSelectedMonth(selected).None?
    ensures !InWindow(t, FilterWindow(ByMonth(selected), now))
  {
  }

  /**
   * A custom range with both dates admits the days from the start to the
   * end date inclusive; with either date missing the window shrinks to the
   * current instant, so only a record of today passes, and only at midnight.
   */
  lemma CustomWindowMeaning(s: Option<Date>, e: Option<Date>, now: Instant, d: Date)
    requires now.Valid() && d.Valid()
    requires s.Some? ==> s.value.Valid()
    requires e.Some? ==> e.value.Valid()
    ensures s.Some? && e.Some? ==>
              (InWindow(Midnight(d), FilterWindow(CustomRange(s, e), now)) <==>
                 s.value.Ordinal() <= d.Ordinal() <= e.value.Ordinal())
    ensures s.None? || e.None? ==>
              (InWindow(Midnight(d), FilterWindow(CustomRange(s, e), now)) <==>
                 d == now.date && now.millis == 0)
  {
    OrdinalOrder(d, now.date);
  }

  // ---------------------------------------------------------------------
  // Category breakdown
  // ---------------------------------------------------------------------

  /** One slice of the spending pie chart. */
  datatype PieSlice = PieSlice(name: string, value: int, color: string)

  const DefaultSliceColor := "hsl(220, 70%, 50%)"

  /**
   * The slice of one category: named `emoji name` after the category when
   * it is known and after its id otherwise, colored by the category unless
   * the category is unknown or has an empty color.
   */
  function SliceOf(categoryId: string, amount: int, categories: seq<CustomCategory>): (slice: PieSlice)
    ensures slice.value == amount && slice.color != []
    ensures FindCategory(categories, categoryId).None? ==> slice.name == categoryId && slice.color == DefaultSliceColor
  {
    var category := FindCategory(categories, categoryId);
    PieSlice(
      if category.Some? then category.value.emoji + " " + category.value.name else categoryId,
      amount,
      ColorOr(category, DefaultSliceColor))
  }

  /** The slices for the keys `ks` of a spending map, in the order of `ks`. */
  function Slices(spending: map<string, int>, ks: seq<string>, categories: seq<CustomCategory>): seq<PieSlice> {
    seq(|ks|, i requires 0 <= i < |ks| => SliceOf(ks[i], if ks[i] in spending then spending[ks[i]] else 0, categories))
  }

  /**
   * The pie chart: one slice per category with spending, in the order the
   * categories first occur.
   */
  function PieData(filtered: seq<Expense>, categories: seq<CustomCategory>): (slices: seq<PieSlice>)
    ensures filtered == [] ==> slices == []
  {
    Slices(SpendByCategory(filtered), Categories(filtered), categories)
  }

  function SliceTotal(slices: seq<PieSlice>): int {
    if slices == [] then 0 else SliceTotal(slices[..|slices| - 1]) + slices[|slices| - 1].value
  }

  lemma {:induction false} SlicesTotal(spending: map<string, int>, ks: seq<string>, categories: seq<CustomCategory>)
    ensures SliceTotal(Slices(spending, ks, categories)) == SumValues(spending, ks)
  {
    if ks != [] {
      var init := ks[..|ks| - 1];
      SlicesTotal(spending, init, categories);
      var s := Slices(spending, ks, categories);
      assert s[..|s| - 1] == Slices(spending, init, categories);
      assert s[|s| - 1].value == if ks[|ks| - 1] in spending then spending[ks[|ks| - 1]] else 0;
    }
  }

  /**
   * The pie chart has one slice per category that occurs among the
   * filtered expenses, the slice of a category shows that category's
   * total, and the slices add up to the total of the filtered expenses.
   */
  lemma PieDataMeaning(filtered: seq<Expense>, categories: seq<CustomCategory>)
    ensures |PieData(filtered, categories)| == |Categories(filtered)|
    ensures forall i :: 0 <= i < |Categories(filtered)| ==>
      PieData(filtered, categories)[i].value == CategoryTotal(filtered, Categories(filtered)[i])
    ensures SliceTotal(PieData(filtered, categories)) == TotalExpenses(filtered)
  {
    SlicesTotal(SpendByCategory(filtered), Categories(filtered), categories);
    SpendByCategoryMeaning(filtered);
    SpendByCategorySumsToTotal(filtered);
  }

  // ---------------------------------------------------------------------
  // Goal progress
  // ---------------------------------------------------------------------

  /** A JavaScript number as a division of two finite numbers can produce it. */
  datatype Number = Finite(value: real) | Infinity(positive: bool) | NaN

  /** The quotient of two numbers, with the infinities and `NaN` a division by zero gives. */
  function Divide(a: real, b: real): (q: Number)
    ensures q.Finite? <==> b != 0.0
    ensures q.NaN? <==> a == 0.0 && b == 0.0
    ensures q.Finite? ==> q.value * b == a
  {
    if b != 0.0 then Finite(a / b)
    else if a > 0.0 then Infinity(true)
    else if a < 0.0 then Infinity(false)
    else NaN
  }

  /** A ratio as a percentage; the infinities and `NaN` are kept as they are. */
  function Percent(n: Number): Number {
    match n
    case Finite(v) => Finite(v * 100.0)
    case _ => n
  }

  /** `n` is above `bound`: never for `NaN`, and decided by the sign for an infinity. */
  predicate Exceeds(n: Number, bound: real) {
    match n
    case Finite(v) => v > bound
    case Infinity(positive) => positive
    case NaN => false
  }

  datatype GoalStatus = Good | Warning | Exceeded

  /** The status of a goal: exceeded above 100 percent, warning above 80 percent, good otherwise. */
  function StatusOf(progress: Number): (status: GoalStatus)
    ensures progress.NaN? ==> status == Good
    ensures progress.Infinity? ==> status == if progress.positive then Exceeded else Good
    ensures progress.Finite? ==>
      (status == Exceeded <==> progress.value > 100.0)
      && (status == Warning <==> 80.0 < progress.value <= 100.0)
      && (status == Good <==> progress.value <= 80.0)
  {
    if Exceeds(progress, 100.0) then Exceeded
    else if Exceeds(progress, 80.0) then Warning
    else Good
  }

  /**
   * What the page shows for a goal: the goal, the category it names (if
   * any), what was spent, the progress in percent, the spending projected
   * to the end of the month and its progress, what remains and the status.
   */
  datatype GoalReport = GoalReport(
    goal: CategoryGoal,
    category: Option<CustomCategory>,
    spent: int,
    progress: Number,
    projectedSpending: real,
    projectedProgress: Number,
    remaining: int,
    status: GoalStatus)

  /**
   * The report of one goal against the spending map of the filtered
   * expenses, with the projection taken over the month of `today`.
   */
  function GoalReportOf(goal: CategoryGoal, spending: map<string, int>, categories: seq<CustomCategory>, today: Date): (r: GoalReport)
    requires today.Valid()
    ensures r.goal == goal
    ensures r.remaining >= 0 && r.remaining >= goal.monthlyTarget - r.spent
    ensures r.spent <= goal.monthlyTarget ==> r.remaining == goal.monthlyTarget - r.spent
    ensures r.spent >= goal.monthlyTarget ==> r.remaining == 0
    ensures goal.category !in spending ==> r.spent == 0
  {
    var spent := if goal.category in spending then spending[goal.category] else 0;
    var target := goal.monthlyTarget as real;
    var progress := Percent(Divide(spent as real, target));
    var projected := ProjectedSpending(spent, today);
    GoalReport(
      goal,
      FindCategory(categories, goal.category),
      spent,
      progress,
      projected,
      Percent(Divide(projected, target)),
      if goal.monthlyTarget - spent > 0 then goal.monthlyTarget - spent else 0,
      StatusOf(progress))
  }

  /**
   * The spending so far divided by the days passed (the day of month) and
   * multiplied by the days in the current month.
   */
  function ProjectedSpending(spent: int, today: Date): (projected: real)
    requires today.Valid()
    ensures spent >= 0 ==> projected >= 0.0
    ensures spent <= 0 ==> projected <= 0.0
  {
    var daysInMonth := DateFromParts(today.year, today.month, 0).day;
    var daysPassed := today.day;
    (spent as real / daysPassed as real) * daysInMonth as real
  }

  /** One report per goal, in the order of the goals. */
  function GoalProgress(goals: seq<CategoryGoal>, filtered: seq<Expense>, categories: seq<CustomCategory>, today: Date): (reports: seq<GoalReport>)
    requires today.Valid()
    ensures |reports| == |goals|
    ensures forall i :: 0 <= i < |goals| ==> reports[i].goal == goals[i]
  {
    var spending := SpendByCategory(filtered);
    seq(|goals|, i requires 0 <= i < |goals| => GoalReportOf(goals[i], spending, categories, today))
  }

  /**
   * The spending a goal is measured against is the total of its category
   * among the filtered expenses; a category without expenses counts zero.
   */
  lemma GoalSpentIsCategoryTotal(goals: seq<CategoryGoal>, filtered: seq<Expense>, categories: seq<CustomCategory>, today: Date)
    requires today.Valid()
    ensures forall i :: 0 <= i < |goals| ==>
      GoalProgress(goals, filtered, categories, today)[i].spent == CategoryTotal(filtered, goals[i].category)
  {
    SpendByCategoryMeaning(filtered);
    forall i | 0 <= i < |goals|
      ensures GoalProgress(goals, filtered, categories, today)[i].spent == CategoryTotal(filtered, goals[i].category)
    {
      if goals[i].category !in Categories(filtered) {
        CategoryTotalAbsent(filtered, goals[i].category);
      }
    }
  }

  /**
   * The status thresholds in terms of the amounts: for a positive target a
   * goal is exceeded above the target and in warning above four fifths of
   * it (exactly 80% is still good, exactly 100% a warning); a zero target is
   * exceeded by any positive spending; a negative target flips the
   * comparisons.
   */
  lemma StatusThresholds(spent: int, target: int)
    ensures var status := StatusOf(Percent(Divide(spent as real, target as real)));
      (target > 0 ==>
        (status == Exceeded <==> spent > target)
        && (status == Warning <==> 4 * target < 5 * spent <= 5 * target)
        && (status == Good <==> 5 * spent <= 4 * target))
      && (target == 0 ==>
        (status == Exceeded <==> spent > 0)
        && (status == Good <==> spent <= 0))
      && (target < 0 ==>
        (status == Exceeded <==> spent < target)
        && (status == Warning <==> target <= spent && 5 * spent < 4 * target)
        && (status == Good <==> 5 * spent >= 4 * target))
  {
    var s, t := spent as real, target as real;
    if target != 0 {
      var q := s / t;
      ScaledAbove(q, t, s, 1.0);
      ScaledAbove(q, t, s, 0.8);
    }
  }

  /** For `q == s / t`: `q > k` exactly when `s` lies beyond `k * t` on the side of `t`'s sign. */
  lemma ScaledAbove(q: real, t: real, s: real, k: real)
    requires t != 0.0 && q == s / t
    ensures q * 100.0 > k * 100.0 <==> (if t > 0.0 then s > k * t else s < k * t)
  {
    assert s == q * t;
    assert s - k * t == (q - k) * t;
  }

  /**
   * Day 0 of the month after the current one is the last day of the
   * current month, and the day of month never exceeds it.
   */
  lemma DaysInCurrentMonth(today: Date)
    requires today.Valid() && today.year >= 100
    ensures DateFromParts(today.year, today.month, 0).day == DaysInMonth(today.year, today.month)
  {
    NewDateDayZero(today.year, today.month);
    MonthIndexInjective(DateFromParts(today.year, today.month, 0), today);
  }

  /**
   * The projection scales the spending so far by the fraction of the month
   * still to come: for non-negative spending it is at least what was spent,
   * and on the last day of the month it is exactly that.
   */
  lemma ProjectionBounds(spent: int, today: Date)
    requires today.Valid() && today.year >= 100
    ensures spent >= 0 ==> spent as real <= ProjectedSpending(spent, today)
    ensures spent <= 0 ==> ProjectedSpending(spent, today) <= spent as real
    ensures today.day == DaysInMonth(today.year, today.month) ==> ProjectedSpending(spent, today) == spent as real
  {
    DaysInCurrentMonth(today);
    Scale(spent as real, today.day as real, DaysInMonth(today.year, today.month) as real);
  }

  /** `(s / p) * n` for `1 <= p <= n` moves `s` away from zero, and not at all when `p == n`. */
  lemma Scale(s: real, p: real, n: real)
    requires 1.0 <= p <= n
    ensures s >= 0.0 ==> s <= (s / p) * n
    ensures s <= 0.0 ==> (s / p) * n <= s
    ensures p == n ==> (s / p) * n == s
  {
    var daily := s / p;
    assert daily * p == s;
    assert daily * n - s == daily * (n - p);
    if s >= 0.0 {
      assert daily >= 0.0;
    } else {
      assert daily < 0.0;
    }
  }

  // ---------------------------------------------------------------------
  // Month picker
  // ---------------------------------------------------------------------

  /** The first day of the month `i` months before the month of `today`. */
  function MonthOptionDate(today: Date, i: int): Date {
    DateFromParts(today.year, today.month - 1 - i, 1)
  }

  /** The first days of the `n` most recent months, newest first. */
  function OptionDates(today: Date, n: nat): seq<Date> {
    if n == 0 then [] else OptionDates(today, n - 1) + [MonthOptionDate(today, n - 1)]
  }

  /** The month value of each date. */
  function OptionValues(dates: seq<Date>): (values: seq<string>) {
    seq(|dates|, i requires 0 <= i < |dates| => MonthValue(dates[i].year, dates[i].month))
  }

  lemma {:induction false} OptionDatesLength(today: Date, n: nat)
    ensures |OptionDates(today, n)| == n
  {
    if n > 0 {
      OptionDatesLength(today, n - 1);
    }
  }

  lemma {:induction false} OptionDatesAt(today: Date, n: nat, k: nat)
    requires k < n
    ensures |OptionDates(today, n)| == n && OptionDates(today, n)[k] == MonthOptionDate(today, k)
  {
    OptionDatesLength(today, n);
    if k < n - 1 {
      OptionDatesAt(today, n - 1, k);
    }
  }

  lemma OptionValuesSnoc(dates: seq<Date>, d: Date)
    ensures OptionValues(dates + [d]) == OptionValues(dates) + [MonthValue(d.year, d.month)]
  {
    var l, r := OptionValues(dates + [d]), OptionValues(dates) + [MonthValue(d.year, d.month)];
    assert |l| == |r|;
    forall k | 0 <= k < |l| ensures l[k] == r[k] {
      if k < |dates| {
        assert (dates + [d])[k] == dates[k];
      }
    }
  }

  /** The values of the month picker, newest first. */
  function MonthOptions(today: Date): (options: seq<string>)
    ensures |options| == 12
  {
    OptionDatesLength(today, 12);
    OptionValues(OptionDates(today, 12))
  }

  /** `getMonthOptions`: pushes the value of each of the last twelve months. */
  method GetMonthOptions(today: Date) returns (months: seq<string>)
    ensures months == MonthOptions(today)
  {
    months := [];
    ghost var dates: seq<Date> := [];
    for i := 0 to 12
      invariant dates == OptionDates(today, i)
      invariant months == OptionValues(dates)
    {
      var date := MonthOptionDate(today, i);
      var value := MonthValue(date.year, date.month);
      OptionValuesSnoc(dates, date);
      months := months + [value];
      dates := dates + [date];
    }
  }

  /** Option `i` is the value of the month `i` months back, and reads back as that month. */
  lemma MonthOptionAt(today: Date, i: nat)
    requires today.Valid() && today.year >= 100 && i < 12
    ensures |MonthOptions(today)| == 12
    ensures ParseSelectedMonth(MonthOptions(today)[i]).Some?
    ensures var (y, m) := ParseSelectedMonth(MonthOptions(today)[i]).value;
      1 <= m <= 12 && y * 12 + m - 1 == today.MonthIndex() - i
  {
    var dates := OptionDates(today, 12);
    OptionDatesAt(today, 12, i);
    var d := dates[i];
    NewDateFirstDay(today.year, today.month - 1 - i);
    MonthValueRoundTrip(d.year, d.month);
  }

  /**
   * The month picker offers the current month first (the value the picker
   * starts with) and then each earlier month down to eleven months back:
   * option `i` reads back as the month `i` months before today, so the
   * twelve values are all different.
   */
  lemma MonthOptionsAreLastTwelveMonths(today: Date)
    requires today.Valid() && today.year >= 100
    ensures |MonthOptions(today)| == 12
    ensures MonthOptions(today)[0] == MonthValue(today.year, today.month)
    ensures forall i :: 0 <= i < 12 ==>
      ParseSelectedMonth(MonthOptions(today)[i]).Some?
      && var (y, m) := ParseSelectedMonth(MonthOptions(today)[i]).value;
         1 <= m <= 12 && y * 12 + m - 1 == today.MonthIndex() - i
    ensures forall i, j :: 0 <= i < j < 12 ==> MonthOptions(today)[i] != MonthOptions(today)[j]
  {
    MonthOptionAt(today, 0);
    forall i | 0 <= i < 12
      ensures ParseSelectedMonth(MonthOptions(today)[i]).Some?
      ensures var (y, m) := ParseSelectedMonth(MonthOptions(today)[i]).value;
        1 <= m <= 12 && y * 12 + m - 1 == today.MonthIndex() - i
    {
      MonthOptionAt(today, i);
    }
    var dates := OptionDates(today, 12);
    OptionDatesAt(today, 12, 0);
    NewDateFirstDay(today.year, today.month - 1);
    MonthIndexInjective(dates[0], today);
  }
}
