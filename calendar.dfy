/**
 * The calendar page (app/calendar/calendar.js): the month grid of 42 day cells with the
 * tasks due on each day, the `YYYY-MM-DD` key that ties a cell to a task's due date, and
 * the toggle, delete and edit actions of the day popup, which name tasks by the decimal
 * text of their id.
 *
 * Dates follow the proleptic Gregorian calendar, with the month numbered from 0 as
 * `Date.getMonth` does. The weekday of the first of the month (`Date.getDay`), today's
 * date and the update time stamp come from the environment and are parameters.
 * Firestore writes, the popups and the notifications are not modelled.
 */
module Calendar {
  import opened Wrappers
  import opened JsText
  import opened TaskRecord

  const UserNotAuthenticated: string := "User not authenticated"
  const TaskNotFound: string := "Task not found"
  const FieldsRequired: string := "Please fill in all required fields."
  const DeleteFailedPrefix: string := "ไม่สามารถลบ task ได้: "
  const TaskDeleted: string := "Task deleted successfully!"
  const MarkedComplete: string := "Task marked as complete!"
  const MarkedIncomplete: string := "Task marked as incomplete!"
  const DayHeaders: seq<string> := ["Sun", "Mon", "Tue", "Wed", "Thu", "Fri", "Sat"]
  const GridCells: nat := 42
  const TasksPerCell: nat := 3

  // ---------------------------------------------------------------------------
  // Dates
  // ---------------------------------------------------------------------------

  /** A calendar date; `month` is 0 for January through 11 for December. */
  datatype Date = Date(year: int, month: int, day: int)

  predicate LeapYear(y: int) {
    (y % 4 == 0 && y % 100 != 0) || y % 400 == 0
  }

  function DaysInMonth(year: int, month: int): (n: int)
    requires 0 <= month < 12
    ensures 28 <= n <= 31
  {
    if month == 1 then (if LeapYear(year) then 29 else 28)
    else if month == 3 || month == 5 || month == 8 || month == 10 then 30
    else 31
  }

  predicate ValidDate(d: Date) {
    0 <= d.month < 12 && 1 <= d.day <= DaysInMonth(d.year, d.month)
  }

  /** The first day of the month after (`year`, `month`). */
  function NextMonthStart(year: int, month: int): Date
    requires 0 <= month < 12
  {
    if month < 11 then Date(year, month + 1, 1) else Date(year + 1, 0, 1)
  }

  /** The last day of the month before (`year`, `month`). */
  function PrevMonthEnd(year: int, month: int): Date
    requires 0 <= month < 12
  {
    if month > 0 then Date(year, month - 1, DaysInMonth(year, month - 1))
    else Date(year - 1, 11, 31)
  }

  function NextDay(d: Date): (r: Date)
    requires ValidDate(d)
    ensures ValidDate(r)
  {
    if d.day < DaysInMonth(d.year, d.month) then d.(day := d.day + 1)
    else NextMonthStart(d.year, d.month)
  }

  /** The date `n` days after `d`, as `setDate(getDate() + n)` normalises it. */
  function AddDays(d: Date, n: nat): (r: Date)
    requires ValidDate(d)
    ensures ValidDate(r)
  {
    if n == 0 then d else NextDay(AddDays(d, n - 1))
  }

  lemma {:induction false} AddDaysInMonth(d: Date, k: nat)
    requires ValidDate(d) && d.day + k <= DaysInMonth(d.year, d.month)
    ensures AddDays(d, k) == d.(day := d.day + k)
  {
    if k > 0 {
      AddDaysInMonth(d, k - 1);
    }
  }

  lemma {:induction false} AddDaysSplit(d: Date, a: nat, b: nat)
    requires ValidDate(d)
    ensures AddDays(d, a + b) == AddDays(AddDays(d, a), b)
  {
    if b > 0 {
      AddDaysSplit(d, a, b - 1);
    }
  }

  /** A month counted from year 0: consecutive months have consecutive indices. */
  function MonthIndex(d: Date): int {
    12 * d.year + d.month
  }

  // ---------------------------------------------------------------------------
  // formatDateForComparison and getTasksForDate
  // ---------------------------------------------------------------------------

  /** `formatDateForComparison`: the year, then the one-based month and the day padded to two digits. */
  function DateKey(d: Date): string {
    IntToString(d.year) + "-" + PadStart(IntToString(d.month + 1), 2, '0') + "-"
    + PadStart(IntToString(d.day), 2, '0')
  }

  /** The reading of a `YYYY-MM-DD` key back into a date; `None` for any other text. */
  function ParseDateKey(key: string): Option<Date> {
    if |key| == 10 && key[4] == '-' && key[7] == '-'
       && AllDigits(key[..4]) && AllDigits(key[5..7]) && AllDigits(key[8..])
    then Some(Date(DecimalValue(key[..4]), DecimalValue(key[5..7]) - 1, DecimalValue(key[8..])))
    else None
  }

  /** A number below 100, padded to two digits, is two digits denoting it. */
  lemma PadTwo(n: nat)
    requires n < 100
    ensures var p := PadStart(IntToString(n), 2, '0');
      |p| == 2 && AllDigits(p) && DecimalValue(p) == n
  {
    var p := PadStart(IntToString(n), 2, '0');
    if n < 10 {
      assert IntToString(n) == [DigitChar(n)];
      assert p == ['0', DigitChar(n)];
      assert p[..1] == "0";
    } else {
      assert NatToString(n / 10) == [DigitChar(n / 10)];
      assert p == IntToString(n);
    }
  }

  /** A year of 1000 to 9999 is written with four digits. */
  lemma FourDigitYear(y: int)
    requires 1000 <= y <= 9999
    ensures |IntToString(y)| == 4 && AllDigits(IntToString(y)) && DecimalValue(IntToString(y)) == y
  {
    var a, b, c := y / 1000, y / 100, y / 10;
    assert b / 10 == a && c / 10 == b;
    assert |NatToString(a)| == 1;
    assert |NatToString(b)| == 2;
    assert |NatToString(c)| == 3;
    assert |NatToString(y)| == 4;
  }

  /**
   * For a valid date of a four-digit year the key is ten characters, `YYYY-MM-DD`, and
   * reads back as the same date: distinct such days have distinct keys.
   */
  lemma DateKeyRoundTrip(d: Date)
    requires ValidDate(d) && 1000 <= d.year <= 9999
    ensures |DateKey(d)| == 10 && DateKey(d)[4] == '-' && DateKey(d)[7] == '-'
    ensures ParseDateKey(DateKey(d)) == Some(d)
  {
    var y := IntToString(d.year);
    var m := PadStart(IntToString(d.month + 1), 2, '0');
    var dd := PadStart(IntToString(d.day), 2, '0');
    assert |y| == 4 && AllDigits(y) && DecimalValue(y) == d.year by {
      FourDigitYear(d.year);
    }
    assert |m| == 2 && AllDigits(m) && DecimalValue(m) == d.month + 1 by {
      PadTwo(d.month + 1);
    }
    assert |dd| == 2 && AllDigits(dd) && DecimalValue(dd) == d.day by {
      PadTwo(d.day);
    }
    ParseKeyPieces(y, m, dd);
    assert DateKey(d) == y + "-" + m + "-" + dd;
  }

  /** A key assembled from a four-, a two- and a two-digit piece reads back as their values. */
  lemma ParseKeyPieces(y: string, m: string, dd: string)
    requires |y| == 4 && |m| == 2 && |dd| == 2 && AllDigits(y) && AllDigits(m) && AllDigits(dd)
    ensures var key := y + "-" + m + "-" + dd;
      && |key| == 10 && key[4] == '-' && key[7] == '-'
      && ParseDateKey(key) == Some(Date(DecimalValue(y), DecimalValue(m) - 1, DecimalValue(dd)))
  {
    var key := y + "-" + m + "-" + dd;
    KeyPieces(y, m, dd);
    var a, b, c := key[..4], key[5..7], key[8..];
    assert a == y && b == m && c == dd;
    assert AllDigits(a) && AllDigits(b) && AllDigits(c);
    assert ParseDateKey(key) == Some(Date(DecimalValue(a), DecimalValue(b) - 1, DecimalValue(c)));
  }

  /** A key assembled from a four-, a two- and a two-character piece splits back into them. */
  lemma KeyPieces(y: string, m: string, dd: string)
    requires |y| == 4 && |m| == 2 && |dd| == 2
    ensures var key := y + "-" + m + "-" + dd;
      |key| == 10 && key[4] == '-' && key[7] == '-' && key[..4] == y && key[5..7] == m && key[8..] == dd
  {
    var key := y + "-" + m + "-" + dd;
    assert key[..4] == y && key[5..7] == m && key[8..] == dd;
  }

  /** A key assembled from a year and two two-character pieces splits back into them. */
  lemma SplitKey(y: string, m: string, dd: string)
    requires |m| == 2 && |dd| == 2
    ensures var key := y + "-" + m + "-" + dd;
      && |key| == |y| + 6 && key[..|y|] == y
      && key[|y| + 1..|y| + 3] == m && key[|y| + 4..] == dd
  {
    var key := y + "-" + m + "-" + dd;
    assert key[..|y|] == y;
    assert key[|y| + 1..|y| + 3] == m;
    assert key[|y| + 4..] == dd;
  }

  /** Two keys assembled from a year and two two-character pieces are equal only piece by piece. */
  lemma KeyPartsEqual(ya: string, ma: string, da: string, yb: string, mb: string, db: string)
    requires |ma| == 2 && |da| == 2 && |mb| == 2 && |db| == 2
    requires ya + "-" + ma + "-" + da == yb + "-" + mb + "-" + db
    ensures ya == yb && ma == mb && da == db
  {
    SplitKey(ya, ma, da);
    SplitKey(yb, mb, db);
  }

  /** Distinct valid days of any year, negative and five-digit years included, have distinct keys. */
  lemma DateKeyInjective(a: Date, b: Date)
    requires ValidDate(a) && ValidDate(b)
    requires DateKey(a) == DateKey(b)
    ensures a == b
  {
    var ma, da := PadStart(IntToString(a.month + 1), 2, '0'), PadStart(IntToString(a.day), 2, '0');
    var mb, db := PadStart(IntToString(b.month + 1), 2, '0'), PadStart(IntToString(b.day), 2, '0');
    assert |ma| == 2 && DecimalValue(ma) == a.month + 1 by { PadTwo(a.month + 1); }
    assert |da| == 2 && DecimalValue(da) == a.day by { PadTwo(a.day); }
    assert |mb| == 2 && DecimalValue(mb) == b.month + 1 by { PadTwo(b.month + 1); }
    assert |db| == 2 && DecimalValue(db) == b.day by { PadTwo(b.day); }
    KeyPartsEqual(IntToString(a.year), ma, da, IntToString(b.year), mb, db);
    IntToStringInjective(a.year, b.year);
  }

  /** `tasks.filter(task => task.dueDate === key)`. */
  function TasksDue(tasks: seq<Task>, key: string): seq<Task> {
    if tasks == [] then []
    else if tasks[0].dueDate == key then [tasks[0]] + TasksDue(tasks[1..], key)
    else TasksDue(tasks[1..], key)
  }

  /** The tasks due on a key are exactly the stored tasks whose due date is that key. */
  lemma {:induction false} TasksDueSpec(tasks: seq<Task>, key: string)
    ensures |TasksDue(tasks, key)| <= |tasks|
    ensures forall t :: t in TasksDue(tasks, key) <==> t in tasks && t.dueDate == key
  {
    if tasks != [] {
      TasksDueSpec(tasks[1..], key);
      assert forall j :: 1 <= j < |tasks| ==> tasks[j] == tasks[1..][j - 1];
    }
  }

  /** The day's tasks keep their stored order: the filter distributes over concatenation. */
  lemma {:induction false} TasksDueConcat(a: seq<Task>, b: seq<Task>, key: string)
    ensures TasksDue(a + b, key) == TasksDue(a, key) + TasksDue(b, key)
  {
    if a == [] {
      assert a + b == b;
    } else {
      assert (a + b)[0] == a[0] && (a + b)[1..] == a[1..] + b;
      TasksDueConcat(a[1..], b, key);
    }
  }

  /** `getTasksForDate`: the tasks due on a day are exactly those whose due date is its key. */
  function GetTasksForDate(tasks: seq<Task>, d: Date): seq<Task> {
    TasksDue(tasks, DateKey(d))
  }

  /** Each task is due on at most one day: no task appears in two cells. */
  lemma TaskOnOneDay(tasks: seq<Task>, t: Task, a: Date, b: Date)
    requires ValidDate(a) && ValidDate(b)
    requires t in GetTasksForDate(tasks, a) && t in GetTasksForDate(tasks, b)
    ensures a == b
  {
    TasksDueSpec(tasks, DateKey(a));
    TasksDueSpec(tasks, DateKey(b));
    DateKeyInjective(a, b);
  }

  // ---------------------------------------------------------------------------
  // The month grid
  // ---------------------------------------------------------------------------

  /** `+N more` under a cell with more than three tasks. */
  function MoreLabel(count: nat): Option<string> {
    if count > TasksPerCell then Some("+" + IntToString(count - TasksPerCell) + " more") else None
  }

  /**
   * The label appears exactly when a cell has more than three tasks, and the number in
   * it, read back by `parseInt`, is the count of tasks not shown.
   */
  lemma MoreLabelSpec(count: nat)
    ensures MoreLabel(count).Some? <==> count > TasksPerCell
    ensures count > TasksPerCell ==>
              MoreLabel(count).value[0] == '+'
              && ParseInt(MoreLabel(count).value[1..]) == Some(count - TasksPerCell)
  {
    if count > TasksPerCell {
      var n := count - TasksPerCell;
      var digits := NatToString(n);
      var text := "+" + digits + " more";
      assert MoreLabel(count) == Some(text);
      assert text[0] == '+';
      assert text[1..] == digits + " more";
      ParseIntOfNumeral(n, " more");
    }
  }

  /** One day cell of the grid. */
  datatype Cell = Cell(
    date: Date,
    otherMonth: bool,
    today: bool,
    dayTasks: seq<Task>,
    shown: seq<Task>,
    more: Option<string>,
    clickable: bool)

  /** The first cell: the first of the month moved back by its weekday. */
  function GridStart(year: int, month: int, firstWeekday: nat): (d: Date)
    requires 0 <= month < 12 && firstWeekday < 7
    ensures ValidDate(d)
  {
    if firstWeekday == 0 then Date(year, month, 1)
    else
      var last := PrevMonthEnd(year, month);
      last.(day := last.day - firstWeekday + 1)
  }

  /** Counting `firstWeekday` days from the first cell reaches the first of the month. */
  lemma GridStartToFirst(year: int, month: int, firstWeekday: nat)
    requires 0 <= month < 12 && firstWeekday < 7
    ensures AddDays(GridStart(year, month, firstWeekday), firstWeekday) == Date(year, month, 1)
  {
    var w := firstWeekday;
    if w > 0 {
      var start := GridStart(year, month, w);
      AddDaysInMonth(start, w - 1);
      assert AddDays(start, w - 1) == PrevMonthEnd(year, month);
    }
  }

  /** The month's last day is followed by the first of the next month. */
  lemma FirstToNextMonth(year: int, month: int, j: nat)
    requires 0 <= month < 12 && j < 28
    ensures AddDays(Date(year, month, 1), DaysInMonth(year, month) + j)
            == NextMonthStart(year, month).(day := 1 + j)
  {
    var first := Date(year, month, 1);
    var n := DaysInMonth(year, month);
    var next := NextMonthStart(year, month);
    AddDaysInMonth(first, n - 1);
    AddDaysSplit(first, n - 1, 1);
    AddDaysSplit(first, n, j);
    AddDaysInMonth(next, j);
  }

  /**
   * The grid's layout. The first of the month falls in column `firstWeekday`, so the
   * first cell is the Sunday on or before it. Cells `firstWeekday` to
   * `firstWeekday + days - 1` hold the month's days in order, and they are the only
   * cells in the month. The other cells belong to the months before and after.
   */
  lemma GridCell(year: int, month: int, firstWeekday: nat, i: nat)
    requires 0 <= month < 12 && firstWeekday < 7 && i < GridCells
    ensures var d := AddDays(GridStart(year, month, firstWeekday), i);
      var n := DaysInMonth(year, month);
      && (d.month == month <==> firstWeekday <= i < firstWeekday + n)
      && (firstWeekday <= i < firstWeekday + n ==> d == Date(year, month, i - firstWeekday + 1))
      && (i < firstWeekday ==> MonthIndex(d) == 12 * year + month - 1)
      && (i >= firstWeekday + n ==> MonthIndex(d) == 12 * year + month + 1)
  {
    var w := firstWeekday;
    var n := DaysInMonth(year, month);
    if i < w {
      GridCellBefore(year, month, w, i);
    } else {
      GridCellFrom(year, month, w, i);
    }
  }

  /** The cells before column `firstWeekday` hold the last days of the month before. */
  lemma GridCellBefore(year: int, month: int, firstWeekday: nat, i: nat)
    requires 0 <= month < 12 && i < firstWeekday < 7
    ensures var d := AddDays(GridStart(year, month, firstWeekday), i);
      d.month != month && MonthIndex(d) == 12 * year + month - 1
  {
    AddDaysInMonth(GridStart(year, month, firstWeekday), i);
  }

  /** From column `firstWeekday` on, the cells count the month's days and then the next month's. */
  lemma GridCellFrom(year: int, month: int, firstWeekday: nat, i: nat)
    requires 0 <= month < 12 && firstWeekday < 7 && firstWeekday <= i < GridCells
    ensures var d := AddDays(GridStart(year, month, firstWeekday), i);
      var n := DaysInMonth(year, month);
      && (i < firstWeekday + n ==> d == Date(year, month, i - firstWeekday + 1))
      && (i >= firstWeekday + n ==> d.month != month && MonthIndex(d) == 12 * year + month + 1)
  {
    var w := firstWeekday;
    var start := GridStart(year, month, w);
    var n := DaysInMonth(year, month);
    GridStartToFirst(year, month, w);
    AddDaysSplit(start, w, i - w);
    if i < w + n {
      AddDaysInMonth(Date(year, month, 1), i - w);
    } else {
      FirstToNextMonth(year, month, i - w - n);
    }
  }

  /** The cell of a date: its tasks, the first three shown, the label, and whether it is clickable. */
  function CellFor(d: Date, month: int, today: Date, tasks: seq<Task>): Cell {
    var dayTasks := GetTasksForDate(tasks, d);
    var other := d.month != month;
    Cell(d, other, d == today, dayTasks,
         if |dayTasks| > TasksPerCell then dayTasks[..TasksPerCell] else dayTasks,
         MoreLabel(|dayTasks|), !other)
  }

  /**
   * A cell is marked other-month, and has no click handler, exactly when its date lies
   * outside the displayed month; it lists the first (at most) three of the day's tasks in
   * stored order, and carries the "+N more" label exactly when some are not listed.
   */
  lemma CellForSpec(d: Date, month: int, today: Date, tasks: seq<Task>)
    ensures var c := CellFor(d, month, today, tasks);
      && c.date == d
      && (c.otherMonth <==> d.month != month)
      && (c.clickable <==> !c.otherMonth)
      && (c.today <==> d == today)
      && c.dayTasks == GetTasksForDate(tasks, d)
      && c.shown <= c.dayTasks && |c.shown| <= TasksPerCell
      && (|c.shown| < |c.dayTasks| <==> c.more.Some?)
      && (c.more.Some? ==> |c.shown| + (|c.dayTasks| - TasksPerCell) == |c.dayTasks|)
      && c.more == MoreLabel(|c.dayTasks|)
  {
  }

  /**
   * `renderCalendar`: seven weekday headers, then 42 cells, cell `i` being the date `i`
   * days after the grid start (see `GridCell` for where the month's days fall, and
   * `CellForSpec` for what each cell shows).
   */
  method RenderCalendar(current: Date, firstWeekday: nat, today: Date, tasks: seq<Task>)
    returns (headers: seq<string>, cells: seq<Cell>)
    requires ValidDate(current) && firstWeekday < 7
    ensures headers == DayHeaders
    ensures |cells| == GridCells
    ensures forall i :: 0 <= i < |cells| ==>
              cells[i] == CellFor(AddDays(GridStart(current.year, current.month, firstWeekday), i),
                                  current.month, today, tasks)
  {
    var names := DayHeaders;
    headers := [];
    for k := 0 to |names|
      invariant headers == names[..k]
    {
      headers := headers + [names[k]];
    }
    assert names[..|names|] == names;
    var start := GridStart(current.year, current.month, firstWeekday);
    var cellAt := (i: nat) => CellFor(AddDays(start, i), current.month, today, tasks);
    var count := GridCells;
    cells := [];
    for i := 0 to count
      invariant cells == Tabulate(cellAt, i)
    {
      var cellDate := AddDays(start, i);
      cells := cells + [CellFor(cellDate, current.month, today, tasks)];
    }
    TabulateSpec(cellAt, count);
  }

  /** The values of `f` at 0, 1, ..., n - 1, built by appending one at a time. */
  function Tabulate<T>(f: nat -> T, n: nat): seq<T> {
    if n == 0 then [] else Tabulate(f, n - 1) + [f(n - 1)]
  }

  lemma {:induction false} TabulateSpec<T>(f: nat -> T, n: nat)
    ensures |Tabulate(f, n)| == n
    ensures forall i :: 0 <= i < n ==> Tabulate(f, n)[i] == f(i)
  {
    if n > 0 {
      TabulateSpec(f, n - 1);
    }
  }

  /** In the grid, the cells in the displayed month are exactly its days, in order, each once. */
  lemma GridShowsWholeMonth(current: Date, firstWeekday: nat, today: Date, tasks: seq<Task>,
                            cells: seq<Cell>, day: int)
    requires ValidDate(current) && firstWeekday < 7 && |cells| == GridCells
    requires forall i :: 0 <= i < |cells| ==>
               cells[i].date == AddDays(GridStart(current.year, current.month, firstWeekday), i)
    requires 1 <= day <= DaysInMonth(current.year, current.month)
    ensures cells[firstWeekday + day - 1].date == Date(current.year, current.month, day)
    ensures forall i :: 0 <= i < |cells| && cells[i].date == Date(current.year, current.month, day) ==>
              i == firstWeekday + day - 1
  {
    GridCell(current.year, current.month, firstWeekday, firstWeekday + day - 1);
    forall i | 0 <= i < |cells| && cells[i].date == Date(current.year, current.month, day)
      ensures i == firstWeekday + day - 1
    {
      GridCell(current.year, current.month, firstWeekday, i);
    }
  }

  // ---------------------------------------------------------------------------
  // Month navigation
  // ---------------------------------------------------------------------------

  /** The number of days of the month `delta` months after the month of `d`. */
  function TargetMonthLength(d: Date, delta: int): (n: int)
    ensures 28 <= n <= 31
  {
    var index := MonthIndex(d) + delta;
    DaysInMonth(index / 12, index % 12)
  }

  /**
   * `currentDate.setMonth(currentDate.getMonth() + delta)` as written: the day of the month
   * is kept, and a day the new month lacks runs over into the month after it.
   */
  function ShiftMonthAsWritten(d: Date, delta: int): (r: Date)
    requires ValidDate(d)
    ensures ValidDate(r)
  {
    var index := MonthIndex(d) + delta;
    var year := index / 12;
    var month := index % 12;
    var n := DaysInMonth(year, month);
    if d.day <= n then Date(year, month, d.day)
    else NextMonthStart(year, month).(day := d.day - n)
  }

  /**
   * What `setMonth` does for every date: when the target month has the day, the month moves
   * by exactly `delta` and the day is kept, which is also what the clamped navigation does;
   * otherwise the month moves by `delta + 1` and the day becomes the overrun past the end of
   * the target month.
   */
  lemma ShiftMonthAsWrittenSpec(d: Date, delta: int)
    requires ValidDate(d)
    ensures var r := ShiftMonthAsWritten(d, delta); var n := TargetMonthLength(d, delta);
      && (d.day <= n ==> MonthIndex(r) == MonthIndex(d) + delta && r.day == d.day && r == ShiftMonth(d, delta))
      && (d.day > n ==> MonthIndex(r) == MonthIndex(d) + delta + 1 && r.day == d.day - n)
  {
    var index := MonthIndex(d) + delta;
    assert 12 * (index / 12) + index % 12 == index;
  }

  /**
   * The "next" and "previous" buttons land on the intended month exactly when the target
   * month has the current day; on a longer day they land one month further on and differ
   * from the clamped navigation (31 January 2025 goes to 3 March, 31 March 2025 back to
   * 3 March).
   */
  lemma MonthNavigationSkips(d: Date, delta: int)
    requires ValidDate(d)
    ensures MonthIndex(ShiftMonthAsWritten(d, delta)) == MonthIndex(d) + delta <==> d.day <= TargetMonthLength(d, delta)
    ensures ShiftMonthAsWritten(d, delta) == ShiftMonth(d, delta) <==> d.day <= TargetMonthLength(d, delta)
  {
    ShiftMonthAsWrittenSpec(d, delta);
    ShiftMonthSpec(d, delta);
  }

  /** Month navigation as intended: the day is clamped to the length of the target month. */
  function ShiftMonth(d: Date, delta: int): (r: Date)
    requires ValidDate(d)
    ensures ValidDate(r)
  {
    var index := MonthIndex(d) + delta;
    var year := index / 12;
    var month := index % 12;
    var n := DaysInMonth(year, month);
    Date(year, month, if d.day <= n then d.day else n)
  }

  /**
   * The corrected navigation moves by exactly `delta` months and keeps the day whenever the
   * target month has it; stepping forward and back returns to the starting month.
   */
  lemma ShiftMonthSpec(d: Date, delta: int)
    requires ValidDate(d)
    ensures MonthIndex(ShiftMonth(d, delta)) == MonthIndex(d) + delta
    ensures ShiftMonth(d, delta).day == d.day || ShiftMonth(d, delta).day == DaysInMonth(ShiftMonth(d, delta).year, ShiftMonth(d, delta).month)
    ensures ShiftMonth(d, delta).day <= d.day
    ensures MonthIndex(ShiftMonth(ShiftMonth(d, delta), -delta)) == MonthIndex(d)
  {
    var index := MonthIndex(d) + delta;
    assert 12 * (index / 12) + index % 12 == index;
    var r := ShiftMonth(d, delta);
    var index2 := MonthIndex(r) - delta;
    assert 12 * (index2 / 12) + index2 % 12 == index2;
  }

  /** `getPriorityText` of the calendar page: fixed labels for the three levels, "Unknown" otherwise. */
  function PriorityText(p: string): (r: string)
    ensures r == "Super urgent!" <==> p == "high"
    ensures r == "Pretty important" <==> p == "medium"
    ensures r == "Not urgent" <==> p == "low"
    ensures r == "Unknown" <==> p != "high" && p != "medium" && p != "low"
  {
    match p
    case "high" => "Super urgent!"
    case "medium" => "Pretty important"
    case "low" => "Not urgent"
    case _ => "Unknown"
  }

  /** The id a popup button names: `parseInt` of its text, `None` for `NaN` (which matches no task). */
  function ButtonIndex(tasks: seq<Task>, taskId: string): Option<nat> {
    var id := ParseInt(taskId);
    if id.Some? then FindIndex(tasks, id.value) else None
  }

  /** A button carries the decimal text of a task's id, which names that same id again. */
  lemma ButtonNamesItsTask(tasks: seq<Task>, id: int)
    ensures ParseInt(IntToString(id)) == Some(id)
    ensures ButtonIndex(tasks, IntToString(id)) == FindIndex(tasks, id)
  {
    ParseIntOfIntToString(id);
  }

  /** `saveTaskChanges`'s result on the calendar page. */
  datatype SaveOutcome = NotEditing | MissingFields(message: string) | NoSuchTask | Saved(index: nat)

  class CalendarPage {
    var signedIn: bool
    var tasks: seq<Task>
    var current: Date
    var editing: Option<int>
    var night: bool

    ghost predicate Valid()
      reads this
    {
      ValidDate(current)
    }

    /** The page before sign-in: no tasks, showing today's month. */
    constructor (today: Date)
      requires ValidDate(today)
      ensures !signedIn && tasks == [] && current == today && editing == None && !night
      ensures Valid()
    {
      signedIn := false;
      tasks := [];
      current := today;
      editing := None;
      night := false;
    }

    /** The auth listener and `loadUserData`: a missing document leaves the list as it was. */
    method SignIn(doc: Option<UserDoc>)
      modifies this
      ensures signedIn
      ensures doc.Some? ==> tasks == doc.value.tasks.GetOr([]) && night == (doc.value.theme == "dark")
      ensures doc.None? ==> tasks == old(tasks) && night == old(night)
      ensures current == old(current) && editing == old(editing)
    {
      signedIn := true;
      if doc.Some? {
        night := doc.value.theme == "dark";
        tasks := doc.value.tasks.GetOr([]);
      }
    }

    /**
     * `toggleTaskCompletion`: with a user signed in, flip `completed` and stamp `updatedAt`
     * on the first task whose id is `parseInt(taskId)`; nothing else changes. The result is
     * the notification shown, if any.
     */
    method ToggleTaskCompletion(taskId: string, stamp: string) returns (notice: Option<string>)
      modifies this
      ensures var k := ButtonIndex(old(tasks), taskId);
        if old(signedIn) && k.Some? then
          && tasks == old(tasks)[k.value := old(tasks)[k.value].(completed := !old(tasks)[k.value].completed,
                                                                  updatedAt := Some(stamp))]
          && notice == Some(if tasks[k.value].completed then MarkedComplete else MarkedIncomplete)
        else tasks == old(tasks) && notice == None
      ensures signedIn == old(signedIn) && current == old(current)
      ensures editing == old(editing) && night == old(night)
    {
      if !signedIn {
        return None;
      }
      var k := ButtonIndex(tasks, taskId);
      if k.None? {
        return None;
      }
      var t := tasks[k.value];
      tasks := tasks[k.value := t.(completed := !t.completed, updatedAt := Some(stamp))];
      notice := Some(if tasks[k.value].completed then MarkedComplete else MarkedIncomplete);
    }

    /**
     * `deleteTask`: fails with "User not authenticated" when nobody is signed in and with
     * "Task not found" when no task has the id, changing nothing; otherwise removes every
     * task with that id. The notification is the success text, or the Thai failure prefix
     * followed by the error's message.
     */
    method DeleteTask(taskId: string) returns (outcome: Result<(), string>, notice: string)
      modifies this
      ensures notice == (if outcome.Ok? then TaskDeleted else DeleteFailedPrefix + outcome.error)
      ensures !old(signedIn) ==> outcome == Err(UserNotAuthenticated)
      ensures old(signedIn) && ButtonIndex(old(tasks), taskId).None? ==> outcome == Err(TaskNotFound)
      ensures outcome.Err? ==> tasks == old(tasks)
      ensures outcome.Ok? <==> old(signedIn) && ButtonIndex(old(tasks), taskId).Some?
      ensures outcome.Ok? ==> tasks == WithoutId(old(tasks), ParseInt(taskId).value)
                              && |tasks| < |old(tasks)|
      ensures signedIn == old(signedIn) && current == old(current)
      ensures editing == old(editing) && night == old(night)
    {
      if !signedIn {
        return Err(UserNotAuthenticated), DeleteFailedPrefix + UserNotAuthenticated;
      }
      var k := ButtonIndex(tasks, taskId);
      if k.None? {
        return Err(TaskNotFound), DeleteFailedPrefix + TaskNotFound;
      }
      tasks := WithoutId(tasks, ParseInt(taskId).value);
      outcome, notice := Ok(()), TaskDeleted;
    }

    /** `openTaskDetail`: a task with exactly this id becomes the one being edited. */
    method OpenTaskDetail(id: int)
      modifies this
      ensures editing == (if HasId(tasks, id) then Some(id) else old(editing))
      ensures tasks == old(tasks) && signedIn == old(signedIn) && current == old(current)
      ensures night == old(night)
    {
      if FindIndex(tasks, id).Some? {
        editing := Some(id);
      }
    }

    /**
     * `saveTaskChanges`: with a task open (an id of 0 counts as none) and a user signed in,
     * the trimmed title and subject, the due date and the priority must be non-empty; then
     * the first task with the id gets the five form fields and the time stamp, and the
     * popup closes. No length limit applies on this page.
     */
    method SaveTaskChanges(title: string, subject: string, dueDate: string, priority: string,
                           description: string, stamp: string) returns (outcome: SaveOutcome)
      modifies this
      ensures outcome.NotEditing? <==> old(editing).None? || old(editing) == Some(0) || !old(signedIn)
      ensures !outcome.NotEditing? ==>
                var filled := Trim(title) != "" && Trim(subject) != "" && dueDate != "" && priority != "";
                var k := ButtonIndex(old(tasks), IntToString(old(editing).value));
                && (!filled ==> outcome == MissingFields(FieldsRequired))
                && (filled && k.None? ==> outcome == NoSuchTask)
                && (filled && k.Some? ==> outcome == Saved(k.value))
      ensures outcome.Saved? ==>
                outcome.index < |old(tasks)|
                && old(tasks)[outcome.index].id == old(editing).value
                && tasks == old(tasks)[outcome.index := old(tasks)[outcome.index].(
                              title := Trim(title), subject := Trim(subject), dueDate := dueDate,
                              priority := priority, description := Trim(description),
                              updatedAt := Some(stamp))]
                && editing == None
      ensures !outcome.Saved? ==> tasks == old(tasks) && editing == old(editing)
      ensures signedIn == old(signedIn) && current == old(current) && night == old(night)
    {
      if editing.None? || editing.value == 0 || !signedIn {
        return NotEditing;
      }
      var t := Trim(title);
      var s := Trim(subject);
      var d := Trim(description);
      if t == "" || s == "" || dueDate == "" || priority == "" {
        return MissingFields(FieldsRequired);
      }
      var k := ButtonIndex(tasks, IntToString(editing.value));
      ButtonNamesItsTask(tasks, editing.value);
      if k.None? {
        return NoSuchTask;
      }
      var old_task := tasks[k.value];
      tasks := tasks[k.value := old_task.(title := t, subject := s, dueDate := dueDate,
                                          priority := priority, description := d,
                                          updatedAt := Some(stamp))];
      editing := None;
      outcome := Saved(k.value);
    }

    /**
     * The "next month" button, `setMonth(getMonth() + 1)`: one month on, or two when the
     * next month lacks the current day.
     */
    method NextMonth()
      requires Valid()
      modifies this
      ensures Valid() && current == ShiftMonthAsWritten(old(current), 1)
      ensures MonthIndex(current) == MonthIndex(old(current)) + 1
                + (if old(current).day > TargetMonthLength(old(current), 1) then 1 else 0)
      ensures tasks == old(tasks) && signedIn == old(signedIn) && editing == old(editing)
      ensures night == old(night)
    {
      ShiftMonthAsWrittenSpec(current, 1);
      current := ShiftMonthAsWritten(current, 1);
    }

    /**
     * The "previous month" button, `setMonth(getMonth() - 1)`: one month back, or none when
     * the previous month lacks the current day.
     */
    method PrevMonth()
      requires Valid()
      modifies this
      ensures Valid() && current == ShiftMonthAsWritten(old(current), -1)
      ensures MonthIndex(current) == MonthIndex(old(current)) - 1
                + (if old(current).day > TargetMonthLength(old(current), -1) then 1 else 0)
      ensures tasks == old(tasks) && signedIn == old(signedIn) && editing == old(editing)
      ensures night == old(night)
    {
      ShiftMonthAsWrittenSpec(current, -1);
      current := ShiftMonthAsWritten(current, -1);
    }

    /** The "today" button. */
    method Today(today: Date)
      requires ValidDate(today)
      modifies this
      ensures Valid() && current == today
      ensures tasks == old(tasks) && signedIn == old(signedIn) && editing == old(editing)
      ensures night == old(night)
    {
      current := today;
    }
  }
}
