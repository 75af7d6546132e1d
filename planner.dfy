/**
 * The planner page (app/script.js): the task list held in memory, the new-task form with
 * its required fields and length limits, per-action cooldowns, id allocation, toggling,
 * deleting and editing by id, the display order and the statistics panel.
 *
 * The clock is a parameter (`now`, in milliseconds); Firestore reads and writes, popups
 * and the rendered HTML are not modelled. Due dates are the `YYYY-MM-DD` strings of the
 * date input, ordered as the dates they denote, which for such strings is their
 * lexicographic order.
 */
module Planner {
  import opened Wrappers
  import opened JsText
  import opened TaskRecord

  // ---------------------------------------------------------------------------
  // Constants
  // ---------------------------------------------------------------------------

  const AddTaskCooldown: int := 7000
  const DeleteTaskCooldown: int := 0
  const ThemeChangeCooldown: int := 2000

  const TitleMax: nat := 50
  const SubjectMax: nat := 50
  const DescriptionMax: nat := 500

  const TitleRequired: string := "Please enter what you need to study"
  const SubjectRequired: string := "Please enter the subject"
  const DueDateRequired: string := "Please select a due date"
  const PriorityRequired: string := "Please select priority level"
  const FieldsRequired: string := "Please fill in all required fields"

  // ---------------------------------------------------------------------------
  // sanitizeInput: text content serialised as HTML
  // ---------------------------------------------------------------------------

  /**
   * How a character of a text node is written out by `innerHTML` (the HTML fragment
   * serialisation algorithm of the WHATWG HTML Living Standard, section 13.3, in text mode).
   */
  function EscapeChar(c: char): string {
    if c == '&' then "&amp;"
    else if c == '<' then "&lt;"
    else if c == '>' then "&gt;"
    else if c == '\U{00A0}' then "&nbsp;"
    else [c]
  }

  /** `sanitizeInput(text)`: the text placed in a `div` and read back as HTML. */
  function Sanitize(s: string): string {
    if s == [] then [] else EscapeChar(s[0]) + Sanitize(s[1..])
  }

  /** Decoding of the four character references `Sanitize` writes; anything else is kept. */
  function Unescape(t: string): string
    decreases |t|
  {
    if t == [] then []
    else if |t| >= 5 && t[..5] == "&amp;" then ['&'] + Unescape(t[5..])
    else if |t| >= 4 && t[..4] == "&lt;" then ['<'] + Unescape(t[4..])
    else if |t| >= 4 && t[..4] == "&gt;" then ['>'] + Unescape(t[4..])
    else if |t| >= 6 && t[..6] == "&nbsp;" then ['\U{00A0}'] + Unescape(t[6..])
    else [t[0]] + Unescape(t[1..])
  }

  lemma UnescapeStep(c: char, rest: string)
    ensures Unescape(EscapeChar(c) + rest) == [c] + Unescape(rest)
  {
    var e := EscapeChar(c);
    var t := e + rest;
    assert t[..|e|] == e && t[|e|..] == rest;
    assert t[0] == e[0];
    if |e| > 1 {
      assert t[1] == e[1];
    }
    if |t| >= 6 {
      assert t[..6][0] == t[0] && t[..6][1] == t[1];
    }
    if |t| >= 5 {
      assert t[..5][0] == t[0] && t[..5][1] == t[1];
    }
    if |t| >= 4 {
      assert t[..4][0] == t[0] && t[..4][1] == t[1];
    }
  }

  /** Escaping loses nothing: decoding the sanitised text gives the input back. */
  lemma {:induction false} SanitizeRoundTrip(s: string)
    ensures Unescape(Sanitize(s)) == s
  {
    if s != [] {
      SanitizeRoundTrip(s[1..]);
      UnescapeStep(s[0], Sanitize(s[1..]));
    }
  }

  /** The sanitised text holds no markup delimiter, and is empty exactly when the input is. */
  lemma {:induction false} SanitizeNoMarkup(s: string)
    ensures '<' !in Sanitize(s) && '>' !in Sanitize(s)
    ensures Sanitize(s) == [] <==> s == []
  {
    if s != [] {
      SanitizeNoMarkup(s[1..]);
    }
  }

  /** Escaping never shortens a text, counted in code units as `length` counts. */
  lemma {:induction false} SanitizeLonger(s: string)
    ensures Utf16Length(Sanitize(s)) >= Utf16Length(s)
  {
    if s != [] {
      SanitizeLonger(s[1..]);
      Utf16LengthConcat(EscapeChar(s[0]), Sanitize(s[1..]));
    }
  }

  /** A text with nothing to escape is its own sanitised form. */
  lemma {:induction false} SanitizePlain(s: string)
    requires forall i :: 0 <= i < |s| ==> EscapeChar(s[i]) == [s[i]]
    ensures Sanitize(s) == s
  {
    if s != [] {
      assert forall i :: 0 <= i < |s[1..]| ==> s[1..][i] == s[i + 1];
      SanitizePlain(s[1..]);
      assert s == [s[0]] + s[1..];
    }
  }

  /** Each ampersand grows to the five characters of `&amp;`. */
  lemma {:induction false} SanitizeAmpersands(n: nat)
    ensures Utf16Length(Sanitize(Repeat('&', n))) == 5 * n
  {
    if n > 0 {
      var s := Repeat('&', n);
      assert s[0] == '&' && s[1..] == Repeat('&', n - 1);
      SanitizeAmpersands(n - 1);
      Utf16LengthConcat("&amp;", Sanitize(s[1..]));
    }
  }

  // ---------------------------------------------------------------------------
  // Form validation
  // ---------------------------------------------------------------------------

  /** A rejected form: a missing field, or a field over its limit (the popup's three values). */
  datatype FormError = Required(message: string) | TooLong(field: string, length: nat, max: nat)

  /** `validateTextLength`: a text passes exactly when its `length` is at most the limit. */
  function ValidateTextLength(text: string, max: nat, field: string): (r: Option<FormError>)
    ensures r.None? <==> Utf16Length(text) <= max
    ensures r.Some? ==> r.value == TooLong(field, Utf16Length(text), max) && r.value.length > max
  {
    if Utf16Length(text) > max then Some(TooLong(field, Utf16Length(text), max)) else None
  }

  /** The three length checks shared by the new-task and edit forms; an empty description is not checked. */
  function LengthError(title: string, subject: string, description: string): Option<FormError> {
    var t := ValidateTextLength(title, TitleMax, "Task title");
    var s := ValidateTextLength(subject, SubjectMax, "Subject");
    if t.Some? then t
    else if s.Some? then s
    else if description != "" then ValidateTextLength(description, DescriptionMax, "Description")
    else None
  }

  /**
   * `validateTaskForm` on the raw field values: the title and subject are trimmed and then
   * sanitised, the description trimmed; the first failing check decides the error.
   */
  function ValidateTaskForm(title: string, subject: string, description: string,
                            dueDate: string, priority: string): Option<FormError>
  {
    var t := Sanitize(Trim(title));
    var s := Sanitize(Trim(subject));
    var d := Trim(description);
    if t == "" then Some(Required(TitleRequired))
    else if s == "" then Some(Required(SubjectRequired))
    else if dueDate == "" then Some(Required(DueDateRequired))
    else if priority == "" then Some(Required(PriorityRequired))
    else LengthError(t, s, d)
  }

  /** The fields an edit must fill in: title and subject after trimming, due date and priority. */
  predicate Filled(title: string, subject: string, dueDate: string, priority: string) {
    Trim(title) != "" && Trim(subject) != "" && dueDate != "" && priority != ""
  }

  /**
   * The new-task form is accepted exactly when every required field is filled, the
   * escaped title and subject fit in 50 code units and a non-empty description in 500.
   * A missing field is reported before any length problem, in the order title, subject,
   * due date, priority; the lengths are then checked in the order title, subject,
   * description, and the first one over its limit is reported with its length.
   */
  lemma ValidateTaskFormSpec(title: string, subject: string, description: string,
                             dueDate: string, priority: string)
    ensures var r := ValidateTaskForm(title, subject, description, dueDate, priority);
      && (r.None? <==>
            Filled(title, subject, dueDate, priority)
            && Utf16Length(Sanitize(Trim(title))) <= TitleMax
            && Utf16Length(Sanitize(Trim(subject))) <= SubjectMax
            && (Trim(description) == "" || Utf16Length(Trim(description)) <= DescriptionMax))
      && (!Filled(title, subject, dueDate, priority) <==> r.Some? && r.value.Required?)
      && (Trim(title) == "" ==> r == Some(Required(TitleRequired)))
      && (Trim(title) != "" && Trim(subject) == "" ==> r == Some(Required(SubjectRequired)))
      && (Trim(title) != "" && Trim(subject) != "" && dueDate == "" ==> r == Some(Required(DueDateRequired)))
      && (Trim(title) != "" && Trim(subject) != "" && dueDate != "" && priority == "" ==>
            r == Some(Required(PriorityRequired)))
    ensures var r := ValidateTaskForm(title, subject, description, dueDate, priority);
      var lt, ls, ld := Utf16Length(Sanitize(Trim(title))), Utf16Length(Sanitize(Trim(subject))), Utf16Length(Trim(description));
      var filled := Filled(title, subject, dueDate, priority);
      && (filled && lt > TitleMax ==> r == Some(TooLong("Task title", lt, TitleMax)))
      && (filled && lt <= TitleMax && ls > SubjectMax ==> r == Some(TooLong("Subject", ls, SubjectMax)))
      && (filled && lt <= TitleMax && ls <= SubjectMax && Trim(description) != "" && ld > DescriptionMax ==>
            r == Some(TooLong("Description", ld, DescriptionMax)))
  {
    SanitizeNoMarkup(Trim(title));
    SanitizeNoMarkup(Trim(subject));
  }

  /**
   * The edit form is never stricter than the new-task form: whatever the new-task form
   * accepts, the edit checks (which measure the unescaped text) accept too.
   */
  lemma AddAcceptedEditAccepted(title: string, subject: string, description: string,
                                dueDate: string, priority: string)
    requires ValidateTaskForm(title, subject, description, dueDate, priority).None?
    ensures Filled(title, subject, dueDate, priority)
    ensures LengthError(Trim(title), Trim(subject), Trim(description)).None?
  {
    ValidateTaskFormSpec(title, subject, description, dueDate, priority);
    SanitizeLonger(Trim(title));
    SanitizeLonger(Trim(subject));
  }

  /**
   * The converse fails: eleven ampersands are 11 code units, which the edit form accepts
   * as a title, but they are escaped to 55 before the new-task form measures them.
   */
  lemma EscapedTitleRejected(title: string)
    requires title == Repeat('&', 11)
    ensures ValidateTaskForm(title, "Math", "", "2025-01-31", "high")
            == Some(TooLong("Task title", 55, TitleMax))
    ensures Filled(title, "Math", "2025-01-31", "high")
    ensures LengthError(Trim(title), "Math", "").None?
  {
    assert title[0] == '&' && title[|title| - 1] == '&';
    TrimOfUnpadded(title);
    TrimOfUnpadded("Math");
    TrimOfUnpadded("");
    SanitizeAmpersands(11);
    SanitizeNoMarkup(title);
    Utf16LengthBounds(title);
    Utf16LengthBounds("Math");
    assert forall i :: 0 <= i < 4 ==> EscapeChar("Math"[i]) == ["Math"[i]];
    SanitizePlain("Math");
  }

  // ---------------------------------------------------------------------------
  // Cooldowns
  // ---------------------------------------------------------------------------

  /** The outcome of `checkCooldown`: go ahead, or wait the remaining milliseconds. */
  datatype Cooldown = Ready | Wait(remaining: int)

  /** `checkCooldown`, with the clock reading `now` passed in. */
  function CheckCooldown(now: int, last: int, duration: int): Cooldown {
    if now - last < duration then Wait(duration - (now - last)) else Ready
  }

  /**
   * An action may proceed exactly when at least `duration` ms have passed since the last
   * one; otherwise the wait reported is positive and ends exactly `duration` after it.
   */
  lemma CheckCooldownSpec(now: int, last: int, duration: int)
    ensures CheckCooldown(now, last, duration).Ready? <==> now - last >= duration
    ensures CheckCooldown(now, last, duration).Wait? ==>
              CheckCooldown(now, last, duration).remaining > 0
              && now + CheckCooldown(now, last, duration).remaining == last + duration
  {
  }

  /** With the zero delete cooldown, deleting is never blocked while the clock does not go back. */
  lemma DeleteNeverBlocked(now: int, last: int)
    requires now >= last
    ensures CheckCooldown(now, last, DeleteTaskCooldown) == Ready
  {
  }

  // ---------------------------------------------------------------------------
  // Display order: sortTasks
  // ---------------------------------------------------------------------------

  /** Lexicographic order of strings, which for `YYYY-MM-DD` dates is their time order. */
  predicate Before(a: string, b: string)
    decreases |a|
  {
    if a == [] then b != []
    else if b == [] then false
    else if a[0] != b[0] then a[0] < b[0]
    else Before(a[1..], b[1..])
  }

  lemma {:induction false} BeforeTrichotomy(a: string, b: string)
    decreases |a|
    ensures a == b || Before(a, b) || Before(b, a)
    ensures !(Before(a, b) && Before(b, a))
    ensures !Before(a, a)
  {
    if a != [] && b != [] {
      BeforeTrichotomy(a[1..], b[1..]);
      if a[0] == b[0] && a[1..] == b[1..] {
        assert a == [a[0]] + a[1..] && b == [b[0]] + b[1..];
      }
    } else if a != [] {
      BeforeTrichotomy(a[1..], a[1..]);
    }
  }

  lemma {:induction false} BeforeTransitive(a: string, b: string, c: string)
    requires Before(a, b) && Before(b, c)
    decreases |a|
    ensures Before(a, c)
  {
    if a != [] && a[0] == b[0] && b[0] == c[0] {
      BeforeTransitive(a[1..], b[1..], c[1..]);
    }
  }

  /** `priorityValues[p]`: high 3, medium 2, low 1, and `undefined` for anything else. */
  function PriorityValue(p: string): Option<int> {
    if p == "high" then Some(3)
    else if p == "medium" then Some(2)
    else if p == "low" then Some(1)
    else None
  }

  /**
   * The sign of the `sortTasks` comparator: open tasks before completed ones, then the
   * earlier due date, then the higher priority. An unknown priority makes the difference
   * `NaN`, which the sort treats as 0.
   */
  function Compare(a: Task, b: Task): int {
    if a.completed != b.completed then (if a.completed then 1 else -1)
    else if a.dueDate != b.dueDate then (if Before(a.dueDate, b.dueDate) then -1 else 1)
    else match (PriorityValue(a.priority), PriorityValue(b.priority))
      case (Some(x), Some(y)) => y - x
      case _ => 0
  }

  predicate KnownPriority(t: Task) {
    PriorityValue(t.priority).Some?
  }

  /** `a` may be shown before `b`: the three keys, most significant first. */
  lemma CompareMeaning(a: Task, b: Task)
    requires KnownPriority(a) && KnownPriority(b)
    ensures Compare(a, b) <= 0 <==>
              (!a.completed && b.completed)
              || (a.completed == b.completed && Before(a.dueDate, b.dueDate))
              || (a.completed == b.completed && a.dueDate == b.dueDate
                  && PriorityValue(a.priority).value >= PriorityValue(b.priority).value)
  {
    BeforeTrichotomy(a.dueDate, b.dueDate);
  }

  /** The comparator is antisymmetric for all tasks, known priority or not. */
  lemma CompareAntisymmetric(a: Task, b: Task)
    ensures Compare(a, b) == -Compare(b, a)
  {
    BeforeTrichotomy(a.dueDate, b.dueDate);
  }

  /** With known priorities, "may come first" is transitive. */
  lemma CompareTransitive(a: Task, b: Task, c: Task)
    requires KnownPriority(a) && KnownPriority(b) && KnownPriority(c)
    requires Compare(a, b) <= 0 && Compare(b, c) <= 0
    ensures Compare(a, c) <= 0
  {
    BeforeTrichotomy(a.dueDate, b.dueDate);
    BeforeTrichotomy(b.dueDate, c.dueDate);
    BeforeTrichotomy(a.dueDate, c.dueDate);
    if Before(a.dueDate, b.dueDate) && Before(b.dueDate, c.dueDate) {
      BeforeTransitive(a.dueDate, b.dueDate, c.dueDate);
    }
  }

  predicate Sorted(s: seq<Task>) {
    forall i, j :: 0 <= i < j < |s| ==> Compare(s[i], s[j]) <= 0
  }

  /** Places `t` before the first task it may precede. */
  function Insert(t: Task, s: seq<Task>): seq<Task> {
    if s == [] || Compare(t, s[0]) <= 0 then [t] + s else [s[0]] + Insert(t, s[1..])
  }

  /**
   * `sortTasks`: the tasks in display order. Taking each task ahead of the ones it ties
   * with keeps equal tasks in stored order, as the stable `Array.prototype.sort` does.
   */
  function SortTasks(s: seq<Task>): seq<Task> {
    if s == [] then [] else Insert(s[0], SortTasks(s[1..]))
  }

  lemma {:induction false} InsertPermutation(t: Task, s: seq<Task>)
    ensures multiset(Insert(t, s)) == multiset(s) + multiset{t}
  {
    if s != [] && Compare(t, s[0]) > 0 {
      InsertPermutation(t, s[1..]);
      assert s == [s[0]] + s[1..];
    }
  }

  lemma {:induction false} InsertSorted(t: Task, s: seq<Task>)
    requires KnownPriority(t) && forall i :: 0 <= i < |s| ==> KnownPriority(s[i])
    requires Sorted(s)
    ensures Sorted(Insert(t, s))
  {
    if s == [] {
    } else if Compare(t, s[0]) <= 0 {
      var r := [t] + s;
      forall i, j | 0 <= i < j < |r| ensures Compare(r[i], r[j]) <= 0 {
        if i == 0 && j > 1 {
          CompareTransitive(t, s[0], s[j - 1]);
        }
      }
    } else {
      CompareAntisymmetric(t, s[0]);
      var rest := s[1..];
      InsertSorted(t, rest);
      InsertPermutation(t, rest);
      var r := [s[0]] + Insert(t, rest);
      forall i, j | 0 <= i < j < |r| ensures Compare(r[i], r[j]) <= 0 {
        if i == 0 {
          var x := r[j];
          assert x in multiset(Insert(t, rest));
          assert x == t || x in multiset(rest);
          if x != t {
            var k :| 0 <= k < |rest| && rest[k] == x;
            assert s[k + 1] == x;
          }
        }
      }
    }
  }

  /** The display order holds the same tasks, each as many times as stored. */
  lemma {:induction false} SortTasksPermutation(s: seq<Task>)
    ensures multiset(SortTasks(s)) == multiset(s)
    ensures |SortTasks(s)| == |s|
  {
    if s != [] {
      SortTasksPermutation(s[1..]);
      InsertPermutation(s[0], SortTasks(s[1..]));
      assert s == [s[0]] + s[1..];
      assert |SortTasks(s)| == |multiset(SortTasks(s))|;
    }
  }

  /** With known priorities the display order is sorted by the comparator. */
  lemma {:induction false} SortTasksSorted(s: seq<Task>)
    requires forall i :: 0 <= i < |s| ==> KnownPriority(s[i])
    ensures Sorted(SortTasks(s))
  {
    if s != [] {
      SortTasksSorted(s[1..]);
      SortTasksPermutation(s[1..]);
      var r := SortTasks(s[1..]);
      forall i | 0 <= i < |r| ensures KnownPriority(r[i]) {
        assert r[i] in multiset(s[1..]);
        var k :| 0 <= k < |s[1..]| && s[1..][k] == r[i];
        assert s[k + 1] == r[i];
      }
      InsertSorted(s[0], r);
    }
  }

  /** A list already in display order is displayed as stored; sorting twice is sorting once. */
  lemma {:induction false} SortTasksOfSorted(s: seq<Task>)
    requires Sorted(s)
    ensures SortTasks(s) == s
  {
    if s != [] {
      assert Sorted(s[1..]) by {
        forall i, j | 0 <= i < j < |s[1..]| ensures Compare(s[1..][i], s[1..][j]) <= 0 {
          assert s[1..][i] == s[i + 1] && s[1..][j] == s[j + 1];
        }
      }
      SortTasksOfSorted(s[1..]);
      assert s == [s[0]] + s[1..];
    }
  }

  lemma SortTasksIdempotent(s: seq<Task>)
    requires forall i :: 0 <= i < |s| ==> KnownPriority(s[i])
    ensures SortTasks(SortTasks(s)) == SortTasks(s)
  {
    SortTasksSorted(s);
    SortTasksOfSorted(SortTasks(s));
  }

  /** `getPriorityText`: the planner's badge labels, empty for an unknown priority. */
  function PriorityText(p: string): (r: string)
    ensures r == "" <==> PriorityValue(p).None?
    ensures PriorityValue(p) == Some(3) <==> r == "High"
    ensures PriorityValue(p) == Some(2) <==> r == "Medium"
    ensures PriorityValue(p) == Some(1) <==> r == "Low"
  {
    if p == "high" then "High"
    else if p == "medium" then "Medium"
    else if p == "low" then "Low"
    else ""
  }

  // ---------------------------------------------------------------------------
  // Statistics: updateStats
  // ---------------------------------------------------------------------------

  datatype Stats = Stats(total: nat, completed: nat, pending: int, rate: int)

  /** `tasks.filter(t => t.completed).length`. */
  function CountCompleted(tasks: seq<Task>): (n: nat)
    ensures n <= |tasks|
  {
    if tasks == [] then 0 else (if tasks[0].completed then 1 else 0) + CountCompleted(tasks[1..])
  }

  /** `Math.round(x)` for `x = n / d >= 0`: the nearest integer, halves rounded up. */
  function RoundRatio(n: nat, d: nat): nat
    requires d > 0
  {
    (2 * n + d) / (2 * d)
  }

  /** The statistics panel: total, completed, pending and the rounded completion percentage. */
  function Statistics(tasks: seq<Task>): Stats {
    var total := |tasks|;
    var completed := CountCompleted(tasks);
    Stats(total, completed, total - completed,
          if total > 0 then RoundRatio(100 * completed, total) else 0)
  }

  lemma MulMonotone(a: nat, b: int, c: int)
    requires b <= c
    ensures a * b <= a * c
  {
  }

  lemma RoundRatioSpec(n: nat, d: nat)
    requires d > 0
    ensures 2 * n - d < 2 * d * RoundRatio(n, d) <= 2 * n + d
  {
    var q := RoundRatio(n, d);
    var m := 2 * d;
    assert 2 * n + d == q * m + (2 * n + d) % m;
    assert 0 <= (2 * n + d) % m < m;
  }

  /**
   * Pending and completed add up to the total; the rate is within half a percent of
   * 100 * completed / total (ties rounded up), hence between 0 and 100, and 0 for an
   * empty list.
   */
  lemma StatisticsSpec(tasks: seq<Task>)
    ensures var st := Statistics(tasks);
      && st.total == |tasks| && st.completed + st.pending == st.total && st.pending >= 0
      && (st.total == 0 ==> st.rate == 0)
      && (st.total > 0 ==> 200 * st.completed - st.total < 2 * st.total * st.rate
                                                        <= 200 * st.completed + st.total)
      && 0 <= st.rate <= 100
      && (st.total > 0 && st.completed == st.total ==> st.rate == 100)
      && (st.completed == 0 ==> st.rate == 0)
  {
    var st := Statistics(tasks);
    if st.total > 0 {
      RoundRatioSpec(100 * st.completed, st.total);
      var t := st.total;
      var r := st.rate;
      if r >= 101 {
        MulMonotone(2 * t, 101, r);
      }
      if st.completed == t && r <= 99 {
        MulMonotone(2 * t, r, 99);
      }
      if st.completed == 0 && r >= 1 {
        MulMonotone(2 * t, 1, r);
      }
    }
  }

  // ---------------------------------------------------------------------------
  // The page state
  // ---------------------------------------------------------------------------

  /** The id the next new task gets after loading: one past the largest id, or 1. */
  function NextId(tasks: seq<Task>): int {
    if tasks == [] then 1 else MaxId(tasks) + 1
  }

  /** The next id is above every stored id, and (for a non-empty list) the least such number. */
  lemma NextIdFresh(tasks: seq<Task>)
    ensures forall i :: 0 <= i < |tasks| ==> tasks[i].id < NextId(tasks)
    ensures tasks != [] ==> HasId(tasks, NextId(tasks) - 1)
    ensures tasks == [] ==> NextId(tasks) == 1
  {
  }

  /** `addTask`'s result: a form error, a cooldown, or the task appended. */
  datatype AddOutcome = Invalid(error: FormError) | CoolingDown(remaining: int) | Added(task: Task)

  /** `saveTaskChanges`'s result. */
  datatype SaveOutcome = NotEditing | Rejected(error: FormError) | NoSuchTask | Saved(index: nat)

  /** `toggleTask`'s per-task step: flip `completed` of a task carrying the id. */
  function Flip(t: Task, id: int): Task {
    if t.id == id then t.(completed := !t.completed) else t
  }

  /** `tasks.map(...)` of `toggleTask`. */
  function ToggleById(tasks: seq<Task>, id: int): seq<Task> {
    seq(|tasks|, i requires 0 <= i < |tasks| => Flip(tasks[i], id))
  }

  /**
   * Toggling keeps the length, every id and every field but `completed`; it flips exactly
   * the tasks carrying the id; and toggling twice restores the list.
   */
  lemma ToggleByIdSpec(tasks: seq<Task>, id: int)
    ensures |ToggleById(tasks, id)| == |tasks|
    ensures forall i :: 0 <= i < |tasks| ==>
              ToggleById(tasks, id)[i] == tasks[i].(completed := ToggleById(tasks, id)[i].completed)
              && (ToggleById(tasks, id)[i].completed != tasks[i].completed <==> tasks[i].id == id)
    ensures ToggleById(ToggleById(tasks, id), id) == tasks
  {
  }

  /** The edit applied by `saveTaskChanges`: the five form fields replaced, the rest kept. */
  function Edited(t: Task, title: string, subject: string, dueDate: string, priority: string,
                  description: string): Task
  {
    t.(title := title, subject := subject, dueDate := dueDate, priority := priority,
       description := description)
  }

  /** The task a valid new-task form creates. */
  function NewTask(id: int, title: string, subject: string, dueDate: string, priority: string,
                   description: string, now: int): Task
  {
    Task(id, Trim(title), Trim(subject), dueDate, priority, Trim(description), false, now, None)
  }

  class TaskList {
    var tasks: seq<Task>
    var taskId: int
    var lastTaskAdd: int
    var lastTaskDelete: int
    var lastThemeChange: int
    var night: bool
    var editing: Option<int>

    /** Ids are unique and the next id is above all of them. */
    ghost predicate Valid()
      reads this
    {
      UniqueIds(tasks) && forall i :: 0 <= i < |tasks| ==> tasks[i].id < taskId
    }

    /** The module's initial state: no tasks, next id 1, no action taken yet. */
    constructor (night: bool)
      ensures tasks == [] && taskId == 1 && editing == None && this.night == night
      ensures lastTaskAdd == 0 && lastTaskDelete == 0 && lastThemeChange == 0
      ensures Valid()
    {
      tasks := [];
      taskId := 1;
      lastTaskAdd := 0;
      lastTaskDelete := 0;
      lastThemeChange := 0;
      this.night := night;
      editing := None;
    }

    /**
     * `loadUserData`: adopt the stored tasks and theme, and continue numbering after the
     * largest stored id. A missing document empties the list but leaves the counter.
     */
    method LoadUserData(doc: Option<UserDoc>)
      modifies this
      ensures doc.Some? ==> tasks == doc.value.tasks.GetOr([]) && taskId == NextId(tasks)
                            && night == (doc.value.theme == "dark")
      ensures doc.None? ==> tasks == [] && taskId == old(taskId) && night == old(night)
      ensures forall i :: 0 <= i < |tasks| ==> tasks[i].id < taskId
      ensures doc.Some? && UniqueIds(tasks) ==> Valid()
      ensures lastTaskAdd == old(lastTaskAdd) && lastTaskDelete == old(lastTaskDelete)
      ensures lastThemeChange == old(lastThemeChange) && editing == old(editing)
    {
      if doc.None? {
        tasks := [];
        return;
      }
      night := doc.value.theme == "dark";
      tasks := doc.value.tasks.GetOr([]);
      taskId := if |tasks| > 0 then MaxId(tasks) + 1 else 1;
    }

    /**
     * `addTask`: validate, then check the 7-second cooldown, then append a task numbered
     * with the counter and advance the counter.
     */
    method AddTask(title: string, subject: string, dueDate: string, priority: string,
                   description: string, now: int) returns (outcome: AddOutcome)
      modifies this
      ensures var e := ValidateTaskForm(title, subject, description, dueDate, priority);
        var c := CheckCooldown(now, old(lastTaskAdd), AddTaskCooldown);
        && (e.Some? ==> outcome == Invalid(e.value))
        && (e.None? && c.Wait? ==> outcome == CoolingDown(c.remaining))
        && (e.None? && c.Ready? ==>
              outcome == Added(NewTask(old(taskId), title, subject, dueDate, priority, description, now)))
      ensures outcome.Added? ==> tasks == old(tasks) + [outcome.task] && taskId == old(taskId) + 1
                                 && lastTaskAdd == now
      ensures !outcome.Added? ==> tasks == old(tasks) && taskId == old(taskId)
                                  && lastTaskAdd == old(lastTaskAdd)
      ensures lastTaskDelete == old(lastTaskDelete) && lastThemeChange == old(lastThemeChange)
      ensures night == old(night) && editing == old(editing)
      ensures old(Valid()) ==> Valid()
      ensures old(Valid()) && outcome.Added? ==>
                forall i :: 0 <= i < |old(tasks)| ==> old(tasks)[i].id < outcome.task.id
    {
      var e := ValidateTaskForm(title, subject, description, dueDate, priority);
      if e.Some? {
        return Invalid(e.value);
      }
      var c := CheckCooldown(now, lastTaskAdd, AddTaskCooldown);
      if c.Wait? {
        return CoolingDown(c.remaining);
      }
      lastTaskAdd := now;
      var task := NewTask(taskId, title, subject, dueDate, priority, description, now);
      taskId := taskId + 1;
      tasks := tasks + [task];
      outcome := Added(task);
    }

    /** `toggleTask`: flip `completed` on every task with the id. */
    method ToggleTask(id: int)
      modifies this
      ensures tasks == ToggleById(old(tasks), id)
      ensures taskId == old(taskId) && editing == old(editing) && night == old(night)
      ensures lastTaskAdd == old(lastTaskAdd) && lastTaskDelete == old(lastTaskDelete)
      ensures lastThemeChange == old(lastThemeChange)
      ensures old(Valid()) ==> Valid()
    {
      tasks := ToggleById(tasks, id);
    }

    /** `deleteTask`: behind the (zero) delete cooldown, drop every task with the id. */
    method DeleteTask(id: int, now: int) returns (outcome: Cooldown)
      modifies this
      ensures outcome == CheckCooldown(now, old(lastTaskDelete), DeleteTaskCooldown)
      ensures outcome.Ready? ==> tasks == WithoutId(old(tasks), id) && lastTaskDelete == now
      ensures outcome.Wait? ==> tasks == old(tasks) && lastTaskDelete == old(lastTaskDelete)
      ensures taskId == old(taskId) && editing == old(editing) && night == old(night)
      ensures lastTaskAdd == old(lastTaskAdd) && lastThemeChange == old(lastThemeChange)
      ensures !HasId(tasks, id) || outcome.Wait?
      ensures old(Valid()) ==> Valid()
    {
      outcome := CheckCooldown(now, lastTaskDelete, DeleteTaskCooldown);
      if outcome.Wait? {
        return;
      }
      lastTaskDelete := now;
      if UniqueIds(tasks) {
        WithoutIdUnique(tasks, id);
      }
      tasks := WithoutId(tasks, id);
    }

    /** `openTaskDetail`: remember the task being edited, if there is one with that id. */
    method OpenTaskDetail(id: int)
      modifies this
      ensures editing == (if HasId(tasks, id) then Some(id) else old(editing))
      ensures tasks == old(tasks) && taskId == old(taskId) && night == old(night)
      ensures lastTaskAdd == old(lastTaskAdd) && lastTaskDelete == old(lastTaskDelete)
      ensures lastThemeChange == old(lastThemeChange)
    {
      if FindIndex(tasks, id).Some? {
        editing := Some(id);
      }
    }

    /** `closeTaskDetailPopup`. */
    method CloseTaskDetail()
      modifies this
      ensures editing == None
      ensures tasks == old(tasks) && taskId == old(taskId) && night == old(night)
      ensures lastTaskAdd == old(lastTaskAdd) && lastTaskDelete == old(lastTaskDelete)
      ensures lastThemeChange == old(lastThemeChange)
    {
      editing := None;
    }

    /**
     * `saveTaskChanges`: with a task open (an id of 0 counts as none), check the required
     * fields and the lengths of the unescaped text, then replace the five form fields of
     * the first task with the id and close the popup. Nothing changes on any other path.
     */
    method SaveTaskChanges(title: string, subject: string, dueDate: string, priority: string,
                           description: string) returns (outcome: SaveOutcome)
      modifies this
      ensures old(editing).None? || old(editing) == Some(0) ==> outcome == NotEditing
      ensures outcome.NotEditing? <==> old(editing).None? || old(editing) == Some(0)
      ensures !outcome.NotEditing? && !Filled(title, subject, dueDate, priority) ==>
                outcome == Rejected(Required(FieldsRequired))
      ensures !outcome.NotEditing? && Filled(title, subject, dueDate, priority) ==>
                var e := LengthError(Trim(title), Trim(subject), Trim(description));
                && (e.Some? ==> outcome == Rejected(e.value))
                && (e.None? && FindIndex(old(tasks), old(editing).value).None? ==> outcome == NoSuchTask)
                && (e.None? && FindIndex(old(tasks), old(editing).value).Some? ==>
                      outcome == Saved(FindIndex(old(tasks), old(editing).value).value))
      ensures outcome.Saved? ==>
                outcome.index < |old(tasks)|
                && tasks == old(tasks)[outcome.index := Edited(old(tasks)[outcome.index],
                                         Trim(title), Trim(subject), dueDate, priority, Trim(description))]
                && editing == None
      ensures !outcome.Saved? ==> tasks == old(tasks) && editing == old(editing)
      ensures taskId == old(taskId) && night == old(night)
      ensures lastTaskAdd == old(lastTaskAdd) && lastTaskDelete == old(lastTaskDelete)
      ensures lastThemeChange == old(lastThemeChange)
      ensures old(Valid()) ==> Valid()
    {
      if editing.None? || editing.value == 0 {
        return NotEditing;
      }
      var t := Trim(title);
      var s := Trim(subject);
      var d := Trim(description);
      if t == "" || s == "" || dueDate == "" || priority == "" {
        return Rejected(Required(FieldsRequired));
      }
      var e := LengthError(t, s, d);
      if e.Some? {
        return Rejected(e.value);
      }
      var index := FindIndex(tasks, editing.value);
      if index.None? {
        return NoSuchTask;
      }
      tasks := tasks[index.value := Edited(tasks[index.value], t, s, dueDate, priority, d)];
      editing := None;
      outcome := Saved(index.value);
    }

    /** The theme button: behind the 2-second cooldown, switch between light and dark. */
    method ToggleTheme(now: int) returns (outcome: Cooldown)
      modifies this
      ensures outcome == CheckCooldown(now, old(lastThemeChange), ThemeChangeCooldown)
      ensures outcome.Ready? ==> night == !old(night) && lastThemeChange == now
      ensures outcome.Wait? ==> night == old(night) && lastThemeChange == old(lastThemeChange)
      ensures tasks == old(tasks) && taskId == old(taskId) && editing == old(editing)
      ensures lastTaskAdd == old(lastTaskAdd) && lastTaskDelete == old(lastTaskDelete)
    {
      outcome := CheckCooldown(now, lastThemeChange, ThemeChangeCooldown);
      if outcome.Ready? {
        lastThemeChange := now;
        night := !night;
      }
    }

    /**
     * `renderTasks`: the display order of a copy; the stored list is left in its order.
     */
    method RenderTasks() returns (view: seq<Task>)
      ensures view == SortTasks(tasks)
      ensures multiset(view) == multiset(tasks)
      ensures (forall i :: 0 <= i < |tasks| ==> KnownPriority(tasks[i])) ==> Sorted(view)
    {
      view := SortTasks(tasks);
      SortTasksPermutation(tasks);
      if forall i :: 0 <= i < |tasks| ==> KnownPriority(tasks[i]) {
        SortTasksSorted(tasks);
      }
    }
  }

  /** A task created by the form carries an id above every stored id, so ids stay unique across adds. */
  lemma AddKeepsIdsUnique(tasks: seq<Task>, next: int, t: Task)
    requires UniqueIds(tasks) && forall i :: 0 <= i < |tasks| ==> tasks[i].id < next
    requires t.id == next
    ensures UniqueIds(tasks + [t])
    ensures forall i :: 0 <= i < |tasks + [t]| ==> (tasks + [t])[i].id < next + 1
  {
  }
}
