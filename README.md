# StudyBot planner — a verified model of its core

StudyBot is a small study-planner web application with four pages and one server:

- **Planner page** (`app/script.js`): the user's study tasks.
  - Adding a task checks the form first: required fields, length limits and a 7-second cooldown.
  - Tasks can be toggled, deleted and edited by id.
  - The list is shown sorted: open tasks first, then by due date, then by priority.
  - A statistics panel shows the completion rate.
- **Calendar page** (`app/calendar/calendar.js`): the same tasks on a 42-cell month grid.
  - A cell and a task are matched by the `YYYY-MM-DD` key of the cell's date.
  - A cell lists at most three tasks and a "+N more" label.
  - The day popup toggles, deletes and edits tasks. It names each task by the decimal text of its id.
- **Chat page** (`app/AI/ai.js`): the study assistant.
  - It sends a window of the conversation to the gateway.
  - It retries while the gateway answers 409, at most 60 times.
  - It streams the reply into a bubble and strips `<think>…</think>` spans from it.
  - A lock keeps a second message from being sent while a reply is generated.
- **Gateway** (`server.js`): a single-slot gate in front of the local language model.
  - It answers 409 while busy and 400 for a body without messages.
  - It maps the upstream outcomes to 200, 503 or 500.
  - It always releases the slot.
- **Sign-in page** (`login/Login_script.js`):
  - per-field error lines in Thai or English and a password-strength meter
  - authentication error messages and the default display name of a new user
  - the `allowAutoRedirect` and `currentLang` state

The model is written in Dafny as one module per concern:

| file | module | models |
|---|---|---|
| `wrappers.dfy` | `Wrappers` | `Option` and `Result` |
| `js_text.dfy` | `JsText` | `trim`, `String(n)`, `parseInt`, `padStart`, `split(..)[0]` and code-unit `length` |
| `think_filter.dfy` | `ThinkFilter` | the global replace of think spans and `formatAIResponse` |
| `chat_client.dfy` | `ChatClient` | the history window, the retry loop and the chat page state (`ChatSession`) |
| `gateway.dfy` | `Gateway` | the chat and health routes (`ChatGateway`) and a trace model of concurrent arrivals |
| `task_record.dfy` | `TaskRecord` | the stored task and the id queries both planner pages use |
| `planner.dfy` | `Planner` | the planner page (`TaskList`) |
| `calendar.dfy` | `Calendar` | the calendar page (`CalendarPage`) |
| `login.dfy` | `Login` | the sign-in page (`LoginPage`) |

Where the source updates variables in place, the model is a class whose methods name what they modify and state the whole new state. This covers the page state of each client file and the gateway's `isProcessing`. Where the source computes values, the model is functions with lemmas. The loops of the source are kept as loops with invariants:
- the retry loop and the stream-reading loop
- the 42-cell rendering loop

Most parts of the environment become parameters:
- the network: `replies(k)` is what the k-th request of a send produces
- the upstream model server
- the clock
- the weekday of the first of the month
- today's date
- Firestore documents
- Firebase outcomes

## Model

| member | source | states |
|---|---|---|
| JsText.TrimEmptyIff | app/script.js:134-170 | a trimmed field is empty exactly when every character is ECMAScript whitespace or a line terminator |
| JsText.TrimIdempotent | app/script.js:134-170 | trimming twice is trimming once; a non-empty trimmed value neither starts nor ends with whitespace |
| JsText.ParseIntOfIntToString | app/calendar/calendar.js:506-545 | `parseInt(String(n)) === n` for every integer of the model, which has no exponent form (see Left out), so a popup button's text names its task's id again |
| JsText.IntToStringInjective | app/calendar/calendar.js:547-587 | distinct ids have distinct decimal texts |
| JsText.ParseIntOfNumeral | app/calendar/calendar.js:506-545 | `parseInt` reads a numeral back from the front of a text when the next character neither extends it nor makes a hexadecimal prefix |
| JsText.PadStart | app/calendar/calendar.js:341-346 | `padStart` leaves a long enough text alone and otherwise returns exactly `width` characters ending in the text |
| JsText.BeforeFirst | login/Login_script.js:160 | `split("@")[0]` is a prefix without `@` that stops at the first `@`, or the whole text |
| JsText.Utf16LengthBounds | app/script.js:126-132 | `length` counts code units: at least the character count, and equal to it for text in the Basic Multilingual Plane |
| ThinkFilter.IndexOfSpec | app/AI/ai.js:317 | the lazy `[\s\S]*?` stops at the first closer after the opener; there is none only when no closer follows |
| ThinkFilter.SpanAtStartSpec | app/AI/ai.js:317 | a match at a position is an opener, the text up to the nearest closer, then that closer |
| ThinkFilter.StripShorter | app/AI/ai.js:317 | removing spans never lengthens the text |
| ThinkFilter.UnclosedKept | app/AI/ai.js:317 | a text with no closer, such as a reply still streaming inside a span, is left unchanged by the span removal |
| ThinkFilter.PlainPrefixKept | app/AI/ai.js:317 | a prefix free of `<` is copied unchanged |
| ThinkFilter.SpanDropped | app/AI/ai.js:317 | an opener, text without a closer, and a closer are removed, and scanning continues after them |
| ThinkFilter.SingleSpan | app/AI/ai.js:315-327 | "A", a span, then "B" strips to "AB" for any plain A, span body and B |
| ThinkFilter.ExampleSpan | app/AI/ai.js:315-327 | `formatAIResponse("A<think>x</think>B")` hands "AB" to the renderer |
| ThinkFilter.ExampleSplitSpan | app/AI/ai.js:292-305 | a span split across two streamed pieces: the first piece alone shows unchanged, and once both are accumulated the span is gone |
| ThinkFilter.NearestCloser | app/AI/ai.js:317 | pairing is non-greedy: an opener pairs with the nearest closer, and a later closer stays |
| ThinkFilter.CloserKept | app/AI/ai.js:317 | a closer with no opener before it is ordinary text |
| ThinkFilter.StripNotIdempotent | app/AI/ai.js:292-305 | one pass can join the halves of a split opener into a new span, so stripping is not idempotent; the bubble stays right because it always re-formats the raw accumulator |
| ChatClient.TruncateSpec | app/AI/ai.js:440-445 | the window holds at most 21 entries, keeps entry 0, keeps the newest entries in order and changes nothing while the history fits |
| ChatClient.PayloadSpec | app/AI/ai.js:437-445 | each request sends 1 to 21 messages, ends with the new user message and keeps the system prompt |
| ChatClient.HistoryAfterTurn | app/AI/ai.js:506-511 | after a successful turn the stored history holds at most 22 entries, and exactly 22 once the window is full |
| ChatClient.Caught | app/AI/ai.js:513-518 | "Failed to fetch" becomes the offline message, and every other error passes unchanged |
| ChatClient.ServerErrorText | app/AI/ai.js:480-483 | a non-ok response reports its body text, or "Server Error: <status>" when the body is empty |
| ChatClient.SettleSpec | app/AI/ai.js:475-519 | a non-409 answer ends the turn as offline, as a server error, or as the streamed text stripped of spans and trimmed, never longer than what was received |
| ChatClient.BusyRunFromSpec | app/AI/ai.js:448-473 | the retry count is the length of the leading run of 409s, capped at 60 |
| ChatClient.BusyRunUnique | app/AI/ai.js:448-473 | any count with those properties is the retry count |
| ChatClient.SendBounds | app/AI/ai.js:448-473 | one send makes between 1 and 60 requests and shows the queue notice at most once, exactly when the first answer is 409 |
| ChatClient.AllBusyTimesOut | app/AI/ai.js:452-522 | sixty 409s end the turn with the queue-timeout error after exactly 60 requests |
| ChatClient.BusyThenSettled | app/AI/ai.js:452-511 | k 409s and then another answer make k+1 requests, one notice when k>0, and end as that answer says |
| ChatClient.NoRetryOtherwise | app/AI/ai.js:464-483 | only 409 is retried: any other first answer makes exactly one request |
| ChatClient.ChatSession.constructor | app/AI/ai.js:197-201 | the history starts as the system prompt alone, and the page is quiet and unlocked |
| ChatClient.ChatSession.LockUI | app/AI/ai.js:401-415 | sets the generating flag |
| ChatClient.ChatSession.UnlockUI | app/AI/ai.js:417-433 | clears the generating flag |
| ChatClient.ChatSession.AppendToStreamingBubble | app/AI/ai.js:292-305 | the piece is added to the raw text and the bubble shows the formatted whole; with no bubble nothing happens |
| ChatClient.ChatSession.ReadStream | app/AI/ai.js:489-500 | the full response is the in-order concatenation of the pieces, and the bubble shows its formatted form |
| ChatClient.ChatSession.Receive | app/AI/ai.js:475-519 | the turn ends as `Settle` says; on success the cleaned reply is appended to the history and the chat, and the bubble is finished; on failure neither changes |
| ChatClient.ChatSession.AwaitTurn | app/AI/ai.js:448-473 | the loop makes `Requests` requests, counts the leading 409s, and at the first 409 replaces the typing indicator with the queue notice |
| ChatClient.ChatSession.SendToAI | app/AI/ai.js:435-523 | the history becomes the window plus the reply on success and the window alone on failure; the outcome, request count and notice count are `SendOutcome`, `Requests` and `Notices` of the replies |
| ChatClient.ChatSession.BeginSend | app/AI/ai.js:526-539 | a blank draft or a running generation does nothing; otherwise the draft is cleared, the page locked and the user's line and typing indicator shown |
| ChatClient.ChatSession.FinishSend | app/AI/ai.js:541-552 | after the send the page is unlocked and quiet; a failure leaves one error banner with its message |
| ChatClient.ChatSession.HandleSend | app/AI/ai.js:526-553 | a blank draft or a running reply changes nothing; otherwise the draft is cleared, the page ends unlocked and quiet, the user's line is followed by the reply's line or by an error banner, and the history gains the trimmed draft under the window and, on success, the reply |
| ChatClient.ChatSession.QuickAction | app/AI/ai.js:576-590 | ignored while generating or without a prompt; an all-blank prompt is left in the input and nothing else changes; otherwise the prompt is sent with the same outcome, lines, banners and history as a send of the trimmed prompt |
| ChatClient.ShownEqualsStored | app/AI/ai.js:499-509 | the line shown for a finished reply equals the text stored in the history, however the stream was cut into pieces |
| Gateway.RespondSpec | server.js:60-76 | only a model reply gives 200; a refused connection gives 503 and the start hint; every other failure gives 500 with its message; missing content is sent as "" |
| Gateway.AdmitSpec | server.js:19-33 | the gate checks the slot before the body: busy gives 409, a missing message array gives 400 and leaves the slot free, and otherwise the slot is taken |
| Gateway.ChatGateway.constructor | server.js:14 | the slot starts free |
| Gateway.ChatGateway.Admission | server.js:19-33 | the gate's response and slot are those of `Admit` |
| Gateway.ChatGateway.Completion | server.js:60-80 | the upstream outcome becomes the response and the slot is released |
| Gateway.ChatGateway.Chat | server.js:17-81 | a busy slot answers 409 and stays busy; a bad body answers 400; otherwise the upstream answer is returned and the slot is freed on every path |
| Gateway.ChatGateway.Health | server.js:84-104 | the health route always answers 200 with the slot state, and lists model names only when the model server answered |
| Gateway.OneInFlight | server.js:14-81 | over any sequence of arrivals and finishes, at most one generation is in flight |
| Gateway.ArrivalsWhileBusy | server.js:19-26 | while a generation runs, every arrival is answered 409 and none is forwarded |
| Gateway.ExactlyOneAdmitted | server.js:19-33 | of N valid requests arriving at a free gateway, exactly one is forwarded and N-1 get 409 |
| Gateway.ReleasedOnEveryPath | server.js:77-80 | whatever the upstream outcome, the slot is free afterwards and the next valid request is forwarded |
| Gateway.InvalidDoesNotLock | server.js:28-30 | a 400 does not take the slot |
| TaskRecord.FindIndex | app/script.js:516-556 | `findIndex` by id returns the first task carrying the id, and `-1` exactly when none does |
| TaskRecord.WithoutId | app/script.js:614-624 | the id filter keeps exactly the tasks without the id and shortens the list exactly when the id is present |
| TaskRecord.WithoutIdConcat | app/script.js:614-624 | the filter keeps the remaining tasks in their order |
| TaskRecord.WithoutIdUnique | app/script.js:614-624 | deleting by id keeps ids unique |
| TaskRecord.MaxId | app/script.js:349 | `Math.max` of the ids bounds every id and is one of them |
| Planner.SanitizeRoundTrip | app/script.js:24-28 | sanitising loses nothing: decoding the escaped text gives the input back |
| Planner.SanitizeNoMarkup | app/script.js:24-28 | the sanitised text has no `<` or `>`, and is empty exactly when the input is |
| Planner.SanitizeLonger | app/script.js:24-28 | sanitising never shortens a text |
| Planner.ValidateTextLength | app/script.js:126-132 | a text passes exactly when its code-unit length is within the limit; the error carries the field, the length and the limit |
| Planner.ValidateTaskFormSpec | app/script.js:134-170 | the new-task form is accepted exactly when every required field is filled and the escaped title and subject and a non-empty description fit; missing fields are reported in the order title, subject, due date, priority, then the first over-long field in the order title, subject, description, with its length |
| Planner.AddAcceptedEditAccepted | app/script.js:516-556 | whatever the new-task form accepts, the edit form accepts too |
| Planner.EscapedTitleRejected | app/script.js:134-170 | eleven `&` pass the edit form but count 55 in the new-task form, which rejects them |
| Planner.CheckCooldownSpec | app/script.js:190-201 | an action may go ahead exactly when the cooldown has passed; otherwise the wait is positive and ends exactly at the cooldown's end |
| Planner.DeleteNeverBlocked | app/script.js:12-16 | the zero delete cooldown never blocks |
| Planner.CompareMeaning | app/script.js:410-427 | with known priorities, a task may come first exactly when it is open and the other completed, or its due date is earlier, or its priority is at least as high |
| Planner.CompareAntisymmetric | app/script.js:410-427 | the comparator is antisymmetric, unknown priorities included |
| Planner.CompareTransitive | app/script.js:410-427 | with known priorities, "may come first" is transitive |
| Planner.SortTasksPermutation | app/script.js:410-427 | sorting keeps every task as many times as stored |
| Planner.SortTasksSorted | app/script.js:410-427 | with known priorities the result is sorted by the comparator |
| Planner.SortTasksOfSorted | app/script.js:410-427 | a list already in display order is left as stored |
| Planner.SortTasksIdempotent | app/script.js:410-427 | with known priorities, sorting twice is sorting once |
| Planner.PriorityText | app/script.js:596-603 | the badge text is High, Medium or Low for the three levels and empty otherwise |
| Planner.CountCompleted | app/script.js:628-640 | the number of completed tasks never exceeds the total |
| Planner.StatisticsSpec | app/script.js:628-640 | completed plus pending make the total; the rate is the percentage rounded to the nearest integer, between 0 and 100, exactly 100 when all are done and 0 when none are |
| Planner.NextIdFresh | app/script.js:349 | after loading, the next id is above every stored id, one past the largest, or 1 for an empty list |
| Planner.ToggleByIdSpec | app/script.js:605-612 | toggling flips `completed` on exactly the tasks with the id, changes nothing else, and toggling twice restores the list |
| Planner.AddKeepsIdsUnique | app/script.js:436-469 | appending a task numbered with the counter keeps ids unique and below the advanced counter |
| Planner.TaskList.constructor | app/script.js:228-229 | no tasks, and the next id is 1 |
| Planner.TaskList.LoadUserData | app/script.js:325-358 | the stored tasks and theme are adopted and numbering continues after the largest id; a missing document empties the list |
| Planner.TaskList.AddTask | app/script.js:436-469 | a form error, then the 7-second cooldown, are checked first; otherwise the trimmed task gets the counter's id and is appended, and the counter advances; ids stay unique and fresh |
| Planner.TaskList.ToggleTask | app/script.js:605-612 | the list becomes the toggled list and nothing else changes |
| Planner.TaskList.DeleteTask | app/script.js:614-624 | behind the delete cooldown, every task with the id is removed; ids stay unique |
| Planner.TaskList.OpenTaskDetail | app/script.js:471-485 | a task with the id becomes the one being edited |
| Planner.TaskList.CloseTaskDetail | app/script.js:487-491 | the popup closes and nothing else changes |
| Planner.TaskList.SaveTaskChanges | app/script.js:516-556 | with a task open, missing fields and then the lengths of the unescaped text are checked; the first task with the id gets the five trimmed fields and the popup closes; nothing changes on any other path |
| Planner.TaskList.ToggleTheme | app/script.js:203-219 | behind the 2-second cooldown, the theme switches |
| Planner.TaskList.RenderTasks | app/script.js:558-594 | the view is the display order of the stored tasks, holds the same tasks, and leaves the stored list unchanged |
| Calendar.DaysInMonth | app/calendar/calendar.js:281-284 | every month has 28 to 31 days |
| Calendar.AddDaysInMonth | app/calendar/calendar.js:287-289 | `setDate(getDate() + k)` within the month just adds to the day |
| Calendar.AddDaysSplit | app/calendar/calendar.js:283-289 | moving a+b days is moving a days and then b |
| Calendar.DateKeyRoundTrip | app/calendar/calendar.js:341-346 | for a date of a four-digit year the key is `YYYY-MM-DD` and reads back as the same date |
| Calendar.DateKeyInjective | app/calendar/calendar.js:341-346 | distinct valid days of any year have distinct keys |
| Calendar.TasksDueSpec | app/calendar/calendar.js:336-339 | the tasks due on a key are exactly the stored tasks with that due date |
| Calendar.TasksDueConcat | app/calendar/calendar.js:336-339 | the day's tasks keep their stored order |
| Calendar.TaskOnOneDay | app/calendar/calendar.js:336-346 | no task appears on two distinct valid days, of any year |
| Calendar.MoreLabelSpec | app/calendar/calendar.js:317 | "+N more" appears exactly when a cell has more than three tasks, and N is the number not shown |
| Calendar.GridStartToFirst | app/calendar/calendar.js:281-284 | counting the first day's weekday on from the first cell reaches the first of the month |
| Calendar.GridCell | app/calendar/calendar.js:281-294 | cells `firstWeekday` to `firstWeekday + days - 1` hold the month's days in order and are its only cells; the others belong to the months before and after |
| Calendar.CellForSpec | app/calendar/calendar.js:291-323 | a cell is other-month, with no click handler, exactly when its date is outside the month; it lists the day's first three tasks in order and the label exactly when more exist |
| Calendar.TabulateSpec | app/calendar/calendar.js:287 | building cell by cell gives exactly n cells, cell i being the i-th value |
| Calendar.RenderCalendar | app/calendar/calendar.js:257-327 | seven weekday headers, then 42 cells, cell i being the date i days after the grid start |
| Calendar.GridShowsWholeMonth | app/calendar/calendar.js:287-323 | every day of the month is in the grid exactly once, at column `firstWeekday + day - 1` |
| Calendar.ShiftMonthAsWritten | app/calendar/calendar.js:174-186 | `setMonth(getMonth() + delta)` always gives a valid date |
| Calendar.ShiftMonthAsWrittenSpec | app/calendar/calendar.js:174-186 | `setMonth` moves by exactly `delta` months and keeps the day when the target month has it, agreeing with the clamped navigation; otherwise it moves by `delta + 1` months and the day is the overrun |
| Calendar.MonthNavigationSkips | app/calendar/calendar.js:174-186 | as written, navigation lands on the intended month, and agrees with the clamped navigation, exactly when the target month has the current day |
| Calendar.ShiftMonth | app/calendar/calendar.js:174-186 | the corrected navigation always gives a valid date |
| Calendar.ShiftMonthSpec | app/calendar/calendar.js:174-186 | the corrected navigation moves exactly `delta` months, keeps the day when possible, and forward then back returns to the start month |
| Calendar.PriorityText | app/calendar/calendar.js:405-412 | the calendar's fixed labels for the three levels, and "Unknown" exactly for anything else |
| Calendar.ButtonNamesItsTask | app/calendar/calendar.js:387-396 | a button's text is its task's id, and looking it up with `parseInt` finds that task |
| Calendar.CalendarPage.constructor | app/calendar/calendar.js:14-18 | nobody is signed in, there are no tasks, and today's month is shown |
| Calendar.CalendarPage.SignIn | app/calendar/calendar.js:75-103 | the stored tasks and theme are adopted; a missing document leaves the list as it was |
| Calendar.CalendarPage.ToggleTaskCompletion | app/calendar/calendar.js:506-545 | when signed in, the first task with the parsed id has `completed` flipped and is stamped; nothing else changes |
| Calendar.CalendarPage.DeleteTask | app/calendar/calendar.js:547-587 | fails with "User not authenticated" or "Task not found" and changes nothing, or removes every task with the parsed id; the notice is the success text or the Thai failure prefix and the error |
| Calendar.CalendarPage.OpenTaskDetail | app/calendar/calendar.js:422-442 | a task with the id becomes the one being edited |
| Calendar.CalendarPage.SaveTaskChanges | app/calendar/calendar.js:444-504 | with a task open and a user signed in, the required fields are checked; the first task with the id gets the five fields and the time stamp and the popup closes; nothing changes otherwise |
| Calendar.CalendarPage.NextMonth | app/calendar/calendar.js:181-186 | the displayed date becomes `setMonth(getMonth() + 1)` of it: one month on, or two when the next month lacks the day |
| Calendar.CalendarPage.PrevMonth | app/calendar/calendar.js:174-179 | the displayed date becomes `setMonth(getMonth() - 1)` of it: one month back, or no change of month when the previous month lacks the day |
| Calendar.CalendarPage.Today | app/calendar/calendar.js:188-193 | the displayed date becomes today |
| Login.TranslationsVisible | login/Login_script.js:5-90 | every field error of both languages is non-empty, and the mismatch and empty-confirm messages differ |
| Login.InitialLanguage | login/Login_script.js:2 | a stored non-empty language is used, and otherwise Thai |
| Login.Score | login/Login_script.js:418-432 | the score is 0 to 4; it is 4 exactly when all four criteria hold and 0 exactly when none does |
| Login.Band | login/Login_script.js:433-435 | below 2 is weak, 2 is medium, above 2 is strong |
| Login.CheckPasswordStrength | login/Login_script.js:418-436 | an empty password hides the meter and its text; otherwise the point-by-point count gives the band of the score, shown with that band's text in the given language |
| Login.MixedCaseWithoutBreaks | login/Login_script.js:427 | without line terminators, the case criterion means "has a lower-case and an upper-case letter" |
| Login.LineBreakHidesMixedCase | login/Login_script.js:427 | with a line break between the two letters, "a\nB" fails the case criterion |
| Login.CriteriaKeptByAppend | login/Login_script.js:425-432 | a criterion a password meets stays met when characters are appended |
| Login.ScoreMonotone | login/Login_script.js:418-436 | typing more never lowers the score or the band |
| Login.StrongExample | login/Login_script.js:418-436 | "Password1!" scores 4 and is strong |
| Login.WeakExample | login/Login_script.js:418-436 | "password" scores 1 and is weak |
| Login.Check | login/Login_script.js:222-243 | one field check shows the message on its own line when the field is bad and clears it otherwise; other lines stay |
| Login.ConfirmCheck | login/Login_script.js:190-194 | the confirm line reports an empty confirmation before a mismatch; other lines stay |
| Login.LoginErrorsSpec | login/Login_script.js:172-180 | each login line shows its message exactly when its trimmed field is empty; the form is valid exactly when no line shows an error |
| Login.RegisterErrorsSpec | login/Login_script.js:182-196 | each register line shows its message exactly when its field is empty; the confirm line reports emptiness, then a trimmed mismatch; valid exactly when no line shows an error |
| Login.RegisterValidMatches | login/Login_script.js:300-311 | a valid register form has matching non-empty trimmed passwords, so the handler's second mismatch check never fires |
| Login.MatchIsUntrimmed | login/Login_script.js:198-220 | the live match check compares raw values: "secret" and "secret " differ there but not in the form |
| Login.AuthErrorMessage | login/Login_script.js:254-259 | a known code gives its message, and anything else gives the default; the result is always a non-empty table entry |
| Login.LoginFailedAlert | login/Login_script.js:295 | the alert is the localised headline, a newline, then the reason |
| Login.DefaultDisplayName | login/Login_script.js:160 | a non-empty profile name is used, and otherwise the text before the e-mail's first `@` |
| Login.DisplayNameOfAddress | login/Login_script.js:160 | a plain address gives its local part; an address without `@` is kept whole |
| Login.LoginPage.constructor | login/Login_script.js:1-2 | redirects are allowed and the language is the stored one or Thai |
| Login.LoginPage.ShouldRedirect | login/Login_script.js:125-137 | the auth listener redirects exactly when a user is signed in and redirects are allowed |
| Login.LoginPage.SelectLanguage | login/Login_script.js:97-107 | a different language becomes current and is stored; the same one changes nothing |
| Login.LoginPage.ShowError | login/Login_script.js:222-236 | the element's line is created if needed and shows the message |
| Login.LoginPage.ClearError | login/Login_script.js:238-243 | an existing line is emptied, and a missing one stays missing |
| Login.LoginPage.ValidateLoginForm | login/Login_script.js:172-180 | the result is the login form's validity, and the error lines are those of `LoginErrors` in the current language |
| Login.LoginPage.ValidateRegisterForm | login/Login_script.js:182-196 | the result is the register form's validity, and the error lines are those of `RegisterErrors` |
| Login.LoginPage.ValidatePasswordMatch | login/Login_script.js:198-220 | the match line shows the mismatch message exactly when the raw values differ, and is created if missing |
| Login.LoginPage.HandleLogin | login/Login_script.js:262-276 | redirects are switched off first, the current language is captured for the callbacks, and sign-in is attempted exactly for a valid form |
| Login.LoginPage.LoginFailed | login/Login_script.js:291-296 | the failure alert is the headline in the language captured when the sign-in started, and the reason |
| Login.LoginPage.HandleRegister | login/Login_script.js:300-315 | an invalid form changes no state but its error lines; a valid one switches redirects off and is submitted |
| Login.LoginPage.RegisterSettled | login/Login_script.js:331-345 | when the account call settles, redirects are allowed again |
| Login.LoginPage.HandleGoogleLogin | login/Login_script.js:349-359 | the Google sign-in switches redirects off |
| Login.LoginPage.GoogleSettled | login/Login_script.js:359-376 | when the popup settles, redirects are allowed again |

## Left out

- The DOM is reduced to the state the code reads back or the user sees: text, lines, flags and error texts. Styles, animations, focus, scrolling and the checks that an element exists are not modelled.
- Timers are not modelled. This covers the retry wait, the toasts, the redirect delays, the robot eye tracker, the typewriter effect, the character counters and the console warning. The retry wait shows up only as the request count.
- Firestore and Firebase authentication are parameters: a document that is present or missing, and an outcome that succeeds or fails. The writes themselves, their failures, `createUserDocIfNotExists` and the log-out flow are not modelled.
- `marked.parse` and its `escapeHtml` fallback are not modelled. The shown text is the cleaned string handed to them.
- The `fetch` transport is left out: POST bodies, headers, ngrok, CORS, the JSON size limit and logging. The client reads the reply as a text stream while the gateway sends one JSON body. The model takes the stream's pieces as given, and `TextDecoder`'s handling of multi-byte sequences is not modelled.
- The gateway's trace model assumes that no finish event arrives while the slot is free. Node's event loop is modelled as one event at a time.
- Due dates are compared as strings, which for `YYYY-MM-DD` keys is their time order. `new Date` parsing, time zones and NaN dates are not modelled.
- Planner.SortTasksSorted: stated only for known priorities. An unknown priority makes the comparator return NaN (treated as 0), which is not a consistent order. The resulting order then depends on the engine's sort algorithm; the model uses a stable insertion order.
- Planner.StatisticsSpec: the rate is specified as the exact percentage rounded half up. The page rounds a floating-point `completed / total * 100`. With 29 of 200 done, that value is just below 14.5 and rounds to 14, while the model gives 15.
- ChatClient.HistoryAfterTurn: the comment at app/AI/ai.js:439 says the conversation is kept to the system prompt and the last 20 messages, 21 entries. The code pushes the reply behind the window, so the stored history reaches 22 entries, and the model follows the code. At most 21 entries are ever sent.
- Login.LoginPage.ValidateLoginForm, ValidateRegisterForm, ValidatePasswordMatch, HandleLogin, LoginFailed and HandleRegister: `requires` a language present in the message table (for `LoginFailed`, the language captured by `handleLogin`). The page throws a `TypeError` on any other stored language, and that failure is not modelled.
- The redundant mismatch alert in `handleRegister` (line 311) is not modelled as a branch. `Login.RegisterValidMatches` proves it can never fire.
- `errorMessages` is an ordinary object, so a code such as `toString` would find an inherited member. The model treats the table as exactly its four entries.
- The theme and "remember me" storage, `switchTab`, `togglePassword`, the side navigation and the planner's cooldown and length popups are presentation only. The popups' values are the results the model returns.
- Calendar.RenderCalendar: the month title is not returned. The `has-tasks` class is not a field of a cell; it is exactly `dayTasks != []`. Each cell's `today` mark and `dayTasks` are stated through `CellFor` and `Calendar.CellForSpec`, with today's date a parameter.
- JsText.ParseIntOfIntToString: integers are unbounded. JavaScript writes a number of magnitude 1e21 or more in exponent form, and `parseInt` then reads only its leading digits; ids beyond 2^53 also lose precision. Task ids come from a counter that starts at 1, or one past the largest stored id, and grows by one per added task, so they stay far below both bounds.
- Planner.SortTasksIdempotent: stated only for tasks whose priorities are "high", "medium" or "low", for the reason given for SortTasksSorted.

## Findings

| source | as written | input that shows it | evidently intended | confidence | as-written member | corrected member |
|---|---|---|---|---|---|---|
| app/calendar/calendar.js:174-186 | `currentDate.setMonth(getMonth() ± 1)` keeps the day of the month, and a day the target month lacks overflows into the month after it | on 31 January 2025 "next month" shows 3 March 2025; on 31 March 2025 "previous month" shows 3 March 2025 | move by exactly one month, clamping the day to the target month's length | not executed | Calendar.MonthNavigationSkips | Calendar.ShiftMonthSpec |
