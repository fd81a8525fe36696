# Smart Study Planner — a Dafny model

The Smart Study Planner is a small desktop app for one student. The student
records subjects with a weight. The app generates a weekly timetable that
rotates through the subjects, three tasks a day. Checkboxes track which
subjects were studied, and a history log keeps every saved day. This project
models that logic in Dafny and proves what it does:

- `Database` — the `subjects` and `history` tables as sequences in insertion
  order, inside class `Store` (the app's `DB`). Insert, delete-by-name, select,
  and select newest-first.
- `Text` — the string handling in front of the table:
  - Python's `strip` and `isdigit`;
  - `int(...)` and `str(...)` on the weight;
  - the listbox line `name (Weight: w)`;
  - `split(" (")[0]`, which the remove button uses to get the name back.
- `Timetable` — the pure round-robin rule. Task `j` of day `i` is the name of
  subject `(i + j) mod N`.
- `Progress` — the checkbox dictionary and the history rows one save appends.
  The dictionary is insertion-ordered and keyed by subject name.
- `Planner` — class `PlannerApp` (the app's `StudyPlannerApp`). It has the
  listbox, the timetable view and the checkbox dictionary as fields. It has
  the add, remove, generate, tick, save and history buttons as methods.
  - Error dialogs become an `Outcome`.
  - Today's date is a parameter.
  - The user's tick on a checkbox is the method `SetChecked`.

Two behaviours of the code are modelled as written:

- Removal goes through the listbox text. A subject whose name contains `" ("`
  therefore deletes the rows named by the part before the separator, not the
  selected row (`Text.ExtractNameTruncates`).
- A weight string of more than 4300 digits is refused by `int` with a
  ValueError. Leading zeros count toward that limit, so `"0"` repeated 4300
  times followed by `"5"` is refused although its value is 5
  (`Planner.PaddedWeightRefused`). This is an exception, not a dialog.
- A weight too large for SQLite's 64-bit INTEGER is refused by the database
  driver. This is also an exception, not a dialog.

## Model

| member | source | states |
|---|---|---|
| `Database.Without` | code.py:52-54 | After `DELETE ... WHERE name=?` no row carries the name. The result is a subsequence of the table, in the same relative order. Exactly `Count(rows, name)` rows are gone. |
| `Database.WithoutAbsent` | code.py:53 | Deleting a name no row carries leaves the table unchanged, with no error. |
| `Database.WithoutKeepsOthers` | code.py:53 | Every row with another name survives the delete. |
| `Database.WithoutIdempotent` | code.py:53 | Deleting a name twice equals deleting it once. |
| `Database.WithoutKeepsFit` | code.py:52-54 | A delete keeps every remaining weight within the INTEGER range. |
| `Database.Store.constructor` | code.py:22-42 | Opening the database presents the rows already in its two tables, whose weights all fit an SQLite INTEGER. |
| `Database.Store.GetSubjects` | code.py:44-46 | Returns the subject rows in insertion order. |
| `Database.Store.AddSubject` | code.py:48-50 | Appends exactly one row `(name, weight)` at the end. Leaves history alone. Refuses, changing nothing, a weight above 2^63-1, so every stored weight fits. |
| `Database.Store.RemoveSubject` | code.py:52-54 | The subject table becomes `Without(old table, name)`. History is untouched. |
| `Database.Store.SaveHistory` | code.py:56-58 | Appends one history row, with no duplicate check. Subjects are untouched. |
| `Database.Store.GetHistory` | code.py:60-62 | Returns every history row, newest first: row `k` is the `k`-th most recently inserted. |
| `Text.SkipSpaceForward` | code.py:131-132 | Returns the first position at or after `i` that holds no whitespace. Everything it skips is whitespace. |
| `Text.SkipSpaceBackward` | code.py:131-132 | Returns the position just after the last non-whitespace character of `s[lo..hi]`. Everything it skips is whitespace. |
| `Text.Strip` | code.py:131-132 | `strip()` returns a stretch of the input no longer than it, and that stretch neither starts nor ends with whitespace. Which stretch it is: `Text.StripTrimsExactlyOuterSpace`. |
| `Text.StripTrimsExactlyOuterSpace` | code.py:131-132 | The stripped text neither starts nor ends with whitespace, and only whitespace precedes and follows it in the input. |
| `Text.StripEmptyIff` | code.py:131-133 | A stripped input is empty if and only if the input is all whitespace. |
| `Text.StripIdempotent` | code.py:131-132 | Stripping twice equals stripping once. |
| `Text.IsDigitString` | code.py:133 | `isdigit()`: non-empty and all digits. Its role in the add button's check is stated by `Planner.ValidInputIff`. |
| `Text.DecimalValue` | code.py:134 | `int(s)` on a digit string. A string of `k` digits has a value below `10^k`. |
| `Text.LeadingZerosIgnored` | code.py:134 | Leading zeros do not change the value `int` reads. |
| `Text.ShowNat` | code.py:154 | `str(w)` is a non-empty digit string with no leading zero (except `"0"`), and `int` of it gives `w` back. |
| `Text.ShowDecimalRoundTrip` | code.py:134 | A weight typed without leading zeros is shown in the listbox exactly as typed: `str(int(s)) == s`. |
| `Text.Display` | code.py:154 | The listbox line starts with the name, then the separator `" ("`. It ends with the weight in decimal and `")"`. |
| `Text.FirstField` | code.py:144 | `split(" (")[0]` is a prefix of the line. It ends at the first `" ("` or at the end of the line, and no `" ("` starts inside it. |
| `Text.ExtractNameRoundTrip` | code.py:144-154 | For a name without `" ("`, the name read off the line `name (Weight: w)` is the name itself. |
| `Text.ExtractNameTruncates` | code.py:144-154 | For a name that contains `" ("`, the name read back is a strictly shorter prefix of it. |
| `Timetable.DayTasks` | code.py:167 | One day's task list. `Timetable.WeekShape` states its length and content, `Timetable.NextDayRotates` and `Timetable.DaysRepeatWithPeriodN` how it moves from day to day. |
| `Timetable.Week` | code.py:164-168 | The seven timetable rows. `Timetable.WeekShape` states their days and tasks, and `Timetable.WeightIgnored` that weights play no part. |
| `Timetable.WeekShape` | code.py:164-168 | Exactly 7 rows, Monday to Sunday in order, with 3 tasks each. Task `j` of day `i` is `subjects[(i+j) mod N].name`. |
| `Timetable.TasksAreSubjectNames` | code.py:167 | Every task is the name of a current subject. |
| `Timetable.NextDayRotates` | code.py:167 | Day `i+1`'s first two tasks are day `i`'s last two. Its third task is subject `(i+3) mod N`. |
| `Timetable.DaysRepeatWithPeriodN` | code.py:167 | Day `i+N` has the same tasks as day `i`. |
| `Timetable.WeightIgnored` | code.py:167 | Two tables with the same names in the same order give the same week, whatever their weights. |
| `Timetable.SingleSubjectEveryTask` | code.py:167 | With one subject, all 21 tasks are that subject (the modulus wraps within a day). |
| `Timetable.ThreeSubjectsExample` | code.py:164-168 | Math, Physics, Chemistry give Monday `[Math, Physics, Chemistry]`, Tuesday `[Physics, Chemistry, Math]` and Sunday `[Math, Physics, Chemistry]`. |
| `Progress.Assign` | code.py:180 | `d[name] = v` keeps the keys distinct. An existing key keeps its position, and a new key goes at the end. The entry for `name` takes `v`, and every other entry is unchanged. |
| `Progress.Dedup` | code.py:174-180 | The distinct names are exactly the names of the table, each once, ordered by first occurrence. |
| `Progress.DedupDistinct` | code.py:174-180 | A table without duplicate names keeps all its names, in order. |
| `Progress.FreshCheckboxes` | code.py:174-180 | The rebuilt dictionary has distinct keys. |
| `Progress.FreshCheckboxesKeys` | code.py:174-180 | Its keys are the distinct subject names in order of first occurrence, and every box starts unticked. |
| `Progress.StatusText` | code.py:192 | The status text of one box. `Progress.ProgressRowStatus` states that it is `"Done"` iff the box is ticked. |
| `Progress.ProgressRows` | code.py:191-193 | One save produces one row per dictionary entry. |
| `Progress.ProgressRowStatus` | code.py:190-193 | Each row carries the save's date and its entry's subject. Its status is `"Done"` iff the box is ticked and `"Not Done"` iff it is not. |
| `Progress.OneRowPerSubject` | code.py:191-193 | One save writes exactly one row per dictionary key and no row for any other name. |
| `Progress.SavingTwiceDuplicates` | code.py:56-58 | Two saves write every subject's row twice: history is never de-duplicated. |
| `Planner.Listing` | code.py:150-154 | The listbox has one line per subject row. |
| `Planner.ValidInput` | code.py:133 | The add button's check. `Planner.ValidInputIff` states it in terms of the raw input. |
| `Planner.ValidInputIff` | code.py:131-133 | The add button accepts input iff the name is not all whitespace and the stripped weight is a non-empty digit string. |
| `Planner.MessagesDistinct` | code.py:130-194 | Different errors never show the same text. In particular, two digit-limit errors for inputs of different lengths have different texts. |
| `Planner.ShortWeightsFit` | code.py:134 | A weight of at most 18 digits always fits the INTEGER column, so only longer inputs can overflow. |
| `Planner.PaddedWeightRefused` | code.py:133-134 | A name and a weight of 4300 or more zeros followed by 5 pass the add button's check. Their value is 5, yet the weight is longer than `int`'s digit limit. |
| `Planner.PlannerApp.constructor` | code.py:76-127 | The window opens on the database with an empty checkbox dictionary and the listbox filled from the subject table. |
| `Planner.PlannerApp.LoadSubjects` | code.py:150-154 | The listbox becomes the line `name (Weight: w)` of every subject row, in table order. |
| `Planner.PlannerApp.AddSubject` | code.py:130-139 | Invalid input is an error and changes nothing. A weight string longer than 4300 digits is then refused. After that, a weight above 2^63-1 is refused. Otherwise exactly `(strip(name), int(strip(weight)))` is appended. History never changes. |
| `Planner.PlannerApp.RemoveSubject` | code.py:141-148 | No selection is an error and changes nothing. Otherwise the rows named by the selected line's first field are deleted. That is the selected subject's own name when it has no `" ("`. |
| `Planner.PlannerApp.GenerateTimetable` | code.py:157-182 | No subjects is an error, and the view and checkboxes are unchanged. Otherwise the view is `Week(subjects)` and the dictionary is rebuilt with one unticked box per name. |
| `Planner.PlannerApp.SetChecked` | code.py:176-180 | Ticking a box sets that key's value. An unknown name changes nothing. |
| `Planner.PlannerApp.SaveProgress` | code.py:185-194 | An empty dictionary is an error and appends nothing. Otherwise history gains `ProgressRows(today, checkboxes)` at its end, and subjects are untouched. |
| `Planner.PlannerApp.ViewHistory` | code.py:197-214 | An empty history gives the "no history" notice. Otherwise all rows are shown, newest first. |
| `Planner.SaveAfterGenerate` | code.py:174-193 | Saving right after generating writes one `"Not Done"` row per distinct subject name, in first-occurrence order, all with today's date. |
| `Planner.NewRowsShownFirst` | code.py:60-62 | Rows saved later are listed before every row saved earlier. |

## Left out

- Tkinter: window layout, styling, and the Treeview and listbox widgets themselves (only their contents are modelled). Also out: clearing the entry fields after an add, and the success dialogs.
- The timetable cell text `", ".join(tasks)`: the model keeps each day's three names as a sequence.
- `pick_exam_date` and the calendar widget (code.py:9-19): it only prints the picked date.
- The SQLite connection, cursor, commits and `close`. Row ids are kept only as insertion order. `SELECT name, weight FROM subjects` has no `ORDER BY`; the model assumes it returns insertion order.
- Database I/O failures (disk full, locked file) are not modelled. Of the driver's own errors only the integer overflow on insert is.
- `datetime.date.today()`: the date is the `today` parameter of `SaveProgress`.
- `Planner.PlannerApp.AddSubject`: the digit limit is CPython's default (`sys.get_int_max_str_digits()` is 4300), which Python 3.11 and later enforce, as do the 2022 security releases of 3.7 to 3.10. A program that changes the limit, or an older interpreter without it, is not modelled.
- `Text.Strip`, `Text.IsDigitString`, `Text.DecimalValue`: only ASCII whitespace and ASCII digits are recognised. Python's `strip`, `isdigit` and `int` also accept other Unicode whitespace and digits.
- `Planner.PlannerApp.SetChecked`: with a duplicated subject name, the window shows one checkbox per row. Only the last one is linked to the dictionary. The model only has the linked box, so it does not capture that ticking an earlier box of the same name has no effect.
- `Planner.PlannerApp.RemoveSubject`: Tk's listbox selection is taken as a list of valid indices. Only the first one is used, as in the code.
