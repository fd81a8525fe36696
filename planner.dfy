/**
 * The study planner window: the add and remove buttons with their input
 * checks, the subject listbox, the timetable view, the progress checkboxes
 * and the history view. Widgets are modelled by what they hold; message
 * boxes become the `Error` of an `Outcome`.
 */
module Planner {
  import opened Seqs
  import opened Text
  import opened Database
  import opened Timetable
  import opened Progress

  /** The error dialogs the window can show, and the two exceptions no dialog
      reports: `int` refusing a weight of more than `MaxStrDigits` digits
      (ValueError), and the database driver refusing one too large for its
      INTEGER column (OverflowError). */
  datatype Error = InvalidSubject | NothingSelected | NoSubjects | NoTimetable
                 | DigitLimit(digits: nat) | WeightOverflow

  /** The head of the ValueError text; the digit count follows it. */
  const DigitLimitPrefix: string := "Exceeds the limit (4300 digits) for integer string conversion: value has "

  /** The tail of the ValueError text. */
  const DigitLimitSuffix: string := " digits; use sys.set_int_max_str_digits() to increase the limit"

  /** The text of each error dialog or exception. */
  function Message(e: Error): string {
    match e
    case InvalidSubject => "Enter valid subject and weight (number)."
    case NothingSelected => "Select a subject to remove."
    case NoSubjects => "Add subjects first!"
    case NoTimetable => "Generate timetable first to save progress."
    case DigitLimit(n) => DigitLimitPrefix + ShowNat(n) + DigitLimitSuffix
    case WeightOverflow => "Python int too large to convert to SQLite INTEGER"
  }

  /** Different errors never show the same text, so the message tells the user
      which check stopped the action (and, for the digit limit, how long the
      input was). */
  lemma MessagesDistinct(e1: Error, e2: Error)
    requires e1 != e2
    ensures Message(e1) != Message(e2)
  {
    var m1, m2 := Message(e1), Message(e2);
    if e1.DigitLimit? && e2.DigitLimit? {
      var a, b := ShowNat(e1.digits), ShowNat(e2.digits);
      assert a != b;
      if |a| == |b| {
        var k :| 0 <= k < |a| && a[k] != b[k];
        assert m1[|DigitLimitPrefix| + k] == a[k];
        assert m2[|DigitLimitPrefix| + k] == b[k];
      }
    } else {
      // the fixed texts all differ in length, and the ValueError text is longer than any of them
      assert |DigitLimitPrefix| == 73;
    }
  }

  /** Whether a button's action went ahead or stopped at an error dialog. */
  datatype Outcome = Pass | Fail(error: Error)

  /** What the history button shows: the "no history" notice, or the rows. */
  datatype HistoryView = NoHistory | Entries(rows: seq<HistoryEntry>)

  /** The add button's check: the stripped name is not empty and the stripped
      weight is a non-empty string of digits. */
  predicate ValidInput(nameInput: string, weightInput: string) {
    Strip(nameInput) != [] && IsDigitString(Strip(weightInput))
  }

  /** The listbox lines for the subject rows, one per row in table order. */
  function Listing(subjects: seq<Subject>): (lines: seq<string>)
    ensures |lines| == |subjects|
  {
    seq(|subjects|, k requires 0 <= k < |subjects| => Display(subjects[k].name, subjects[k].weight))
  }

  /** A weight of at most 18 digits always fits the INTEGER column, so only
      longer inputs can be refused as too large. */
  lemma ShortWeightsFit(s: string)
    requires IsDigitString(s) && |s| <= 18
    ensures DecimalValue(s) <= MaxInteger
  {
    Pow10Monotone(|s|, 18);
    assert Pow10(6) == 1_000_000;
    assert Pow10(12) == 1_000_000_000_000;
    assert Pow10(18) == 1_000_000_000_000_000_000;
  }

  /** Python counts leading zeros toward its digit limit although they do not
      change the value: a weight of `n >= MaxStrDigits` zeros followed by 5 is
      valid input worth 5, yet longer than the limit. */
  lemma PaddedWeightRefused(name: string, n: nat)
    requires !AllSpace(name) && n >= MaxStrDigits
    ensures var w := Zeros(n) + "5";
      && ValidInput(name, w) && Strip(w) == w
      && DecimalValue(w) == 5 && |Strip(w)| > MaxStrDigits
  {
    var w := Zeros(n) + "5";
    LeadingZerosIgnored(n, "5");
    StripEmptyIff(name);
    assert StripStart(w) == 0;
    assert StripEnd(w) == |w|;
  }

  /** The blank-name half of the input check is exactly "all whitespace". */
  lemma ValidInputIff(nameInput: string, weightInput: string)
    ensures ValidInput(nameInput, weightInput) <==> !AllSpace(nameInput) && IsDigitString(Strip(weightInput))
  {
    StripEmptyIff(nameInput);
  }

  class PlannerApp {
    /** The database the window opened. */
    const db: Store
    /** The lines shown in the subject listbox. */
    var listbox: seq<string>
    /** The rows shown in the timetable view. */
    var tree: seq<Row>
    /** The checkbox dictionary, keyed by subject name. */
    var checkboxes: seq<Checkbox>

    /** The database is consistent, the listbox shows the subject table, and
        the checkbox dictionary has distinct keys. */
    ghost predicate Valid()
      reads this, db
    {
      db.Valid() && listbox == Listing(db.subjects) && Distinct(Keys(checkboxes))
    }

    /** Opens the window on a database: no timetable, no checkboxes, and the
        listbox filled from the subject table. */
    constructor (store: Store)
      requires store.Valid()
      ensures db == store && Valid()
      ensures tree == [] && checkboxes == []
    {
      db := store;
      listbox := [];
      tree := [];
      checkboxes := [];
      new;
      LoadSubjects();
    }

    /** Refills the listbox with one line per subject row. */
    method LoadSubjects()
      modifies this`listbox
      ensures listbox == Listing(db.subjects)
    {
      listbox := [];
      var subjects := db.GetSubjects();
      for k := 0 to |subjects|
        invariant listbox == Listing(subjects[..k])
      {
        assert subjects[..k + 1] == subjects[..k] + [subjects[k]];
        listbox := listbox + [Display(subjects[k].name, subjects[k].weight)];
      }
      assert subjects[..|subjects|] == subjects;
    }

    /** The add button: on valid input one row (stripped name, integer weight)
        is appended to the subject table, unless the database refuses a weight
        too large for its INTEGER column; otherwise nothing changes. */
    method AddSubject(nameInput: string, weightInput: string) returns (r: Outcome)
      requires Valid()
      modifies this`listbox, db
      ensures Valid()
      ensures r == if !ValidInput(nameInput, weightInput) then Fail(InvalidSubject)
                   else if |Strip(weightInput)| > MaxStrDigits then Fail(DigitLimit(|Strip(weightInput)|))
                   else if DecimalValue(Strip(weightInput)) > MaxInteger then Fail(WeightOverflow)
                   else Pass
      ensures r == Pass ==>
        db.subjects == old(db.subjects) + [Subject(Strip(nameInput), DecimalValue(Strip(weightInput)))]
      ensures r != Pass ==> db.subjects == old(db.subjects)
      ensures db.history == old(db.history)
    {
      var name := Strip(nameInput);
      var weight := Strip(weightInput);
      if name != [] && IsDigitString(weight) {
        if |weight| > MaxStrDigits {
          return Fail(DigitLimit(|weight|));
        }
        var ok := db.AddSubject(name, DecimalValue(weight));
        if !ok {
          return Fail(WeightOverflow);
        }
        LoadSubjects();
        r := Pass;
      } else {
        r := Fail(InvalidSubject);
      }
    }

    /** The remove button, given the listbox selection: deletes every row
        carrying the name read off the selected line. That is the selected
        row's name unless the name itself contains " (". */
    method RemoveSubject(selected: seq<nat>) returns (r: Outcome)
      requires Valid()
      requires forall i :: 0 <= i < |selected| ==> selected[i] < |listbox|
      modifies this`listbox, db
      ensures Valid()
      ensures r == if selected == [] then Fail(NothingSelected) else Pass
      ensures selected == [] ==> db.subjects == old(db.subjects)
      ensures selected != [] ==> db.subjects == Without(old(db.subjects), FirstField(old(listbox)[selected[0]]))
      ensures selected != [] && !ContainsSeparator(old(db.subjects)[selected[0]].name) ==>
        db.subjects == Without(old(db.subjects), old(db.subjects)[selected[0]].name)
      ensures db.history == old(db.history)
    {
      if selected != [] {
        var row := db.subjects[selected[0]];
        var name := FirstField(listbox[selected[0]]);
        if !ContainsSeparator(row.name) {
          ExtractNameRoundTrip(row.name, row.weight);
        }
        db.RemoveSubject(name);
        LoadSubjects();
        r := Pass;
      } else {
        r := Fail(NothingSelected);
      }
    }

    /** The timetable button: with no subjects it stops at an error and leaves
        the view and the checkboxes alone; otherwise the view shows the week and
        the checkbox dictionary is rebuilt with one unticked box per name. */
    method GenerateTimetable() returns (r: Outcome)
      requires Valid()
      modifies this`tree, this`checkboxes
      ensures Valid()
      ensures db.subjects == [] ==> r == Fail(NoSubjects) && tree == old(tree) && checkboxes == old(checkboxes)
      ensures db.subjects != [] ==>
        r == Pass && tree == Week(db.subjects) && checkboxes == FreshCheckboxes(Names(db.subjects))
    {
      var subjects := db.GetSubjects();
      if subjects == [] {
        return Fail(NoSubjects);
      }
      var rows: seq<Row> := [];
      for i := 0 to |Days|
        invariant rows == Week(subjects)[..i]
      {
        rows := rows + [Row(Days[i], DayTasks(subjects, i))];
      }
      tree := rows;
      var names := Names(subjects);
      var boxes: seq<Checkbox> := [];
      for k := 0 to |subjects|
        invariant boxes == FreshCheckboxes(names[..k])
      {
        assert names[..k + 1][..k] == names[..k];
        boxes := Assign(boxes, subjects[k].name, false);
      }
      assert names[..|subjects|] == names;
      checkboxes := boxes;
      r := Pass;
    }

    /** The user ticks or clears the box of a subject in the dictionary. */
    method SetChecked(name: string, checked: bool)
      requires Valid()
      modifies this`checkboxes
      ensures Valid()
      ensures checkboxes == if name in Keys(old(checkboxes)) then Assign(old(checkboxes), name, checked) else old(checkboxes)
    {
      if name in Keys(checkboxes) {
        checkboxes := Assign(checkboxes, name, checked);
      }
    }

    /** The save button, given today's date: without a checkbox dictionary it
        stops at an error; otherwise it appends one history row per entry. */
    method SaveProgress(today: string) returns (r: Outcome)
      requires Valid()
      modifies db
      ensures Valid()
      ensures checkboxes == [] ==> r == Fail(NoTimetable) && db.history == old(db.history)
      ensures checkboxes != [] ==> r == Pass && db.history == old(db.history) + ProgressRows(today, checkboxes)
      ensures db.subjects == old(db.subjects)
    {
      if checkboxes == [] {
        return Fail(NoTimetable);
      }
      var rows := ProgressRows(today, checkboxes);
      for k := 0 to |checkboxes|
        invariant db.history == old(db.history) + rows[..k]
        invariant db.subjects == old(db.subjects)
      {
        var status := StatusText(checkboxes[k].checked);
        db.SaveHistory(today, checkboxes[k].subject, status);
        assert rows[..k + 1] == rows[..k] + [rows[k]];
      }
      assert rows[..|checkboxes|] == rows;
      r := Pass;
    }

    /** The history button: the "no history" notice on an empty table,
        otherwise every row, most recently saved first. */
    method ViewHistory() returns (r: HistoryView)
      ensures db.history == [] ==> r == NoHistory
      ensures db.history != [] ==> r.Entries? && |r.rows| == |db.history|
      ensures db.history != [] ==> forall k :: 0 <= k < |db.history| ==> r.rows[k] == db.history[|db.history| - 1 - k]
    {
      var history := db.GetHistory();
      if history == [] {
        return NoHistory;
      }
      r := Entries(history);
    }
  }

  /** Saving after a fresh timetable writes one "Not Done" row per distinct
      subject name, in the order the names first appear in the table. */
  lemma SaveAfterGenerate(today: string, subjects: seq<Subject>)
    ensures var rows := ProgressRows(today, FreshCheckboxes(Names(subjects)));
      && |rows| == |Dedup(Names(subjects))|
      && forall k :: 0 <= k < |rows| ==>
           rows[k] == HistoryEntry(today, Dedup(Names(subjects))[k], "Not Done")
  {
    var boxes := FreshCheckboxes(Names(subjects));
    FreshCheckboxesKeys(Names(subjects));
    assert forall k :: 0 <= k < |boxes| ==> boxes[k].subject == Keys(boxes)[k];
  }

  /** Rows saved later are shown before every row saved earlier. */
  lemma NewRowsShownFirst(older: seq<HistoryEntry>, newer: seq<HistoryEntry>)
    ensures Reverse(older + newer)[..|newer|] == Reverse(newer)
    ensures Reverse(older + newer)[|newer|..] == Reverse(older)
  {
    ReverseAppend(older, newer);
  }

  /** Opens the window on a table holding Math and Physics, generates the
      timetable and ticks Math. */
  method OpenAndTickMath() returns (store: Store, app: PlannerApp)
    ensures fresh(store) && fresh(app) && app.db == store && app.Valid()
    ensures store.history == []
    ensures app.checkboxes == [Checkbox("Math", true), Checkbox("Physics", false)]
  {
    store := new Store([Subject("Math", 5), Subject("Physics", 3)], []);
    app := new PlannerApp(store);
    var r := app.GenerateTimetable();
    assert Names(store.subjects) == ["Math", "Physics"];
    FreshCheckboxesKeys(["Math", "Physics"]);
    assert Keys(app.checkboxes) == ["Math", "Physics"];
    app.SetChecked("Math", true);
  }

  /** A session on a table holding Math and Physics: the timetable is
      generated, Math ticked and progress saved twice on the same day. The
      history then holds four rows, the latest save first, nothing merged. */
  method TwoSavesSession()
  {
    var store, app := OpenAndTickMath();
    var saved := [HistoryEntry("2024-01-01", "Math", "Done"), HistoryEntry("2024-01-01", "Physics", "Not Done")];
    assert ProgressRows("2024-01-01", app.checkboxes) == saved;
    var r := app.SaveProgress("2024-01-01");
    r := app.SaveProgress("2024-01-01");
    assert store.history == saved + saved;
    var view := app.ViewHistory();
    assert view.rows == [
      HistoryEntry("2024-01-01", "Physics", "Not Done"), HistoryEntry("2024-01-01", "Math", "Done"),
      HistoryEntry("2024-01-01", "Physics", "Not Done"), HistoryEntry("2024-01-01", "Math", "Done")];
  }
}
