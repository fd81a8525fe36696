/**
 * The weekly timetable: a round robin over the subject rows, three tasks a
 * day from Monday to Sunday. The weight column is never consulted.
 */
module Timetable {
  import opened Database

  /** The rows of the timetable, in the order they are inserted. */
  const Days: seq<string> := ["Monday", "Tuesday", "Wednesday", "Thursday", "Friday", "Saturday", "Sunday"]

  /** How many tasks each day gets. */
  const TasksPerDay: nat := 3

  /** A row of the timetable view: a day and the names of its tasks. */
  datatype Row = Row(day: string, tasks: seq<string>)

  /** The subject names, in table order. */
  function Names(subjects: seq<Subject>): (names: seq<string>)
    ensures |names| == |subjects|
  {
    seq(|subjects|, k requires 0 <= k < |subjects| => subjects[k].name)
  }

  /** Day `i`'s tasks: the names of the three subjects that follow on
      cyclically from row `i` of the table. */
  function DayTasks(subjects: seq<Subject>, i: nat): seq<string>
    requires |subjects| > 0
  {
    seq(TasksPerDay, j requires 0 <= j < TasksPerDay => subjects[(i + j) % |subjects|].name)
  }

  /** The whole week. */
  function Week(subjects: seq<Subject>): seq<Row>
    requires |subjects| > 0
  {
    seq(|Days|, i requires 0 <= i < |Days| => Row(Days[i], DayTasks(subjects, i)))
  }

  /** Seven rows, Monday to Sunday in order, three tasks each, and task `j` of
      day `i` is the name of subject `(i + j) mod N`. */
  lemma WeekShape(subjects: seq<Subject>)
    requires |subjects| > 0
    ensures |Week(subjects)| == 7
    ensures forall i :: 0 <= i < 7 ==> Week(subjects)[i].day == Days[i] && |Week(subjects)[i].tasks| == 3
    ensures forall i, j :: 0 <= i < 7 && 0 <= j < 3 ==>
      Week(subjects)[i].tasks[j] == subjects[(i + j) % |subjects|].name
  {
  }

  /** Every task is the name of a current subject. */
  lemma TasksAreSubjectNames(subjects: seq<Subject>)
    requires |subjects| > 0
    ensures forall i, j :: 0 <= i < 7 && 0 <= j < 3 ==> Week(subjects)[i].tasks[j] in Names(subjects)
  {
    forall i, j | 0 <= i < 7 && 0 <= j < 3
      ensures Week(subjects)[i].tasks[j] in Names(subjects)
    {
      var k := (i + j) % |subjects|;
      assert Names(subjects)[k] == Week(subjects)[i].tasks[j];
    }
  }

  /** The next day's list is this day's list moved on by one subject: its first
      two tasks are this day's last two, and its last task is the subject after. */
  lemma NextDayRotates(subjects: seq<Subject>, i: nat)
    requires |subjects| > 0
    ensures DayTasks(subjects, i + 1)[..2] == DayTasks(subjects, i)[1..]
    ensures DayTasks(subjects, i + 1)[2] == subjects[(i + 3) % |subjects|].name
  {
    var today, tomorrow := DayTasks(subjects, i), DayTasks(subjects, i + 1);
    assert tomorrow[0] == today[1] && tomorrow[1] == today[2];
  }

  /** With N subjects the days repeat every N days: day `i + N` gets the
      same tasks as day `i`. */
  lemma DaysRepeatWithPeriodN(subjects: seq<Subject>, i: nat)
    requires |subjects| > 0
    ensures DayTasks(subjects, i + |subjects|) == DayTasks(subjects, i)
  {
    var n := |subjects|;
    var later, now := DayTasks(subjects, i + n), DayTasks(subjects, i);
    forall j | 0 <= j < TasksPerDay ensures later[j] == now[j] {
      ModAddDivisor(i + j, n);
      assert i + n + j == (i + j) + n;
    }
  }

  /** Adding the divisor does not change a remainder. */
  lemma ModAddDivisor(x: nat, n: nat)
    requires n > 0
    ensures (x + n) % n == x % n
  {
    var q, r := x / n, x % n;
    assert x + n == (q + 1) * n + r;
    ModUnique(x + n, n, q + 1, r);
  }

  /** The remainder is the `r` of any decomposition `y == q * n + r` with `r < n`. */
  lemma ModUnique(y: nat, n: nat, q: nat, r: nat)
    requires n > 0 && y == q * n + r && r < n
    ensures y % n == r
  {
    var q' := y / n;
    if q' < q {
      MulGap(q, q', n);
    } else if q' > q {
      MulGap(q', q, n);
    }
  }

  /** Multiples of `n` with different factors are at least `n` apart. */
  lemma {:induction false} MulGap(a: nat, b: nat, n: nat)
    requires a > b
    ensures a * n >= b * n + n
  {
    if a > b + 1 {
      MulGap(a - 1, b, n);
      assert a * n == (a - 1) * n + n;
    } else {
      assert a * n == b * n + n;
    }
  }

  /** The weights play no part: two tables with the same names in the same
      order give the same week. */
  lemma WeightIgnored(s1: seq<Subject>, s2: seq<Subject>)
    requires |s1| > 0 && Names(s1) == Names(s2)
    ensures Week(s1) == Week(s2)
  {
    assert forall k :: 0 <= k < |s1| ==> s1[k].name == Names(s1)[k] == Names(s2)[k] == s2[k].name;
    forall i | 0 <= i < 7 ensures Week(s1)[i] == Week(s2)[i] {
      assert DayTasks(s1, i) == DayTasks(s2, i);
    }
  }

  /** With a single subject, every task of every day is that subject. */
  lemma SingleSubjectEveryTask(subjects: seq<Subject>)
    requires |subjects| == 1
    ensures forall i, j :: 0 <= i < 7 && 0 <= j < 3 ==> Week(subjects)[i].tasks[j] == subjects[0].name
  {
  }

  /** Three subjects: Monday and Sunday list them in table order, Tuesday starts
      at the second one. */
  lemma ThreeSubjectsExample()
    ensures var week := Week([Subject("Math", 5), Subject("Physics", 3), Subject("Chemistry", 2)]);
      && week[0] == Row("Monday", ["Math", "Physics", "Chemistry"])
      && week[1] == Row("Tuesday", ["Physics", "Chemistry", "Math"])
      && week[6] == Row("Sunday", ["Math", "Physics", "Chemistry"])
  {
    var s := [Subject("Math", 5), Subject("Physics", 3), Subject("Chemistry", 2)];
    assert DayTasks(s, 0) == ["Math", "Physics", "Chemistry"];
    assert DayTasks(s, 1) == ["Physics", "Chemistry", "Math"];
    assert DayTasks(s, 6) == ["Math", "Physics", "Chemistry"];
  }
}
