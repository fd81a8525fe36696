/**
 * The two tables of the study planner's database, held in memory.
 * Row ids are not kept: a table is a sequence in insertion order, which is
 * the only thing the autoincrement ids are used for.
 */
module Database {
  import opened Seqs

  /** The largest value an SQLite INTEGER column holds (64-bit signed). */
  const MaxInteger: int := 0x7FFF_FFFF_FFFF_FFFF

  /** A row of the `subjects` table. */
  datatype Subject = Subject(name: string, weight: nat)

  /** A row of the `history` table; `status` is the text "Done" or "Not Done". */
  datatype HistoryEntry = HistoryEntry(date: string, subject: string, status: string)

  /** How many rows carry `name`. */
  function Count(rows: seq<Subject>, name: string): nat {
    if rows == [] then 0 else (if rows[0].name == name then 1 else 0) + Count(rows[1..], name)
  }

  /** The table left by `DELETE FROM subjects WHERE name = ?`: no row carries
      `name`, the other rows keep their relative order, and exactly the rows
      carrying `name` are gone. */
  function Without(rows: seq<Subject>, name: string): (r: seq<Subject>)
    ensures forall k :: 0 <= k < |r| ==> r[k].name != name
    ensures Subsequence(r, rows)
    ensures |r| == |rows| - Count(rows, name)
  {
    if rows == [] then []
    else if rows[0].name == name then Without(rows[1..], name)
    else [rows[0]] + Without(rows[1..], name)
  }

  /** Deleting a name no row carries leaves the table as it was. */
  lemma {:induction false} WithoutAbsent(rows: seq<Subject>, name: string)
    requires forall k :: 0 <= k < |rows| ==> rows[k].name != name
    ensures Without(rows, name) == rows
  {
    if rows != [] {
      WithoutAbsent(rows[1..], name);
    }
  }

  /** Every row carrying another name survives the delete. */
  lemma {:induction false} WithoutKeepsOthers(rows: seq<Subject>, name: string, x: Subject)
    requires x in rows && x.name != name
    ensures x in Without(rows, name)
  {
    if rows[0] != x {
      WithoutKeepsOthers(rows[1..], name, x);
    }
  }

  /** Deleting the same name twice is the same as deleting it once. */
  lemma WithoutIdempotent(rows: seq<Subject>, name: string)
    ensures Without(Without(rows, name), name) == Without(rows, name)
  {
    WithoutAbsent(Without(rows, name), name);
  }

  /** Every weight fits the INTEGER column. */
  predicate WeightsFit(rows: seq<Subject>) {
    forall k :: 0 <= k < |rows| ==> rows[k].weight <= MaxInteger
  }

  /** A delete keeps every remaining weight in range. */
  lemma {:induction false} WithoutKeepsFit(rows: seq<Subject>, name: string)
    requires WeightsFit(rows)
    ensures WeightsFit(Without(rows, name))
  {
    if rows != [] {
      WithoutKeepsFit(rows[1..], name);
    }
  }

  /** The database: the `subjects` and `history` tables. */
  class Store {
    var subjects: seq<Subject>
    var history: seq<HistoryEntry>

    /** The subject table holds only weights an SQLite INTEGER can store. */
    ghost predicate Valid()
      reads this
    {
      WeightsFit(subjects)
    }

    /** Opens a database whose file already holds the given rows. */
    constructor (subjects0: seq<Subject>, history0: seq<HistoryEntry>)
      requires WeightsFit(subjects0)
      ensures Valid()
      ensures subjects == subjects0 && history == history0
    {
      subjects := subjects0;
      history := history0;
    }

    /** `SELECT name, weight FROM subjects`, read in insertion order. */
    method GetSubjects() returns (rows: seq<Subject>)
      ensures rows == subjects
    {
      rows := subjects;
    }

    /** `INSERT INTO subjects`: one row at the end, nothing else changes. A
        weight that does not fit an SQLite INTEGER is refused by the driver
        (an overflow error) and nothing is inserted. */
    method AddSubject(name: string, weight: nat) returns (ok: bool)
      requires Valid()
      modifies this
      ensures Valid()
      ensures ok == (weight <= MaxInteger)
      ensures subjects == if ok then old(subjects) + [Subject(name, weight)] else old(subjects)
      ensures history == old(history)
    {
      ok := weight <= MaxInteger;
      if ok {
        subjects := subjects + [Subject(name, weight)];
      }
    }

    /** `DELETE FROM subjects WHERE name = ?`. */
    method RemoveSubject(name: string)
      requires Valid()
      modifies this
      ensures Valid()
      ensures subjects == Without(old(subjects), name)
      ensures history == old(history)
    {
      WithoutKeepsFit(subjects, name);
      subjects := Without(subjects, name);
    }

    /** `INSERT INTO history`: appended without any duplicate check. */
    method SaveHistory(date: string, subject: string, status: string)
      modifies this
      ensures history == old(history) + [HistoryEntry(date, subject, status)]
      ensures subjects == old(subjects)
    {
      history := history + [HistoryEntry(date, subject, status)];
    }

    /** `SELECT date, subject, status FROM history ORDER BY id DESC`: the
        most recently inserted row comes first. */
    method GetHistory() returns (rows: seq<HistoryEntry>)
      ensures |rows| == |history|
      ensures forall k :: 0 <= k < |rows| ==> rows[k] == history[|history| - 1 - k]
    {
      rows := Reverse(history);
    }
  }
}
