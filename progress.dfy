/**
 * Progress tracking: the checkbox dictionary that generating a timetable
 * rebuilds (one entry per subject name, in the order names first appear),
 * and the history rows that saving progress appends.
 */
module Progress {
  import opened Seqs
  import opened Database

  /** One entry of the checkbox dictionary: a subject name and whether its box is ticked. */
  datatype Checkbox = Checkbox(subject: string, checked: bool)

  /** The dictionary's keys, in insertion order. */
  function Keys(boxes: seq<Checkbox>): (keys: seq<string>)
    ensures |keys| == |boxes|
  {
    seq(|boxes|, k requires 0 <= k < |boxes| => boxes[k].subject)
  }

  /** Python's `d[name] = checked` on an insertion-ordered dictionary: an
      existing key keeps its position and takes the new value, a new key goes
      at the end; every other entry is left alone. */
  function Assign(boxes: seq<Checkbox>, name: string, checked: bool): (r: seq<Checkbox>)
    requires Distinct(Keys(boxes))
    ensures Distinct(Keys(r))
    ensures name in Keys(boxes) ==> Keys(r) == Keys(boxes)
    ensures name !in Keys(boxes) ==> Keys(r) == Keys(boxes) + [name]
    ensures forall k :: 0 <= k < |r| && r[k].subject == name ==> r[k].checked == checked
    ensures forall k :: 0 <= k < |boxes| && boxes[k].subject != name ==> r[k] == boxes[k]
  {
    var keys := Keys(boxes);
    if name in keys then
      var i := FirstIndex(keys, name);
      var r := boxes[i := Checkbox(name, checked)];
      assert forall k :: 0 <= k < |boxes| && k != i ==> boxes[k].subject == keys[k] != name;
      assert Keys(r) == keys;
      r
    else
      var r := boxes + [Checkbox(name, checked)];
      assert forall k :: 0 <= k < |boxes| ==> r[k].subject == keys[k] != name;
      assert Keys(r) == keys + [name];
      r
  }

  /** The names in the order they first appear, each once. */
  function Dedup(names: seq<string>): (r: seq<string>)
    ensures Distinct(r)
    ensures forall x :: x in r <==> x in names
    ensures forall a, b :: 0 <= a < b < |r| ==> FirstIndex(names, r[a]) < FirstIndex(names, r[b])
  {
    if names == [] then []
    else
      var init, last := names[..|names| - 1], names[|names| - 1];
      var d := Dedup(init);
      assert names == init + [last];
      assert forall x :: x in init ==> FirstIndex(names, x) == FirstIndex(init, x) by {
        forall x | x in init ensures FirstIndex(names, x) == FirstIndex(init, x) {
          FirstIndexAppend(init, [last], x);
        }
      }
      if last in d then d
      else
        assert FirstIndex(names, last) == |init|;
        d + [last]
  }

  /** Names that are already distinct are left as they are. */
  lemma {:induction false} DedupDistinct(names: seq<string>)
    requires Distinct(names)
    ensures Dedup(names) == names
  {
    if names != [] {
      var init := names[..|names| - 1];
      DedupDistinct(init);
    }
  }

  /** The dictionary the timetable button builds: every subject name assigned a
      fresh, unticked box, in table order. */
  function FreshCheckboxes(names: seq<string>): (r: seq<Checkbox>)
    ensures Distinct(Keys(r))
  {
    if names == [] then []
    else Assign(FreshCheckboxes(names[..|names| - 1]), names[|names| - 1], false)
  }

  /** Duplicate names collapse to one key kept at its first position, and no
      box starts ticked. */
  lemma {:induction false} FreshCheckboxesKeys(names: seq<string>)
    ensures Keys(FreshCheckboxes(names)) == Dedup(names)
    ensures forall k :: 0 <= k < |FreshCheckboxes(names)| ==> !FreshCheckboxes(names)[k].checked
  {
    if names != [] {
      var prev := FreshCheckboxes(names[..|names| - 1]);
      FreshCheckboxesKeys(names[..|names| - 1]);
      var r := FreshCheckboxes(names);
      forall k | 0 <= k < |r| ensures !r[k].checked {
        assert Keys(r)[k] == r[k].subject;
        if k < |prev| && r[k].subject != names[|names| - 1] {
          assert r[k] == prev[k];
        }
      }
    }
  }

  /** The status text stored for a box. */
  function StatusText(checked: bool): string {
    if checked then "Done" else "Not Done"
  }

  /** The history rows one save appends: one per dictionary entry, in
      dictionary order, all with the same date. */
  function ProgressRows(today: string, boxes: seq<Checkbox>): (rows: seq<HistoryEntry>)
    ensures |rows| == |boxes|
  {
    seq(|boxes|, k requires 0 <= k < |boxes| =>
      HistoryEntry(today, boxes[k].subject, StatusText(boxes[k].checked)))
  }

  /** Row `k` has the save's date, the subject of entry `k`, and the status
      "Done" exactly when that box is ticked ("Not Done" otherwise). */
  lemma ProgressRowStatus(today: string, boxes: seq<Checkbox>, k: nat)
    requires k < |boxes|
    ensures ProgressRows(today, boxes)[k].date == today
    ensures ProgressRows(today, boxes)[k].subject == boxes[k].subject
    ensures ProgressRows(today, boxes)[k].status == "Done" <==> boxes[k].checked
    ensures ProgressRows(today, boxes)[k].status == "Not Done" <==> !boxes[k].checked
  {
  }

  /** How many history rows carry `subject`. */
  function CountSubject(rows: seq<HistoryEntry>, subject: string): nat {
    if rows == [] then 0 else (if rows[0].subject == subject then 1 else 0) + CountSubject(rows[1..], subject)
  }

  /** Counting over a concatenation adds up. */
  lemma {:induction false} CountSubjectAppend(a: seq<HistoryEntry>, b: seq<HistoryEntry>, subject: string)
    ensures CountSubject(a + b, subject) == CountSubject(a, subject) + CountSubject(b, subject)
  {
    if a == [] {
      assert a + b == b;
    } else {
      assert (a + b)[1..] == a[1..] + b;
      CountSubjectAppend(a[1..], b, subject);
    }
  }

  /** One save writes exactly one row for each dictionary key and none for any
      other name. */
  lemma {:induction false} OneRowPerSubject(today: string, boxes: seq<Checkbox>, subject: string)
    requires Distinct(Keys(boxes))
    ensures CountSubject(ProgressRows(today, boxes), subject) == if subject in Keys(boxes) then 1 else 0
  {
    if boxes != [] {
      var rows := ProgressRows(today, boxes);
      assert rows[1..] == ProgressRows(today, boxes[1..]);
      assert Keys(boxes[1..]) == Keys(boxes)[1..];
      OneRowPerSubject(today, boxes[1..], subject);
      assert Keys(boxes) == [boxes[0].subject] + Keys(boxes[1..]);
      if subject == boxes[0].subject {
        forall k | 0 <= k < |boxes| - 1 ensures Keys(boxes[1..])[k] != subject {
          assert Keys(boxes)[k + 1] != Keys(boxes)[0];
        }
      }
    }
  }

  /** Saving twice writes every row twice: history is not de-duplicated. */
  lemma SavingTwiceDuplicates(today: string, boxes: seq<Checkbox>, subject: string)
    requires Distinct(Keys(boxes))
    ensures var rows := ProgressRows(today, boxes);
      CountSubject(rows + rows, subject) == if subject in Keys(boxes) then 2 else 0
  {
    var rows := ProgressRows(today, boxes);
    CountSubjectAppend(rows, rows, subject);
    OneRowPerSubject(today, boxes, subject);
  }
}
