/** `reminder.py`: from the 8th of the month on, the students with ledger rows who
    have not paid this month's fees in full, listed with their contact details. */
module Reminder {
  import opened Json
  import opened Ledger
  import Seqs
  import Text
  import Sorting

  /** `df[(df['Student Name'] == name) & (df['Month'] == month)]`. */
  function NameMonthRows(rows: seq<LedgerRow>, name: string, month: string): seq<LedgerRow>
  {
    if rows == [] then []
    else
      var last := rows[|rows| - 1];
      NameMonthRows(rows[..|rows| - 1], name, month)
        + (if last.studentName == name && last.month == month then [last] else [])
  }

  lemma {:induction false} NameMonthRowsMembership(rows: seq<LedgerRow>, name: string, month: string, x: LedgerRow)
    ensures x in NameMonthRows(rows, name, month) <==> x in rows && x.studentName == name && x.month == month
  {
    if rows != [] {
      NameMonthRowsMembership(rows[..|rows| - 1], name, month, x);
      assert rows == rows[..|rows| - 1] + [rows[|rows| - 1]];
    }
  }

  /** A student counts as paid in full for `month` when they have rows for it, the
      received amount covers what those rows charge, and they charge something. */
  predicate PaidInFull(ledger: seq<LedgerRow>, name: string, month: string)
  {
    var rows := NameMonthRows(ledger, name, month);
    rows != [] && ColumnSum(rows, Received) >= Charged(rows) && Charged(rows) > 0
  }

  /** `set(df['Student Name'].unique())`. */
  function AllNames(ledger: seq<LedgerRow>): set<string>
  {
    set r | r in ledger :: r.studentName
  }

  function PaidSet(ledger: seq<LedgerRow>, month: string): set<string>
  {
    set n | n in AllNames(ledger) && PaidInFull(ledger, n, month)
  }

  function UnpaidSet(ledger: seq<LedgerRow>, month: string): set<string>
  {
    AllNames(ledger) - PaidSet(ledger, month)
  }

  /** Every student with rows is either paid in full or unpaid, never both. */
  lemma ReminderPartition(ledger: seq<LedgerRow>, month: string)
    ensures PaidSet(ledger, month) * UnpaidSet(ledger, month) == {}
    ensures PaidSet(ledger, month) + UnpaidSet(ledger, month) == AllNames(ledger)
    ensures |PaidSet(ledger, month)| + |UnpaidSet(ledger, month)| == |AllNames(ledger)|
  {
    var paid, unpaid := PaidSet(ledger, month), UnpaidSet(ledger, month);
    assert paid + unpaid == AllNames(ledger);
    assert paid * unpaid == {};
    assert |paid + unpaid| == |paid| + |unpaid| - |paid * unpaid|;
  }

  /** A student with no row for this month is never paid in full, whatever they
      paid in other months. */
  lemma {:induction false} NoRowsThisMonthIsUnpaid(ledger: seq<LedgerRow>, name: string, month: string)
    requires exists r :: r in ledger && r.studentName == name
    requires forall r :: r in ledger && r.studentName == name ==> r.month != month
    ensures name in UnpaidSet(ledger, month)
  {
    var rows := NameMonthRows(ledger, name, month);
    if rows != [] {
      NameMonthRowsMembership(ledger, name, month, rows[0]);
    }
    var r :| r in ledger && r.studentName == name;
    assert name in AllNames(ledger);
  }

  /** Rows that charge nothing for the month never make a student paid in full,
      even with money received. */
  lemma ZeroChargeIsUnpaid(ledger: seq<LedgerRow>, name: string, month: string)
    requires name in AllNames(ledger)
    requires Charged(NameMonthRows(ledger, name, month)) <= 0
    ensures name in UnpaidSet(ledger, month)
  {
  }

  /** One line of the unpaid list. */
  datatype ReminderEntry = ReminderEntry(
    studentName: string, fatherName: string, classCategory: string, phone: string, address: string)

  /** `details.get('student_name', '')` as far as a comparison with ledger names
      goes: `None` for a stored value that is not text and so matches no name. */
  function NameOf(details: Record): (n: Option<string>)
    ensures "student_name" !in details ==> n == Some("")
    ensures "student_name" in details && details["student_name"].Str? ==> n == Some(details["student_name"].s)
    ensures "student_name" in details && !details["student_name"].Str? ==> n == None
  {
    match GetOr(details, "student_name", Str(""))
    case Str(s) => Some(s)
    case _ => None
  }

  predicate IsListed(details: Record, unpaid: set<string>)
  {
    NameOf(details).Some? && NameOf(details).value in unpaid
  }

  function EntryOf(details: Record): ReminderEntry
  {
    ReminderEntry(
      GetText(details, "student_name", ""), GetText(details, "father_name", ""),
      GetText(details, "class_category", ""), GetText(details, "phone", ""), GetText(details, "address", ""))
  }

  /** The unpaid list before sorting: one entry per student-details record whose
      name is unpaid, in the order of the details store. */
  function UnpaidEntries(students: seq<Record>, unpaid: set<string>): seq<ReminderEntry>
  {
    if students == [] then []
    else
      var last := students[|students| - 1];
      UnpaidEntries(students[..|students| - 1], unpaid) + (if IsListed(last, unpaid) then [EntryOf(last)] else [])
  }

  /** The list holds exactly the entries of the records whose name is unpaid, and
      each entry's name is an unpaid name. */
  lemma {:induction false} UnpaidEntriesMeaning(students: seq<Record>, unpaid: set<string>)
    ensures |UnpaidEntries(students, unpaid)| <= |students|
    ensures forall e :: e in UnpaidEntries(students, unpaid) <==>
      exists d :: d in students && IsListed(d, unpaid) && e == EntryOf(d)
    ensures forall e :: e in UnpaidEntries(students, unpaid) ==> e.studentName in unpaid
  {
    if students != [] {
      var init, last := students[..|students| - 1], students[|students| - 1];
      UnpaidEntriesMeaning(init, unpaid);
      assert students == init + [last];
      forall e | e in UnpaidEntries(students, unpaid)
        ensures exists d :: d in students && IsListed(d, unpaid) && e == EntryOf(d)
      {
        if e in UnpaidEntries(init, unpaid) {
          var d :| d in init && IsListed(d, unpaid) && e == EntryOf(d);
          assert d in students;
        } else {
          assert last in students;
        }
      }
      forall e | exists d :: d in students && IsListed(d, unpaid) && e == EntryOf(d)
        ensures e in UnpaidEntries(students, unpaid)
      {
        var d :| d in students && IsListed(d, unpaid) && e == EntryOf(d);
        if d != last {
          assert d in init;
        }
      }
    }
  }

  /** What the reminder page shows. */
  datatype ReminderOutcome =
    | NotYet                 // before the 8th
    | NoRecords              // empty ledger
    | AllPaid                // every student with rows has paid in full
    | UnpaidList(withRecords: set<string>, paid: set<string>, unpaid: set<string>, entries: seq<ReminderEntry>)

  /** The de-duplicated name column holds exactly the names that have rows. */
  lemma DistinctNamesCoverLedger(ledger: seq<LedgerRow>)
    ensures (set n | n in Seqs.Dedup(Names(ledger))) == AllNames(ledger)
  {
    var all := set n | n in Seqs.Dedup(Names(ledger));
    forall n ensures n in all <==> n in AllNames(ledger) {
      if n in AllNames(ledger) {
        var r :| r in ledger && r.studentName == n;
        var k :| 0 <= k < |ledger| && ledger[k] == r;
        assert Names(ledger)[k] == n;
      }
    }
  }

  /** The names of `names` that have paid `month` in full, one name at a time. */
  method PaidAmong(names: seq<string>, ledger: seq<LedgerRow>, month: string) returns (paid: set<string>)
    ensures paid == set n | n in names && PaidInFull(ledger, n, month)
  {
    paid := {};
    var i := 0;
    while i < |names|
      invariant 0 <= i <= |names|
      invariant paid == set n | n in names[..i] && PaidInFull(ledger, n, month)
    {
      assert names[..i + 1] == names[..i] + [names[i]];
      if PaidInFull(ledger, names[i], month) {
        paid := paid + {names[i]};
      }
      i := i + 1;
    }
    assert names[..i] == names;
  }

  /** The reminder entries of the listed students, in the order of the student file. */
  method CollectUnpaidEntries(students: seq<Record>, unpaid: set<string>) returns (entries: seq<ReminderEntry>)
    ensures entries == UnpaidEntries(students, unpaid)
  {
    entries := [];
    var j := 0;
    while j < |students|
      invariant 0 <= j <= |students|
      invariant entries == UnpaidEntries(students[..j], unpaid)
    {
      assert students[..j + 1][..j] == students[..j];
      var details := students[j];
      var name := NameOf(details);
      if name.Some? && name.value in unpaid {
        entries := entries + [EntryOf(details)];
      }
      j := j + 1;
    }
    assert students[..j] == students;
  }

  /** `fee_reminder_page`, with the clock reading (`day`, `month` as an upper-case
      month name) and both stores as parameters. The paid set is built by a loop
      over the unique names, the list by a loop over the details store. */
  method FeeReminderPage(day: nat, month: string, ledger: seq<LedgerRow>, students: seq<Record>)
    returns (out: ReminderOutcome)
    ensures day < 8 ==> out == NotYet
    ensures day >= 8 && ledger == [] ==> out == NoRecords
    ensures day >= 8 && ledger != [] && UnpaidSet(ledger, month) == {} ==> out == AllPaid
    ensures day >= 8 && ledger != [] && UnpaidSet(ledger, month) != {} ==>
      out == UnpaidList(AllNames(ledger), PaidSet(ledger, month), UnpaidSet(ledger, month),
                    SortForDisplay(UnpaidEntries(students, UnpaidSet(ledger, month))))
  {
    if day < 8 {
      return NotYet;
    }
    if ledger == [] {
      return NoRecords;
    }
    var names := Seqs.Dedup(Names(ledger));
    var all := set n | n in names;
    DistinctNamesCoverLedger(ledger);
    var paid := PaidAmong(names, ledger, month);
    assert paid == PaidSet(ledger, month);
    var unpaid := all - paid;
    if unpaid == {} {
      return AllPaid;
    }
    var entries := CollectUnpaidEntries(students, unpaid);
    return UnpaidList(all, paid, unpaid, SortForDisplay(entries));
  }

  /** The display step as written: `pd.DataFrame(unpaid_list).sort_values('Class')`
      has no 'Class' column to sort by when the list is empty and raises. `None`
      stands for that error; otherwise the entries (display order is not modelled). */
  function SortForDisplayAsWritten(entries: seq<ReminderEntry>): (shown: Option<seq<ReminderEntry>>)
    ensures shown.None? <==> entries == []
  {
    if entries == [] then None else Some(entries)
  }

  /** Unpaid students whose names match no student-details record produce an
      empty list, which the display step as written cannot sort. */
  lemma UnmatchedUnpaidNameRaises()
    ensures var ledger := [LedgerRow("S1", "Ali", "ONE", "JANUARY", 3000, 0, 0, Some(0), "Cash", "", "2024-2025", "", "", "")];
      && UnpaidSet(ledger, "JANUARY") == {"Ali"}
      && UnpaidEntries([], UnpaidSet(ledger, "JANUARY")) == []
      && SortForDisplayAsWritten(UnpaidEntries([], UnpaidSet(ledger, "JANUARY"))).None?
  {
    var ledger := [LedgerRow("S1", "Ali", "ONE", "JANUARY", 3000, 0, 0, Some(0), "Cash", "", "2024-2025", "", "", "")];
    assert AllNames(ledger) == {"Ali"} by {
      assert ledger[0] in ledger;
    }
    var rows := NameMonthRows(ledger, "Ali", "JANUARY");
    assert rows == ledger by {
      assert ledger[..0] == [];
    }
    assert ColumnSum(rows, Received) == 0 by {
      assert rows[..0] == [];
    }
    assert !PaidInFull(ledger, "Ali", "JANUARY");
  }

  function ClassKey(e: ReminderEntry): string { e.classCategory }

  /** `s` back to front. */
  function Reversed<T>(s: seq<T>): (r: seq<T>)
    ensures |r| == |s|
    ensures forall i :: 0 <= i < |s| ==> r[i] == s[|s| - 1 - i]
  {
    if s == [] then [] else [s[|s| - 1]] + Reversed(s[..|s| - 1])
  }

  lemma {:induction false} ReversedMultiset<T>(s: seq<T>)
    ensures multiset(Reversed(s)) == multiset(s)
  {
    if s != [] {
      ReversedMultiset(s[..|s| - 1]);
      assert s == s[..|s| - 1] + [s[|s| - 1]];
    }
  }

  /** The corrected display step: the entries sorted by class, an empty list
      shown as empty. Equal classes keep no particular order in the source's
      (unstable) sort; here they come out in reverse list order. */
  function SortForDisplay(entries: seq<ReminderEntry>): (shown: seq<ReminderEntry>)
    ensures |shown| == |entries|
    ensures multiset(shown) == multiset(entries)
  {
    var desc := Sorting.SortDesc(entries, ClassKey);
    ReversedMultiset(desc);
    Reversed(desc)
  }

  /** The displayed list is ordered by class, smallest first. */
  lemma SortForDisplayOrdered(entries: seq<ReminderEntry>)
    ensures var shown := SortForDisplay(entries);
      forall i, j :: 0 <= i < j < |shown| ==> Text.StrLe(shown[i].classCategory, shown[j].classCategory)
  {
    var desc := Sorting.SortDesc(entries, ClassKey);
    Sorting.SortDescSorted(entries, ClassKey);
    var shown := SortForDisplay(entries);
    forall i, j | 0 <= i < j < |shown|
      ensures Text.StrLe(shown[i].classCategory, shown[j].classCategory)
    {
      assert shown[i] == desc[|desc| - 1 - i] && shown[j] == desc[|desc| - 1 - j];
      assert ClassKey(shown[i]) == shown[i].classCategory;
    }
  }
}
