/** `student_details.py`: the multi-student entry forms and their batch save, the
    CSV import's column check, and the per-student totals of the class-wise
    section. Student-id generation and the detail writer belong to a module that
    is not part of this model; both are parameters. */
module StudentDetails {
  import opened Json
  import opened Seqs
  import opened Ledger

  // ---- entry forms ---------------------------------------------------------

  /** A form lacks a required field: name, father name, phone or address empty
      or missing. */
  predicate Incomplete(form: Record)
  {
    Blank(form, "student_name") || Blank(form, "father_name") || Blank(form, "phone") || Blank(form, "address")
  }

  /** The position of the first incomplete form, `|forms|` when there is none. */
  function FirstIncomplete(forms: seq<Record>): (i: nat)
    ensures i <= |forms|
    ensures forall k :: 0 <= k < i ==> !Incomplete(forms[k])
    ensures i < |forms| ==> Incomplete(forms[i])
  {
    if forms == [] then 0
    else if Incomplete(forms[0]) then 0
    else 1 + FirstIncomplete(forms[1..])
  }

  /** The id each form is saved under, in form order. */
  function FormIds(forms: seq<Record>, genId: (string, string) -> string): (ids: seq<string>)
    ensures |ids| == |forms|
    ensures forall i :: 0 <= i < |forms| ==>
      ids[i] == genId(GetText(forms[i], "student_name", ""), GetText(forms[i], "class_category", ""))
  {
    if forms == [] then []
    else
      var last := forms[|forms| - 1];
      FormIds(forms[..|forms| - 1], genId) + [genId(GetText(last, "student_name", ""), GetText(last, "class_category", ""))]
  }

  /** How many of the forms the detail writer reports as saved. */
  function SavedCount(forms: seq<Record>, genId: (string, string) -> string, addDetail: (string, Record) -> bool): (n: nat)
    ensures n <= |forms|
  {
    if forms == [] then 0
    else
      var last := forms[|forms| - 1];
      SavedCount(forms[..|forms| - 1], genId, addDetail)
        + (if addDetail(genId(GetText(last, "student_name", ""), GetText(last, "class_category", "")), last) then 1 else 0)
  }

  /** Every form is counted exactly when every write succeeded. */
  lemma {:induction false} SavedCountAll(forms: seq<Record>, genId: (string, string) -> string, addDetail: (string, Record) -> bool)
    ensures SavedCount(forms, genId, addDetail) == |forms| <==>
      forall i :: 0 <= i < |forms| ==> addDetail(FormIds(forms, genId)[i], forms[i])
  {
    if forms != [] {
      var init := forms[..|forms| - 1];
      SavedCountAll(init, genId, addDetail);
      assert forall i :: 0 <= i < |init| ==> FormIds(forms, genId)[i] == FormIds(init, genId)[i] && forms[i] == init[i];
      if SavedCount(forms, genId, addDetail) == |forms| {
        assert SavedCount(init, genId, addDetail) == |init|;
      }
    }
  }

  /** What "Save All Students" reports. */
  datatype SaveOutcome =
    | NothingToSave
    | IncompleteForm(number: nat)      // 1-based, as the error message shows it
    | Saved(count: nat, total: nat)

  /** The form list of the session. */
  class StudentForms {
    var forms: seq<Record>

    constructor ()
      ensures forms == [map[]]
    {
      forms := [map[]];
    }

    /** "Add Another Student". */
    method AddAnother()
      modifies this
      ensures forms == old(forms) + [map[]]
    {
      forms := forms + [map[]];
    }

    /** "Remove Last Student": offered only while more than one form is shown. */
    method RemoveLast()
      modifies this
      ensures |old(forms)| > 1 ==> forms == old(forms)[..|old(forms)| - 1]
      ensures |old(forms)| <= 1 ==> forms == old(forms)
    {
      if |forms| > 1 {
        forms := forms[..|forms| - 1];
      }
    }

    /** `save_all_students` on the session's forms. `attempted` lists the ids
        handed to the detail writer, in order; the forms reset to one empty form
        only when every write succeeded. */
    method SaveAllStudents(genId: (string, string) -> string, addDetail: (string, Record) -> bool)
      returns (out: SaveOutcome, attempted: seq<string>)
      modifies this
      ensures old(forms) == [] ==> out == NothingToSave && attempted == [] && forms == old(forms)
      ensures old(forms) != [] && FirstIncomplete(old(forms)) < |old(forms)| ==>
        out == IncompleteForm(FirstIncomplete(old(forms)) + 1) && attempted == [] && forms == old(forms)
      ensures old(forms) != [] && FirstIncomplete(old(forms)) == |old(forms)| ==>
        && out == Saved(SavedCount(old(forms), genId, addDetail), |old(forms)|)
        && attempted == FormIds(old(forms), genId)
        && (out.count == out.total ==> forms == [map[]])
        && (out.count != out.total ==> forms == old(forms))
    {
      var list := forms;
      if list == [] {
        return NothingToSave, [];
      }
      var idx := 0;
      while idx < |list|
        invariant 0 <= idx <= |list|
        invariant forall k :: 0 <= k < idx ==> !Incomplete(list[k])
      {
        if Incomplete(list[idx]) {
          return IncompleteForm(idx + 1), [];
        }
        idx := idx + 1;
      }
      var savedCount := 0;
      attempted := [];
      var j := 0;
      while j < |list|
        invariant 0 <= j <= |list|
        invariant savedCount == SavedCount(list[..j], genId, addDetail)
        invariant attempted == FormIds(list[..j], genId)
      {
        assert list[..j + 1][..j] == list[..j];
        var student := list[j];
        var sid := genId(GetText(student, "student_name", ""), GetText(student, "class_category", ""));
        if addDetail(sid, student) {
          savedCount := savedCount + 1;
        }
        attempted := attempted + [sid];
        j := j + 1;
      }
      assert list[..j] == list;
      if savedCount == |list| {
        forms := [map[]];
      }
      return Saved(savedCount, |list|), attempted;
    }
  }

  // ---- CSV import ------------------------------------------------------------

  const RequiredColumns := ["Student Name", "Father Name", "Phone", "Class", "Age", "Address"]

  /** The required columns the uploaded header lacks, in the required order; any
      of them aborts the import. */
  function MissingColumns(header: seq<string>): (missing: seq<string>)
    ensures forall c :: c in missing <==> c in RequiredColumns && c !in header
  {
    Missing(RequiredColumns, header)
  }

  // ---- class-wise per-student totals -----------------------------------------

  /** The "ID" column, row by row. */
  function RowIds(rows: seq<LedgerRow>): (ids: seq<string>)
    ensures |ids| == |rows|
    ensures forall i :: 0 <= i < |rows| ==> ids[i] == rows[i].id
  {
    if rows == [] then [] else RowIds(rows[..|rows| - 1]) + [rows[|rows| - 1].id]
  }

  /** The rows whose Month is neither "ANNUAL" nor "ADMISSION". */
  function RegularMonthRows(rows: seq<LedgerRow>): seq<LedgerRow>
  {
    if rows == [] then []
    else
      var last := rows[|rows| - 1];
      RegularMonthRows(rows[..|rows| - 1]) + (if last.month != "ANNUAL" && last.month != "ADMISSION" then [last] else [])
  }

  /** The monthly total leaves out exactly the ANNUAL and ADMISSION rows: with
      none of them it runs over every row. */
  lemma {:induction false} RegularMonthTotal(rows: seq<LedgerRow>)
    ensures forall r :: r in RegularMonthRows(rows) <==> r in rows && r.month != "ANNUAL" && r.month != "ADMISSION"
    ensures (forall i :: 0 <= i < |rows| ==> rows[i].month != "ANNUAL" && rows[i].month != "ADMISSION") ==>
      RegularMonthRows(rows) == rows
  {
    if rows != [] {
      var init := rows[..|rows| - 1];
      RegularMonthTotal(init);
      assert rows == init + [rows[|rows| - 1]];
      if forall i :: 0 <= i < |rows| ==> rows[i].month != "ANNUAL" && rows[i].month != "ADMISSION" {
        assert forall i :: 0 <= i < |init| ==> init[i] == rows[i];
        assert RegularMonthRows(init) == init;
      }
    }
  }

  /** One row of the class-wise summary. */
  datatype StudentSummary = StudentSummary(
    id: string, name: string, fatherName: string, phone: string,
    monthlyFees: int, annualFees: int, admissionFee: int, totalReceived: int, paidMonths: nat)

  /** The summary of one student id from the class's rows. */
  function SummaryOf(classRows: seq<LedgerRow>, details: map<string, Record>, sid: string): (s: StudentSummary)
    ensures var rs := ForStudent(classRows, sid);
      && s.id == sid
      && s.paidMonths == |MonthlyPayments(rs)|
      && s.monthlyFees == ColumnSum(RegularMonthRows(rs), MonthlyFee)
      && s.annualFees == ColumnSum(rs, AnnualCharges)
      && s.admissionFee == ColumnSum(rs, AdmissionFee)
      && s.totalReceived == ColumnSum(rs, Received)
  {
    var rs := ForStudent(classRows, sid);
    var detail := if sid in details then details[sid] else map[];
    StudentSummary(
      sid, if rs != [] then rs[0].studentName else "", GetText(detail, "father_name", "N/A"), GetText(detail, "phone", "N/A"),
      ColumnSum(RegularMonthRows(rs), MonthlyFee), ColumnSum(rs, AnnualCharges), ColumnSum(rs, AdmissionFee),
      ColumnSum(rs, Received), |MonthlyPayments(rs)|)
  }

  /** "Paid Months" here counts paying rows, so it is never below the
      admin dashboard's count of distinct paid Month labels, and two rows for
      one month count twice. */
  lemma PaidRowsAtLeastPaidLabels(rows: seq<LedgerRow>)
    ensures |PaidMonthLabels(rows)| <= |MonthlyPayments(rows)|
  {
  }

  lemma TwoRowsOneMonthCountTwice(a: LedgerRow, b: LedgerRow)
    requires a.month == b.month && a.monthlyFee > 0 && b.monthlyFee > 0
    ensures |MonthlyPayments([a, b])| == 2 && |PaidMonthLabels([a, b])| == 1
  {
    assert [a, b][..1] == [a];
    assert [a][..0] == [];
    assert MonthlyPayments([a]) == [a];
    assert MonthlyPayments([a, b]) == [a, b];
    assert Months([a, b]) == [a.month, a.month];
    assert [a.month, a.month][..1] == [a.month];
  }

  /** What the class-wise section shows. */
  datatype ClassSummaryOutcome = NoFeeRecords | NoClassRecords | Summaries(students: seq<StudentSummary>)

  /** The class-wise section for the selected class: one summary per student id
      seen in the class rows, first appearance first (`class_data['ID'].unique()`). */
  method ClassSummaries(ledger: seq<LedgerRow>, details: map<string, Record>, cls: string)
    returns (out: ClassSummaryOutcome)
    ensures ledger == [] ==> out == NoFeeRecords
    ensures ledger != [] && ForClass(ledger, cls) == [] ==> out == NoClassRecords
    ensures out.Summaries? ==>
      var classRows := ForClass(ledger, cls);
      var ids := Dedup(RowIds(classRows));
      && |out.students| == |ids|
      && (forall i :: 0 <= i < |ids| ==> out.students[i] == SummaryOf(classRows, details, ids[i]))
      && (forall i :: 0 <= i < |ids| ==> out.students[i].id == ids[i])
      && (forall id :: id in ids <==> exists r :: r in classRows && r.id == id)
      && Distinct(ids)
    ensures ledger != [] && ForClass(ledger, cls) != [] ==> out.Summaries?
  {
    if ledger == [] {
      return NoFeeRecords;
    }
    var classData := ForClass(ledger, cls);
    if classData == [] {
      return NoClassRecords;
    }
    var ids := Dedup(RowIds(classData));
    assert forall id :: id in ids <==> exists r :: r in classData && r.id == id by {
      forall id ensures id in ids <==> exists r :: r in classData && r.id == id {
        if id in ids {
          var k :| 0 <= k < |classData| && RowIds(classData)[k] == id;
          assert classData[k] in classData;
        }
      }
    }
    var summaries: seq<StudentSummary> := [];
    var i := 0;
    while i < |ids|
      invariant 0 <= i <= |ids|
      invariant |summaries| == i
      invariant forall k :: 0 <= k < i ==> summaries[k] == SummaryOf(classData, details, ids[k])
    {
      summaries := summaries + [SummaryOf(classData, details, ids[i])];
      i := i + 1;
    }
    return Summaries(summaries);
  }
}
