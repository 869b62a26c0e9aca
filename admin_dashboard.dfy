/** `admin_dashboard.py`: the collection-rate tiles and the class-wise table of
    paid months, outstanding amount and Fully / Partially / Not Paid status. */
module AdminDashboard {
  import opened Json
  import opened Seqs
  import opened Ledger
  import opened FeeArithmetic
  import RealPaymentSystem

  /** The class-wise table's fixed month count. */
  const MonthsPerYear := 12

  /** The tiles above the table: distinct student names, money received, money
      charged, and the collection rate as a percentage. */
  datatype Metrics = Metrics(totalStudents: nat, collected: int, expected: int, collectionRate: real)

  /** The metrics of some ledger rows (the whole ledger on the overview, one
      class's rows on the class page). */
  function MetricsOf(rows: seq<LedgerRow>): (m: Metrics)
    ensures m.totalStudents <= |rows|
    ensures m.collected == ColumnSum(rows, Received) && m.expected == Charged(rows)
    ensures m.expected <= 0 ==> m.collectionRate == 0.0
    ensures m.expected > 0 && m.collected >= m.expected ==> m.collectionRate >= 100.0
    ensures m.expected > 0 && m.collected < m.expected ==> m.collectionRate < 100.0
  {
    var collected, expected := ColumnSum(rows, Received), Charged(rows);
    Metrics(|Dedup(Names(rows))|, collected, expected, Percentage(collected, expected))
  }

  datatype PayStatus = FullyPaid | PartiallyPaid | NotPaid

  /** The status rule of the class-wise table. */
  function StatusOf(outstanding: int, received: int): PayStatus
  {
    if outstanding == 0 then FullyPaid else if received > 0 then PartiallyPaid else NotPaid
  }

  /** One row of the class-wise table. */
  datatype StudentAnalysis = StudentAnalysis(
    id: string, studentName: string, fatherName: string, phone: string,
    paidMonths: nat, unpaidMonths: int, totalReceived: int, outstanding: int, status: PayStatus)

  /** The analysis of one student from their rows within the class. */
  function AnalyseStudent(classRows: seq<LedgerRow>, id: string, info: Record): (a: StudentAnalysis)
    ensures var rs := ForStudent(classRows, id);
      && a.id == id
      && a.paidMonths == |PaidMonthLabels(rs)|
      && a.unpaidMonths == MonthsPerYear - a.paidMonths
      && a.totalReceived == ColumnSum(rs, Received)
      && a.outstanding >= 0
      && (a.outstanding == 0 <==> a.totalReceived >= Charged(rs))
      && (a.outstanding > 0 ==> a.outstanding == Charged(rs) - a.totalReceived)
      && (a.status == FullyPaid <==> a.totalReceived >= Charged(rs))
      && (a.status == PartiallyPaid <==> 0 < a.totalReceived < Charged(rs))
      && (a.status == NotPaid <==> a.totalReceived <= 0 && a.totalReceived < Charged(rs))
  {
    var rs := ForStudent(classRows, id);
    var paid := |PaidMonthLabels(rs)|;
    var received := ColumnSum(rs, Received);
    var outstanding := Balance(Charged(rs), received);
    StudentAnalysis(
      id, GetText(info, "student_name", ""), GetText(info, "father_name", ""), GetText(info, "phone", ""),
      paid, MonthsPerYear - paid, received, outstanding, StatusOf(outstanding, received))
  }

  /** `details.get('class_category') == selected_class`. */
  predicate InClass(info: Record, cls: string)
  {
    Get(info, "class_category") == Str(cls)
  }

  /** The student-details entries of the selected class, in store order. */
  function ClassStudents(students: seq<(string, Record)>, cls: string): seq<(string, Record)>
  {
    if students == [] then []
    else
      var last := students[|students| - 1];
      ClassStudents(students[..|students| - 1], cls) + (if InClass(last.1, cls) then [last] else [])
  }

  lemma {:induction false} ClassStudentsMembership(students: seq<(string, Record)>, cls: string, x: (string, Record))
    ensures x in ClassStudents(students, cls) <==> x in students && InClass(x.1, cls)
  {
    if students != [] {
      ClassStudentsMembership(students[..|students| - 1], cls, x);
      assert students == students[..|students| - 1] + [students[|students| - 1]];
    }
  }

  /** The number of table rows with a given status. */
  function CountStatus(analysis: seq<StudentAnalysis>, s: PayStatus): nat
  {
    if analysis == [] then 0
    else CountStatus(analysis[..|analysis| - 1], s) + (if analysis[|analysis| - 1].status == s then 1 else 0)
  }

  /** Every analysed student has exactly one of the three statuses. */
  lemma {:induction false} StatusCountsSum(analysis: seq<StudentAnalysis>)
    ensures CountStatus(analysis, FullyPaid) + CountStatus(analysis, PartiallyPaid) + CountStatus(analysis, NotPaid)
            == |analysis|
  {
    if analysis != [] {
      StatusCountsSum(analysis[..|analysis| - 1]);
    }
  }

  /** `analysis_df['Outstanding'].sum()`. */
  function TotalOutstanding(analysis: seq<StudentAnalysis>): int
  {
    if analysis == [] then 0
    else TotalOutstanding(analysis[..|analysis| - 1]) + analysis[|analysis| - 1].outstanding
  }

  lemma {:induction false} TotalOutstandingNonNegative(analysis: seq<StudentAnalysis>)
    requires forall i :: 0 <= i < |analysis| ==> analysis[i].outstanding >= 0
    ensures TotalOutstanding(analysis) >= 0
  {
    if analysis != [] {
      TotalOutstandingNonNegative(analysis[..|analysis| - 1]);
    }
  }

  /** What the class-wise page shows. */
  datatype ClassOutcome =
    | NoFeeRecords
    | NoClassRecords
    | NoClassStudents(metrics: Metrics)
    | Analysed(metrics: Metrics, analysis: seq<StudentAnalysis>,
               fullyPaid: nat, partiallyPaid: nat, notPaid: nat, totalOutstanding: int)

  /** The analysis rows of some class members, in order. */
  function AnalyseAll(classRows: seq<LedgerRow>, members: seq<(string, Record)>): (analysis: seq<StudentAnalysis>)
    ensures |analysis| == |members|
    ensures forall i :: 0 <= i < |members| ==> analysis[i] == AnalyseStudent(classRows, members[i].0, members[i].1)
  {
    if members == [] then []
    else
      var last := members[|members| - 1];
      AnalyseAll(classRows, members[..|members| - 1]) + [AnalyseStudent(classRows, last.0, last.1)]
  }

  /** The loop collecting `class_students`. */
  method SelectClassStudents(students: seq<(string, Record)>, cls: string) returns (members: seq<(string, Record)>)
    ensures members == ClassStudents(students, cls)
  {
    members := [];
    var i := 0;
    while i < |students|
      invariant 0 <= i <= |students|
      invariant members == ClassStudents(students[..i], cls)
    {
      assert students[..i + 1][..i] == students[..i];
      if InClass(students[i].1, cls) {
        members := members + [students[i]];
      }
      i := i + 1;
    }
    assert students[..i] == students;
  }

  /** The loop building `analysis_data`. */
  method AnalyseMembers(classRows: seq<LedgerRow>, members: seq<(string, Record)>) returns (analysis: seq<StudentAnalysis>)
    ensures analysis == AnalyseAll(classRows, members)
  {
    analysis := [];
    var j := 0;
    while j < |members|
      invariant 0 <= j <= |members|
      invariant analysis == AnalyseAll(classRows, members[..j])
    {
      assert members[..j + 1][..j] == members[..j];
      analysis := analysis + [AnalyseStudent(classRows, members[j].0, members[j].1)];
      j := j + 1;
    }
    assert members[..j] == members;
  }

  /** Every table row has a non-negative outstanding amount, so their total is too. */
  lemma AnalysisOutstandingNonNegative(classRows: seq<LedgerRow>, members: seq<(string, Record)>)
    ensures TotalOutstanding(AnalyseAll(classRows, members)) >= 0
  {
    var analysis := AnalyseAll(classRows, members);
    forall i | 0 <= i < |analysis| ensures analysis[i].outstanding >= 0 {
      assert analysis[i] == AnalyseStudent(classRows, members[i].0, members[i].1);
    }
    TotalOutstandingNonNegative(analysis);
  }

  /** `class_wise_fee_details` for the selected class, with the ledger and the
      student-details store (its entries in store order) as parameters. */
  method ClassWiseFeeDetails(ledger: seq<LedgerRow>, students: seq<(string, Record)>, cls: string)
    returns (out: ClassOutcome)
    ensures ledger == [] ==> out == NoFeeRecords
    ensures ledger != [] && ForClass(ledger, cls) == [] ==> out == NoClassRecords
    ensures ledger != [] && ForClass(ledger, cls) != [] && ClassStudents(students, cls) == [] ==>
      out == NoClassStudents(MetricsOf(ForClass(ledger, cls)))
    ensures ledger != [] && ForClass(ledger, cls) != [] && ClassStudents(students, cls) != [] ==>
      var analysis := AnalyseAll(ForClass(ledger, cls), ClassStudents(students, cls));
      out == Analysed(MetricsOf(ForClass(ledger, cls)), analysis,
                      CountStatus(analysis, FullyPaid), CountStatus(analysis, PartiallyPaid),
                      CountStatus(analysis, NotPaid), TotalOutstanding(analysis))
    ensures out.Analysed? ==>
      && out.fullyPaid + out.partiallyPaid + out.notPaid == |out.analysis|
      && out.totalOutstanding >= 0
  {
    if ledger == [] {
      return NoFeeRecords;
    }
    var classRows := ForClass(ledger, cls);
    if classRows == [] {
      return NoClassRecords;
    }
    var metrics := MetricsOf(classRows);
    var members := SelectClassStudents(students, cls);
    if members == [] {
      return NoClassStudents(metrics);
    }
    var analysis := AnalyseMembers(classRows, members);
    StatusCountsSum(analysis);
    AnalysisOutstandingNonNegative(classRows, members);
    return Analysed(metrics, analysis,
                    CountStatus(analysis, FullyPaid), CountStatus(analysis, PartiallyPaid), CountStatus(analysis, NotPaid),
                    TotalOutstanding(analysis));
  }

  /** A paying row adds a paid month exactly when its Month label is new among the
      student's paying rows. */
  lemma PaidMonthLabelsSnoc(rows: seq<LedgerRow>, row: LedgerRow)
    requires row.monthlyFee > 0
    ensures |PaidMonthLabels(rows + [row])| ==
      |PaidMonthLabels(rows)| + (if row.month in Months(MonthlyPayments(rows)) then 0 else 1)
  {
    var mp := MonthlyPayments(rows);
    assert (rows + [row])[..|rows|] == rows;
    assert MonthlyPayments(rows + [row]) == mp + [row];
    assert Months(mp + [row]) == Months(mp) + [row.month];
    DedupSnocLength(Months(mp), row.month);
  }

  /** Appending a value adds one distinct value exactly when it is new. */
  lemma DedupSnocLength(ms: seq<string>, m: string)
    ensures |Dedup(ms + [m])| == |Dedup(ms)| + (if m in ms then 0 else 1)
  {
    var s := ms + [m];
    assert s[..|s| - 1] == ms;
  }

  /** The unpaid-month count is not clamped: a student whose paying rows carry
      more than twelve distinct Month labels (a "PARENT_PAYMENT" row next to
      twelve paid months, say) shows a negative count. */
  lemma UnpaidMonthsUnclamped(classRows: seq<LedgerRow>, id: string, info: Record)
    ensures var a := AnalyseStudent(classRows, id, info);
      a.unpaidMonths < 0 <==> |PaidMonthLabels(ForStudent(classRows, id))| > MonthsPerYear
  {
  }

  /** A parent-portal payment is a paying row labelled "PARENT_PAYMENT", so the
      first one a student makes counts as one more paid month in the table. */
  lemma ParentPaymentCountsAsPaidMonth(
    classRows: seq<LedgerRow>, sid: string, studentName: string, info: Record, amount: int,
    paymentMethod: string, transactionId: string, date: string)
    requires amount > 0
    requires forall r :: r in classRows && r.id == sid ==> r.month != "PARENT_PAYMENT"
    ensures var row := RealPaymentSystem.ParentPaymentRow(sid, studentName, info, amount, paymentMethod, transactionId, date);
      |PaidMonthLabels(ForStudent(classRows + [row], sid))| == |PaidMonthLabels(ForStudent(classRows, sid))| + 1
  {
    var row := RealPaymentSystem.ParentPaymentRow(sid, studentName, info, amount, paymentMethod, transactionId, date);
    NewPayingLabelAddsMonth(classRows, row, sid);
  }

  /** A paying row of the student whose Month label none of their rows carries
      adds one paid month. */
  lemma NewPayingLabelAddsMonth(classRows: seq<LedgerRow>, row: LedgerRow, sid: string)
    requires row.id == sid && row.monthlyFee > 0
    requires forall r :: r in classRows && r.id == sid ==> r.month != row.month
    ensures |PaidMonthLabels(ForStudent(classRows + [row], sid))| == |PaidMonthLabels(ForStudent(classRows, sid))| + 1
  {
    var mine := ForStudent(classRows, sid);
    ForStudentAppend(classRows, [row], sid);
    assert ForStudent([row], sid) == [row] by {
      assert [row][..0] == [];
    }
    forall r | r in mine
      ensures r.month != row.month
    {
      ForStudentMembership(classRows, sid, r);
    }
    UnusedLabelIsNew(mine, row.month);
    PaidMonthLabelsSnoc(mine, row);
  }

  /** A label no row carries is not among the paying rows' labels. */
  lemma UnusedLabelIsNew(rows: seq<LedgerRow>, tag: string)
    requires forall r :: r in rows ==> r.month != tag
    ensures tag !in Months(MonthlyPayments(rows))
  {
    forall r | r in MonthlyPayments(rows)
      ensures r.month != tag
    {
      MonthlyPaymentsMembership(rows, r);
    }
    MonthsMembership(MonthlyPayments(rows), tag);
  }
}
