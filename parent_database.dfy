/** `parent_database.py`: the parent-side fee summary, paid and unpaid months in
    January-to-December order, payment history, payment requests and the CSV export. */
module ParentDatabase {
  import opened Json
  import opened Seqs
  import opened Text
  import opened Sorting
  import opened Ledger
  import opened Calendar
  import opened PaymentStores
  import opened FeeArithmetic

  datatype FeeSummary = FeeSummary(
    studentId: string,
    studentName: string,
    className: string,
    monthlyFee: int,
    admissionFee: int,
    annualFee: int,
    totalYearlyDue: int,
    totalReceived: int,
    balanceDue: int,
    percentagePaid: real)

  /** What `get_student_fee_summary` returns, as a function of the stores. */
  function FeeSummaryOf(
    details: map<string, Record>, fees: map<string, FeeRecord>,
    ledger: seq<LedgerRow>, sid: string): (s: Option<FeeSummary>)
    ensures s.None? <==>
      sid !in details || details[sid] == map[] || sid !in fees || fees[sid] == map[]
    ensures s.Some? ==>
      var f := fees[sid];
      && s.value.totalYearlyDue == Amount(f, "monthly_fee", 0) * 12
           + Amount(f, "admission_fee", 0) + Amount(f, "annual_fee", 0)
      && s.value.totalReceived == ColumnSum(ForStudent(ledger, sid), Received)
      && s.value.balanceDue >= 0
      && s.value.balanceDue == Balance(s.value.totalYearlyDue, s.value.totalReceived)
      && s.value.percentagePaid == Percentage(s.value.totalReceived, s.value.totalYearlyDue)
      && (s.value.totalYearlyDue == 0 ==> s.value.percentagePaid == 0.0)
  {
    if sid !in details || details[sid] == map[] || sid !in fees || fees[sid] == map[] then None
    else
      var f := fees[sid];
      var monthly := Amount(f, "monthly_fee", 0);
      var admission := Amount(f, "admission_fee", 0);
      var annual := Amount(f, "annual_fee", 0);
      var received := ColumnSum(ForStudent(ledger, sid), Received);
      var due := monthly * 12 + admission + annual;
      Some(FeeSummary(sid, GetText(details[sid], "name", "N/A"), GetText(details[sid], "class", "N/A"),
        monthly, admission, annual, due, received, Balance(due, received), Percentage(received, due)))
  }

  /** `get_student_fee_summary`: the received amount is accumulated row by row
      over the ledger, skipping other students' rows and unparseable amounts. */
  method StudentFeeSummary(
    details: map<string, Record>, fees: map<string, FeeRecord>,
    ledger: seq<LedgerRow>, sid: string) returns (s: Option<FeeSummary>)
    ensures s == FeeSummaryOf(details, fees, ledger, sid)
  {
    if sid !in details || details[sid] == map[] || sid !in fees || fees[sid] == map[] {
      return None;
    }
    var f := fees[sid];
    var monthly := Amount(f, "monthly_fee", 0);
    var admission := Amount(f, "admission_fee", 0);
    var annual := Amount(f, "annual_fee", 0);
    var received := 0;
    var i := 0;
    while i < |ledger|
      invariant 0 <= i <= |ledger|
      invariant received == ColumnSum(ForStudent(ledger[..i], sid), Received)
    {
      var row := ledger[i];
      assert ledger[..i + 1] == ledger[..i] + [row];
      if row.id == sid {
        ReceivedCountsOwnRow(ledger[..i], row, sid);
        if row.received.Some? {
          received := received + row.received.value;
        }
      } else {
        ReceivedIgnoresOtherStudents(ledger[..i], row, sid);
      }
      i := i + 1;
    }
    assert ledger[..|ledger|] == ledger;
    var due := monthly * 12 + admission + annual;
    s := Some(FeeSummary(sid, GetText(details[sid], "name", "N/A"), GetText(details[sid], "class", "N/A"),
      monthly, admission, annual, due, received, Balance(due, received), Percentage(received, due)));
  }

  /** A ledger row of another student never changes a student's received total. */
  lemma {:induction false} ReceivedIgnoresOtherStudents(ledger: seq<LedgerRow>, row: LedgerRow, sid: string)
    requires row.id != sid
    ensures ColumnSum(ForStudent(ledger + [row], sid), Received) == ColumnSum(ForStudent(ledger, sid), Received)
  {
    assert (ledger + [row])[..|ledger|] == ledger;
    assert ForStudent(ledger + [row], sid) == ForStudent(ledger, sid) + [];
    assert ForStudent(ledger, sid) + [] == ForStudent(ledger, sid);
  }

  /** A ledger row of the student adds exactly its received amount (0 when the
      cell does not parse). */
  lemma {:induction false} ReceivedCountsOwnRow(ledger: seq<LedgerRow>, row: LedgerRow, sid: string)
    requires row.id == sid
    ensures ColumnSum(ForStudent(ledger + [row], sid), Received)
         == ColumnSum(ForStudent(ledger, sid), Received) + Cell(row, Received)
  {
    var before := ForStudent(ledger, sid);
    assert (ledger + [row])[..|ledger|] == ledger;
    assert ForStudent(ledger + [row], sid) == before + [row];
    assert (before + [row])[..|before|] == before;
  }

  /** The worked example: monthly 3000, annual 3500, admission 10000, April and May
      paid at 3000 each: 49500 due, 6000 received, 43500 outstanding. */
  lemma FeeSummaryExample(aprilRow: LedgerRow, mayRow: LedgerRow)
    requires aprilRow.id == "S1" && aprilRow.received == Some(3000)
    requires mayRow.id == "S1" && mayRow.received == Some(3000)
    ensures var s := FeeSummaryOf(
      map["S1" := map["name" := Str("Ali")]],
      map["S1" := map["monthly_fee" := 3000, "annual_fee" := 3500, "admission_fee" := 10000]],
      [aprilRow, mayRow], "S1");
      s.Some? && s.value.totalYearlyDue == 49500 && s.value.totalReceived == 6000
      && s.value.balanceDue == 43500
  {
    var details: map<string, Record> := map["S1" := map["name" := Str("Ali")]];
    var fees: map<string, FeeRecord> := map["S1" := map["monthly_fee" := 3000, "annual_fee" := 3500, "admission_fee" := 10000]];
    assert "name" in details["S1"];
    assert "monthly_fee" in fees["S1"];
    assert Amount(fees["S1"], "monthly_fee", 0) == 3000;
    assert Amount(fees["S1"], "annual_fee", 0) == 3500;
    assert Amount(fees["S1"], "admission_fee", 0) == 10000;
    ReceivedCountsOwnRow([], aprilRow, "S1");
    ReceivedCountsOwnRow([aprilRow], mayRow, "S1");
    assert [aprilRow] + [mayRow] == [aprilRow, mayRow];
    assert ForStudent([], "S1") == [];
  }

  /** One entry of `get_paid_months`. */
  datatype PaidMonth = PaidMonth(month: string, amount: int, date: string, paymentMethod: string)

  /** The ledger rows `get_paid_months` reports: the student's rows with a positive
      monthly fee, in file order. */
  function PaidMonthRows(ledger: seq<LedgerRow>, sid: string): seq<LedgerRow>
  {
    MonthlyPayments(ForStudent(ledger, sid))
  }

  function ToPaidMonth(r: LedgerRow): PaidMonth
  {
    PaidMonth(r.month, r.monthlyFee, r.date, r.paymentMethod)
  }

  /** `get_paid_months`: one entry per matching row, with no de-duplication. */
  method PaidMonths(ledger: seq<LedgerRow>, sid: string) returns (paid: seq<PaidMonth>)
    ensures |paid| == |PaidMonthRows(ledger, sid)|
    ensures forall i :: 0 <= i < |paid| ==> paid[i] == ToPaidMonth(PaidMonthRows(ledger, sid)[i])
  {
    paid := [];
    var i := 0;
    while i < |ledger|
      invariant 0 <= i <= |ledger|
      invariant |paid| == |PaidMonthRows(ledger[..i], sid)|
      invariant forall k :: 0 <= k < |paid| ==> paid[k] == ToPaidMonth(PaidMonthRows(ledger[..i], sid)[k])
    {
      var row := ledger[i];
      ghost var mine := ForStudent(ledger[..i], sid);
      assert ledger[..i + 1][..i] == ledger[..i];
      if row.id == sid {
        assert ForStudent(ledger[..i + 1], sid) == mine + [row];
        assert (mine + [row])[..|mine|] == mine;
        if row.monthlyFee > 0 {
          assert PaidMonthRows(ledger[..i + 1], sid) == PaidMonthRows(ledger[..i], sid) + [row];
          paid := paid + [ToPaidMonth(row)];
        } else {
          assert PaidMonthRows(ledger[..i + 1], sid) == PaidMonthRows(ledger[..i], sid) + [];
        }
      } else {
        assert ForStudent(ledger[..i + 1], sid) == mine + [];
        assert mine + [] == mine;
      }
      i := i + 1;
    }
    assert ledger[..|ledger|] == ledger;
  }

  /** The student has a ledger row for month `m` with a positive monthly fee. */
  ghost predicate HasMonthlyPayment(ledger: seq<LedgerRow>, sid: string, m: string)
  {
    exists r :: r in ledger && r.id == sid && r.monthlyFee > 0 && r.month == m
  }

  /** The month labels `get_unpaid_months` treats as paid. */
  function PaidLabels(ledger: seq<LedgerRow>, sid: string): (labels: seq<string>)
    ensures forall m :: m in labels <==> HasMonthlyPayment(ledger, sid, m)
  {
    var rows := PaidMonthRows(ledger, sid);
    var labels := Months(rows);
    assert forall m :: m in labels <==> HasMonthlyPayment(ledger, sid, m) by {
      forall m ensures m in labels <==> HasMonthlyPayment(ledger, sid, m) {
        MonthsMembership(rows, m);
        if m in labels {
          var r :| r in rows && r.month == m;
          MonthlyPaymentsMembership(ForStudent(ledger, sid), r);
          ForStudentMembership(ledger, sid, r);
        }
        if HasMonthlyPayment(ledger, sid, m) {
          var r :| r in ledger && r.id == sid && r.monthlyFee > 0 && r.month == m;
          ForStudentMembership(ledger, sid, r);
          MonthlyPaymentsMembership(ForStudent(ledger, sid), r);
        }
      }
    }
    labels
  }

  /** `get_unpaid_months`: the January-to-December months for which the student has
      no row with a positive monthly fee. */
  function UnpaidMonths(ledger: seq<LedgerRow>, sid: string): (unpaid: seq<string>)
    ensures forall m :: m in unpaid <==> m in CalendarMonths && !HasMonthlyPayment(ledger, sid, m)
  {
    Unpaid(CalendarMonths, PaidLabels(ledger, sid))
  }

  /** Unpaid months keep calendar order, repeat no month, and with the paid calendar
      months make up the twelve months exactly once each. */
  lemma UnpaidMonthsPartition(ledger: seq<LedgerRow>, sid: string)
    ensures SubseqOf(UnpaidMonths(ledger, sid), CalendarMonths)
    ensures Distinct(UnpaidMonths(ledger, sid))
    ensures |PaidIn(CalendarMonths, PaidLabels(ledger, sid))| + |UnpaidMonths(ledger, sid)| == 12
  {
    MonthOrdersAgree();
    UnpaidPartition(CalendarMonths, PaidLabels(ledger, sid));
  }

  /** One entry of `get_payment_history`. */
  datatype HistoryEntry = HistoryEntry(date: string, amount: int, paymentMethod: string, reference: string, remarks: string)

  function DateKey(e: HistoryEntry): string { e.date }

  /** A row `get_payment_history` keeps: the student's own, with a parseable,
      positive received amount. */
  predicate IsPaymentOf(r: LedgerRow, sid: string)
  {
    r.id == sid && r.received.Some? && r.received.value > 0
  }

  /** The history entry a kept row becomes. */
  function HistoryEntryOf(r: LedgerRow): HistoryEntry
    requires r.received.Some?
  {
    HistoryEntry(r.date, r.received.value, r.paymentMethod, r.reference, r.remarks)
  }

  /** The entries `get_payment_history` collects before sorting, in file order. */
  function HistoryEntries(ledger: seq<LedgerRow>, sid: string): (es: seq<HistoryEntry>)
    ensures forall e :: e in es ==> e.amount > 0
  {
    if ledger == [] then []
    else
      var r := ledger[|ledger| - 1];
      HistoryEntries(ledger[..|ledger| - 1], sid) + (if IsPaymentOf(r, sid) then [HistoryEntryOf(r)] else [])
  }

  /** An entry is collected exactly when it comes from one of the student's rows
      with a positive received amount: no other student's payment is listed. */
  lemma {:induction false} HistoryEntriesMembership(ledger: seq<LedgerRow>, sid: string, e: HistoryEntry)
    ensures e in HistoryEntries(ledger, sid) <==>
      exists r :: r in ledger && IsPaymentOf(r, sid) && e == HistoryEntryOf(r)
  {
    if ledger != [] {
      var init, last := ledger[..|ledger| - 1], ledger[|ledger| - 1];
      HistoryEntriesMembership(init, sid, e);
      assert ledger == init + [last];
      if e in HistoryEntries(ledger, sid) && e !in HistoryEntries(init, sid) {
        assert IsPaymentOf(last, sid) && e == HistoryEntryOf(last);
      }
      if exists r :: r in ledger && IsPaymentOf(r, sid) && e == HistoryEntryOf(r) {
        var r :| r in ledger && IsPaymentOf(r, sid) && e == HistoryEntryOf(r);
        if r != last {
          assert r in init;
        }
      }
    }
  }

  /** `get_payment_history`: the actual payments, newest date first. */
  method PaymentHistory(ledger: seq<LedgerRow>, sid: string) returns (history: seq<HistoryEntry>)
    ensures history == SortDesc(HistoryEntries(ledger, sid), DateKey)
    ensures SortedDesc(history, DateKey)
    ensures multiset(history) == multiset(HistoryEntries(ledger, sid))
    ensures forall e :: e in history ==> e.amount > 0
    ensures forall e :: e in history <==> exists r :: r in ledger && IsPaymentOf(r, sid) && e == HistoryEntryOf(r)
  {
    var collected: seq<HistoryEntry> := [];
    var i := 0;
    while i < |ledger|
      invariant 0 <= i <= |ledger|
      invariant collected == HistoryEntries(ledger[..i], sid)
    {
      var r := ledger[i];
      assert ledger[..i + 1][..i] == ledger[..i];
      if IsPaymentOf(r, sid) {
        collected := collected + [HistoryEntryOf(r)];
      }
      i := i + 1;
    }
    assert ledger[..|ledger|] == ledger;
    history := SortDesc(collected, DateKey);
    SortDescSorted(collected, DateKey);
    forall e ensures e in history <==> exists r :: r in ledger && IsPaymentOf(r, sid) && e == HistoryEntryOf(r) {
      HistoryEntriesMembership(ledger, sid, e);
      assert e in history <==> e in multiset(history);
      assert e in collected <==> e in multiset(collected);
    }
  }

  /** The record `record_payment_request` stores. */
  function RequestRecord(
    requestId: string, email: string, amount: int, paymentType: string,
    paymentMethod: string, selected: seq<string>, requestedAt: string): (r: Record)
    ensures Get(r, "status") == Str("pending")
    ensures Get(r, "request_id") == Str(requestId)
    ensures Get(r, "selected_months") == StrList(selected)
  {
    map[
      "request_id" := Str(requestId),
      "parent_email" := Str(email),
      "amount" := Num(amount),
      "payment_type" := Str(paymentType),
      "payment_method" := Str(paymentMethod),
      "status" := Str("pending"),
      "requested_at" := Str(requestedAt),
      "selected_months" := StrList(selected)]
  }

  /** `record_payment_request`: `stamp` is the `%Y%m%d%H%M%S` clock reading and
      `requestedAt` the `%Y-%m-%d %H:%M:%S` one; a missing `selected_months` is
      the empty list. */
  method RecordPaymentRequest(
    store: PaymentStore, sid: string, email: string, amount: int, paymentType: string,
    paymentMethod: string, selected: seq<string>, stamp: string, requestedAt: string)
    returns (requestId: string)
    requires store.Valid()
    modifies store
    ensures store.Valid() && store.present
    ensures requestId == "PR_" + stamp
    ensures store.Requests(sid) == old(store.Requests(sid))
      + [RequestRecord(requestId, email, amount, paymentType, paymentMethod, selected, requestedAt)]
    ensures forall other :: other != sid ==>
      (store.Requests(other) == old(store.Requests(other))
       && (other in store.payments <==> other in old(store.payments)))
  {
    requestId := "PR_" + stamp;
    store.Append(sid, RequestRecord(requestId, email, amount, paymentType, paymentMethod, selected, requestedAt));
  }

  /** `str(float(amount))` for a whole-rupee amount (below 10^16, where Python
      switches to exponent notation). */
  function FormatAmount(a: int): string
  {
    (if a < 0 then "-" + NatToString(-a) else NatToString(a)) + ".0"
  }

  const CsvHeader: string := "Date,Amount,Payment Method,Reference,Remarks\n"

  function CsvLine(e: HistoryEntry): string
  {
    e.date + "," + FormatAmount(e.amount) + "," + e.paymentMethod + "," + e.reference + "," + e.remarks + "\n"
  }

  /** `export_payment_history_csv` on the history it reads. */
  function ExportCsv(history: seq<HistoryEntry>): string
  {
    if history == [] then CsvHeader
    else ExportCsv(history[..|history| - 1]) + CsvLine(history[|history| - 1])
  }

  function CountChar(s: string, c: char): nat
  {
    if s == [] then 0 else CountChar(s[..|s| - 1], c) + (if s[|s| - 1] == c then 1 else 0)
  }

  lemma {:induction false} CountCharAppend(a: string, b: string, c: char)
    ensures CountChar(a + b, c) == CountChar(a, c) + CountChar(b, c)
    decreases |b|
  {
    if b == [] {
      assert a + b == a;
    } else {
      assert (a + b)[..|a + b| - 1] == a + b[..|b| - 1];
      CountCharAppend(a, b[..|b| - 1], c);
    }
  }

  lemma CountCharAbsent(s: string, c: char)
    requires c !in s
    ensures CountChar(s, c) == 0
  {
    if s != [] {
      assert c !in s[..|s| - 1];
      CountCharAbsent(s[..|s| - 1], c);
    }
  }

  predicate NoNewline(e: HistoryEntry)
  {
    '\n' !in e.date && '\n' !in e.paymentMethod && '\n' !in e.reference && '\n' !in e.remarks
  }

  lemma FormatAmountNoNewline(a: int)
    ensures '\n' !in FormatAmount(a)
  {
    var digits := NatToString(if a < 0 then -a else a);
    assert AllDigits(digits);
    assert '\n' !in digits;
  }

  lemma CsvLineCount(e: HistoryEntry)
    requires NoNewline(e)
    ensures CountChar(CsvLine(e), '\n') == 1
  {
    FormatAmountNoNewline(e.amount);
    var body := e.date + "," + FormatAmount(e.amount) + "," + e.paymentMethod + "," + e.reference + "," + e.remarks;
    assert CsvLine(e) == body + "\n";
    CountCharAbsent(body, '\n');
    CountCharAppend(body, "\n", '\n');
  }

  /** The export has one header line and one line per history entry, provided no
      field itself holds a line break. */
  lemma {:induction false} ExportCsvLineCount(history: seq<HistoryEntry>)
    requires forall e :: e in history ==> NoNewline(e)
    ensures CountChar(ExportCsv(history), '\n') == 1 + |history|
  {
    if history == [] {
      var title := "Date,Amount,Payment Method,Reference,Remarks";
      assert '\n' !in title;
      assert CsvHeader == title + "\n";
      CountCharAppend(title, "\n", '\n');
      CountCharAbsent(title, '\n');
    } else {
      var e := history[|history| - 1];
      ExportCsvLineCount(history[..|history| - 1]);
      CsvLineCount(e);
      CountCharAppend(ExportCsv(history[..|history| - 1]), CsvLine(e), '\n');
    }
  }
}
