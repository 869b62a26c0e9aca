/** `real_payment_system.py`: a parent payment becomes one ledger row and, once
    that row is saved, one "pending_verification" record in the parent-payment
    history store (`parent_payments_history.json`). */
module RealPaymentSystem {
  import opened Json
  import opened Ledger
  import opened PaymentStores
  import Calendar
  import ParentDatabase
  import PaymentNotifications

  /** The ledger row `handle_parent_payment` saves. `date` is the `%Y-%m-%d`
      clock reading; columns the ledger model does not keep are dropped. */
  function ParentPaymentRow(
    sid: string, studentName: string, info: Record, amount: int,
    paymentMethod: string, transactionId: string, date: string): (row: LedgerRow)
    ensures row.id == sid && row.month == "PARENT_PAYMENT" && row.academicYear == "2024-2025"
    ensures row.monthlyFee == amount && row.received == Some(amount)
    ensures row.annualCharges == 0 && row.admissionFee == 0
  {
    LedgerRow(
      id := sid,
      studentName := studentName,
      classCategory := GetText(info, "class_category", ""),
      month := "PARENT_PAYMENT",
      monthlyFee := amount,
      annualCharges := 0,
      admissionFee := 0,
      received := Some(amount),
      paymentMethod := paymentMethod,
      date := date,
      academicYear := "2024-2025",
      reference := "",
      remarks := "",
      transactionId := transactionId)
  }

  /** The history record `_save_parent_payment_record` appends; `paymentDate` is
      the `%Y-%m-%d %H:%M:%S` clock reading. */
  function HistoryRecord(
    sid: string, studentName: string, amount: int, paymentMethod: string,
    transactionId: string, paymentDate: string): (r: Record)
    ensures Get(r, "status") == Str("pending_verification")
    ensures Get(r, "amount") == Num(amount)
    ensures Get(r, "transaction_id") == Str(transactionId)
  {
    map[
      "student_id" := Str(sid),
      "student_name" := Str(studentName),
      "amount" := Num(amount),
      "payment_method" := Str(paymentMethod),
      "transaction_id" := Str(transactionId),
      "payment_date" := Str(paymentDate),
      "status" := Str("pending_verification")]
  }

  /** `RealPaymentSystem`: it holds no state of its own beyond the file names. */
  class PaymentSystem {
    constructor ()
    {
    }

    /** `_save_parent_payment_record`: appends one record to the student's list,
        creating it when absent, and reports success. */
    method SaveParentPaymentRecord(
      history: PaymentStore, sid: string, studentName: string, amount: int,
      paymentMethod: string, transactionId: string, paymentDate: string) returns (ok: bool)
      requires history.Valid()
      modifies history
      ensures ok && history.Valid() && history.present
      ensures history.Requests(sid) ==
        old(history.Requests(sid)) + [HistoryRecord(sid, studentName, amount, paymentMethod, transactionId, paymentDate)]
      ensures forall other :: other != sid ==>
        history.Requests(other) == old(history.Requests(other))
        && (other in history.payments <==> other in old(history.payments))
    {
      history.Append(sid, HistoryRecord(sid, studentName, amount, paymentMethod, transactionId, paymentDate));
      return true;
    }

    /** `handle_parent_payment`: builds the ledger row and, only when saving it
        succeeds (`ledgerSaved`, the answer of the ledger writer), records the
        payment in the history store. */
    method HandleParentPayment(
      history: PaymentStore, details: map<string, Record>, sid: string, studentName: string, amount: int,
      paymentMethod: string, transactionId: string, date: string, timestamp: string, ledgerSaved: bool)
      returns (ok: bool, row: LedgerRow)
      requires history.Valid()
      modifies history
      ensures history.Valid()
      ensures row == ParentPaymentRow(sid, studentName, if sid in details then details[sid] else map[],
                                      amount, paymentMethod, transactionId, date)
      ensures ok == ledgerSaved
      ensures ok ==> (history.Requests(sid) ==
        old(history.Requests(sid)) + [HistoryRecord(sid, studentName, amount, paymentMethod, transactionId, timestamp)])
      ensures ok ==> forall other :: other != sid ==> history.Requests(other) == old(history.Requests(other))
      ensures !ok ==> history.payments == old(history.payments) && history.order == old(history.order)
    {
      var info := if sid in details then details[sid] else map[];
      row := ParentPaymentRow(sid, studentName, info, amount, paymentMethod, transactionId, date);
      if ledgerSaved {
        var _ := SaveParentPaymentRecord(history, sid, studentName, amount, paymentMethod, transactionId, timestamp);
        return true, row;
      }
      return false, row;
    }
  }

  /** The saved row adds its amount to the student's received total on the
      parent-side summary. */
  lemma ParentPaymentIsReceived(
    ledger: seq<LedgerRow>, sid: string, studentName: string, info: Record, amount: int,
    paymentMethod: string, transactionId: string, date: string)
    ensures var row := ParentPaymentRow(sid, studentName, info, amount, paymentMethod, transactionId, date);
      ColumnSum(ForStudent(ledger + [row], sid), Received) == ColumnSum(ForStudent(ledger, sid), Received) + amount
  {
    var row := ParentPaymentRow(sid, studentName, info, amount, paymentMethod, transactionId, date);
    ParentDatabase.ReceivedCountsOwnRow(ledger, row, sid);
  }

  /** A row for another month label leaves every other month's paid status as it was. */
  lemma OtherLabelKeepsPaidStatus(ledger: seq<LedgerRow>, row: LedgerRow, sid: string, m: string)
    requires row.month != m
    ensures ParentDatabase.HasMonthlyPayment(ledger + [row], sid, m) <==> ParentDatabase.HasMonthlyPayment(ledger, sid, m)
  {
    if ParentDatabase.HasMonthlyPayment(ledger + [row], sid, m) {
      var r :| r in ledger + [row] && r.id == sid && r.monthlyFee > 0 && r.month == m;
      assert r in ledger;
    }
    if ParentDatabase.HasMonthlyPayment(ledger, sid, m) {
      var r :| r in ledger && r.id == sid && r.monthlyFee > 0 && r.month == m;
      assert r in ledger + [row];
    }
  }

  /** The saved row is labelled "PARENT_PAYMENT", not with a month name, so it
      never turns a calendar month from unpaid to paid. */
  lemma ParentPaymentPaysNoMonth(
    ledger: seq<LedgerRow>, sid: string, studentName: string, info: Record, amount: int,
    paymentMethod: string, transactionId: string, date: string)
    ensures var row := ParentPaymentRow(sid, studentName, info, amount, paymentMethod, transactionId, date);
      forall m :: m in ParentDatabase.UnpaidMonths(ledger + [row], sid) <==> m in ParentDatabase.UnpaidMonths(ledger, sid)
  {
    var row := ParentPaymentRow(sid, studentName, info, amount, paymentMethod, transactionId, date);
    forall m | m != "PARENT_PAYMENT"
      ensures ParentDatabase.HasMonthlyPayment(ledger + [row], sid, m) <==> ParentDatabase.HasMonthlyPayment(ledger, sid, m)
    {
      OtherLabelKeepsPaidStatus(ledger, row, sid, m);
    }
    assert "PARENT_PAYMENT" !in Calendar.CalendarMonths;
  }

  /** A saved history record shows up in the admin counters as one more pending
      payment of its amount. */
  lemma SavedRecordCountsAsPending(
    rs: seq<Record>, sid: string, studentName: string, amount: int,
    paymentMethod: string, transactionId: string, paymentDate: string)
    requires PaymentNotifications.Tally(rs).Some?
    ensures var rec := HistoryRecord(sid, studentName, amount, paymentMethod, transactionId, paymentDate);
      var before := PaymentNotifications.Tally(rs).value;
      && PaymentNotifications.Tally(rs + [rec]).Some?
      && PaymentNotifications.Tally(rs + [rec]).value ==
           before.(totalPending := before.totalPending + 1, pendingAmount := before.pendingAmount + amount)
  {
    var rec := HistoryRecord(sid, studentName, amount, paymentMethod, transactionId, paymentDate);
    PaymentNotifications.TallySnoc(rs, rec);
    assert "status" in rec && "amount" in rec;
  }
}
