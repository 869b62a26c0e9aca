/** `parent_portal.py`: the fee getters with their fallbacks, the fee details of
    one student over the April-to-March academic year, the payment submission and
    the sign-up form checks. */
module ParentPortal {
  import opened Json
  import opened Seqs
  import opened Text
  import opened Ledger
  import opened Calendar
  import opened FeeArithmetic
  import opened PaymentStores

  // ---------------------------------------------------------------------------
  // Fee getters
  // ---------------------------------------------------------------------------

  /** The fee stores as the getters load them; `None` when the loader raised. */
  datatype FeeStores = FeeStores(
    studentFees: Option<map<string, FeeRecord>>,
    defaults: Option<FeeRecord>)

  const MonthlyFallback: int := 3000
  const AnnualFallback: int := 3500
  const AdmissionFallback: int := 10000

  /** The shared shape of the three getters: the student's own record when there
      is one, else the default fees, else the hard-coded fallback. */
  function FeeLookup(stores: FeeStores, sid: string, studentKey: string, defaultKey: string, fallback: int): (fee: int)
    ensures stores.studentFees.None? ==> fee == fallback
    ensures stores.studentFees.Some? && sid in stores.studentFees.value ==>
      fee == Amount(stores.studentFees.value[sid], studentKey, fallback)
    ensures stores.studentFees.Some? && sid !in stores.studentFees.value ==>
      fee == (if stores.defaults.Some? then Amount(stores.defaults.value, defaultKey, fallback) else fallback)
  {
    match stores.studentFees
    case None => fallback
    case Some(fees) =>
      if sid in fees then Amount(fees[sid], studentKey, fallback)
      else match stores.defaults
        case None => fallback
        case Some(d) => Amount(d, defaultKey, fallback)
  }

  /** `get_student_monthly_fee`. */
  function StudentMonthlyFee(stores: FeeStores, sid: string): int
  {
    FeeLookup(stores, sid, "monthly_fee", "monthly_fee", MonthlyFallback)
  }

  /** `get_student_annual_fee`: the student record is read at "annual_fee" but the
      default fees at "annual_charges". */
  function StudentAnnualFee(stores: FeeStores, sid: string): int
  {
    FeeLookup(stores, sid, "annual_fee", "annual_charges", AnnualFallback)
  }

  /** `get_student_admission_fee`. */
  function StudentAdmissionFee(stores: FeeStores, sid: string): int
  {
    FeeLookup(stores, sid, "admission_fee", "admission_fee", AdmissionFallback)
  }

  /** A student's own fee record wins over the defaults for every getter. */
  lemma StudentRecordWins(fees: map<string, FeeRecord>, defaults: Option<FeeRecord>, sid: string)
    requires sid in fees
    requires "monthly_fee" in fees[sid] && "annual_fee" in fees[sid] && "admission_fee" in fees[sid]
    ensures StudentMonthlyFee(FeeStores(Some(fees), defaults), sid) == fees[sid]["monthly_fee"]
    ensures StudentAnnualFee(FeeStores(Some(fees), defaults), sid) == fees[sid]["annual_fee"]
    ensures StudentAdmissionFee(FeeStores(Some(fees), defaults), sid) == fees[sid]["admission_fee"]
  {
  }

  /** A student record that stores its annual amount under "annual_charges", as the
      admin fee editor writes it, is not seen by the annual getter: it reports 3500. */
  lemma AnnualChargesKeyIsIgnored(fees: map<string, FeeRecord>, defaults: Option<FeeRecord>, sid: string)
    requires sid in fees && "annual_charges" in fees[sid] && "annual_fee" !in fees[sid]
    ensures StudentAnnualFee(FeeStores(Some(fees), defaults), sid) == 3500
  {
  }

  // ---------------------------------------------------------------------------
  // Fee details
  // ---------------------------------------------------------------------------

  /** The position of the first row paying month `m`, or `|rows|` when none does
      (`month_records.iloc[0]`). */
  function FirstPaying(rows: seq<LedgerRow>, m: string): (i: nat)
    ensures i <= |rows|
    ensures forall k :: 0 <= k < i ==> !PaysMonth(rows[k], m)
    ensures i < |rows| ==> PaysMonth(rows[i], m)
  {
    if rows == [] then 0
    else if PaysMonth(rows[0], m) then 0
    else 1 + FirstPaying(rows[1..], m)
  }

  /** One entry of `paid_months`. */
  datatype PaidMonthEntry = PaidMonthEntry(month: string, amount: int, date: string)

  /** The `paid_months` list after the loop has visited `months`. */
  function PaidEntries(rows: seq<LedgerRow>, months: seq<string>): seq<PaidMonthEntry>
  {
    if months == [] then []
    else
      var m := months[|months| - 1];
      var i := FirstPaying(rows, m);
      PaidEntries(rows, months[..|months| - 1])
      + (if i < |rows| then [PaidMonthEntry(m, rows[i].monthlyFee, rows[i].date)] else [])
  }

  /** The `unpaid_months` list after the loop has visited `months`. */
  function UnpaidEntries(rows: seq<LedgerRow>, months: seq<string>): seq<string>
  {
    if months == [] then []
    else
      var m := months[|months| - 1];
      UnpaidEntries(rows, months[..|months| - 1]) + (if FirstPaying(rows, m) < |rows| then [] else [m])
  }

  /** Every visited month lands in exactly one of the two lists: a paid entry
      reports the first paying row of its month, and an unpaid month has no
      paying row at all. */
  lemma {:induction false} MonthsSplit(rows: seq<LedgerRow>, months: seq<string>)
    ensures |PaidEntries(rows, months)| + |UnpaidEntries(rows, months)| == |months|
    ensures forall m :: m in UnpaidEntries(rows, months) <==>
      m in months && forall r :: r in rows ==> !PaysMonth(r, m)
    ensures forall e :: e in PaidEntries(rows, months) ==>
      e.month in months && FirstPaying(rows, e.month) < |rows|
      && e.amount == rows[FirstPaying(rows, e.month)].monthlyFee
      && e.date == rows[FirstPaying(rows, e.month)].date
  {
    if months != [] {
      var init := months[..|months| - 1];
      var m := months[|months| - 1];
      MonthsSplit(rows, init);
      assert months == init + [m];
      forall x | x in UnpaidEntries(rows, months)
        ensures forall r :: r in rows ==> !PaysMonth(r, x)
      {
        if x !in UnpaidEntries(rows, init) {
          assert x == m && FirstPaying(rows, m) == |rows|;
          forall r | r in rows ensures !PaysMonth(r, x) {
            var k :| 0 <= k < |rows| && rows[k] == r;
          }
        }
      }
      forall x | x in months && (forall r :: r in rows ==> !PaysMonth(r, x))
        ensures x in UnpaidEntries(rows, months)
      {
        if x == m {
          forall k | 0 <= k < |rows|
            ensures !PaysMonth(rows[k], m)
          {
            assert rows[k] in rows;
          }
        } else {
          assert x in init;
        }
      }
    }
  }

  /** The unpaid months keep the order of the visited months. */
  lemma {:induction false} UnpaidEntriesSubseq(rows: seq<LedgerRow>, months: seq<string>)
    ensures SubseqOf(UnpaidEntries(rows, months), months)
  {
    if months != [] {
      var init := months[..|months| - 1];
      var m := months[|months| - 1];
      UnpaidEntriesSubseq(rows, init);
      SubseqSnoc(UnpaidEntries(rows, init), init, m, FirstPaying(rows, m) == |rows|);
      assert months == init + [m];
    }
  }

  /** The April-to-March loop gives twelve months in total, and the unpaid ones
      are distinct and in academic-year order. */
  lemma AcademicYearSplit(rows: seq<LedgerRow>)
    ensures |PaidEntries(rows, AcademicMonths)| + |UnpaidEntries(rows, AcademicMonths)| == 12
    ensures SubseqOf(UnpaidEntries(rows, AcademicMonths), AcademicMonths)
  {
    MonthsSplit(rows, AcademicMonths);
    UnpaidEntriesSubseq(rows, AcademicMonths);
  }

  /** `not rows[rows[c] > 0].empty`. */
  function AnyPositive(rows: seq<LedgerRow>, c: Column): (b: bool)
    ensures b <==> exists i :: 0 <= i < |rows| && Cell(rows[i], c) > 0
  {
    if rows == [] then false
    else if Cell(rows[|rows| - 1], c) > 0 then true
    else
      var init := rows[..|rows| - 1];
      assert forall i :: 0 <= i < |init| ==> init[i] == rows[i];
      AnyPositive(init, c)
  }

  /** The dictionary `get_student_fee_details` returns. */
  datatype FeeDetails = FeeDetails(
    studentId: string,
    studentName: string,
    fatherName: string,
    className: string,
    phone: string,
    monthlyFee: int,
    annualFee: int,
    admissionFee: int,
    totalMonthly: int,
    totalAnnual: int,
    totalAdmission: int,
    totalReceived: int,
    totalDue: int,
    balanceDue: int,
    percentagePaid: real,
    paidMonths: seq<PaidMonthEntry>,
    unpaidMonths: seq<string>,
    totalPaidMonths: nat,
    totalUnpaidMonths: nat,
    annualPaid: bool,
    admissionPaid: bool)

  /** `monthly*12`, plus the annual and admission fees unless some row already
      shows them paid. */
  function DueAmount(monthly: int, annual: int, admission: int, annualPaid: bool, admissionPaid: bool): int
  {
    monthly * 12 + (if annualPaid then 0 else annual) + (if admissionPaid then 0 else admission)
  }

  /** What `get_student_fee_details` returns, as a function of the stores. */
  function FeeDetailsOf(
    ledger: seq<LedgerRow>, details: map<string, Record>, stores: FeeStores, sid: string): Option<FeeDetails>
  {
    if sid !in details then None
    else
      var info := details[sid];
      var rows := ForStudent(ledger, sid);
      var monthly, annual, admission := StudentMonthlyFee(stores, sid), StudentAnnualFee(stores, sid), StudentAdmissionFee(stores, sid);
      var paid := PaidEntries(rows, AcademicMonths);
      var unpaid := UnpaidEntries(rows, AcademicMonths);
      var annualPaid, admissionPaid := AnyPositive(rows, AnnualCharges), AnyPositive(rows, AdmissionFee);
      var received := ColumnSum(rows, Received);
      var due := DueAmount(monthly, annual, admission, annualPaid, admissionPaid);
      Some(FeeDetails(
        sid, GetText(info, "student_name", "N/A"), GetText(info, "father_name", "N/A"),
        GetText(info, "class_category", "N/A"), GetText(info, "phone", "N/A"),
        monthly, annual, admission,
        ColumnSum(rows, MonthlyFee), ColumnSum(rows, AnnualCharges), ColumnSum(rows, AdmissionFee),
        received, due, Balance(due, received), Percentage(received, due),
        paid, unpaid, |paid|, |unpaid|, annualPaid, admissionPaid))
  }

  /** `get_student_fee_details`: the month loop over April to March. */
  method GetStudentFeeDetails(
    ledger: seq<LedgerRow>, details: map<string, Record>, stores: FeeStores, sid: string)
    returns (r: Option<FeeDetails>)
    ensures r == FeeDetailsOf(ledger, details, stores, sid)
  {
    if sid !in details {
      return None;
    }
    var info := details[sid];
    var rows := ForStudent(ledger, sid);
    var monthly, annual, admission := StudentMonthlyFee(stores, sid), StudentAnnualFee(stores, sid), StudentAdmissionFee(stores, sid);
    var paid: seq<PaidMonthEntry> := [];
    var unpaid: seq<string> := [];
    var k := 0;
    while k < |AcademicMonths|
      invariant 0 <= k <= |AcademicMonths|
      invariant paid == PaidEntries(rows, AcademicMonths[..k])
      invariant unpaid == UnpaidEntries(rows, AcademicMonths[..k])
    {
      var month := AcademicMonths[k];
      assert AcademicMonths[..k + 1][..k] == AcademicMonths[..k];
      var i := FirstPaying(rows, month);
      if i < |rows| {
        paid := paid + [PaidMonthEntry(month, rows[i].monthlyFee, rows[i].date)];
      } else {
        unpaid := unpaid + [month];
      }
      k := k + 1;
    }
    assert AcademicMonths[..k] == AcademicMonths;
    var annualPaid, admissionPaid := AnyPositive(rows, AnnualCharges), AnyPositive(rows, AdmissionFee);
    var received := ColumnSum(rows, Received);
    var due := DueAmount(monthly, annual, admission, annualPaid, admissionPaid);
    r := Some(FeeDetails(
      sid, GetText(info, "student_name", "N/A"), GetText(info, "father_name", "N/A"),
      GetText(info, "class_category", "N/A"), GetText(info, "phone", "N/A"),
      monthly, annual, admission,
      ColumnSum(rows, MonthlyFee), ColumnSum(rows, AnnualCharges), ColumnSum(rows, AdmissionFee),
      received, due, Balance(due, received), Percentage(received, due),
      paid, unpaid, |paid|, |unpaid|, annualPaid, admissionPaid));
  }

  /** The fee details exist exactly for students with a details record; the paid
      and unpaid month counts add up to twelve, the received total is the sum of
      the student's received cells, the balance is the clamped difference and the
      percentage is 0 when nothing is due. */
  lemma FeeDetailsShape(ledger: seq<LedgerRow>, details: map<string, Record>, stores: FeeStores, sid: string)
    ensures FeeDetailsOf(ledger, details, stores, sid).Some? <==> sid in details
    ensures FeeDetailsOf(ledger, details, stores, sid).Some? ==>
      var d := FeeDetailsOf(ledger, details, stores, sid).value;
      && d.totalPaidMonths + d.totalUnpaidMonths == 12
      && SubseqOf(d.unpaidMonths, AcademicMonths)
      && d.totalReceived == ColumnSum(ForStudent(ledger, sid), Received)
      && d.balanceDue == Balance(d.totalDue, d.totalReceived)
      && d.balanceDue >= 0 && d.balanceDue >= d.totalDue - d.totalReceived
      && d.percentagePaid == Percentage(d.totalReceived, d.totalDue)
      && (d.totalDue == 0 ==> d.percentagePaid == 0.0)
  {
    AcademicYearSplit(ForStudent(ledger, sid));
  }

  /** Once any of the student's rows shows an annual (admission) charge, that fee
      no longer counts towards the due amount; before, it counts in full. */
  lemma FeeDetailsDue(ledger: seq<LedgerRow>, details: map<string, Record>, stores: FeeStores, sid: string)
    requires sid in details
    ensures var d := FeeDetailsOf(ledger, details, stores, sid).value;
      && d.totalDue == StudentMonthlyFee(stores, sid) * 12
           + (if d.annualPaid then 0 else StudentAnnualFee(stores, sid))
           + (if d.admissionPaid then 0 else StudentAdmissionFee(stores, sid))
      && (d.annualPaid <==> exists r :: r in ledger && r.id == sid && r.annualCharges > 0)
      && (d.admissionPaid <==> exists r :: r in ledger && r.id == sid && r.admissionFee > 0)
  {
    var rows := ForStudent(ledger, sid);
    forall r | r in ledger && r.id == sid
      ensures r in rows
    {
      ForStudentMembership(ledger, sid, r);
    }
    forall i | 0 <= i < |rows|
      ensures rows[i] in ledger && rows[i].id == sid
    {
      ForStudentMembership(ledger, sid, rows[i]);
    }
  }

  // ---------------------------------------------------------------------------
  // Payment submission
  // ---------------------------------------------------------------------------

  /** The radio button; a custom amount carries the number the widget returned,
      which the widget keeps between 1 and the balance. */
  datatype PaymentType = MonthlyFees | AnnualFeeType | AdmissionFeeType | CustomAmount(entered: int)

  /** What the payment page settles on: the amount and its description. */
  datatype Choice = Choice(amount: int, description: string)

  /** The amount and description of `show_payment_interface`, or `None` where the
      page returns early (nothing outstanding, no unpaid month, fee already paid). */
  function ChoosePayment(d: FeeDetails, t: PaymentType, selected: seq<string>): (c: Option<Choice>)
    ensures d.balanceDue == 0 ==> c.None?
    ensures t.MonthlyFees? ==> (c.None? <==> d.balanceDue == 0 || d.unpaidMonths == [])
    ensures c.Some? && t.MonthlyFees? ==>
      c.value.amount == d.monthlyFee * |selected|
      && (selected == [] ==> c.value.description == "")
      && (selected != [] ==> c.value.description == "Monthly Fee - " + Join(selected, ", "))
      && (selected != [] ==> forall i :: 0 <= i < |selected| ==> Occurs(selected[i], c.value.description))
    ensures t.AnnualFeeType? ==> (c.None? <==> d.balanceDue == 0 || d.annualPaid)
    ensures c.Some? && t.AnnualFeeType? ==> c.value == Choice(d.annualFee, "Annual Fee")
    ensures t.AdmissionFeeType? ==> (c.None? <==> d.balanceDue == 0 || d.admissionPaid)
    ensures c.Some? && t.AdmissionFeeType? ==> c.value == Choice(d.admissionFee, "Admission Fee")
    ensures t.CustomAmount? ==> (c.None? <==> d.balanceDue == 0)
    ensures c.Some? && t.CustomAmount? ==> c.value == Choice(t.entered, "Custom Payment")
  {
    if d.balanceDue == 0 then None
    else match t
      case MonthlyFees =>
        if d.unpaidMonths == [] then None
        else if selected != [] then
          var text := Join(selected, ", ");
          assert forall i :: 0 <= i < |selected| ==> Occurs(selected[i], "Monthly Fee - " + text) by {
            forall i | 0 <= i < |selected|
              ensures Occurs(selected[i], "Monthly Fee - " + text)
            {
              JoinContainsItems(selected, ", ", i);
              OccursInLonger(selected[i], "Monthly Fee - ", text, "");
              assert "Monthly Fee - " + text + "" == "Monthly Fee - " + text;
            }
          }
          Some(Choice(d.monthlyFee * |selected|, "Monthly Fee - " + text))
        else Some(Choice(0, ""))
      case AnnualFeeType =>
        if d.annualPaid then None else Some(Choice(d.annualFee, "Annual Fee"))
      case AdmissionFeeType =>
        if d.admissionPaid then None else Some(Choice(d.admissionFee, "Admission Fee"))
      case CustomAmount(entered) => Some(Choice(entered, "Custom Payment"))
  }

  /** The record the confirmation form stores. `selected_months` holds every
      unpaid month of the student for a monthly payment, whichever months were
      selected, and is empty otherwise. */
  function PortalRecord(
    sid: string, d: FeeDetails, t: PaymentType, c: Choice, paymentMethod: string,
    transactionId: string, parentName: string, paymentDate: string, createdAt: string): (r: Record)
    ensures Get(r, "status") == Str("pending")
    ensures Get(r, "amount") == Num(c.amount)
    ensures Get(r, "transaction_id") == Str(transactionId)
    ensures Get(r, "selected_months") == StrList(if t.MonthlyFees? then d.unpaidMonths else [])
  {
    map[
      "student_id" := Str(sid),
      "student_name" := Str(d.studentName),
      "amount" := Num(c.amount),
      "payment_method" := Str(paymentMethod),
      "transaction_id" := Str(transactionId),
      "parent_name" := Str(parentName),
      "payment_date" := Str(paymentDate),
      "description" := Str(c.description),
      "selected_months" := StrList(if t.MonthlyFees? then d.unpaidMonths else []),
      "status" := Str("pending"),
      "created_at" := Str(createdAt)]
  }

  datatype SubmitOutcome = NoPayment | MissingFields | Submitted(record: Record)

  /** The submit branch of `show_payment_interface`: nothing happens without a
      positive amount, the form is refused without a transaction id and a parent
      name, and otherwise the record is appended to the student's list of
      `data/parent_payments.json`. */
  method SubmitPayment(
    store: PaymentStore, sid: string, d: FeeDetails, t: PaymentType, selected: seq<string>,
    paymentMethod: string, transactionId: string, parentName: string, paymentDate: string, createdAt: string)
    returns (outcome: SubmitOutcome)
    requires store.Valid()
    modifies store
    ensures store.Valid()
    ensures outcome.Submitted? <==>
      ChoosePayment(d, t, selected).Some? && ChoosePayment(d, t, selected).value.amount > 0
      && transactionId != "" && parentName != ""
    ensures outcome.Submitted? ==>
      outcome.record == PortalRecord(sid, d, t, ChoosePayment(d, t, selected).value, paymentMethod,
                                     transactionId, parentName, paymentDate, createdAt)
      && store.Requests(sid) == old(store.Requests(sid)) + [outcome.record]
      && forall other :: other != sid ==> store.Requests(other) == old(store.Requests(other))
    ensures !outcome.Submitted? ==>
      store.payments == old(store.payments) && store.order == old(store.order)
  {
    var choice := ChoosePayment(d, t, selected);
    if choice.None? || choice.value.amount <= 0 {
      return NoPayment;
    }
    if transactionId == "" || parentName == "" {
      return MissingFields;
    }
    var rec := PortalRecord(sid, d, t, choice.value, paymentMethod, transactionId, parentName, paymentDate, createdAt);
    store.Append(sid, rec);
    return Submitted(rec);
  }

  /** A monthly payment for only some of the unpaid months still lists all of them. */
  lemma SelectedMonthsListsAllUnpaid(
    sid: string, d: FeeDetails, c: Choice, paymentMethod: string,
    transactionId: string, parentName: string, paymentDate: string, createdAt: string, selected: seq<string>)
    requires selected != [] && SubseqOf(selected, d.unpaidMonths) && |selected| < |d.unpaidMonths|
    ensures Get(PortalRecord(sid, d, MonthlyFees, c, paymentMethod, transactionId, parentName, paymentDate, createdAt),
                "selected_months") != StrList(selected)
  {
  }

  // ---------------------------------------------------------------------------
  // Sign-up form
  // ---------------------------------------------------------------------------

  datatype SignupCheck =
    | MissingSignupFields
    | PasswordMismatch
    | PasswordTooShort
    | NoStudentIds
    | Proceed(studentIds: seq<string>)

  /** `[s.strip() for s in text.split('\n') if s.strip()]` over the lines given. */
  function CleanIds(lines: seq<string>): (ids: seq<string>)
    ensures forall i :: 0 <= i < |ids| ==> ids[i] != [] && !IsSpace(ids[i][0]) && !IsSpace(ids[i][|ids[i]| - 1])
    ensures forall x :: x in ids <==> x != [] && exists l :: l in lines && Strip(l) == x
  {
    if lines == [] then []
    else
      var init := lines[..|lines| - 1];
      var last := Strip(lines[|lines| - 1]);
      assert lines == init + [lines[|lines| - 1]];
      CleanIds(init) + (if last != [] then [last] else [])
  }

  /** The sign-up checks in their order: every field except the confirmation filled
      in, the passwords equal, at least six characters, at least one student id. */
  function CheckSignup(
    email: string, parentName: string, password: string, confirm: string, phone: string, studentIds: string): (c: SignupCheck)
    ensures c.Proceed? <==>
      email != "" && parentName != "" && password != "" && phone != "" && studentIds != ""
      && password == confirm && |password| >= 6 && CleanIds(Split(studentIds, '\n')) != []
    ensures c.Proceed? ==> c.studentIds == CleanIds(Split(studentIds, '\n'))
    ensures c == PasswordTooShort ==> password == confirm && |password| < 6
  {
    if email == "" || parentName == "" || password == "" || phone == "" || studentIds == "" then MissingSignupFields
    else if password != confirm then PasswordMismatch
    else if |password| < 6 then PasswordTooShort
    else
      var ids := CleanIds(Split(studentIds, '\n'));
      if ids == [] then NoStudentIds else Proceed(ids)
  }

  /** Each id the form passes on is one line of the text area, trimmed, and no
      id holds a line break. */
  lemma SignupIdsAreLines(email: string, parentName: string, password: string, confirm: string, phone: string, studentIds: string)
    requires CheckSignup(email, parentName, password, confirm, phone, studentIds).Proceed?
    ensures forall x :: x in CheckSignup(email, parentName, password, confirm, phone, studentIds).studentIds ==>
      '\n' !in x && exists l :: l in Split(studentIds, '\n') && Strip(l) == x
  {
    var lines := Split(studentIds, '\n');
    forall x | x in CleanIds(lines)
      ensures '\n' !in x
    {
      var l :| l in lines && Strip(l) == x;
      var a, b :| AllSpace(a) && AllSpace(b) && l == a + x + b;
      var j :| 0 <= j < |lines| && lines[j] == l;
      assert '\n' !in l;
      forall k | 0 <= k < |x|
        ensures x[k] != '\n'
      {
        assert x[k] == l[|a| + k];
      }
    }
  }
}
