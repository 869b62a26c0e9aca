/** `payment_verification.py`: eligibility of a payment, the per-year payment
    summary, and the overdue/upcoming split of the unpaid months around the
    current month. The current year and month are parameters. */
module PaymentVerification {
  import opened Json
  import opened Seqs
  import opened Text
  import opened Ledger
  import opened Calendar

  // ---------------------------------------------------------------------------
  // Academic year
  // ---------------------------------------------------------------------------

  /** `f"{current_year}-{current_year+1}"`. */
  function AcademicYear(year: nat): string
  {
    NatToString(year) + "-" + NatToString(year + 1)
  }

  /** The label splits at its dash into the two years it was made from. */
  lemma AcademicYearRoundTrip(year: nat)
    ensures Split(AcademicYear(year), '-') == [NatToString(year), NatToString(year + 1)]
    ensures ParseNat(Split(AcademicYear(year), '-')[0]) == year
    ensures ParseNat(Split(AcademicYear(year), '-')[1]) == year + 1
  {
    var first, second := NatToString(year), NatToString(year + 1);
    assert '-' !in first by {
      assert AllDigits(first);
    }
    assert '-' !in second by {
      assert AllDigits(second);
    }
    assert AcademicYear(year) == first + ['-'] + second;
    SplitAtFirst(first, second, '-');
    SplitWithoutSeparator(second, '-');
    ParseNatToString(year);
    ParseNatToString(year + 1);
  }

  /** The student's rows of the academic year starting in `year`. */
  function YearRows(ledger: seq<LedgerRow>, sid: string, year: nat): seq<LedgerRow>
  {
    ForYear(ForStudent(ledger, sid), AcademicYear(year))
  }

  lemma YearRowsMembership(ledger: seq<LedgerRow>, sid: string, year: nat, r: LedgerRow)
    ensures r in YearRows(ledger, sid, year) <==> r in ledger && r.id == sid && r.academicYear == AcademicYear(year)
  {
    ForYearMembership(ForStudent(ledger, sid), AcademicYear(year), r);
    ForStudentMembership(ledger, sid, r);
  }

  // ---------------------------------------------------------------------------
  // Eligibility
  // ---------------------------------------------------------------------------

  /** `check_payment_eligibility`. */
  function CheckPaymentEligibility(ledger: seq<LedgerRow>, sid: string, month: string, feeType: string, year: nat): bool
  {
    if ForStudent(ledger, sid) == [] then true
    else
      var rows := YearRows(ledger, sid, year);
      if feeType == "monthly" then forall r :: r in rows ==> !PaysMonth(r, month)
      else if feeType == "annual" then !(ColumnSum(rows, AnnualCharges) > 0)
      else if feeType == "admission" then !(ColumnSum(rows, AdmissionFee) > 0)
      else true
  }

  /** A new student may pay anything; an unknown fee type is always allowed; a
      month is payable exactly when no row of the current academic year already
      pays it; the annual and admission fees are payable exactly while their
      column sums to nothing positive over the current academic year. */
  lemma EligibilityMeaning(ledger: seq<LedgerRow>, sid: string, month: string, feeType: string, year: nat)
    ensures (forall r :: r in ledger ==> r.id != sid) ==> CheckPaymentEligibility(ledger, sid, month, feeType, year)
    ensures feeType !in {"monthly", "annual", "admission"} ==> CheckPaymentEligibility(ledger, sid, month, feeType, year)
    ensures feeType == "monthly" && (exists r :: r in ledger && r.id == sid) ==>
      (CheckPaymentEligibility(ledger, sid, month, feeType, year) <==>
        forall r :: r in ledger && r.id == sid && r.academicYear == AcademicYear(year) ==> !PaysMonth(r, month))
    ensures feeType == "annual" && (exists r :: r in ledger && r.id == sid) ==>
      (CheckPaymentEligibility(ledger, sid, month, feeType, year) <==>
        ColumnSum(YearRows(ledger, sid, year), AnnualCharges) <= 0)
    ensures feeType == "admission" && (exists r :: r in ledger && r.id == sid) ==>
      (CheckPaymentEligibility(ledger, sid, month, feeType, year) <==>
        ColumnSum(YearRows(ledger, sid, year), AdmissionFee) <= 0)
  {
    var mine := ForStudent(ledger, sid);
    if exists r :: r in ledger && r.id == sid {
      var r :| r in ledger && r.id == sid;
      ForStudentMembership(ledger, sid, r);
      assert mine != [];
    } else if mine != [] {
      ForStudentMembership(ledger, sid, mine[0]);
    }
    forall r
      ensures r in YearRows(ledger, sid, year) <==> r in ledger && r.id == sid && r.academicYear == AcademicYear(year)
    {
      YearRowsMembership(ledger, sid, year, r);
    }
  }

  // ---------------------------------------------------------------------------
  // Payment summary
  // ---------------------------------------------------------------------------

  /** The dictionary `get_payment_summary` returns. */
  datatype PaymentSummary = PaymentSummary(
    studentName: string,
    classCategory: string,
    academicYear: string,
    totalMonthly: int,
    totalAnnual: int,
    totalAdmission: int,
    totalReceived: int,
    paidMonths: seq<string>,
    unpaidMonths: seq<string>,
    annualPaid: bool,
    admissionPaid: bool)

  /** `get_payment_summary`. */
  function GetPaymentSummary(ledger: seq<LedgerRow>, sid: string, year: nat): Option<PaymentSummary>
  {
    var mine := ForStudent(ledger, sid);
    if mine == [] then None
    else
      var rows := YearRows(ledger, sid, year);
      var paid := PaidMonthLabels(rows);
      var annual, admission := ColumnSum(rows, AnnualCharges), ColumnSum(rows, AdmissionFee);
      Some(PaymentSummary(
        mine[0].studentName, mine[0].classCategory, AcademicYear(year),
        ColumnSum(rows, MonthlyFee), annual, admission, ColumnSum(rows, Received),
        paid, Unpaid(AcademicMonths, paid), annual > 0, admission > 0))
  }

  /** The summary exists exactly for students with ledger rows; its paid months
      are the distinct months with a positive monthly fee in the current academic
      year, its unpaid months the April-to-March months outside them, in order. */
  lemma SummaryMeaning(ledger: seq<LedgerRow>, sid: string, year: nat)
    ensures GetPaymentSummary(ledger, sid, year).None? <==> forall r :: r in ledger ==> r.id != sid
    ensures GetPaymentSummary(ledger, sid, year).Some? ==>
      var s := GetPaymentSummary(ledger, sid, year).value;
      && s.academicYear == AcademicYear(year)
      && Distinct(s.paidMonths)
      && (forall m :: m in s.paidMonths <==>
            exists r :: r in ledger && r.id == sid && r.academicYear == AcademicYear(year) && PaysMonth(r, m))
      && (forall m :: m in s.unpaidMonths <==> m in AcademicMonths && m !in s.paidMonths)
      && SubseqOf(s.unpaidMonths, AcademicMonths)
      && (s.annualPaid <==> s.totalAnnual > 0)
      && (s.admissionPaid <==> s.totalAdmission > 0)
  {
    var mine := ForStudent(ledger, sid);
    if mine == [] {
      forall r | r in ledger
        ensures r.id != sid
      {
        ForStudentMembership(ledger, sid, r);
      }
    } else {
      ForStudentMembership(ledger, sid, mine[0]);
      var rows := YearRows(ledger, sid, year);
      var pays := MonthlyPayments(rows);
      forall m
        ensures m in PaidMonthLabels(rows) <==>
          exists r :: r in ledger && r.id == sid && r.academicYear == AcademicYear(year) && PaysMonth(r, m)
      {
        MonthsMembership(pays, m);
        if m in PaidMonthLabels(rows) {
          var r :| r in pays && r.month == m;
          MonthlyPaymentsMembership(rows, r);
          YearRowsMembership(ledger, sid, year, r);
        }
        if exists r :: r in ledger && r.id == sid && r.academicYear == AcademicYear(year) && PaysMonth(r, m) {
          var r :| r in ledger && r.id == sid && r.academicYear == AcademicYear(year) && PaysMonth(r, m);
          YearRowsMembership(ledger, sid, year, r);
          MonthlyPaymentsMembership(rows, r);
        }
      }
      MonthOrdersAgree();
      UnpaidPartition(AcademicMonths, PaidMonthLabels(rows));
    }
  }

  // ---------------------------------------------------------------------------
  // Overdue and upcoming
  // ---------------------------------------------------------------------------

  /** `month_order.index(month) <= month_order.index(current_month)`. */
  predicate IsOverdue(order: seq<string>, month: string, current: string)
  {
    month in order && current in order && IndexOf(order, month) <= IndexOf(order, current)
  }

  function Overdue(order: seq<string>, current: string): string -> bool
  {
    (m: string) => IsOverdue(order, m, current)
  }

  function NotOverdue(order: seq<string>, current: string): string -> bool
  {
    (m: string) => !IsOverdue(order, m, current)
  }

  /** The recommendation loop of `show_upcoming_payments` over the month order
      `order` (April to March at its call): each unpaid month goes to the overdue
      list when it is not after the current month, else to the upcoming list. */
  method SplitOverdue(order: seq<string>, unpaid: seq<string>, current: string)
    returns (overdue: seq<string>, upcoming: seq<string>)
    requires current in order
    requires forall m :: m in unpaid ==> m in order
    ensures overdue == Filter(unpaid, Overdue(order, current))
    ensures upcoming == Filter(unpaid, NotOverdue(order, current))
  {
    overdue, upcoming := [], [];
    var currentIndex := IndexOf(order, current);
    var i := 0;
    while i < |unpaid|
      invariant 0 <= i <= |unpaid|
      invariant overdue == Filter(unpaid[..i], Overdue(order, current))
      invariant upcoming == Filter(unpaid[..i], NotOverdue(order, current))
    {
      var month := unpaid[i];
      assert unpaid[..i + 1] == unpaid[..i] + [month];
      FilterSnoc(unpaid[..i], month, Overdue(order, current));
      FilterSnoc(unpaid[..i], month, NotOverdue(order, current));
      var monthIndex := IndexOf(order, month);
      assert Overdue(order, current)(month) <==> monthIndex <= currentIndex;
      if monthIndex <= currentIndex {
        overdue := overdue + [month];
      } else {
        upcoming := upcoming + [month];
      }
      i := i + 1;
    }
    assert unpaid[..i] == unpaid;
  }

  /** Overdue and upcoming split the unpaid months: each unpaid month is in
      exactly one, both keep the unpaid order, and an unpaid current month is
      overdue. */
  lemma OverdueUpcomingPartition(order: seq<string>, unpaid: seq<string>, current: string)
    requires current in order
    ensures |Filter(unpaid, Overdue(order, current))| + |Filter(unpaid, NotOverdue(order, current))| == |unpaid|
    ensures SubseqOf(Filter(unpaid, Overdue(order, current)), unpaid)
    ensures SubseqOf(Filter(unpaid, NotOverdue(order, current)), unpaid)
    ensures current in unpaid ==> current in Filter(unpaid, Overdue(order, current))
  {
    FilterSplitsLength(unpaid, Overdue(order, current), NotOverdue(order, current));
    FilterIsSubseq(unpaid, Overdue(order, current));
    FilterIsSubseq(unpaid, NotOverdue(order, current));
  }

  /** The status column of the payment schedule table. */
  datatype ScheduleStatus = PaidStatus | UnpaidStatus | CurrentMonthStatus | UpcomingStatus

  /** The schedule loop's rule: the current month is labelled as such whatever its
      payment state; an unpaid month after it is upcoming. */
  function ScheduleStatusOf(month: string, paid: seq<string>, current: string): ScheduleStatus
    requires month in AcademicMonths && current in AcademicMonths
  {
    if month == current then CurrentMonthStatus
    else if month !in paid && IndexOf(AcademicMonths, month) > IndexOf(AcademicMonths, current) then UpcomingStatus
    else if month in paid then PaidStatus
    else UnpaidStatus
  }

  /** The schedule and the recommendations agree: an unpaid month other than the
      current one is labelled upcoming exactly when the split puts it in the
      upcoming list, and unpaid otherwise. */
  lemma ScheduleAgreesWithSplit(month: string, paid: seq<string>, current: string)
    requires month in AcademicMonths && current in AcademicMonths
    requires month !in paid && month != current
    ensures ScheduleStatusOf(month, paid, current) == UpcomingStatus <==>
      month in Filter(Unpaid(AcademicMonths, paid), NotOverdue(AcademicMonths, current))
    ensures ScheduleStatusOf(month, paid, current) == UnpaidStatus <==>
      month in Filter(Unpaid(AcademicMonths, paid), Overdue(AcademicMonths, current))
  {
  }
}
