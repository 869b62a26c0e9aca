/** The two fixed month orders of the portal and the paid/unpaid split over them.
    `parent_database.py` lists the months January to December; `parent_portal.py`,
    `payment_verification.py` and `admin_dashboard.py` list the academic year
    April to March. Both orders are kept, as the source has them. */
module Calendar {
  import opened Seqs

  const CalendarMonths: seq<string> :=
    ["JANUARY", "FEBRUARY", "MARCH", "APRIL", "MAY", "JUNE",
     "JULY", "AUGUST", "SEPTEMBER", "OCTOBER", "NOVEMBER", "DECEMBER"]

  const AcademicMonths: seq<string> :=
    ["APRIL", "MAY", "JUNE", "JULY", "AUGUST", "SEPTEMBER",
     "OCTOBER", "NOVEMBER", "DECEMBER", "JANUARY", "FEBRUARY", "MARCH"]

  /** Both orders list the same twelve distinct months. */
  lemma MonthOrdersAgree()
    ensures |CalendarMonths| == |AcademicMonths| == 12
    ensures Distinct(CalendarMonths) && Distinct(AcademicMonths)
    ensures forall m :: m in CalendarMonths <==> m in AcademicMonths
  {
  }

  /** `[m for m in order if m not in paid]`. */
  function Unpaid(order: seq<string>, paid: seq<string>): (u: seq<string>)
    ensures forall m :: m in u <==> m in order && m !in paid
  {
    Filter(order, (m: string) => m !in paid)
  }

  /** The months of `order` that do appear in `paid`. */
  function PaidIn(order: seq<string>, paid: seq<string>): (p: seq<string>)
    ensures forall m :: m in p <==> m in order && m in paid
  {
    Filter(order, (m: string) => m in paid)
  }

  /** Paid and unpaid split the month order exactly: together they have all its
      months, no month is in both, and the unpaid months keep the order's sequence. */
  lemma UnpaidPartition(order: seq<string>, paid: seq<string>)
    requires Distinct(order)
    ensures |PaidIn(order, paid)| + |Unpaid(order, paid)| == |order|
    ensures forall m :: m in order ==> (m in PaidIn(order, paid) <==> m !in Unpaid(order, paid))
    ensures SubseqOf(Unpaid(order, paid), order)
    ensures Distinct(Unpaid(order, paid))
  {
    FilterSplitsLength(order, (m: string) => m in paid, (m: string) => m !in paid);
    FilterIsSubseq(order, (m: string) => m !in paid);
    FilterDistinct(order, (m: string) => m !in paid);
  }
}
