/** The fee ledger (`fees_data.csv`, read through `load_data()` as a DataFrame):
    one row per recorded payment event. Only the columns the core reads are kept. */
module Ledger {
  import opened Json
  import opened Seqs

  datatype LedgerRow = LedgerRow(
    id: string,              // "ID"
    studentName: string,     // "Student Name"
    classCategory: string,   // "Class Category"
    month: string,           // "Month": a month name or a sentinel such as "PARENT_PAYMENT"
    monthlyFee: int,         // "Monthly Fee"
    annualCharges: int,      // "Annual Charges"
    admissionFee: int,       // "Admission Fee"
    received: Option<int>,   // "Received Amount"; None when the cell is not a number
    paymentMethod: string,   // "Payment Method"
    date: string,            // "Date"
    academicYear: string,    // "Academic Year"
    reference: string,       // "Reference No"
    remarks: string,         // "Remarks"
    transactionId: string    // "Transaction ID"
  )

  datatype Column = MonthlyFee | AnnualCharges | AdmissionFee | Received

  /** The numeric value of one cell. A "Received Amount" that does not parse is
      skipped by the csv reader's `try`/`except` and by pandas' NaN-skipping sum,
      so it contributes 0 either way. */
  function Cell(r: LedgerRow, c: Column): int
  {
    match c
    case MonthlyFee => r.monthlyFee
    case AnnualCharges => r.annualCharges
    case AdmissionFee => r.admissionFee
    case Received => if r.received.Some? then r.received.value else 0
  }

  /** A row that pays the monthly fee of month `m`. */
  predicate PaysMonth(r: LedgerRow, m: string)
  {
    r.month == m && r.monthlyFee > 0
  }

  /** `rows[c].sum()`, 0 for no rows. */
  function ColumnSum(rows: seq<LedgerRow>, c: Column): int
  {
    if rows == [] then 0 else ColumnSum(rows[..|rows| - 1], c) + Cell(rows[|rows| - 1], c)
  }

  lemma {:induction false} ColumnSumAppend(a: seq<LedgerRow>, b: seq<LedgerRow>, c: Column)
    ensures ColumnSum(a + b, c) == ColumnSum(a, c) + ColumnSum(b, c)
    decreases |b|
  {
    if b == [] {
      assert a + b == a;
    } else {
      assert (a + b)[..|a + b| - 1] == a + b[..|b| - 1];
      ColumnSumAppend(a, b[..|b| - 1], c);
    }
  }

  /** A column whose cells are all zero or more sums to zero or more. */
  lemma {:induction false} ColumnSumNonNegative(rows: seq<LedgerRow>, c: Column)
    requires forall i :: 0 <= i < |rows| ==> Cell(rows[i], c) >= 0
    ensures ColumnSum(rows, c) >= 0
  {
    if rows != [] {
      ColumnSumNonNegative(rows[..|rows| - 1], c);
    }
  }

  /** Monthly fee plus annual charges plus admission fee: what some rows charge. */
  function Charged(rows: seq<LedgerRow>): int
  {
    ColumnSum(rows, MonthlyFee) + ColumnSum(rows, AnnualCharges) + ColumnSum(rows, AdmissionFee)
  }

  /** The "Student Name" column, row by row. */
  function Names(rows: seq<LedgerRow>): (ns: seq<string>)
    ensures |ns| == |rows|
    ensures forall i :: 0 <= i < |rows| ==> ns[i] == rows[i].studentName
  {
    if rows == [] then [] else Names(rows[..|rows| - 1]) + [rows[|rows| - 1].studentName]
  }

  /** `df[df['ID'] == sid]`, keeping row order. */
  function ForStudent(rows: seq<LedgerRow>, sid: string): seq<LedgerRow>
  {
    if rows == [] then []
    else
      var last := rows[|rows| - 1];
      ForStudent(rows[..|rows| - 1], sid) + (if last.id == sid then [last] else [])
  }

  lemma {:induction false} ForStudentMembership(rows: seq<LedgerRow>, sid: string, x: LedgerRow)
    ensures x in ForStudent(rows, sid) <==> x in rows && x.id == sid
  {
    if rows != [] {
      ForStudentMembership(rows[..|rows| - 1], sid, x);
      assert rows == rows[..|rows| - 1] + [rows[|rows| - 1]];
    }
  }

  lemma {:induction false} ForStudentAppend(a: seq<LedgerRow>, b: seq<LedgerRow>, sid: string)
    ensures ForStudent(a + b, sid) == ForStudent(a, sid) + ForStudent(b, sid)
    decreases |b|
  {
    if b == [] {
      assert a + b == a;
    } else {
      assert (a + b)[..|a + b| - 1] == a + b[..|b| - 1];
      ForStudentAppend(a, b[..|b| - 1], sid);
    }
  }

  /** `df[df['Class Category'] == cls]`, keeping row order. */
  function ForClass(rows: seq<LedgerRow>, cls: string): seq<LedgerRow>
  {
    if rows == [] then []
    else
      var last := rows[|rows| - 1];
      ForClass(rows[..|rows| - 1], cls) + (if last.classCategory == cls then [last] else [])
  }

  lemma {:induction false} ForClassMembership(rows: seq<LedgerRow>, cls: string, x: LedgerRow)
    ensures x in ForClass(rows, cls) <==> x in rows && x.classCategory == cls
  {
    if rows != [] {
      ForClassMembership(rows[..|rows| - 1], cls, x);
      assert rows == rows[..|rows| - 1] + [rows[|rows| - 1]];
    }
  }

  /** `records[records['Academic Year'] == year]`, keeping row order. */
  function ForYear(rows: seq<LedgerRow>, year: string): seq<LedgerRow>
  {
    if rows == [] then []
    else
      var last := rows[|rows| - 1];
      ForYear(rows[..|rows| - 1], year) + (if last.academicYear == year then [last] else [])
  }

  lemma {:induction false} ForYearMembership(rows: seq<LedgerRow>, year: string, x: LedgerRow)
    ensures x in ForYear(rows, year) <==> x in rows && x.academicYear == year
  {
    if rows != [] {
      ForYearMembership(rows[..|rows| - 1], year, x);
      assert rows == rows[..|rows| - 1] + [rows[|rows| - 1]];
    }
  }

  /** `records[records['Monthly Fee'] > 0]`, keeping row order. */
  function MonthlyPayments(rows: seq<LedgerRow>): seq<LedgerRow>
  {
    if rows == [] then []
    else
      var last := rows[|rows| - 1];
      MonthlyPayments(rows[..|rows| - 1]) + (if last.monthlyFee > 0 then [last] else [])
  }

  lemma {:induction false} MonthlyPaymentsMembership(rows: seq<LedgerRow>, x: LedgerRow)
    ensures x in MonthlyPayments(rows) <==> x in rows && x.monthlyFee > 0
  {
    if rows != [] {
      MonthlyPaymentsMembership(rows[..|rows| - 1], x);
      assert rows == rows[..|rows| - 1] + [rows[|rows| - 1]];
    }
  }

  /** The "Month" labels of the rows, in row order. */
  function Months(rows: seq<LedgerRow>): (ms: seq<string>)
    ensures |ms| == |rows|
    ensures forall i :: 0 <= i < |rows| ==> ms[i] == rows[i].month
  {
    if rows == [] then [] else [rows[0].month] + Months(rows[1..])
  }

  lemma MonthsMembership(rows: seq<LedgerRow>, m: string)
    ensures m in Months(rows) <==> exists r :: r in rows && r.month == m
  {
    if m in Months(rows) {
      var i :| 0 <= i < |rows| && Months(rows)[i] == m;
      assert rows[i] in rows;
    }
  }

  /** `rows[rows['Monthly Fee'] > 0]['Month'].unique()`: first occurrences, in
      row order. */
  function PaidMonthLabels(rows: seq<LedgerRow>): seq<string>
  {
    Dedup(Months(MonthlyPayments(rows)))
  }
}
