/** `admin.py`: the admin user store (`users.json`, email to user record) with its
    add / update / delete forms, the default-fee form and the student-wise fee
    editor with its bulk CSV update. The password digest and the student-id
    generator are parameters. */
module Admin {
  import opened Json
  import opened Seqs
  import opened FeeArithmetic
  import ParentPortal
  import ParentAuth

  // ---- user management -----------------------------------------------------

  /** Why the add-user form refuses, in the order the checks run. */
  datatype AddUserError = RequiredMissing | PasswordMismatch | PasswordTooShort | InvalidEmail | DuplicateUser

  /** The form checks that run before the store is read; `None` when all pass. */
  function AddUserValidation(email: string, password: string, confirm: string): (e: Option<AddUserError>)
    ensures e == Some(RequiredMissing) <==> email == "" || password == "" || confirm == ""
    ensures e == Some(PasswordMismatch) <==>
      email != "" && password != "" && confirm != "" && password != confirm
    ensures e == Some(PasswordTooShort) <==>
      email != "" && password != "" && password == confirm && |password| < 6
    ensures e == Some(InvalidEmail) <==>
      email != "" && password == confirm && |password| >= 6 && '@' !in email
    ensures e.None? <==> email != "" && password == confirm && |password| >= 6 && '@' in email
    ensures e != Some(DuplicateUser)
  {
    if email == "" || password == "" || confirm == "" then Some(RequiredMissing)
    else if password != confirm then Some(PasswordMismatch)
    else if |password| < 6 then Some(PasswordTooShort)
    else if '@' !in email then Some(InvalidEmail)
    else None
  }

  /** The record a new user gets. */
  function NewUserRecord(
    hash: string -> string, email: string, password: string, role: string,
    fullName: string, phone: string, now: string): (r: Record)
    ensures Get(r, "status") == Str("Active") && Get(r, "last_login") == Str("Never")
    ensures Get(r, "password") == Str(hash(password)) && Get(r, "role") == Str(role)
  {
    map[
      "email" := Str(email),
      "password" := Str(hash(password)),
      "role" := Str(role),
      "full_name" := Str(fullName),
      "phone" := Str(phone),
      "status" := Str("Active"),
      "created_at" := Str(now),
      "last_login" := Str("Never")]
  }

  /** The users left after the intended "Delete User": a confirmed delete drops
      exactly the selected account and keeps every other record as it was. */
  function AfterDelete(users: map<string, Record>, selected: string, confirmed: bool): (r: map<string, Record>)
    ensures !confirmed ==> r == users
    ensures confirmed ==> selected !in r
    ensures confirmed ==> forall e :: e in r <==> e in users && e != selected
    ensures forall e :: e in r ==> e in users && r[e] == users[e]
  {
    if confirmed then users - {selected} else users
  }

  /** How "Delete User" ends as written: `st.confirm` is not part of Streamlit's
      API, so the attribute lookup raises `AttributeError` before the `del`. */
  datatype DeleteOutcome = ConfirmMissing

  /** The users left by "Delete User" as written: the lookup of `st.confirm`
      fails first, so the store is never touched. */
  function AfterDeleteAsWritten(users: map<string, Record>, selected: string): (r: map<string, Record>)
    ensures r.Keys == users.Keys
    ensures forall e :: e in r ==> r[e] == users[e]
  {
    users
  }

  /** A concrete account that the button, as written, cannot delete, although
      the intended delete removes it. */
  lemma DeleteAsWrittenKeepsUser()
    ensures var users := map["clerk@school.pk" := map["role" := Str("Staff")]];
      && "clerk@school.pk" in AfterDeleteAsWritten(users, "clerk@school.pk")
      && "clerk@school.pk" !in AfterDelete(users, "clerk@school.pk", true)
  {
  }

  /** The user store. */
  class UserStore {
    var users: map<string, Record>

    constructor (users: map<string, Record>)
      ensures this.users == users
    {
      this.users := users;
    }

    /** The add-user form: the checks in order, then the duplicate check, then
        the insert; `None` means the user was added. */
    method AddUser(
      hash: string -> string, email: string, password: string, confirm: string,
      role: string, fullName: string, phone: string, now: string) returns (error: Option<AddUserError>)
      modifies this
      ensures AddUserValidation(email, password, confirm).Some? ==>
        error == AddUserValidation(email, password, confirm) && users == old(users)
      ensures AddUserValidation(email, password, confirm).None? && email in old(users) ==>
        error == Some(DuplicateUser) && users == old(users)
      ensures AddUserValidation(email, password, confirm).None? && email !in old(users) ==>
        error.None? && users == old(users)[email := NewUserRecord(hash, email, password, role, fullName, phone, now)]
    {
      error := AddUserValidation(email, password, confirm);
      if error.Some? {
        return;
      }
      if email in users {
        return Some(DuplicateUser);
      }
      users := users[email := NewUserRecord(hash, email, password, role, fullName, phone, now)];
    }

    /** "Update User": the selected user's role and status change, nothing else. */
    method UpdateUser(selected: string, newRole: string, newStatus: string)
      requires selected in users
      modifies this
      ensures users.Keys == old(users).Keys
      ensures users[selected] == old(users)[selected]["role" := Str(newRole)]["status" := Str(newStatus)]
      ensures forall e :: e in users && e != selected ==> users[e] == old(users)[e]
    {
      users := users[selected := users[selected]["role" := Str(newRole)]["status" := Str(newStatus)]];
    }

    /** "Delete User" as intended: a confirmation prompt answered `confirmed`,
        then the delete. */
    method DeleteUser(selected: string, confirmed: bool)
      modifies this
      ensures users == AfterDelete(old(users), selected, confirmed)
    {
      if confirmed {
        users := users - {selected};
      }
    }

    /** "Delete User" as written: the call to `st.confirm` raises and the store
        is left as it was. */
    method DeleteUserAsWritten(selected: string) returns (out: DeleteOutcome)
      modifies this
      ensures out == ConfirmMissing
      ensures users == AfterDeleteAsWritten(old(users), selected)
    {
      out := ConfirmMissing;
    }
  }

  /** The admin form only asks for an '@', which is weaker than the parent
      sign-up's pattern: every address the sign-up accepts passes here, not the
      other way round. */
  lemma AdminEmailCheckIsLooser(email: string)
    ensures ParentAuth.ValidateEmail(email) ==> '@' in email
    ensures '@' in "a@b" && !ParentAuth.ValidateEmail("a@b")
  {
    if ParentAuth.ValidateEmail(email) {
      if ParentAuth.EmailShape(email) {
        var i, j :| 0 <= i < j < |email| && ParentAuth.EmailShapeAt(email, i, j);
        assert email[i] == '@';
      } else {
        var b := email[..|email| - 1];
        var i, j :| 0 <= i < j < |b| && ParentAuth.EmailShapeAt(b, i, j);
        assert email[i] == b[i] == '@';
      }
    }
  }

  // ---- default fees ----------------------------------------------------------

  /** The record `set_default_fees` saves. */
  function NewDefaultFees(monthly: int, annual: int, admission: int): (fees: FeeRecord)
    ensures fees.Keys == {"monthly_fee", "annual_charges", "admission_fee"}
    ensures DefaultFeeTotal(fees) == monthly + annual + admission
  {
    map["monthly_fee" := monthly, "annual_charges" := annual, "admission_fee" := admission]
  }

  /** The "Total" line of the default-fee summary, a missing entry counting 0. */
  function DefaultFeeTotal(fees: FeeRecord): int
  {
    Amount(fees, "monthly_fee", 0) + Amount(fees, "annual_charges", 0) + Amount(fees, "admission_fee", 0)
  }

  /** Saved default fees are what the parent portal charges a student without
      a fee record of their own, and the summary total is the sum of its getters. */
  lemma DefaultFeesReachPortal(
    studentFees: map<string, FeeRecord>, sid: string, monthly: int, annual: int, admission: int)
    requires sid !in studentFees
    ensures var stores := ParentPortal.FeeStores(Some(studentFees), Some(NewDefaultFees(monthly, annual, admission)));
      && ParentPortal.StudentMonthlyFee(stores, sid) == monthly
      && ParentPortal.StudentAnnualFee(stores, sid) == annual
      && ParentPortal.StudentAdmissionFee(stores, sid) == admission
      && DefaultFeeTotal(NewDefaultFees(monthly, annual, admission)) ==
         ParentPortal.StudentMonthlyFee(stores, sid) + ParentPortal.StudentAnnualFee(stores, sid)
         + ParentPortal.StudentAdmissionFee(stores, sid)
  {
  }

  // ---- student-wise fees -----------------------------------------------------

  /** One entry of `student_fees.json` as the admin editor writes it. */
  datatype StudentFeeEntry = StudentFeeEntry(
    studentName: string, fatherName: string, classCategory: string,
    monthlyFee: int, annualCharges: int, admissionFee: int, updatedAt: string)

  /** The amounts of an entry under the keys it is saved with. */
  function AmountsOf(e: StudentFeeEntry): (fees: FeeRecord)
    ensures fees.Keys == {"monthly_fee", "annual_charges", "admission_fee"}
    ensures "annual_fee" !in fees
  {
    map["monthly_fee" := e.monthlyFee, "annual_charges" := e.annualCharges, "admission_fee" := e.admissionFee]
  }

  /** The admin editor saves the annual amount under "annual_charges", which the
      parent portal's annual getter does not read: the parent sees 3500 whatever
      was entered, while the monthly and admission amounts come through. */
  lemma EditedAnnualChargesNotSeenByPortal(
    fees: map<string, FeeRecord>, defaults: Option<FeeRecord>, sid: string, e: StudentFeeEntry)
    ensures var stores := ParentPortal.FeeStores(Some(fees[sid := AmountsOf(e)]), defaults);
      && ParentPortal.StudentAnnualFee(stores, sid) == ParentPortal.AnnualFallback
      && ParentPortal.StudentMonthlyFee(stores, sid) == e.monthlyFee
      && ParentPortal.StudentAdmissionFee(stores, sid) == e.admissionFee
  {
  }

  /** One row of the bulk-update CSV. */
  datatype BulkRow = BulkRow(
    studentName: string, fatherName: string, classCategory: string,
    monthlyFee: int, annualCharges: int, admissionFee: int)

  const BulkColumns := ["Student Name", "Father Name", "Class", "Monthly Fee", "Annual Charges", "Admission Fee"]

  function EntryOfRow(row: BulkRow, now: string): StudentFeeEntry
  {
    StudentFeeEntry(row.studentName, row.fatherName, row.classCategory,
                    row.monthlyFee, row.annualCharges, row.admissionFee, now)
  }

  /** The fee store after writing `rows` one after the other; `genId` is the
      student-id generator, applied to a row's name and class. */
  function ApplyBulk(
    fees: map<string, StudentFeeEntry>, rows: seq<BulkRow>,
    genId: (string, string) -> string, now: string): map<string, StudentFeeEntry>
  {
    if rows == [] then fees
    else
      var last := rows[|rows| - 1];
      ApplyBulk(fees, rows[..|rows| - 1], genId, now)[genId(last.studentName, last.classCategory) := EntryOfRow(last, now)]
  }

  /** The generated id of each row, in row order. */
  function Ids(rows: seq<BulkRow>, genId: (string, string) -> string): (ids: seq<string>)
    ensures |ids| == |rows|
    ensures forall i :: 0 <= i < |rows| ==> ids[i] == genId(rows[i].studentName, rows[i].classCategory)
  {
    if rows == [] then []
    else Ids(rows[..|rows| - 1], genId) + [genId(rows[|rows| - 1].studentName, rows[|rows| - 1].classCategory)]
  }

  /** The ids present afterwards are the old ones and the generated ones. */
  lemma {:induction false} ApplyBulkKeys(
    fees: map<string, StudentFeeEntry>, rows: seq<BulkRow>, genId: (string, string) -> string, now: string, id: string)
    ensures id in ApplyBulk(fees, rows, genId, now) <==> id in fees || id in Ids(rows, genId)
  {
    if rows != [] {
      var init := rows[..|rows| - 1];
      ApplyBulkKeys(fees, init, genId, now, id);
      assert Ids(rows, genId) == Ids(init, genId) + [Ids(rows, genId)[|rows| - 1]];
    }
  }

  /** An id no row generates keeps its old entry. */
  lemma {:induction false} ApplyBulkUntouched(
    fees: map<string, StudentFeeEntry>, rows: seq<BulkRow>, genId: (string, string) -> string, now: string, id: string)
    requires id in fees && id !in Ids(rows, genId)
    ensures id in ApplyBulk(fees, rows, genId, now) && ApplyBulk(fees, rows, genId, now)[id] == fees[id]
  {
    if rows != [] {
      var init := rows[..|rows| - 1];
      assert Ids(rows, genId) == Ids(init, genId) + [Ids(rows, genId)[|rows| - 1]];
      ApplyBulkUntouched(fees, init, genId, now, id);
    }
  }

  /** Last write wins: an id holds the entry of the last row generating it. */
  lemma {:induction false} ApplyBulkLastWins(
    fees: map<string, StudentFeeEntry>, rows: seq<BulkRow>, genId: (string, string) -> string, now: string,
    i: nat)
    requires i < |rows|
    requires Ids(rows, genId)[i] !in Ids(rows, genId)[i + 1..]
    ensures var id := Ids(rows, genId)[i];
      id in ApplyBulk(fees, rows, genId, now) && ApplyBulk(fees, rows, genId, now)[id] == EntryOfRow(rows[i], now)
  {
    var init := rows[..|rows| - 1];
    var ids := Ids(rows, genId);
    if i < |rows| - 1 {
      assert Ids(init, genId) == ids[..|rows| - 1];
      assert Ids(init, genId)[i + 1..] == ids[i + 1..|rows| - 1];
      assert ids[|rows| - 1] in ids[i + 1..];
      ApplyBulkLastWins(fees, init, genId, now, i);
      assert init[i] == rows[i];
    }
  }

  /** What the bulk update reports. */
  datatype BulkOutcome = MissingBulkColumns | Updated(count: nat)

  /** The student-fee store. */
  class StudentFeeStore {
    var fees: map<string, StudentFeeEntry>

    constructor (fees: map<string, StudentFeeEntry>)
      ensures this.fees == fees
    {
      this.fees := fees;
    }

    /** "Save Student Fees" for one student. */
    method SetStudentFee(sid: string, info: Record, monthly: int, annual: int, admission: int, now: string)
      modifies this
      ensures fees == old(fees)[sid := StudentFeeEntry(
        GetText(info, "student_name", ""), GetText(info, "father_name", ""), GetText(info, "class_category", ""),
        monthly, annual, admission, now)]
    {
      fees := fees[sid := StudentFeeEntry(
        GetText(info, "student_name", ""), GetText(info, "father_name", ""), GetText(info, "class_category", ""),
        monthly, annual, admission, now)];
    }

    /** "Update All Student Fees": refused when a required column is missing;
        otherwise every row overwrites the entry at its generated id and the
        count is the number of rows. */
    method BulkUpdate(header: seq<string>, rows: seq<BulkRow>, genId: (string, string) -> string, now: string)
      returns (out: BulkOutcome)
      modifies this
      ensures Missing(BulkColumns, header) != [] ==> out == MissingBulkColumns && fees == old(fees)
      ensures Missing(BulkColumns, header) == [] ==>
        out == Updated(|rows|) && fees == ApplyBulk(old(fees), rows, genId, now)
    {
      if Missing(BulkColumns, header) != [] {
        return MissingBulkColumns;
      }
      var updated := fees;
      var count := 0;
      var i := 0;
      while i < |rows|
        invariant 0 <= i <= |rows|
        invariant count == i
        invariant updated == ApplyBulk(fees, rows[..i], genId, now)
      {
        assert rows[..i + 1][..i] == rows[..i];
        var row := rows[i];
        updated := updated[genId(row.studentName, row.classCategory) := EntryOfRow(row, now)];
        count := count + 1;
        i := i + 1;
      }
      assert rows[..i] == rows;
      fees := updated;
      return Updated(count);
    }
  }
}
