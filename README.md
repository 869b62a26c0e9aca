# School fee portal: fee reconciliation and payment-request bookkeeping

This project models the core of a school fee portal. The portal has two sides.
On the admin side, staff keep a fee ledger (`fees_data.csv`, one row per
student and month), the student-details store, per-student and default fee
amounts, and a user list. On the parent side, parents sign up, log in, look at
what their children owe, and submit payment claims. Admins then verify or
reject those claims.

The model keeps the calculations and the store updates and leaves out the web
pages:

- **Ledger** (`Ledger`): ledger rows, row filters by student, class, academic
  year and paying month, and column sums.
- **Calendar** (`Calendar`): the two month orders the program uses. Three pages
  use April–March, and the parent-side database uses January–December.
- **Fee arithmetic** (`FeeArithmetic`): the clamped balance and the
  paid percentage.
- **Parent-side fee summary** (`ParentDatabase`): paid and unpaid months,
  payment history, the payment-request store and the CSV export.
- **Payment stores** (`PaymentStores`): the two JSON payment-request files.
  Each is a map from student id to an ordered list of records, kept as a class
  whose methods append in place.
- **Admin verification** (`PaymentNotifications`): the pending list,
  verify and reject, and the counters.
- **Parent portal** (`ParentPortal`): fee getters with their fallbacks, fee
  details, payment choice and submission, and the sign-up checks.
- **Payment verification** (`PaymentVerification`): eligibility, the yearly
  summary, and the overdue/upcoming split.
- **Portal payment** (`RealPaymentSystem`): the ledger row and history record
  written for a portal payment.
- **Fee reminder** (`Reminder`): the paid-in-full and unpaid student sets.
- **Class-wise analysis** (`AdminDashboard`): per-student analysis, status
  counts and collection rate.
- **Parent accounts** (`ParentAuth`): the account store, the e-mail check,
  password hashing and session fields.
- **Admin** (`Admin`): the user store, default fees, the student-fee store
  and the bulk update.
- **Student details** (`StudentDetails`): the entry forms and their batch
  save, the CSV column check and the class-wise summaries.

Modelling choices:

- JSON records are `map<string, Value>`.
- Python's `dict.get` is `Json.Get`, which gives `Null` when the key is missing.
- Amounts are whole rupees (`int`); percentages are `real`.
- Clock readings, the hash functions, the id generator and the detail writer
  are parameters.
- Where a page iterates a dictionary, the model iterates the keys in
  insertion order, as Python does.

## Model

| member | source | states |
|---|---|---|
| Ledger.ColumnSumAppend | admin_dashboard.py:381-384 | a column sum over two row lists is the sum of the two sums |
| Ledger.ColumnSumNonNegative | admin_dashboard.py:430 | a column with no negative cell sums to a non-negative amount |
| Ledger.Names | reminder.py:39 | the Student Name column, row by row |
| Ledger.ForStudentMembership | admin_dashboard.py:378 | a row is among a student's rows exactly when it is in the ledger with that ID |
| Ledger.ForStudentAppend | parent_database.py:61-66 | filtering by student distributes over appending rows |
| Ledger.ForClassMembership | admin_dashboard.py:334 | a row is among a class's rows exactly when it is in the ledger with that Class Category |
| Ledger.ForYearMembership | payment_verification.py:266 | a row is among the year's rows exactly when its Academic Year is that label |
| Ledger.MonthlyPaymentsMembership | admin_dashboard.py:387 | a row is a paying row exactly when its Monthly Fee is positive |
| Ledger.Months | payment_verification.py:275 | the Month column, row by row |
| Ledger.MonthsMembership | payment_verification.py:275 | a label is in the Month column exactly when some row carries it |
| Calendar.MonthOrdersAgree | parent_database.py:104-107 | the January–December and April–March orders list the same twelve distinct months |
| Calendar.Unpaid | parent_database.py:112 | a month is unpaid exactly when it is in the order and not among the paid labels |
| Calendar.PaidIn | parent_portal.py:118-130 | a month is paid-in exactly when it is in the order and among the paid labels |
| Calendar.UnpaidPartition | parent_portal.py:143-144 | paid and unpaid months split a distinct month order exactly, and unpaid months keep the order's sequence |
| FeeArithmetic.Balance | parent_database.py:69-80 | the balance is never negative, never below due minus received, and is either 0 or exactly due minus received |
| FeeArithmetic.Percentage | parent_database.py:81 | the percentage is 0 when nothing is due; when something is due, it is at least 100 exactly when received covers the due amount |
| Json.Get | parent_database.py:73 | a present key gives its value and a missing key gives Null |
| Json.GetOr | parent_auth.py:42-43 | a present key gives its value and a missing key gives the default |
| ParentDatabase.FeeSummaryOf | parent_database.py:41-82 | there is no summary when the details or fee record is missing or empty; otherwise due = monthly×12 + admission + annual (missing keys 0), received = the student's Received column sum, the balance is max(0, due − received), and the percentage is received/due×100, or 0 when nothing is due |
| ParentDatabase.StudentFeeSummary | parent_database.py:57-66 | the row-by-row accumulation loop gives exactly the summary function's result |
| ParentDatabase.ReceivedIgnoresOtherStudents | parent_database.py:62 | another student's row never changes a student's received total |
| ParentDatabase.ReceivedCountsOwnRow | parent_database.py:62-66 | the student's own row adds its amount, or 0 when the cell does not parse |
| ParentDatabase.FeeSummaryExample | parent_database.py:68-81 | fees of 3000/3500/10000 with two payments of 3000 give due 49500, received 6000 and balance 43500 |
| ParentDatabase.PaidMonths | parent_database.py:84-100 | one entry per matching row with a positive Monthly Fee, in ledger order, with no de-duplication |
| ParentDatabase.PaidLabels | parent_database.py:109-110 | a label is paid exactly when the student has a row with that Month and a positive Monthly Fee |
| ParentDatabase.UnpaidMonths | parent_database.py:102-113 | a month is unpaid exactly when it is a calendar month the student has no paying row for |
| ParentDatabase.UnpaidMonthsPartition | parent_database.py:104-113 | unpaid months keep January–December order, repeat nothing, and add up to 12 with the paid calendar months |
| ParentDatabase.HistoryEntries | parent_database.py:124-135 | every history entry has a positive amount |
| ParentDatabase.HistoryEntriesMembership | parent_database.py:124-135 | an entry is collected exactly when it comes from one of this student's rows with a parseable, positive received amount |
| ParentDatabase.PaymentHistory | parent_database.py:115-139 | the history is the collected entries sorted by date, newest first, as a permutation; an entry is listed exactly when it comes from one of this student's rows with a positive received amount |
| ParentDatabase.RequestRecord | parent_database.py:156-165 | the stored request has status "pending", its request id and the selected months (empty by default) |
| ParentDatabase.RecordPaymentRequest | parent_database.py:141-172 | the id is "PR_" followed by the timestamp; exactly one record is appended to the student's list, which is created if absent; every other student's list is unchanged |
| ParentDatabase.CountCharAppend | parent_database.py:190-192 | the line count of a concatenation is the sum of the line counts |
| ParentDatabase.CountCharAbsent | parent_database.py:192 | text without a line break counts no lines |
| ParentDatabase.FormatAmountNoNewline | parent_database.py:192 | a printed amount holds no line break |
| ParentDatabase.CsvLineCount | parent_database.py:192 | one history entry without embedded line breaks prints as exactly one line |
| ParentDatabase.ExportCsvLineCount | parent_database.py:186-194 | the export has one header line plus one line per history entry |
| PaymentStores.PaymentStore.Absent | parent_database.py:145-149 | a store whose file is missing is empty |
| PaymentStores.PaymentStore.Loaded | parent_database.py:145-147 | a loaded store holds the file's dictionary and key order |
| PaymentStores.PaymentStore.Requests | parent_database.py:174-184 | an absent student has no requests |
| PaymentStores.PaymentStore.Append | real_payment_system.py:74-87 | the student's list gains the record at its end and is created (key order extended) if absent; nothing else changes |
| PaymentNotifications.Actor | payment_notifications.py:50 | the acting user is the session's current_user, or "Admin" when it is not set |
| PaymentNotifications.Stamp | payment_notifications.py:48-50 | verify sets status "verified", verified_at and verified_by; reject sets status "rejected", rejected_at, rejected_by and the fixed reason; every other field is kept |
| PaymentNotifications.FirstMatch | payment_notifications.py:46-51 | the index of the first record with a matching transaction id, or the list length |
| PaymentNotifications.StampFirstChangesOnlyFirstMatch | payment_notifications.py:46-51 | at most one record of a list changes, it is the first match, and a list without a match is unchanged |
| PaymentNotifications.StampFirstIgnoresPriorStatus | payment_notifications.py:73-80 | the first match gets the decision whatever its current status |
| PaymentNotifications.StampIdempotent | payment_notifications.py:48-50 | stamping a record twice with the same decision equals stamping it once |
| PaymentNotifications.StampFirstIdempotent | payment_notifications.py:45-51 | repeating the same decision on a list changes nothing more |
| PaymentNotifications.ApplyDecision | payment_notifications.py:33-59 | false exactly when the file is absent; otherwise each student's list has its first match stamped, keys and order are unchanged, and the result is true even if nothing matched |
| PaymentNotifications.StampedStep | payment_notifications.py:45 | one more outer iteration stamps one more student's list |
| PaymentNotifications.StampLists | payment_notifications.py:45-51 | the nested loop stamps the first match in every student's list and nothing else |
| PaymentNotifications.FindFirstMatch | payment_notifications.py:46-51 | the inner loop stops at the first matching index |
| PaymentNotifications.VerifyParentPayment | payment_notifications.py:33-59 | verify is the decision "verified" with the clock reading and the acting user |
| PaymentNotifications.RejectParentPayment | payment_notifications.py:61-88 | reject is the decision "rejected" with the clock reading, the acting user and the fixed reason |
| PaymentNotifications.PendingRecordsMembership | payment_notifications.py:21-24 | a record is collected exactly when it is in the store with status "pending_verification" |
| PaymentNotifications.GetPendingParentPayments | payment_notifications.py:10-31 | [] when the file is absent; [] when two pending records have payment dates that cannot be compared, since the sort raises and the `except` returns []; with text dates, the pending records sorted by date, newest first; without a clash, always a permutation of the pending records |
| PaymentNotifications.TextDatesNeverClash | payment_notifications.py:27 | text or missing dates never make the sort raise |
| PaymentNotifications.NullDateClashes | payment_notifications.py:27-31 | a stored null date, next to any second record, makes the sort raise |
| PaymentNotifications.TextAndNumberClash | payment_notifications.py:27-31 | a text date and a numeric date make the sort raise |
| PaymentNotifications.NoClashWithOneTextDate | payment_notifications.py:27 | when the sort does not raise and one date is text, every date is text |
| PaymentNotifications.PendingListIsSortedPending | payment_notifications.py:27 | the pending list is sorted, is a permutation of the pending records, and holds exactly the store's pending records |
| PaymentNotifications.AmountOf | payment_notifications.py:228 | a missing amount adds as 0, a number as itself, and null, text or a list make the addition fail |
| PaymentNotifications.GetPaymentStats | payment_notifications.py:201-249 | all zeros when the file is absent or an addition fails; otherwise the loop's counters |
| PaymentNotifications.TallyList | payment_notifications.py:226-237 | the inner loop extends the counters by one student's list |
| PaymentNotifications.FlattenPrefix | payment_notifications.py:225 | the records of the first students are a prefix of all records |
| PaymentNotifications.TallyNoneSticky | payment_notifications.py:241-249 | once an addition fails, later records cannot undo the failure |
| PaymentNotifications.TallyMeaning | payment_notifications.py:225-237 | the counters count each status and sum the pending and verified amounts; the loop fails exactly when such an amount is not a number |
| PaymentNotifications.OtherStatusIsNotCounted | payment_notifications.py:227-237 | a record with any other status, including the default "pending", changes no counter |
| PaymentNotifications.TallySnoc | payment_notifications.py:227-237 | one more record changes the tally by that record alone, and a failed tally stays failed |
| PaymentNotifications.RejectedIsCountedWithoutAmount | payment_notifications.py:236-237 | a rejected record adds 1 to the rejected count and nothing to any amount |
| ParentPortal.FeeLookup | parent_portal.py:51-89 | the student's own record wins (its key, else the fallback); otherwise the default fees (their key, else the fallback); if loading failed, the fallback |
| ParentPortal.StudentRecordWins | parent_portal.py:55-56 | with the keys present, all three getters return the student's own amounts |
| ParentPortal.AnnualChargesKeyIsIgnored | parent_portal.py:69-70 | a student record without "annual_fee" gives 3500, whatever it holds under "annual_charges" |
| ParentPortal.FirstPaying | parent_portal.py:119-128 | the first row with that Month and a positive Monthly Fee, or none |
| ParentPortal.MonthsSplit | parent_portal.py:118-130 | every visited month lands in exactly one of the two lists; a paid entry reports its first paying row |
| ParentPortal.UnpaidEntriesSubseq | parent_portal.py:129-130 | unpaid months keep the visiting order |
| ParentPortal.AcademicYearSplit | parent_portal.py:104-144 | paid plus unpaid months make 12, and unpaid months keep April–March order |
| ParentPortal.AnyPositive | parent_portal.py:133-134 | true exactly when some row has a positive cell in that column |
| ParentPortal.GetStudentFeeDetails | parent_portal.py:91-177 | the month loop gives exactly the fee-details function's result |
| ParentPortal.FeeDetailsShape | parent_portal.py:97-167 | details exist exactly for students with a details record; months add up to 12; received is the sum of the student's received cells; the balance is max(0, due − received); the percentage is received/due×100, or 0 when nothing is due |
| ParentPortal.FeeDetailsDue | parent_portal.py:133-149 | due = monthly×12, plus annual unless some row shows annual charges, plus admission unless some row shows an admission fee |
| ParentPortal.ChoosePayment | parent_portal.py:193-271 | no payment when nothing is outstanding; for monthly fees, none when no month is unpaid, otherwise fee × selected count described as "Monthly Fee - " and the comma-joined months; annual and admission fees exactly while unpaid, for their amount; a custom amount as entered |
| ParentPortal.PortalRecord | parent_portal.py:331-343 | status "pending", the chosen amount, the transaction id, and every unpaid month (not only the selected ones) for monthly payments |
| ParentPortal.SubmitPayment | parent_portal.py:324-358 | a record is appended exactly when the amount is positive and the transaction id and name are filled in; other students' lists are unchanged, and nothing changes otherwise |
| ParentPortal.SelectedMonthsListsAllUnpaid | parent_portal.py:340 | paying for a proper subset of the unpaid months still stores all of them |
| ParentPortal.CleanIds | parent_portal.py:455 | the ids are exactly the non-empty trimmed lines, none starting or ending with whitespace |
| ParentPortal.CheckSignup | parent_portal.py:448-458 | proceeds exactly when every field is filled, the passwords match, the password has at least 6 characters and some id remains; too short only after the match check |
| ParentPortal.SignupIdsAreLines | parent_portal.py:455 | each passed id is one trimmed line of the text and holds no line break |
| PaymentVerification.AcademicYearRoundTrip | payment_verification.py:264-265 | the "{y}-{y+1}" label splits back into the two years |
| PaymentVerification.YearRowsMembership | payment_verification.py:233 | the year's rows are exactly the student's rows with that Academic Year |
| PaymentVerification.EligibilityMeaning | payment_verification.py:221-253 | allowed for a new student or an unknown fee type; monthly exactly when no year row pays the month; annual/admission exactly while the year's column sum is not positive |
| PaymentVerification.SummaryMeaning | payment_verification.py:255-295 | no summary exactly when the student has no rows; paid months are the distinct paying months of the year, unpaid the rest of April–March in order; annual_paid iff total_annual > 0, likewise admission |
| PaymentVerification.SplitOverdue | payment_verification.py:198-209 | the loop's overdue and upcoming lists are the unpaid months at or before, and after, the current month, in order |
| PaymentVerification.OverdueUpcomingPartition | payment_verification.py:204-209 | overdue and upcoming split the unpaid months, keep their order, and an unpaid current month is overdue |
| PaymentVerification.ScheduleAgreesWithSplit | payment_verification.py:176-183 | an unpaid, non-current month is "Upcoming" in the schedule exactly when the split calls it upcoming, and "Unpaid" exactly when it calls it overdue |
| RealPaymentSystem.ParentPaymentRow | real_payment_system.py:29-50 | Month "PARENT_PAYMENT", Monthly Fee = Received Amount = amount, annual and admission 0, year "2024-2025" |
| RealPaymentSystem.HistoryRecord | real_payment_system.py:77-85 | status "pending_verification", the amount and the transaction id |
| RealPaymentSystem.PaymentSystem.SaveParentPaymentRecord | real_payment_system.py:63-92 | returns true after appending exactly one record to the student's list; other students' lists are unchanged |
| RealPaymentSystem.PaymentSystem.HandleParentPayment | real_payment_system.py:19-61 | succeeds exactly when the ledger save succeeds; only then is the history record appended |
| RealPaymentSystem.ParentPaymentIsReceived | real_payment_system.py:42 | the saved row raises the student's received total by the amount |
| RealPaymentSystem.OtherLabelKeepsPaidStatus | real_payment_system.py:38 | a row whose label is another month leaves every month's paid status unchanged |
| RealPaymentSystem.ParentPaymentPaysNoMonth | real_payment_system.py:38 | a portal payment marks no calendar month as paid on the parent-side summary |
| RealPaymentSystem.SavedRecordCountsAsPending | real_payment_system.py:84 | a saved history record adds one pending payment of its amount to the admin counters |
| Reminder.NameMonthRowsMembership | reminder.py:40 | the rows considered are exactly those with the student name and the current month |
| Reminder.ReminderPartition | reminder.py:37-56 | paid-in-full and unpaid are disjoint and together are all names with records |
| Reminder.NoRowsThisMonthIsUnpaid | reminder.py:40-42 | a student with no row this month is unpaid |
| Reminder.ZeroChargeIsUnpaid | reminder.py:49 | rows that charge nothing never make a student paid in full |
| Reminder.NameOf | reminder.py:65 | a missing name compares as "", and a non-text name never matches a ledger name |
| Reminder.UnpaidEntriesMeaning | reminder.py:63-73 | the list holds exactly the entries of the details records whose name is unpaid |
| Reminder.FeeReminderPage | reminder.py:8-77 | nothing before the 8th; "no records" for an empty ledger; "all paid" when the unpaid set is empty; otherwise the sets and the sorted unpaid list |
| Reminder.DistinctNamesCoverLedger | reminder.py:39-53 | the distinct name column holds exactly the names that have ledger rows |
| Reminder.PaidAmong | reminder.py:37-50 | collects exactly the listed names that paid the month in full |
| Reminder.CollectUnpaidEntries | reminder.py:63-73 | one entry per unpaid student in student-file order, none for others |
| Reminder.SortForDisplayAsWritten | reminder.py:76-77 | sorting the list fails exactly when the list is empty |
| Reminder.UnmatchedUnpaidNameRaises | reminder.py:64-77 | an unpaid name with no details record leaves an empty list, which the sort as written cannot handle |
| Reminder.Reversed | reminder.py:77 | the sequence back to front |
| Reminder.ReversedMultiset | reminder.py:77 | reversing keeps the same elements |
| Reminder.SortForDisplay | reminder.py:76-77 | the displayed list is a permutation of the unpaid entries |
| Reminder.SortForDisplayOrdered | reminder.py:77 | the displayed list is in ascending class order |
| AdminDashboard.MetricsOf | admin_dashboard.py:343-357 | collected is the Received sum and expected the three charge sums; the rate is 0 when nothing is expected; otherwise it is at least 100 exactly when collected covers expected |
| AdminDashboard.AnalyseStudent | admin_dashboard.py:377-408 | paid months = distinct paying Month labels; unpaid = 12 − paid; outstanding = max(0, due − received); status Fully Paid iff received ≥ due, Partially Paid iff 0 < received < due, else Not Paid |
| AdminDashboard.ClassStudentsMembership | admin_dashboard.py:365-368 | a student is listed exactly when its class_category is the selected class |
| AdminDashboard.StatusCountsSum | admin_dashboard.py:427-429 | the three status counts add up to the number of analysed students |
| AdminDashboard.TotalOutstandingNonNegative | admin_dashboard.py:430 | the total of non-negative outstanding amounts is non-negative |
| AdminDashboard.AnalyseAll | admin_dashboard.py:377-408 | one analysis row per class member, in order |
| AdminDashboard.SelectClassStudents | admin_dashboard.py:365-368 | the collecting loop gives exactly the class members |
| AdminDashboard.AnalyseMembers | admin_dashboard.py:375-408 | the analysis loop gives exactly one analysis per member |
| AdminDashboard.AnalysisOutstandingNonNegative | admin_dashboard.py:430 | the class's total outstanding is never negative |
| AdminDashboard.ClassWiseFeeDetails | admin_dashboard.py:325-430 | the early exits for no records, no class records and no class students; otherwise metrics, analyses, status counts summing to the row count, and a non-negative total outstanding |
| AdminDashboard.PaidMonthLabelsSnoc | admin_dashboard.py:387 | a paying row adds a paid month exactly when its label is new |
| AdminDashboard.UnpaidMonthsUnclamped | admin_dashboard.py:392 | the unpaid count is negative exactly when more than 12 distinct labels are paid |
| AdminDashboard.ParentPaymentCountsAsPaidMonth | admin_dashboard.py:387 | a student's first portal payment counts as one more paid month |
| AdminDashboard.DedupSnocLength | admin_dashboard.py:387 | one more label adds one distinct label exactly when it is new |
| AdminDashboard.UnusedLabelIsNew | admin_dashboard.py:387 | a month no row carries is not among the paid labels |
| AdminDashboard.NewPayingLabelAddsMonth | admin_dashboard.py:387 | a paying row for a month the student had no row for adds one paid month |
| ParentAuth.LastIndexOf | parent_auth.py:13 | the position of the last occurrence of the character |
| ParentAuth.MatchesEmailIffShape | parent_auth.py:13 | matching at the first '@' and the last '.' succeeds exactly when some split of the string fits the pattern |
| ParentAuth.ValidateEmail | parent_auth.py:11-14 | accepted exactly when the text, or the text without one final newline, is local@domain.tld with the pattern's character classes and a TLD of at least 2 letters |
| ParentAuth.TrailingNewlineAccepted | parent_auth.py:13-14 | "ab@school.pk\n" is accepted |
| ParentAuth.OneLetterDomainRejected | parent_auth.py:13 | "ab@school.p" is rejected |
| ParentAuth.VerifyPassword | parent_auth.py:20-22 | true exactly when the stored digest is the digest of the attempt |
| ParentAuth.VerifyHashedPassword | parent_auth.py:16-22 | a stored digest always verifies against its own password |
| ParentAuth.NewParentRecord | parent_auth.py:63-70 | the hashed password, status "active" and the student ids |
| ParentAuth.ParentAccounts.constructor | parent_auth.py:33-35 | the store and session as loaded |
| ParentAuth.ParentAccounts.CreateParentAccount | parent_auth.py:50-77 | an invalid e-mail fails first, then a duplicate fails, both leaving the store unchanged; otherwise exactly one new entry is added |
| ParentAuth.ParentAccounts.AuthenticateParent | parent_auth.py:30-48 | succeeds exactly when the e-mail is registered with the digest of the password; only then is the session set (name default "Parent", ids default []) |
| ParentAuth.ParentAccounts.CheckParentAuthentication | parent_auth.py:79-90 | missing session fields get their defaults, present ones are kept, and the authenticated flag is returned |
| ParentAuth.ParentAccounts.LogoutParent | parent_auth.py:92-98 | resets authenticated, e-mail, name, ids and the portal flag |
| ParentAuth.CreatedAccountAuthenticates | parent_auth.py:63-70 | a new account logs in with its password, and with another password exactly when the digests agree |
| ParentAuth.CreateKeepsOtherLogins | parent_auth.py:63 | creating an account leaves every other account's login unchanged |
| ParentAuth.LogoutThenCheck | parent_auth.py:92-98 | after logout the session check reports not authenticated |
| Admin.AddUserValidation | admin.py:96-103 | each error holds exactly when the earlier checks passed and its own fails, in the source order; all pass exactly when fields are filled, the passwords match, length ≥ 6 and '@' is present |
| Admin.NewUserRecord | admin.py:114-123 | status "Active", last_login "Never", the hashed password and the role |
| Admin.UserStore.constructor | admin.py:106 | the store as loaded |
| Admin.UserStore.AddUser | admin.py:94-128 | a validation error or a duplicate leaves the store unchanged; otherwise exactly the new user is inserted |
| Admin.UserStore.UpdateUser | admin.py:171-173 | only the selected user's role and status change |
| Admin.AfterDelete | admin.py:181-183 | a confirmed delete drops exactly the selected account and keeps every other record; otherwise nothing changes |
| Admin.UserStore.DeleteUser | admin.py:181-183 | the store afterwards is the intended delete of the old store |
| Admin.AfterDeleteAsWritten | admin.py:182 | as written, no account is removed and no record changes |
| Admin.UserStore.DeleteUserAsWritten | admin.py:181-183 | as written, pressing the button ends in the missing `st.confirm` and leaves the store as it was |
| Admin.DeleteAsWrittenKeepsUser | admin.py:181-183 | a concrete account that the written button keeps and the intended delete removes |
| Admin.AdminEmailCheckIsLooser | admin.py:102 | every e-mail the parent check accepts has an '@', but "a@b" passes the admin check and fails the parent check |
| Admin.NewDefaultFees | admin.py:228-238 | the three keys, with their total monthly + annual + admission |
| Admin.DefaultFeesReachPortal | admin.py:233-240 | saved defaults are what the portal charges a student without their own record |
| Admin.AmountsOf | admin.py:362-370 | an edited entry stores its amounts under monthly_fee, annual_charges and admission_fee, and never annual_fee |
| Admin.EditedAnnualChargesNotSeenByPortal | admin.py:367 | after an edit the portal still shows the 3500 annual fallback, while monthly and admission come through |
| Admin.Ids | admin.py:474 | the generated id of each bulk row, in order |
| Admin.ApplyBulkKeys | admin.py:473-485 | afterwards an id is present exactly when it was before or some row generates it |
| Admin.ApplyBulkUntouched | admin.py:473-485 | an id no row generates keeps its entry |
| Admin.ApplyBulkLastWins | admin.py:473-485 | an id holds the entry of the last row generating it |
| Admin.StudentFeeStore.constructor | admin.py:470 | the store as loaded |
| Admin.StudentFeeStore.SetStudentFee | admin.py:361-370 | exactly the student's entry is replaced |
| Admin.StudentFeeStore.BulkUpdate | admin.py:462-488 | a missing column refuses with the store unchanged; otherwise every row is applied and the count equals the number of rows |
| StudentDetails.FirstIncomplete | student_details.py:171-174 | the first form lacking a required field, or the form count |
| StudentDetails.FormIds | student_details.py:180-181 | each form's generated id, in order |
| StudentDetails.SavedCount | student_details.py:178-192 | the number of successful writes, at most the form count |
| StudentDetails.SavedCountAll | student_details.py:194 | every form is counted exactly when every write succeeded |
| StudentDetails.StudentForms.constructor | student_details.py:87-88 | one empty form |
| StudentDetails.StudentForms.AddAnother | student_details.py:150-151 | one empty form is appended |
| StudentDetails.StudentForms.RemoveLast | student_details.py:155-157 | the last form is removed only while more than one is shown |
| StudentDetails.StudentForms.SaveAllStudents | student_details.py:164-199 | nothing to save for an empty list; the first incomplete form (1-based) rejects the batch before any write; otherwise every form is written and the forms reset only when all writes succeed |
| StudentDetails.MissingColumns | student_details.py:222-227 | a column is missing exactly when it is required and not in the header |
| StudentDetails.RowIds | student_details.py:334 | the ID column, row by row |
| StudentDetails.RegularMonthTotal | student_details.py:351 | the monthly total's rows are exactly those not labelled ANNUAL or ADMISSION |
| StudentDetails.SummaryOf | student_details.py:341-369 | the summary carries its id; paid months counts paying rows; the monthly total leaves out ANNUAL/ADMISSION rows; annual, admission and received are the student's column sums |
| StudentDetails.PaidRowsAtLeastPaidLabels | student_details.py:357 | the paying-row count is never below the distinct paid-label count |
| StudentDetails.TwoRowsOneMonthCountTwice | student_details.py:357 | two paying rows for one month count as two paid months here, but one distinct label |
| StudentDetails.ClassSummaries | student_details.py:311-369 | exits early for no records or no class records; otherwise, for each distinct ID in first-seen order, exactly that student's summary |
| Seqs.Filter | parent_database.py:112 | an element is kept exactly when it is in the input and passes the test |
| Seqs.FilterSnoc | parent_database.py:112 | filtering one more element appends it exactly when it passes |
| Seqs.Dedup | payment_verification.py:275 | the distinct labels, none repeated |
| Seqs.Missing | admin.py:462-463 | a required item is missing exactly when it is absent from what is present |
| Sorting.SortDesc | parent_database.py:139 | the sorted list is a permutation of the input |
| Sorting.SortDescSorted | parent_database.py:139 | the sorted list is in descending key order |
| Text.Split | parent_portal.py:455 | no part contains the separator |
| Text.JoinSplit | parent_portal.py:455 | joining the parts with the separator gives the text back |
| Text.Strip | parent_portal.py:455 | the result neither starts nor ends with whitespace, and only whitespace was removed |
| Text.JoinContainsItems | parent_portal.py:239 | every joined month appears in the description |
| Text.ParseNatToString | payment_verification.py:265 | a printed year reads back as itself |

## Left out

- Rendering and flow: the Streamlit widgets, charts, messages, session navigation and reruns.
- File access: reading and writing files and creating directories. A store is its in-memory value, and a missing file is an absent or empty store.
- Failed saves: a failing `save_users` or `save_student_fees` is not modelled, because the stores are in memory. `HandleParentPayment` is the exception: it takes the ledger-save result as a parameter.
- Floating point: `float()` parsing and the rounding of percentages to one or two places. Amounts are integers and percentages exact reals.
- Hashing: sha256 and md5 are a function parameter. The model assumes nothing about them.
- Clock: `datetime.now()` readings are parameters.
- pandas: `groupby`, styling and plotting. Filters and sums are sequence functions.
- Missing-cell handling: pandas sums skip NaN cells, and the model does the same for the received column (`None` cells). The other columns are always numbers.
- Foreign code: `generate_student_id`, `add_student_detail`, `save_to_csv`, `load_data` and the rest of `database.py` are not part of this model. They appear as parameters or as the ledger sequence.
- ParentDatabase.PaymentHistory: every Date cell is text in the ledger model. A CSV row too short to reach its Date column is not modelled. `csv.DictReader` gives None for that cell, which would make the sort raise.
- PaymentNotifications.GetPendingParentPayments: when every pending record stores its payment date as a number, or every one as a list, Python sorts by those values. The model promises only a permutation in that case. The portal itself always writes text dates.
- Reminder.SortForDisplay: the order among entries of the same class is not fixed, because pandas' default quicksort is not stable.
- Text.Strip: strips ASCII and Latin-1 whitespace only, not the Unicode whitespace beyond Latin-1 that Python's `str.strip` also removes.
- Admin.UserStore.DeleteUser: models the intended delete behind a confirmation prompt whose answer is the parameter `confirmed`. The source's `st.confirm` call does not provide one (see Findings).
- Admin.UserStore.UpdateUser: requires the selected user to exist, since the select box only offers stored keys. The `.index` `ValueError` for an unknown stored role or status is not modelled.
- Admin.StudentFeeStore.BulkUpdate: the `int()` conversion of CSV cells is not modelled, since rows arrive as integers, so a non-numeric cell never raises.
- Student entry forms always hold every field, as the form widgets set them all.
- The CSV student import after the column check is left out: it goes through `add_student_detail`.
- The portal's payment-method instructions and the gateway modules are left out.
- Dashboard overview tiles: only the collection-rate guard is modelled, not the charts and record counts.
- The `RealPaymentSystem.__init__` creation of an empty file is left out: an absent store behaves like an empty one.
- Lost updates between concurrent whole-file rewrites are not modelled.

## Findings

| source | as written | input that shows it | evidently intended | confidence | as-written member | corrected member |
|---|---|---|---|---|---|---|
| reminder.py:76-77 | `pd.DataFrame(unpaid_list).sort_values('Class')` on an empty `unpaid_list`: the frame has no 'Class' column and raises `KeyError` | a ledger row for "Ali" in the current month that pays nothing, with no student-details record named "Ali": the unpaid set is {"Ali"} but the unpaid list is empty | show the (possibly empty) unpaid list sorted by class | not executed | Reminder.SortForDisplayAsWritten, Reminder.UnmatchedUnpaidNameRaises | Reminder.SortForDisplay, Reminder.SortForDisplayOrdered |
| admin.py:182 | `st.confirm(...)` guards the `del`, but Streamlit has no `confirm` function, so pressing "Delete User" raises `AttributeError` before the delete | any stored user selected, then "Delete User" pressed | ask for confirmation, then delete the selected user and save | not executed; Streamlit's public API has no `confirm` | Admin.UserStore.DeleteUserAsWritten, Admin.AfterDeleteAsWritten, Admin.DeleteAsWrittenKeepsUser | Admin.UserStore.DeleteUser, Admin.AfterDelete |
