/** `payment_notifications.py`: the admin's view of the parent-payment history store
    (`parent_payments_history.json`): the pending list, verify and reject, and the
    status counters. */
module PaymentNotifications {
  import opened Json
  import opened Seqs
  import opened Text
  import opened Sorting
  import opened PaymentStores

  // ---------------------------------------------------------------------------
  // Verify and reject
  // ---------------------------------------------------------------------------

  /** An admin decision, with the `%Y-%m-%d %H:%M:%S` clock reading and the acting
      user as it is taken from the session. */
  datatype Decision = Verify(at: string, actor: Value) | Reject(at: string, actor: Value)

  const RejectionReason: string := "Manual rejection by admin"

  /** `st.session_state.get('current_user', 'Admin')`. */
  function Actor(session: Record): (v: Value)
    ensures "current_user" !in session ==> v == Str("Admin")
    ensures "current_user" in session ==> v == session["current_user"]
  {
    GetOr(session, "current_user", Str("Admin"))
  }

  /** The fields a decision writes. */
  function StampedKeys(d: Decision): set<string>
  {
    if d.Verify? then {"status", "verified_at", "verified_by"}
    else {"status", "rejected_at", "rejected_by", "rejection_reason"}
  }

  /** The field assignments of one decision on one record. The prior status is not
      looked at. */
  function Stamp(r: Record, d: Decision): (s: Record)
    ensures s.Keys == r.Keys + StampedKeys(d)
    ensures forall k :: k !in StampedKeys(d) ==> Get(s, k) == Get(r, k)
    ensures d.Verify? ==>
      Get(s, "status") == Str("verified") && Get(s, "verified_at") == Str(d.at)
      && Get(s, "verified_by") == d.actor
    ensures d.Reject? ==>
      Get(s, "status") == Str("rejected") && Get(s, "rejected_at") == Str(d.at)
      && Get(s, "rejected_by") == d.actor && Get(s, "rejection_reason") == Str(RejectionReason)
  {
    match d
    case Verify(at, actor) =>
      r["status" := Str("verified")]["verified_at" := Str(at)]["verified_by" := actor]
    case Reject(at, actor) =>
      r["status" := Str("rejected")]["rejected_at" := Str(at)]["rejected_by" := actor]
        ["rejection_reason" := Str(RejectionReason)]
  }

  /** `payment.get('transaction_id') == tx`: two records without a transaction id
      match each other, since both lookups give `None`. */
  predicate Matches(r: Record, tx: Value)
  {
    Get(r, "transaction_id") == tx
  }

  /** The position of the first record matching `tx`, or `|list|` when none does. */
  function FirstMatch(list: seq<Record>, tx: Value): (i: nat)
    ensures i <= |list|
    ensures forall k :: 0 <= k < i ==> !Matches(list[k], tx)
    ensures i < |list| ==> Matches(list[i], tx)
  {
    if list == [] then 0
    else if Matches(list[0], tx) then 0
    else 1 + FirstMatch(list[1..], tx)
  }

  /** One student's list after the inner loop of verify or reject: the first
      matching record is stamped and the `break` ends the scan. */
  function StampFirst(list: seq<Record>, tx: Value, d: Decision): seq<Record>
  {
    var i := FirstMatch(list, tx);
    if i < |list| then list[i := Stamp(list[i], d)] else list
  }

  /** At most one record of a list changes, and it is the first one whose
      transaction id matches; a list with no match is returned as it was. */
  lemma StampFirstChangesOnlyFirstMatch(list: seq<Record>, tx: Value, d: Decision)
    ensures |StampFirst(list, tx, d)| == |list|
    ensures forall k :: 0 <= k < |list| && StampFirst(list, tx, d)[k] != list[k] ==>
      Matches(list[k], tx) && (forall j :: 0 <= j < k ==> !Matches(list[j], tx))
    ensures forall j, k :: 0 <= j < k < |list| && StampFirst(list, tx, d)[j] != list[j] ==>
      StampFirst(list, tx, d)[k] == list[k]
    ensures (forall k :: 0 <= k < |list| ==> !Matches(list[k], tx)) ==> StampFirst(list, tx, d) == list
  {
  }

  /** The first matching record receives the decision even when it has already
      been verified or rejected. */
  lemma StampFirstIgnoresPriorStatus(list: seq<Record>, tx: Value, d: Decision, k: nat)
    requires k < |list| && Matches(list[k], tx)
    requires forall j :: 0 <= j < k ==> !Matches(list[j], tx)
    ensures StampFirst(list, tx, d)[k] == Stamp(list[k], d)
    ensures Get(StampFirst(list, tx, d)[k], "status") == Str(if d.Verify? then "verified" else "rejected")
  {
  }

  /** Stamping a record twice with the same decision is stamping it once. */
  lemma StampIdempotent(r: Record, d: Decision)
    ensures Stamp(Stamp(r, d), d) == Stamp(r, d)
  {
    var once := Stamp(r, d);
    var twice := Stamp(once, d);
    assert twice.Keys == once.Keys;
    forall k | k in once
      ensures twice[k] == once[k]
    {
      if k !in StampedKeys(d) {
        assert Get(twice, k) == Get(once, k);
      }
    }
  }

  /** Repeating the same decision changes nothing more: the stamp keeps the
      transaction id, so the second scan stops at the same record. */
  lemma StampFirstIdempotent(list: seq<Record>, tx: Value, d: Decision)
    ensures StampFirst(StampFirst(list, tx, d), tx, d) == StampFirst(list, tx, d)
  {
    var i := FirstMatch(list, tx);
    var once := StampFirst(list, tx, d);
    if i < |list| {
      assert "transaction_id" !in StampedKeys(d);
      assert Matches(once[i], tx);
      forall j | 0 <= j < i
        ensures !Matches(once[j], tx)
      {
        assert once[j] == list[j];
      }
      assert FirstMatch(once, tx) == i;
      StampIdempotent(list[i], d);
      assert once[i := Stamp(once[i], d)] == once;
    } else {
      assert once == list;
    }
  }

  /** `verify_parent_payment` and `reject_parent_payment`: `false` only when the
      history file does not exist; otherwise every student's list gets its first
      matching record stamped, and the answer is `true` whether or not anything
      matched. */
  method ApplyDecision(store: PaymentStore, tx: Value, d: Decision) returns (ok: bool)
    requires store.Valid()
    modifies store
    ensures store.Valid()
    ensures ok == old(store.present)
    ensures store.present == old(store.present) && store.order == old(store.order)
    ensures store.payments.Keys == old(store.payments.Keys)
    ensures forall sid :: sid in store.payments ==>
      store.payments[sid] == StampFirst(old(store.payments[sid]), tx, d)
  {
    if !store.present {
      return false;
    }
    var updated := StampLists(store.payments, store.order, tx, d);
    store.payments := updated;
    return true;
  }

  /** After the outer loop has visited `order[..s]`: those students' lists are
      stamped and every other list is as loaded. */
  ghost predicate StampedUpTo(
    updated: map<string, seq<Record>>, payments: map<string, seq<Record>>,
    order: seq<string>, s: nat, tx: Value, d: Decision)
    requires s <= |order|
  {
    && updated.Keys == payments.Keys
    && forall sid :: sid in updated ==>
         updated[sid] == (if sid in order[..s] then StampFirst(payments[sid], tx, d) else payments[sid])
  }

  lemma StampedStep(
    updated: map<string, seq<Record>>, payments: map<string, seq<Record>>,
    order: seq<string>, s: nat, tx: Value, d: Decision)
    requires s < |order| && Distinct(order) && order[s] in payments
    requires StampedUpTo(updated, payments, order, s, tx, d)
    ensures StampedUpTo(updated[order[s] := StampFirst(payments[order[s]], tx, d)], payments, order, s + 1, tx, d)
  {
    assert order[..s + 1] == order[..s] + [order[s]];
    assert order[s] !in order[..s];
  }

  /** The outer loop of verify and reject over the loaded dictionary, student by
      student in key order. */
  method StampLists(payments: map<string, seq<Record>>, order: seq<string>, tx: Value, d: Decision)
    returns (updated: map<string, seq<Record>>)
    requires Distinct(order)
    requires forall sid :: sid in payments <==> sid in order
    ensures updated.Keys == payments.Keys
    ensures forall sid :: sid in updated ==> updated[sid] == StampFirst(payments[sid], tx, d)
  {
    updated := payments;
    var s := 0;
    while s < |order|
      invariant 0 <= s <= |order|
      invariant StampedUpTo(updated, payments, order, s, tx, d)
    {
      var sid := order[s];
      var list := updated[sid];
      assert sid !in order[..s];
      var j := FindFirstMatch(list, tx);
      var stamped := if j < |list| then list[j := Stamp(list[j], d)] else list;
      StampedStep(updated, payments, order, s, tx, d);
      updated := updated[sid := stamped];
      s := s + 1;
    }
    assert order[..s] == order;
  }

  /** The inner loop of verify and reject, up to its `break`. */
  method FindFirstMatch(list: seq<Record>, tx: Value) returns (j: nat)
    ensures j == FirstMatch(list, tx)
  {
    j := 0;
    while j < |list|
      invariant 0 <= j <= |list|
      invariant forall k :: 0 <= k < j ==> !Matches(list[k], tx)
    {
      if Matches(list[j], tx) {
        break;
      }
      j := j + 1;
    }
  }

  /** `verify_parent_payment(payment_data)`. */
  method VerifyParentPayment(store: PaymentStore, paymentData: Record, at: string, session: Record)
    returns (ok: bool)
    requires store.Valid()
    modifies store
    ensures store.Valid()
    ensures ok == old(store.present)
    ensures store.order == old(store.order) && store.payments.Keys == old(store.payments.Keys)
    ensures forall sid :: sid in store.payments ==>
      store.payments[sid] ==
        StampFirst(old(store.payments[sid]), Get(paymentData, "transaction_id"), Verify(at, Actor(session)))
  {
    ok := ApplyDecision(store, Get(paymentData, "transaction_id"), Verify(at, Actor(session)));
  }

  /** `reject_parent_payment(payment_data)`. */
  method RejectParentPayment(store: PaymentStore, paymentData: Record, at: string, session: Record)
    returns (ok: bool)
    requires store.Valid()
    modifies store
    ensures store.Valid()
    ensures ok == old(store.present)
    ensures store.order == old(store.order) && store.payments.Keys == old(store.payments.Keys)
    ensures forall sid :: sid in store.payments ==>
      store.payments[sid] ==
        StampFirst(old(store.payments[sid]), Get(paymentData, "transaction_id"), Reject(at, Actor(session)))
  {
    ok := ApplyDecision(store, Get(paymentData, "transaction_id"), Reject(at, Actor(session)));
  }

  // ---------------------------------------------------------------------------
  // The pending list
  // ---------------------------------------------------------------------------

  predicate IsPendingVerification(r: Record)
  {
    Get(r, "status") == Str("pending_verification")
  }

  /** The records whose status is "pending_verification", in store order. */
  function PendingRecords(rs: seq<Record>): seq<Record>
  {
    if rs == [] then []
    else
      var last := rs[|rs| - 1];
      PendingRecords(rs[..|rs| - 1]) + (if IsPendingVerification(last) then [last] else [])
  }

  lemma {:induction false} PendingRecordsMembership(rs: seq<Record>, r: Record)
    ensures r in PendingRecords(rs) <==> r in rs && IsPendingVerification(r)
  {
    if rs != [] {
      PendingRecordsMembership(rs[..|rs| - 1], r);
      assert rs == rs[..|rs| - 1] + [rs[|rs| - 1]];
    }
  }

  /** The sort key `x.get('payment_date', '')` as the stored value. */
  function DateValue(r: Record): (v: Value)
    ensures "payment_date" !in r ==> v == Str("")
  {
    GetOr(r, "payment_date", Str(""))
  }

  /** The same key as text, for the usual case where every stored date is a string. */
  function PaymentDateKey(r: Record): string
  {
    GetText(r, "payment_date", "")
  }

  /** Python's `<` is defined between two strings, two numbers (a JSON `true` or
      `false` counting as 1 or 0) and two lists of strings; between any other two
      keys, `None` and `None` included, it raises `TypeError`. */
  predicate Comparable(a: Value, b: Value)
  {
    || (a.Str? && b.Str?)
    || ((a.Num? || a.Bool?) && (b.Num? || b.Bool?))
    || (a.StrList? && b.StrList?)
  }

  /** Some two of the records have sort keys that cannot be compared. A sort that
      succeeds must have compared every pair that ends up next to each other, so
      the sort raises exactly when such a pair exists. */
  predicate DatesClash(rs: seq<Record>)
  {
    exists i, j | 0 <= i < |rs| && 0 <= j < |rs| :: i != j && !Comparable(DateValue(rs[i]), DateValue(rs[j]))
  }

  predicate TextDates(rs: seq<Record>)
  {
    forall i | 0 <= i < |rs| :: DateValue(rs[i]).Str?
  }

  /** Dates that are all text, or missing, never make the sort raise. */
  lemma TextDatesNeverClash(rs: seq<Record>)
    requires TextDates(rs)
    ensures !DatesClash(rs)
  {
  }

  /** A stored `null` date raises as soon as there is a second record to compare it with. */
  lemma NullDateClashes(rs: seq<Record>, i: nat)
    requires i < |rs| && 2 <= |rs|
    requires "payment_date" in rs[i] && rs[i]["payment_date"] == Null
    ensures DatesClash(rs)
  {
    var j := if i == 0 then 1 else 0;
    assert i != j && !Comparable(DateValue(rs[i]), DateValue(rs[j]));
  }

  /** A text date next to a numeric one raises. */
  lemma TextAndNumberClash(rs: seq<Record>, i: nat, j: nat)
    requires i < |rs| && j < |rs|
    requires DateValue(rs[i]).Str? && DateValue(rs[j]).Num?
    ensures DatesClash(rs)
  {
    assert i != j && !Comparable(DateValue(rs[i]), DateValue(rs[j]));
  }

  /** With no clash and at least two records, one text date makes every date text. */
  lemma NoClashWithOneTextDate(rs: seq<Record>, i: nat)
    requires i < |rs| && DateValue(rs[i]).Str?
    requires !DatesClash(rs)
    ensures TextDates(rs)
  {
    forall j | 0 <= j < |rs| ensures DateValue(rs[j]).Str? {
      if j != i {
        assert Comparable(DateValue(rs[i]), DateValue(rs[j]));
      }
    }
  }

  /** `get_pending_parent_payments`: the `except` branch turns a sort that raises
      into an empty list. */
  method GetPendingParentPayments(store: PaymentStore) returns (pending: seq<Record>)
    requires store.Valid()
    ensures !store.present ==> pending == []
    ensures store.present && DatesClash(PendingRecords(store.AllRecords())) ==> pending == []
    ensures store.present && TextDates(PendingRecords(store.AllRecords())) ==>
      pending == SortDesc(PendingRecords(store.AllRecords()), PaymentDateKey)
    ensures store.present && !DatesClash(PendingRecords(store.AllRecords())) ==>
      multiset(pending) == multiset(PendingRecords(store.AllRecords()))
  {
    if !store.present {
      return [];
    }
    var collected: seq<Record> := [];
    var s := 0;
    while s < |store.order|
      invariant 0 <= s <= |store.order|
      invariant collected == PendingRecords(Flatten(store.payments, store.order[..s]))
    {
      var sid := store.order[s];
      var list := store.payments[sid];
      ghost var done := Flatten(store.payments, store.order[..s]);
      assert store.order[..s + 1][..s] == store.order[..s];
      assert Flatten(store.payments, store.order[..s + 1]) == done + list;
      var j := 0;
      assert done + list[..0] == done;
      while j < |list|
        invariant 0 <= j <= |list|
        invariant collected == PendingRecords(done + list[..j])
      {
        assert (done + list[..j + 1])[..|done + list[..j]|] == done + list[..j];
        if IsPendingVerification(list[j]) {
          collected := collected + [list[j]];
        }
        j := j + 1;
      }
      assert list[..j] == list;
      s := s + 1;
    }
    assert store.order[..s] == store.order;
    if DatesClash(collected) {
      return [];
    }
    pending := SortDesc(collected, PaymentDateKey);
  }

  /** The pending list holds exactly the store's "pending_verification" records,
      each as often as it is stored, newest payment date first. */
  lemma PendingListIsSortedPending(rs: seq<Record>)
    ensures SortedDesc(SortDesc(PendingRecords(rs), PaymentDateKey), PaymentDateKey)
    ensures multiset(SortDesc(PendingRecords(rs), PaymentDateKey)) == multiset(PendingRecords(rs))
    ensures forall r :: r in SortDesc(PendingRecords(rs), PaymentDateKey) <==>
      r in rs && IsPendingVerification(r)
  {
    SortDescSorted(PendingRecords(rs), PaymentDateKey);
    var sorted := SortDesc(PendingRecords(rs), PaymentDateKey);
    forall r
      ensures r in sorted <==> r in rs && IsPendingVerification(r)
    {
      PendingRecordsMembership(rs, r);
      assert r in sorted <==> r in multiset(sorted);
      assert r in PendingRecords(rs) <==> r in multiset(PendingRecords(rs));
    }
  }

  // ---------------------------------------------------------------------------
  // Statistics
  // ---------------------------------------------------------------------------

  datatype PaymentStats = PaymentStats(
    totalPending: nat, totalVerified: nat, totalRejected: nat,
    pendingAmount: int, verifiedAmount: int)

  const ZeroStats := PaymentStats(0, 0, 0, 0, 0)

  /** `payment.get('status', 'pending')`. */
  function StatusOf(r: Record): Value
  {
    GetOr(r, "status", Str("pending"))
  }

  /** `payment.get('amount', 0)` as a number `+=` accepts: a JSON boolean adds as
      0 or 1, and any other non-number raises, which is `None` here. */
  function AmountOf(r: Record): (a: Option<int>)
    ensures "amount" !in r ==> a == Some(0)
    ensures "amount" in r && r["amount"].Num? ==> a == Some(r["amount"].n)
    ensures "amount" in r && (r["amount"].Null? || r["amount"].Str? || r["amount"].StrList?) ==> a.None?
  {
    match GetOr(r, "amount", Num(0))
    case Num(n) => Some(n)
    case Bool(b) => Some(if b then 1 else 0)
    case _ => None
  }

  /** One iteration of the counting loop; `None` when the addition would raise. */
  function CountOne(st: PaymentStats, r: Record): Option<PaymentStats>
  {
    var status := StatusOf(r);
    if status == Str("pending_verification") then
      match AmountOf(r)
      case None => None
      case Some(a) => Some(st.(totalPending := st.totalPending + 1, pendingAmount := st.pendingAmount + a))
    else if status == Str("verified") then
      match AmountOf(r)
      case None => None
      case Some(a) => Some(st.(totalVerified := st.totalVerified + 1, verifiedAmount := st.verifiedAmount + a))
    else if status == Str("rejected") then
      Some(st.(totalRejected := st.totalRejected + 1))
    else Some(st)
  }

  /** The counters after the loop over `rs`, or `None` once an addition has raised. */
  function Tally(rs: seq<Record>): Option<PaymentStats>
  {
    if rs == [] then Some(ZeroStats)
    else
      var before := Tally(rs[..|rs| - 1]);
      if before.None? then None else CountOne(before.value, rs[|rs| - 1])
  }

  /** What `get_payment_stats` returns: the counters, or all zeros when the file is
      missing or the loop raised. */
  function StatsOf(present: bool, rs: seq<Record>): PaymentStats
  {
    if !present then ZeroStats
    else match Tally(rs)
      case None => ZeroStats
      case Some(t) => t
  }

  /** `get_payment_stats`. */
  method GetPaymentStats(store: PaymentStore) returns (stats: PaymentStats)
    requires store.Valid()
    ensures stats == StatsOf(store.present, store.AllRecords())
  {
    if !store.present {
      return ZeroStats;
    }
    stats := ZeroStats;
    var s := 0;
    while s < |store.order|
      invariant 0 <= s <= |store.order|
      invariant Tally(Flatten(store.payments, store.order[..s])) == Some(stats)
    {
      var sid := store.order[s];
      var list := store.payments[sid];
      ghost var done := Flatten(store.payments, store.order[..s]);
      assert store.order[..s + 1][..s] == store.order[..s];
      assert Flatten(store.payments, store.order[..s + 1]) == done + list;
      var next := TallyList(stats, done, list);
      if next.None? {
        FlattenPrefix(store.payments, store.order, s + 1);
        TallyNoneSticky(done + list, Flatten(store.payments, store.order)[|done + list|..]);
        return ZeroStats;
      }
      stats := next.value;
      s := s + 1;
    }
    assert store.order[..s] == store.order;
  }

  /** The inner counting loop over one student's list. */
  method TallyList(stats: PaymentStats, ghost done: seq<Record>, list: seq<Record>)
    returns (next: Option<PaymentStats>)
    requires Tally(done) == Some(stats)
    ensures next == Tally(done + list)
  {
    var acc := stats;
    var j := 0;
    assert done + list[..0] == done;
    while j < |list|
      invariant 0 <= j <= |list|
      invariant Tally(done + list[..j]) == Some(acc)
    {
      assert (done + list[..j + 1])[..|done + list[..j]|] == done + list[..j];
      var step := CountOne(acc, list[j]);
      if step.None? {
        TallyNoneSticky(done + list[..j + 1], list[j + 1..]);
        assert done + list[..j + 1] + list[j + 1..] == done + list;
        return None;
      }
      acc := step.value;
      j := j + 1;
    }
    assert list[..j] == list;
    return Some(acc);
  }

  /** The records of the first `n` students are a prefix of all records. */
  lemma {:induction false} FlattenPrefix(payments: map<string, seq<Record>>, keys: seq<string>, n: nat)
    requires n <= |keys|
    requires forall k :: k in keys ==> k in payments
    ensures Flatten(payments, keys[..n]) <= Flatten(payments, keys)
    ensures Flatten(payments, keys) ==
      Flatten(payments, keys[..n]) + Flatten(payments, keys)[|Flatten(payments, keys[..n])|..]
    decreases |keys|
  {
    if n < |keys| {
      var init := keys[..|keys| - 1];
      assert init[..n] == keys[..n];
      FlattenPrefix(payments, init, n);
    } else {
      assert keys[..n] == keys;
    }
  }

  /** Once an addition has raised, later records cannot bring the counters back. */
  lemma {:induction false} TallyNoneSticky(a: seq<Record>, b: seq<Record>)
    requires Tally(a).None?
    ensures Tally(a + b).None?
    decreases |b|
  {
    if b == [] {
      assert a + b == a;
    } else {
      assert (a + b)[..|a + b| - 1] == a + b[..|b| - 1];
      TallyNoneSticky(a, b[..|b| - 1]);
    }
  }

  // Reference definitions of what the counters mean.

  function CountStatus(rs: seq<Record>, status: string): nat
  {
    if rs == [] then 0
    else CountStatus(rs[..|rs| - 1], status) + (if StatusOf(rs[|rs| - 1]) == Str(status) then 1 else 0)
  }

  /** The amounts of the records with `status`, where every such amount is a number. */
  function SumStatus(rs: seq<Record>, status: string): int
  {
    if rs == [] then 0
    else
      var last := rs[|rs| - 1];
      var a := AmountOf(last);
      SumStatus(rs[..|rs| - 1], status) + (if StatusOf(last) == Str(status) && a.Some? then a.value else 0)
  }

  /** The additions succeed exactly when every pending or verified record has a
      numeric amount. */
  ghost predicate AmountsAddable(rs: seq<Record>)
  {
    forall r :: r in rs && (StatusOf(r) == Str("pending_verification") || StatusOf(r) == Str("verified"))
      ==> AmountOf(r).Some?
  }

  /** The counters count each status and sum the pending and verified amounts; a
      rejected record is counted without its amount, and the loop fails exactly
      when a pending or verified amount is not a number. */
  lemma {:induction false} TallyMeaning(rs: seq<Record>)
    ensures Tally(rs).Some? <==> AmountsAddable(rs)
    ensures Tally(rs).Some? ==>
      var t := Tally(rs).value;
      && t.totalPending == CountStatus(rs, "pending_verification")
      && t.totalVerified == CountStatus(rs, "verified")
      && t.totalRejected == CountStatus(rs, "rejected")
      && t.pendingAmount == SumStatus(rs, "pending_verification")
      && t.verifiedAmount == SumStatus(rs, "verified")
  {
    if rs != [] {
      var init := rs[..|rs| - 1];
      var last := rs[|rs| - 1];
      TallyMeaning(init);
      assert rs == init + [last];
      if AmountsAddable(rs) {
        assert AmountsAddable(init);
      }
      if !AmountsAddable(init) {
        var r :| r in init && (StatusOf(r) == Str("pending_verification") || StatusOf(r) == Str("verified"))
          && AmountOf(r).None?;
        assert r in rs;
      }
    }
  }

  /** The counters after one more record. */
  lemma TallySnoc(rs: seq<Record>, r: Record)
    ensures Tally(rs + [r]) == if Tally(rs).None? then None else CountOne(Tally(rs).value, r)
  {
    assert (rs + [r])[..|rs|] == rs;
  }

  /** A record whose status is none of the three, such as the default "pending"
      of a portal request, leaves every counter as it was. */
  lemma OtherStatusIsNotCounted(rs: seq<Record>, r: Record)
    requires StatusOf(r) != Str("pending_verification") && StatusOf(r) != Str("verified")
    requires StatusOf(r) != Str("rejected")
    ensures Tally(rs + [r]) == Tally(rs)
  {
    TallySnoc(rs, r);
  }

  /** A rejected record adds one to the rejected count and nothing to any amount. */
  lemma RejectedIsCountedWithoutAmount(rs: seq<Record>, r: Record)
    requires Tally(rs).Some? && StatusOf(r) == Str("rejected")
    ensures Tally(rs + [r]).Some?
    ensures Tally(rs + [r]).value == Tally(rs).value.(totalRejected := Tally(rs).value.totalRejected + 1)
  {
    TallySnoc(rs, r);
    assert |"rejected"| != |"pending_verification"|;
    assert "rejected"[0] != "verified"[0];
  }
}
