/** A payment-request store: one JSON file mapping a student id to the ordered list
    of that student's payment records. The portal keeps two such files,
    `data/parent_payments.json` and `parent_payments_history.json`; each is one
    `PaymentStore` object here. The file is read whole, changed in memory and
    written back whole, so the store is modelled by its in-memory dictionary. */
module PaymentStores {
  import opened Json
  import opened Seqs

  /** All records of the students in `keys`, student by student, each student's
      list in its stored order. */
  function Flatten(payments: map<string, seq<Record>>, keys: seq<string>): seq<Record>
    requires forall k :: k in keys ==> k in payments
  {
    if keys == [] then []
    else Flatten(payments, keys[..|keys| - 1]) + payments[keys[|keys| - 1]]
  }

  class PaymentStore {
    /** Whether the JSON file exists. */
    var present: bool
    /** The file's dictionary. */
    var payments: map<string, seq<Record>>
    /** The dictionary's keys in insertion order, the order Python iterates them in. */
    var order: seq<string>

    ghost predicate Valid()
      reads this
    {
      && Distinct(order)
      && (forall k :: k in payments <==> k in order)
      && (!present ==> payments == map[])
    }

    /** A store whose file does not exist yet. */
    constructor Absent()
      ensures Valid() && !present && payments == map[] && order == []
    {
      present, payments, order := false, map[], [];
    }

    /** A store whose file holds `payments`, with keys in the order `order`. */
    constructor Loaded(payments: map<string, seq<Record>>, order: seq<string>)
      requires Distinct(order) && forall k :: k in payments <==> k in order
      ensures Valid() && present && this.payments == payments && this.order == order
    {
      this.present, this.payments, this.order := true, payments, order;
    }

    /** `payments.get(student_id, [])`. */
    function Requests(sid: string): (rs: seq<Record>)
      reads this
      ensures sid !in payments ==> rs == []
    {
      if sid in payments then payments[sid] else []
    }

    /** Every record in the store, in the order the source's nested loops visit them. */
    function AllRecords(): seq<Record>
      reads this
      requires Valid()
    {
      Flatten(payments, order)
    }

    /** `if student_id not in payments: payments[student_id] = []` followed by
        `payments[student_id].append(record)` and the write-back of the file. */
    method Append(sid: string, rec: Record)
      requires Valid()
      modifies this
      ensures Valid() && present
      ensures payments == old(payments)[sid := old(Requests(sid)) + [rec]]
      ensures order == if sid in old(payments) then old(order) else old(order) + [sid]
    {
      if sid !in payments {
        payments := payments[sid := []];
        order := order + [sid];
      }
      payments := payments[sid := payments[sid] + [rec]];
      present := true;
    }
  }
}
