/**
 * Transaction records: one person's one-sided claim of a transfer, its three states
 * (pending, confirmed, rejected), the mirrored record confirmation creates, and the
 * lookups the workflow uses to find a record for the person it targets.
 */
module TransRecords {
  import opened Wrappers

  type PersonId = int
  type CurrencyId = int
  type RecordId = int
  type TransactionId = int

  /** The stored fields of a transaction record; `transaction` is null until confirmation. */
  datatype TransRecord = TransRecord(
    creator: PersonId,
    target: PersonId,
    fromReceiver: bool,
    currency: CurrencyId,
    transactionTime: int,
    value: int,
    rejected: bool,
    transaction: Option<TransactionId>)

  datatype Status = Pending | Confirmed | Rejected

  /** Rejected records are rejected whatever else they hold; otherwise a record is confirmed
      once it is linked to a transaction and pending before that. */
  function StatusOf(r: TransRecord): Status {
    if r.rejected then Rejected
    else if r.transaction.Some? then Confirmed
    else Pending
  }

  /** A record as its creator saves it: not rejected and not yet linked to a transaction. */
  function NewRecord(creator: PersonId, target: PersonId, fromReceiver: bool, currency: CurrencyId,
                     transactionTime: int, value: int): (r: TransRecord)
    ensures StatusOf(r) == Pending
    ensures r.creator == creator && r.target == target && r.fromReceiver == fromReceiver
    ensures r.currency == currency && r.transactionTime == transactionTime && r.value == value
  {
    TransRecord(creator, target, fromReceiver, currency, transactionTime, value, false, None)
  }

  /** Two records are the two views of one transfer: creator and target swapped, direction
      flag inverted, and the same currency, time and value. */
  predicate Mirrored(a: TransRecord, b: TransRecord) {
    && a.creator == b.target && a.target == b.creator
    && a.fromReceiver == !b.fromReceiver
    && a.currency == b.currency
    && a.transactionTime == b.transactionTime
    && a.value == b.value
  }

  /** The record the target's confirmation creates, already linked to transaction `t`. */
  function MirrorOf(r: TransRecord, t: TransactionId): (m: TransRecord)
    ensures Mirrored(m, r) && Mirrored(r, m)
    ensures m.transaction == Some(t) && StatusOf(m) == Confirmed
  {
    TransRecord(r.target, r.creator, !r.fromReceiver, r.currency, r.transactionTime, r.value, false, Some(t))
  }

  /** The record changes of `confirm_trans_record`: the record is linked to transaction `t`,
      and its mirror, linked to the same transaction, is stored under the new id `mirror`.
      Every other record is left as it was. */
  function ConfirmRecords(records: map<RecordId, TransRecord>, id: RecordId, t: TransactionId,
                          mirror: RecordId): (records': map<RecordId, TransRecord>)
    requires id in records
    ensures records'.Keys == records.Keys + {mirror}
    ensures records'[mirror] == MirrorOf(records[id], t)
    ensures mirror != id ==> records'[id] == records[id].(transaction := Some(t))
    ensures mirror != id ==> Mirrored(records'[id], records'[mirror])
    ensures forall i :: i in records && i != id && i != mirror ==> records'[i] == records[i]
  {
    records[id := records[id].(transaction := Some(t))][mirror := MirrorOf(records[id], t)]
  }

  /** The record change of `reject_trans_record`: the record is marked rejected and keeps its
      transaction link, whatever it was; every other record is left as it was. */
  function RejectRecords(records: map<RecordId, TransRecord>, id: RecordId): (records': map<RecordId, TransRecord>)
    requires id in records
    ensures records'.Keys == records.Keys
    ensures StatusOf(records'[id]) == Rejected && records'[id].transaction == records[id].transaction
    ensures records'[id] == records[id].(rejected := true)
    ensures forall i :: i in records && i != id ==> records'[i] == records[i]
  {
    records[id := records[id].(rejected := true)]
  }

  /** The records waiting for `user` to accept them: targeting the user, not linked to a
      transaction and not rejected. */
  function GetPendingTransForUser(records: map<RecordId, TransRecord>, user: PersonId): (ids: set<RecordId>)
    ensures forall id :: id in ids <==> id in records && records[id].target == user && StatusOf(records[id]) == Pending
  {
    set id | id in records && records[id].target == user && records[id].transaction.None? && !records[id].rejected
  }

  /** The record lookup as written: a record with this id targeting `user` that is not
      rejected; it does not ask whether the record is already confirmed. */
  function GetTransRecordForUser(records: map<RecordId, TransRecord>, id: RecordId, user: PersonId): (r: Option<TransRecord>)
    ensures r.Some? <==> id in records && records[id].target == user && StatusOf(records[id]) != Rejected
    ensures r.Some? ==> r.value == records[id]
  {
    if id in records && records[id].target == user && !records[id].rejected then Some(records[id]) else None
  }

  /** The record lookup the confirm and reject workflow needs: it finds exactly the records
      that are pending for `user`. */
  function GetPendingTransRecordForUser(records: map<RecordId, TransRecord>, id: RecordId, user: PersonId): (r: Option<TransRecord>)
    ensures r.Some? <==> id in GetPendingTransForUser(records, user)
    ensures r.Some? ==> r.value == records[id] && StatusOf(r.value) == Pending && r.value.target == user
  {
    match GetTransRecordForUser(records, id, user)
    case Some(rec) => if rec.transaction.None? then Some(rec) else None
    case None => None
  }

  /** The pending lookup finds a subset of what the lookup as written finds, and they agree
      on every record that is not yet confirmed. */
  lemma PendingLookupRefines(records: map<RecordId, TransRecord>, id: RecordId, user: PersonId)
    ensures GetPendingTransRecordForUser(records, id, user).Some? ==>
      GetTransRecordForUser(records, id, user) == GetPendingTransRecordForUser(records, id, user)
    ensures id in records && StatusOf(records[id]) != Confirmed ==>
      GetTransRecordForUser(records, id, user) == GetPendingTransRecordForUser(records, id, user)
  {
  }

  /** As written, the lookup still finds a record the target has already confirmed (so it can
      be confirmed a second time, or rejected after confirmation); the pending lookup does not. */
  lemma ConfirmedRecordStillFound()
    ensures var r := TransRecord(1, 2, false, 0, 0, 500, false, Some(7));
      && StatusOf(r) == Confirmed
      && GetTransRecordForUser(map[0 := r], 0, 2) == Some(r)
      && GetPendingTransRecordForUser(map[0 := r], 0, 2) == None
  {
  }

  /** Confirmation as the program runs it: the record the target opens is found with the
      lookup as written, and `confirm_trans_record` then changes the records. Nothing changes
      when the lookup finds nothing. */
  function ConfirmAsWritten(records: map<RecordId, TransRecord>, id: RecordId, user: PersonId,
                            t: TransactionId, mirror: RecordId): (r: Option<map<RecordId, TransRecord>>)
    ensures r.Some? <==> GetTransRecordForUser(records, id, user).Some?
    ensures r.Some? && mirror != id ==>
      && r.value.Keys == records.Keys + {mirror}
      && r.value[id].transaction == Some(t) && r.value[mirror].transaction == Some(t)
      && Mirrored(r.value[id], r.value[mirror])
    ensures r.Some? ==> id in records && r.value == ConfirmRecords(records, id, t, mirror)
  {
    match GetTransRecordForUser(records, id, user)
    case Some(_) => Some(ConfirmRecords(records, id, t, mirror))
    case None => None
  }

  /** `reject_trans_record` as written: the record is found with the lookup as written and
      marked rejected, keeping any transaction it is already linked to. */
  function RejectAsWritten(records: map<RecordId, TransRecord>, id: RecordId, user: PersonId): (r: Option<map<RecordId, TransRecord>>)
    ensures r.Some? <==> GetTransRecordForUser(records, id, user).Some?
    ensures r.Some? ==> id in r.value && StatusOf(r.value[id]) == Rejected && r.value[id].transaction == records[id].transaction
    ensures r.Some? ==> forall i :: i in records && i != id ==> i in r.value && r.value[i] == records[i]
    ensures r.Some? ==> r.value.Keys == records.Keys && r.value[id] == records[id].(rejected := true)
    ensures r.Some? ==> id in records && r.value == RejectRecords(records, id)
  {
    match GetTransRecordForUser(records, id, user)
    case Some(_) => Some(RejectRecords(records, id))
    case None => None
  }

  /** As written, the target can confirm the same record twice: the second confirmation links
      it to a second transaction with a second mirror, and the first transaction is left with
      its mirror alone. */
  lemma SecondConfirmRelinks()
    ensures var once := ConfirmAsWritten(map[0 := NewRecord(1, 2, false, 0, 0, 500)], 0, 2, 0, 1);
      && once.Some?
      && var twice := ConfirmAsWritten(once.value, 0, 2, 1, 2);
      && twice.Some?
      && twice.value.Keys == {0, 1, 2}
      && twice.value[0].transaction == Some(1) && twice.value[2].transaction == Some(1)
      && twice.value[1].transaction == Some(0)
      && (forall i :: i in twice.value && twice.value[i].transaction == Some(0) <==> i == 1)
  {
    var once := ConfirmAsWritten(map[0 := NewRecord(1, 2, false, 0, 0, 500)], 0, 2, 0, 1);
    assert StatusOf(once.value[0]) == Confirmed;
    var twice := ConfirmAsWritten(once.value, 0, 2, 1, 2);
    assert twice.value[1] == once.value[1];
  }

  /** As written, the target can reject a record already confirmed: it ends up rejected and
      still linked to its transaction, while its mirror stays confirmed. */
  lemma RejectAfterConfirm()
    ensures var once := ConfirmAsWritten(map[0 := NewRecord(1, 2, false, 0, 0, 500)], 0, 2, 0, 1);
      && once.Some?
      && var rejected := RejectAsWritten(once.value, 0, 2);
      && rejected.Some?
      && StatusOf(rejected.value[0]) == Rejected && rejected.value[0].transaction == Some(0)
      && StatusOf(rejected.value[1]) == Confirmed
  {
    var once := ConfirmAsWritten(map[0 := NewRecord(1, 2, false, 0, 0, 500)], 0, 2, 0, 1);
    assert StatusOf(once.value[0]) == Confirmed;
  }
}
