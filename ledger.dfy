/**
 * The ledger store and the workflow over it: transaction records, balances and the
 * per-person rows of each balance (its `credited` flags), with the counters that hand
 * out fresh record, balance and transaction ids.
 *
 * A balance's person rows are keyed by (balance, person): rows are only ever created by
 * `NewBalance`, one for each of two distinct persons.
 */
module LedgerStore {
  import opened Wrappers
  import opened TransRecords
  import BalanceEngine

  type BalanceId = int
  type Rows = map<(BalanceId, PersonId), bool>

  /** A stored balance: its currency and its magnitude. */
  datatype Balance = Balance(currency: CurrencyId, value: int)

  /** `pair` is the unordered pair {p, q}. */
  predicate SameParties(pair: (PersonId, PersonId), p: PersonId, q: PersonId) {
    (pair.0 == p && pair.1 == q) || (pair.0 == q && pair.1 == p)
  }

  // ---------------------------------------------------------------------------
  // Records and the transactions that link them
  // ---------------------------------------------------------------------------

  /** A well-formed record in a store whose next transaction id is `nextTransaction`. */
  ghost predicate WellFormedRecord(r: TransRecord, nextTransaction: nat) {
    && r.creator != r.target
    && r.value >= 0
    && !(r.rejected && r.transaction.Some?)
    && (r.transaction.Some? ==> r.transaction.value < nextTransaction)
  }

  /** The two records `pair` are both linked to transaction `t` and mirror each other. */
  ghost predicate LinkedPair(records: map<RecordId, TransRecord>, t: TransactionId, pair: (RecordId, RecordId)) {
    && pair.0 != pair.1
    && pair.0 in records && pair.1 in records
    && records[pair.0].transaction == Some(t) && records[pair.1].transaction == Some(t)
    && Mirrored(records[pair.0], records[pair.1])
  }

  /** Records are well formed with ids below the counter, and every transaction links
      exactly two mirrored records: the pair `linked` names, and no other record. */
  ghost predicate RecordsInvariant(records: map<RecordId, TransRecord>, linked: map<TransactionId, (RecordId, RecordId)>,
                                   nextRecord: nat, nextTransaction: nat) {
    && (forall id :: id in records ==> id < nextRecord && WellFormedRecord(records[id], nextTransaction))
    && (forall t :: t in linked ==> t < nextTransaction && LinkedPair(records, t, linked[t]))
    && (forall id :: id in records && records[id].transaction.Some? ==>
          records[id].transaction.value in linked &&
          (id == linked[records[id].transaction.value].0 || id == linked[records[id].transaction.value].1))
  }

  /** A pending record belongs to no transaction's pair. */
  lemma PendingIsUnlinked(records: map<RecordId, TransRecord>, linked: map<TransactionId, (RecordId, RecordId)>,
                          nextRecord: nat, nextTransaction: nat, id: RecordId, t: TransactionId)
    requires RecordsInvariant(records, linked, nextRecord, nextTransaction)
    requires id in records && records[id].transaction.None? && t in linked
    ensures linked[t].0 != id && linked[t].1 != id
  {
    assert LinkedPair(records, t, linked[t]);
  }

  /** Proposing a record keeps the invariant. */
  lemma ProposeKeepsRecords(records: map<RecordId, TransRecord>, linked: map<TransactionId, (RecordId, RecordId)>,
                            nextRecord: nat, nextTransaction: nat, r: TransRecord)
    requires RecordsInvariant(records, linked, nextRecord, nextTransaction)
    requires StatusOf(r) == Pending && r.creator != r.target && r.value >= 0
    ensures RecordsInvariant(records[nextRecord := r], linked, nextRecord + 1, nextTransaction)
  {
    var records' := records[nextRecord := r];
    forall t | t in linked ensures LinkedPair(records', t, linked[t]) {
      assert LinkedPair(records, t, linked[t]);
    }
  }

  /** Rejecting a pending record keeps the invariant. */
  lemma RejectKeepsRecords(records: map<RecordId, TransRecord>, linked: map<TransactionId, (RecordId, RecordId)>,
                           nextRecord: nat, nextTransaction: nat, id: RecordId)
    requires RecordsInvariant(records, linked, nextRecord, nextTransaction)
    requires id in records && StatusOf(records[id]) == Pending
    ensures RecordsInvariant(records[id := records[id].(rejected := true)], linked, nextRecord, nextTransaction)
  {
    var records' := records[id := records[id].(rejected := true)];
    forall t | t in linked ensures LinkedPair(records', t, linked[t]) {
      PendingIsUnlinked(records, linked, nextRecord, nextTransaction, id, t);
    }
  }

  /** Confirming a pending record, by linking it and its fresh mirror to a fresh
      transaction, keeps the invariant. */
  lemma ConfirmKeepsRecords(records: map<RecordId, TransRecord>, linked: map<TransactionId, (RecordId, RecordId)>,
                            nextRecord: nat, nextTransaction: nat, id: RecordId)
    requires RecordsInvariant(records, linked, nextRecord, nextTransaction)
    requires id in records && StatusOf(records[id]) == Pending
    ensures var t, r := nextTransaction, records[id];
      RecordsInvariant(records[id := r.(transaction := Some(t))][nextRecord := MirrorOf(r, t)],
                       linked[t := (id, nextRecord)], nextRecord + 1, nextTransaction + 1)
  {
    var t, r := nextTransaction, records[id];
    var records' := records[id := r.(transaction := Some(t))][nextRecord := MirrorOf(r, t)];
    var linked' := linked[t := (id, nextRecord)];
    forall t' | t' in linked' ensures t' < nextTransaction + 1 && LinkedPair(records', t', linked'[t']) {
      if t' != t {
        PendingIsUnlinked(records, linked, nextRecord, nextTransaction, id, t');
        assert LinkedPair(records, t', linked[t']);
      }
    }
  }

  /** As written, confirming a record a second time leaves a state no invariant-keeping
      store reaches: the first transaction keeps only one record. */
  lemma SecondConfirmBreaksRecords(linked: map<TransactionId, (RecordId, RecordId)>, nextRecord: nat, nextTransaction: nat)
    ensures var once := ConfirmAsWritten(map[0 := NewRecord(1, 2, false, 0, 0, 500)], 0, 2, 0, 1);
      && once.Some?
      && var twice := ConfirmAsWritten(once.value, 0, 2, 1, 2);
      && twice.Some?
      && !RecordsInvariant(twice.value, linked, nextRecord, nextTransaction)
  {
    SecondConfirmRelinks();
    var once := ConfirmAsWritten(map[0 := NewRecord(1, 2, false, 0, 0, 500)], 0, 2, 0, 1);
    var twice := ConfirmAsWritten(once.value, 0, 2, 1, 2).value;
    // Record 1 carries transaction 0, so the invariant would need a second record for it.
    assert 1 in twice && twice[1].transaction == Some(0);
  }

  /** As written, each of the two confirmations moves the balance. The first finds no
      balance between the two persons and creates one, as `new_balance` does; the second
      finds that balance and settles the same value again, as `update_balance` does. The
      receiver ends up owed twice the record's value. */
  lemma SecondConfirmMovesBalanceTwice(balances: map<BalanceId, Balance>, personBalances: Rows,
                                       parties: map<BalanceId, (PersonId, PersonId)>, nextBalance: nat,
                                       currency: CurrencyId, amount: nat, provider: PersonId, receiver: PersonId)
    requires BalancesInvariant(balances, personBalances, parties, nextBalance) && provider != receiver
    requires FindLink(balances, personBalances, nextBalance, provider, receiver, currency).None?
    ensures var b := nextBalance;
      var balances1, rows1 := balances[b := Balance(currency, amount)], personBalances[(b, provider) := false][(b, receiver) := true];
      && FindLink(balances1, rows1, nextBalance + 1, provider, receiver, currency) == Some(b)
      && var u := BalanceEngine.Apply(amount, IsDebtor(rows1, b, provider), amount);
      var balances2 := balances1[b := Balance(currency, u.value)];
      var rows2 := if u.flipped then FlipRows(rows1, b) else rows1;
      && NetPosition(balances2, rows2, nextBalance + 1, receiver, provider, currency) == 2 * amount
  {
    var b := nextBalance;
    var balances1, rows1 := balances[b := Balance(currency, amount)], personBalances[(b, provider) := false][(b, receiver) := true];
    var parties1 := parties[b := (provider, receiver)];
    NewBalanceKeepsBalances(balances, personBalances, parties, nextBalance, currency, amount, provider, receiver);
    assert Links(balances1, rows1, b, provider, receiver, currency);
    TransferKeepsBalances(balances1, rows1, parties1, nextBalance + 1, b, currency, amount, provider, receiver);
  }

  /** As written, rejecting a confirmed record leaves it rejected and linked, which no
      invariant-keeping store holds. */
  lemma RejectAfterConfirmBreaksRecords(linked: map<TransactionId, (RecordId, RecordId)>, nextRecord: nat, nextTransaction: nat)
    ensures var once := ConfirmAsWritten(map[0 := NewRecord(1, 2, false, 0, 0, 500)], 0, 2, 0, 1);
      && once.Some?
      && var rejected := RejectAsWritten(once.value, 0, 2);
      && rejected.Some?
      && !RecordsInvariant(rejected.value, linked, nextRecord, nextTransaction)
  {
    RejectAfterConfirm();
    var once := ConfirmAsWritten(map[0 := NewRecord(1, 2, false, 0, 0, 500)], 0, 2, 0, 1);
    var rejected := RejectAsWritten(once.value, 0, 2).value;
    assert !WellFormedRecord(rejected[0], nextTransaction);
  }

  // ---------------------------------------------------------------------------
  // Balances and their person rows
  // ---------------------------------------------------------------------------

  /** Balance `b` has a row for each of its two distinct parties, with opposite flags. */
  ghost predicate RowsOf(personBalances: Rows, b: BalanceId, pair: (PersonId, PersonId)) {
    && pair.0 != pair.1
    && (b, pair.0) in personBalances && (b, pair.1) in personBalances
    && personBalances[(b, pair.0)] != personBalances[(b, pair.1)]
  }

  /** Every balance has a non-negative magnitude and exactly two rows with opposite flags,
      and no two balances in one currency are between the same two persons. */
  ghost predicate BalancesInvariant(balances: map<BalanceId, Balance>, personBalances: Rows,
                                    parties: map<BalanceId, (PersonId, PersonId)>, nextBalance: nat) {
    && balances.Keys == parties.Keys
    && Magnitudes(balances, nextBalance)
    && RowsShape(personBalances, parties)
    && OneBalancePerPair(balances, parties)
  }

  /** Balance ids are below the counter and magnitudes are non-negative. */
  ghost predicate Magnitudes(balances: map<BalanceId, Balance>, nextBalance: nat) {
    forall b :: b in balances ==> 0 <= b < nextBalance && balances[b].value >= 0
  }

  /** Each balance has its two rows, and every row belongs to a party of its balance. */
  ghost predicate RowsShape(personBalances: Rows, parties: map<BalanceId, (PersonId, PersonId)>) {
    && (forall b :: b in parties ==> RowsOf(personBalances, b, parties[b]))
    && (forall k :: k in personBalances ==> k.0 in parties && (k.1 == parties[k.0].0 || k.1 == parties[k.0].1))
  }

  /** No two balances in one currency are between the same two persons. */
  ghost predicate OneBalancePerPair(balances: map<BalanceId, Balance>, parties: map<BalanceId, (PersonId, PersonId)>)
    requires balances.Keys == parties.Keys
  {
    forall b1, b2 ::
      (b1 in balances && b2 in balances && balances[b1].currency == balances[b2].currency &&
       SameParties(parties[b1], parties[b2].0, parties[b2].1)) ==> b1 == b2
  }

  /** Balance `b` is in currency `c` and has rows for `p` and `q`: what the lookup of the
      balance between two persons matches. */
  predicate Links(balances: map<BalanceId, Balance>, personBalances: Rows, b: BalanceId, p: PersonId, q: PersonId, c: CurrencyId) {
    b in balances && balances[b].currency == c && (b, p) in personBalances && (b, q) in personBalances
  }

  /** `p` is the debtor of balance `b`: its row is not credited. */
  predicate IsDebtor(personBalances: Rows, b: BalanceId, p: PersonId) {
    (b, p) in personBalances && !personBalances[(b, p)]
  }

  /** The highest balance id below `n` linking `p` and `q` in currency `c`, if any. */
  function FindLink(balances: map<BalanceId, Balance>, personBalances: Rows, n: nat, p: PersonId, q: PersonId, c: CurrencyId): (r: Option<BalanceId>)
    ensures r.Some? ==> 0 <= r.value < n && Links(balances, personBalances, r.value, p, q, c)
  {
    if n == 0 then None
    else if Links(balances, personBalances, n - 1, p, q, c) then Some(n - 1)
    else FindLink(balances, personBalances, n - 1, p, q, c)
  }

  /** The search finds nothing exactly when no balance with an id in [0, n) links the two
      persons. */
  lemma {:induction false} FindLinkNone(balances: map<BalanceId, Balance>, personBalances: Rows, n: nat,
                                        p: PersonId, q: PersonId, c: CurrencyId)
    ensures FindLink(balances, personBalances, n, p, q, c).None? <==>
      forall b :: 0 <= b < n ==> !Links(balances, personBalances, b, p, q, c)
  {
    if n > 0 {
      FindLinkNone(balances, personBalances, n - 1, p, q, c);
    }
  }

  /** What `q` owes `p` in currency `c` (negative when `p` owes `q`), read from a balance
      between them with an id below `n`; 0 without one. */
  ghost function NetPosition(balances: map<BalanceId, Balance>, personBalances: Rows, n: nat, p: PersonId, q: PersonId, c: CurrencyId): int {
    match FindLink(balances, personBalances, n, p, q, c)
    case Some(b) => BalanceEngine.Position(personBalances[(b, p)], balances[b].value)
    case None => 0
  }

  /** Every row of balance `b` with its credited flag inverted; other rows untouched. */
  function FlipRows(personBalances: Rows, b: BalanceId): (r: Rows)
    ensures r.Keys == personBalances.Keys
  {
    map k | k in personBalances :: if k.0 == b then !personBalances[k] else personBalances[k]
  }

  /** A balance with rows for two distinct persons has exactly those two as its parties, and
      it is the only balance between them in its currency. */
  lemma UniqueLink(balances: map<BalanceId, Balance>, personBalances: Rows, parties: map<BalanceId, (PersonId, PersonId)>,
                   nextBalance: nat, b: BalanceId, b': BalanceId, p: PersonId, q: PersonId, c: CurrencyId)
    requires BalancesInvariant(balances, personBalances, parties, nextBalance) && p != q
    requires Links(balances, personBalances, b, p, q, c)
    ensures b in parties && SameParties(parties[b], p, q)
    ensures Links(balances, personBalances, b', p, q, c) ==> b == b'
  {
    assert (b, p) in personBalances && (b, q) in personBalances;
    if Links(balances, personBalances, b', p, q, c) {
      assert (b', p) in personBalances && (b', q) in personBalances;
      assert SameParties(parties[b], parties[b'].0, parties[b'].1);
    }
  }

  /** The net position is read from the unique balance between the two persons, and it is
      the same debt seen from either side. */
  lemma PositionVia(balances: map<BalanceId, Balance>, personBalances: Rows, parties: map<BalanceId, (PersonId, PersonId)>,
                    nextBalance: nat, b: BalanceId, p: PersonId, q: PersonId, c: CurrencyId)
    requires BalancesInvariant(balances, personBalances, parties, nextBalance) && p != q
    requires Links(balances, personBalances, b, p, q, c)
    ensures NetPosition(balances, personBalances, nextBalance, p, q, c) == BalanceEngine.Position(personBalances[(b, p)], balances[b].value)
    ensures NetPosition(balances, personBalances, nextBalance, q, p, c) == BalanceEngine.Position(personBalances[(b, q)], balances[b].value)
    ensures NetPosition(balances, personBalances, nextBalance, q, p, c) == -NetPosition(balances, personBalances, nextBalance, p, q, c)
  {
    UniqueLink(balances, personBalances, parties, nextBalance, b, b, p, q, c);
    assert Links(balances, personBalances, b, q, p, c);
    FindLinkNone(balances, personBalances, nextBalance, p, q, c);
    FindLinkNone(balances, personBalances, nextBalance, q, p, c);
    var found := FindLink(balances, personBalances, nextBalance, p, q, c);
    UniqueLink(balances, personBalances, parties, nextBalance, b, found.value, p, q, c);
    var found' := FindLink(balances, personBalances, nextBalance, q, p, c);
    UniqueLink(balances, personBalances, parties, nextBalance, b, found'.value, q, p, c);
    assert RowsOf(personBalances, b, parties[b]);
  }

  /** Adding the two rows of a new balance keeps the shape of the rows. */
  lemma NewRowsShape(personBalances: Rows, parties: map<BalanceId, (PersonId, PersonId)>,
                     b: BalanceId, provider: PersonId, receiver: PersonId)
    requires RowsShape(personBalances, parties) && b !in parties && provider != receiver
    ensures RowsShape(personBalances[(b, provider) := false][(b, receiver) := true], parties[b := (provider, receiver)])
  {
    var rows', parties' := personBalances[(b, provider) := false][(b, receiver) := true], parties[b := (provider, receiver)];
    forall b1 | b1 in parties' ensures RowsOf(rows', b1, parties'[b1]) {
      if b1 != b {
        assert RowsOf(personBalances, b1, parties[b1]);
      }
    }
  }

  /** A new balance between two persons who have none in its currency keeps one balance
      per pair and currency. */
  lemma NewPairUnique(balances: map<BalanceId, Balance>, personBalances: Rows,
                      parties: map<BalanceId, (PersonId, PersonId)>, nextBalance: nat,
                      currency: CurrencyId, amount: nat, provider: PersonId, receiver: PersonId)
    requires BalancesInvariant(balances, personBalances, parties, nextBalance)
    requires FindLink(balances, personBalances, nextBalance, provider, receiver, currency).None?
    ensures OneBalancePerPair(balances[nextBalance := Balance(currency, amount)], parties[nextBalance := (provider, receiver)])
  {
    FindLinkNone(balances, personBalances, nextBalance, provider, receiver, currency);
    var b := nextBalance;
    var balances', parties' := balances[b := Balance(currency, amount)], parties[b := (provider, receiver)];
    forall b1, b2 | b1 in balances' && b2 in balances' && balances'[b1].currency == balances'[b2].currency &&
        SameParties(parties'[b1], parties'[b2].0, parties'[b2].1)
      ensures b1 == b2
    {
      if b1 != b2 && (b1 == b || b2 == b) {
        var other := if b1 == b then b2 else b1;
        assert RowsOf(personBalances, other, parties[other]);
        assert Links(balances, personBalances, other, provider, receiver, currency);
      }
    }
  }

  /** Creating the balance of two persons who have none in a currency keeps the invariant;
      the receiver is then owed the amount and the provider owes it. */
  lemma NewBalanceKeepsBalances(balances: map<BalanceId, Balance>, personBalances: Rows,
                                parties: map<BalanceId, (PersonId, PersonId)>, nextBalance: nat,
                                currency: CurrencyId, amount: nat, provider: PersonId, receiver: PersonId)
    requires BalancesInvariant(balances, personBalances, parties, nextBalance) && provider != receiver
    requires FindLink(balances, personBalances, nextBalance, provider, receiver, currency).None?
    ensures var b := nextBalance;
      var balances', rows' := balances[b := Balance(currency, amount)], personBalances[(b, provider) := false][(b, receiver) := true];
      && BalancesInvariant(balances', rows', parties[b := (provider, receiver)], nextBalance + 1)
      && NetPosition(balances', rows', nextBalance + 1, receiver, provider, currency) == amount
      && NetPosition(balances', rows', nextBalance + 1, provider, receiver, currency) == -(amount as int)
  {
    var b := nextBalance;
    var balances', rows' := balances[b := Balance(currency, amount)], personBalances[(b, provider) := false][(b, receiver) := true];
    var parties' := parties[b := (provider, receiver)];
    NewRowsShape(personBalances, parties, b, provider, receiver);
    NewPairUnique(balances, personBalances, parties, nextBalance, currency, amount, provider, receiver);
    assert BalancesInvariant(balances', rows', parties', nextBalance + 1);
    assert Links(balances', rows', b, receiver, provider, currency);
    PositionVia(balances', rows', parties', nextBalance + 1, b, receiver, provider, currency);
  }

  /** Inverting the flags of one balance keeps the shape of the rows. */
  lemma FlipKeepsShape(personBalances: Rows, parties: map<BalanceId, (PersonId, PersonId)>, b: BalanceId)
    requires RowsShape(personBalances, parties)
    ensures RowsShape(FlipRows(personBalances, b), parties)
  {
    forall b1 | b1 in parties ensures RowsOf(FlipRows(personBalances, b), b1, parties[b1]) {
      assert RowsOf(personBalances, b1, parties[b1]);
    }
  }

  /** Applying a transfer to the existing balance between provider and receiver keeps the
      invariant. */
  lemma TransferKeepsInvariant(balances: map<BalanceId, Balance>, personBalances: Rows,
                               parties: map<BalanceId, (PersonId, PersonId)>, nextBalance: nat,
                               b: BalanceId, currency: CurrencyId, amount: nat, provider: PersonId, receiver: PersonId)
    requires BalancesInvariant(balances, personBalances, parties, nextBalance)
    requires Links(balances, personBalances, b, provider, receiver, currency)
    ensures var u := BalanceEngine.Apply(balances[b].value, IsDebtor(personBalances, b, provider), amount);
      BalancesInvariant(balances[b := Balance(currency, u.value)],
                        if u.flipped then FlipRows(personBalances, b) else personBalances, parties, nextBalance)
  {
    var u := BalanceEngine.Apply(balances[b].value, IsDebtor(personBalances, b, provider), amount);
    SetBalanceKeepsInvariant(balances, personBalances, parties, nextBalance, b, u.value, u.flipped);
  }

  /** Storing a new non-negative magnitude in an existing balance, and possibly inverting its
      flags, keeps the invariant. */
  lemma SetBalanceKeepsInvariant(balances: map<BalanceId, Balance>, personBalances: Rows,
                                 parties: map<BalanceId, (PersonId, PersonId)>, nextBalance: nat,
                                 b: BalanceId, value: int, flip: bool)
    requires BalancesInvariant(balances, personBalances, parties, nextBalance)
    requires b in balances && value >= 0
    ensures BalancesInvariant(balances[b := Balance(balances[b].currency, value)],
                              if flip then FlipRows(personBalances, b) else personBalances, parties, nextBalance)
  {
    var balances' := balances[b := Balance(balances[b].currency, value)];
    var rows' := if flip then FlipRows(personBalances, b) else personBalances;
    assert RowsShape(rows', parties) by {
      if flip {
        FlipKeepsShape(personBalances, parties, b);
      }
    }
    assert balances'.Keys == parties.Keys;
    assert Magnitudes(balances', nextBalance);
    SameCurrenciesUnique(balances, balances', parties);
  }

  /** Changing magnitudes but no currency keeps one balance per pair and currency. */
  lemma SameCurrenciesUnique(balances: map<BalanceId, Balance>, balances': map<BalanceId, Balance>,
                             parties: map<BalanceId, (PersonId, PersonId)>)
    requires balances.Keys == parties.Keys && balances'.Keys == parties.Keys
    requires OneBalancePerPair(balances, parties)
    requires forall b :: b in balances ==> balances'[b].currency == balances[b].currency
    ensures OneBalancePerPair(balances', parties)
  {
  }

  /** Applying a transfer to the existing balance between provider and receiver moves the
      receiver's net position up and the provider's down by the amount, and keeps the
      invariant. */
  lemma TransferKeepsBalances(balances: map<BalanceId, Balance>, personBalances: Rows,
                              parties: map<BalanceId, (PersonId, PersonId)>, nextBalance: nat,
                              b: BalanceId, currency: CurrencyId, amount: nat, provider: PersonId, receiver: PersonId)
    requires BalancesInvariant(balances, personBalances, parties, nextBalance) && provider != receiver
    requires Links(balances, personBalances, b, provider, receiver, currency)
    ensures var u := BalanceEngine.Apply(balances[b].value, IsDebtor(personBalances, b, provider), amount);
      var balances' := balances[b := Balance(currency, u.value)];
      var rows' := if u.flipped then FlipRows(personBalances, b) else personBalances;
      && BalancesInvariant(balances', rows', parties, nextBalance)
      && NetPosition(balances', rows', nextBalance, receiver, provider, currency) ==
           NetPosition(balances, personBalances, nextBalance, receiver, provider, currency) + amount
      && NetPosition(balances', rows', nextBalance, provider, receiver, currency) ==
           NetPosition(balances, personBalances, nextBalance, provider, receiver, currency) - amount
  {
    var providerIsDebtor := IsDebtor(personBalances, b, provider);
    var u := BalanceEngine.Apply(balances[b].value, providerIsDebtor, amount);
    var balances' := balances[b := Balance(currency, u.value)];
    var rows' := if u.flipped then FlipRows(personBalances, b) else personBalances;
    TransferKeepsInvariant(balances, personBalances, parties, nextBalance, b, currency, amount, provider, receiver);
    UniqueLink(balances, personBalances, parties, nextBalance, b, b, provider, receiver, currency);
    PositionVia(balances, personBalances, parties, nextBalance, b, receiver, provider, currency);
    assert RowsOf(personBalances, b, parties[b]);
    assert personBalances[(b, receiver)] == providerIsDebtor;
    assert rows'[(b, receiver)] == (providerIsDebtor != u.flipped);
    assert Links(balances', rows', b, receiver, provider, currency);
    PositionVia(balances', rows', parties, nextBalance, b, receiver, provider, currency);
  }

  class Ledger {
    var records: map<RecordId, TransRecord>
    var balances: map<BalanceId, Balance>
    var personBalances: Rows
    var nextRecord: nat
    var nextBalance: nat
    var nextTransaction: nat
    /** The two parties of each balance. */
    ghost var parties: map<BalanceId, (PersonId, PersonId)>
    /** The two records of each transaction. */
    ghost var linked: map<TransactionId, (RecordId, RecordId)>

    ghost predicate RecordsValid()
      reads this`records, this`linked, this`nextRecord, this`nextTransaction
    {
      RecordsInvariant(records, linked, nextRecord, nextTransaction)
    }

    ghost predicate BalancesValid()
      reads this`balances, this`personBalances, this`parties, this`nextBalance
    {
      BalancesInvariant(balances, personBalances, parties, nextBalance)
    }

    ghost predicate Valid()
      reads this
    {
      RecordsValid() && BalancesValid()
    }

    /** What `q` owes `p` in currency `c` in the current state. */
    ghost function Position(p: PersonId, q: PersonId, c: CurrencyId): int
      reads this`balances, this`personBalances, this`nextBalance
    {
      NetPosition(balances, personBalances, nextBalance, p, q, c)
    }

    constructor ()
      ensures Valid()
      ensures records == map[] && balances == map[] && personBalances == map[]
    {
      records, balances, personBalances := map[], map[], map[];
      nextRecord, nextBalance, nextTransaction := 0, 0, 0;
      parties, linked := map[], map[];
    }

    /** A creator proposes a transfer to `target`: a new pending record with a fresh id. */
    method Propose(creator: PersonId, target: PersonId, fromReceiver: bool, currency: CurrencyId,
                   transactionTime: int, value: nat) returns (id: RecordId)
      requires Valid() && creator != target
      modifies this`records, this`nextRecord
      ensures Valid()
      ensures id == old(nextRecord) && id !in old(records) && nextRecord == id + 1
      ensures records == old(records)[id := NewRecord(creator, target, fromReceiver, currency, transactionTime, value)]
      ensures id in GetPendingTransForUser(records, target)
    {
      var r := NewRecord(creator, target, fromReceiver, currency, transactionTime, value);
      ProposeKeepsRecords(records, linked, nextRecord, nextTransaction, r);
      id := nextRecord;
      records := records[id := r];
      nextRecord := nextRecord + 1;
    }

    /** The target rejects a record that is pending for them; nothing happens (and `ok` is
        false) when there is no such record. A rejected record stays unlinked and no lookup
        finds it again, so it can never be confirmed. */
    method RejectTransRecord(id: RecordId, user: PersonId) returns (ok: bool)
      requires Valid()
      modifies this`records
      ensures Valid()
      ensures ok <==> old(GetPendingTransRecordForUser(records, id, user)).Some?
      ensures ok ==> records == RejectRecords(old(records), id)
      ensures !ok ==> records == old(records)
      ensures ok ==> StatusOf(records[id]) == Rejected && records[id].transaction.None?
      ensures ok ==> forall u :: GetTransRecordForUser(records, id, u).None?
    {
      var found := GetPendingTransRecordForUser(records, id, user);
      if found.None? {
        return false;
      }
      RejectKeepsRecords(records, linked, nextRecord, nextTransaction, id);
      records := RejectRecords(records, id);
      ok := true;
    }

    /** Inverts the credited flag of every row of balance `b`, one row at a time. */
    method FlipCredited(b: BalanceId)
      modifies this`personBalances
      ensures personBalances == FlipRows(old(personBalances), b)
    {
      var todo := set k | k in personBalances && k.0 == b;
      ghost var original := personBalances;
      while todo != {}
        invariant todo <= original.Keys
        invariant personBalances.Keys == original.Keys
        invariant forall k :: k in original ==>
          personBalances[k] == (if k.0 == b && k !in todo then !original[k] else original[k])
        invariant forall k :: k in todo ==> k.0 == b
        decreases todo
      {
        var k :| k in todo;
        personBalances := personBalances[k := !personBalances[k]];
        todo := todo - {k};
      }
    }

    /** Creates the balance between two persons who have none in `currency`: magnitude
        `amount`, the provider its debtor and the receiver its creditor. */
    method NewBalance(currency: CurrencyId, amount: nat, provider: PersonId, receiver: PersonId) returns (b: BalanceId)
      requires BalancesValid() && provider != receiver
      requires FindLink(balances, personBalances, nextBalance, provider, receiver, currency).None?
      modifies this`balances, this`personBalances, this`nextBalance, this`parties
      ensures BalancesValid()
      ensures b == old(nextBalance) && b !in old(balances) && nextBalance == b + 1
      ensures balances == old(balances)[b := Balance(currency, amount)]
      ensures personBalances == old(personBalances)[(b, provider) := false][(b, receiver) := true]
      ensures IsDebtor(personBalances, b, provider) && !IsDebtor(personBalances, b, receiver)
      ensures Position(receiver, provider, currency) == amount
      ensures Position(provider, receiver, currency) == -(amount as int)
    {
      NewBalanceKeepsBalances(balances, personBalances, parties, nextBalance, currency, amount, provider, receiver);
      b := nextBalance;
      balances := balances[b := Balance(currency, amount)];
      personBalances := personBalances[(b, provider) := false];
      personBalances := personBalances[(b, receiver) := true];
      parties := parties[b := (provider, receiver)];
      nextBalance := nextBalance + 1;
    }

    /** Records a transfer on the existing balance `b` between provider and receiver: the
        debt grows when the provider is the debtor and is paid down when the provider is the
        creditor, inverting both flags when it goes below zero. */
    method Settle(b: BalanceId, currency: CurrencyId, amount: nat, provider: PersonId, receiver: PersonId)
      requires BalancesValid() && provider != receiver
      requires Links(balances, personBalances, b, provider, receiver, currency)
      modifies this`balances, this`personBalances
      ensures BalancesValid()
      ensures var u := BalanceEngine.Apply(old(balances)[b].value, old(IsDebtor(personBalances, b, provider)), amount);
        && balances == old(balances)[b := Balance(currency, u.value)]
        && personBalances == (if u.flipped then FlipRows(old(personBalances), b) else old(personBalances))
      ensures Position(receiver, provider, currency) == old(Position(receiver, provider, currency)) + amount
      ensures Position(provider, receiver, currency) == old(Position(provider, receiver, currency)) - amount
    {
      var providerIsDebtor := IsDebtor(personBalances, b, provider);
      ghost var u := BalanceEngine.Apply(balances[b].value, providerIsDebtor, amount);
      TransferKeepsBalances(balances, personBalances, parties, nextBalance, b, currency, amount, provider, receiver);
      var value: int;
      if providerIsDebtor {
        value := balances[b].value + amount;
      } else {
        value := balances[b].value - amount;
        if value < 0 {
          value := BalanceEngine.Abs(value);
          FlipCredited(b);
        }
      }
      assert value == u.value;
      balances := balances[b := Balance(currency, value)];
    }

    /** Records the transfer of `amount` from `provider` to `receiver` in `currency`: a new
        balance when the two have none in that currency, otherwise a settlement of the one
        they have. Either way the receiver's net position rises by the amount and the
        provider's falls by it. */
    method UpdateBalance(currency: CurrencyId, amount: nat, provider: PersonId, receiver: PersonId) returns (b: BalanceId)
      requires BalancesValid() && provider != receiver
      modifies this`balances, this`personBalances, this`nextBalance, this`parties
      ensures BalancesValid()
      ensures Links(balances, personBalances, b, provider, receiver, currency)
      ensures var found := old(FindLink(balances, personBalances, nextBalance, provider, receiver, currency));
        found.Some? ==> (
          && b == found.value && nextBalance == old(nextBalance)
          && var u := BalanceEngine.Apply(old(balances)[b].value, old(IsDebtor(personBalances, b, provider)), amount);
             && balances == old(balances)[b := Balance(currency, u.value)]
             && personBalances == (if u.flipped then FlipRows(old(personBalances), b) else old(personBalances)))
      ensures var found := old(FindLink(balances, personBalances, nextBalance, provider, receiver, currency));
        found.None? ==> (
          && b == old(nextBalance) && nextBalance == b + 1
          && balances == old(balances)[b := Balance(currency, amount)]
          && personBalances == old(personBalances)[(b, provider) := false][(b, receiver) := true])
      ensures Position(receiver, provider, currency) == old(Position(receiver, provider, currency)) + amount
      ensures Position(provider, receiver, currency) == old(Position(provider, receiver, currency)) - amount
    {
      var found := FindLink(balances, personBalances, nextBalance, provider, receiver, currency);
      if found.Some? {
        b := found.value;
        Settle(b, currency, amount, provider, receiver);
      } else {
        b := NewBalance(currency, amount, provider, receiver);
      }
    }

    /** The record half of a confirmation: a fresh transaction id, the mirrored record under a
        fresh record id, and both records linked to the transaction. */
    method LinkConfirmed(id: RecordId) returns (mirror: RecordId, t: TransactionId)
      requires RecordsValid()
      requires id in records && StatusOf(records[id]) == Pending
      modifies this`records, this`linked, this`nextRecord, this`nextTransaction
      ensures RecordsValid()
      ensures t == old(nextTransaction) && nextTransaction == t + 1
      ensures mirror == old(nextRecord) && mirror !in old(records) && nextRecord == mirror + 1
      ensures records == ConfirmRecords(old(records), id, t, mirror)
      ensures Mirrored(records[id], records[mirror]) && records[id].fromReceiver != records[mirror].fromReceiver
      ensures forall i :: i in records && records[i].transaction == Some(t) <==> i == id || i == mirror
      ensures forall u :: id !in GetPendingTransForUser(records, u) && mirror !in GetPendingTransForUser(records, u)
    {
      ConfirmKeepsRecords(records, linked, nextRecord, nextTransaction, id);
      t := nextTransaction;
      nextTransaction := nextTransaction + 1;
      mirror := nextRecord;
      nextRecord := nextRecord + 1;
      records := ConfirmRecords(records, id, t, mirror);
      linked := linked[t := (id, mirror)];
    }

    /** The target confirms a pending record: a mirrored record is created, both are linked to
        one fresh transaction, and the balance between the record's provider and receiver
        takes the record's value. Afterwards exactly these two records carry the transaction
        and neither is pending for anyone. */
    method ConfirmTransRecord(id: RecordId, provider: PersonId, receiver: PersonId) returns (mirror: RecordId, t: TransactionId)
      requires Valid()
      requires id in records && StatusOf(records[id]) == Pending
      requires SameParties((records[id].creator, records[id].target), provider, receiver)
      modifies this`records, this`linked, this`nextRecord, this`nextTransaction
      modifies this`balances, this`personBalances, this`nextBalance, this`parties
      ensures Valid()
      ensures t == old(nextTransaction) && nextTransaction == t + 1
      ensures mirror == old(nextRecord) && mirror !in old(records) && nextRecord == mirror + 1
      ensures records == ConfirmRecords(old(records), id, t, mirror)
      ensures Mirrored(records[id], records[mirror]) && records[id].fromReceiver != records[mirror].fromReceiver
      ensures forall i :: i in records && records[i].transaction == Some(t) <==> i == id || i == mirror
      ensures forall u :: id !in GetPendingTransForUser(records, u) && mirror !in GetPendingTransForUser(records, u)
      ensures var r := old(records)[id];
        && Position(receiver, provider, r.currency) == old(Position(receiver, provider, r.currency)) + r.value
        && Position(provider, receiver, r.currency) == old(Position(provider, receiver, r.currency)) - r.value
      ensures var r := old(records)[id];
        var found := old(FindLink(balances, personBalances, nextBalance, provider, receiver, r.currency));
        found.Some? ==> (
          && nextBalance == old(nextBalance)
          && var u := BalanceEngine.Apply(old(balances)[found.value].value, old(IsDebtor(personBalances, found.value, provider)), r.value);
             && balances == old(balances)[found.value := Balance(r.currency, u.value)]
             && personBalances == (if u.flipped then FlipRows(old(personBalances), found.value) else old(personBalances)))
      ensures var r := old(records)[id];
        var found := old(FindLink(balances, personBalances, nextBalance, provider, receiver, r.currency));
        found.None? ==> (
          && nextBalance == old(nextBalance) + 1
          && balances == old(balances)[old(nextBalance) := Balance(r.currency, r.value)]
          && personBalances == old(personBalances)[(old(nextBalance), provider) := false][(old(nextBalance), receiver) := true])
    {
      var r := records[id];
      assert r.value >= 0;
      mirror, t := LinkConfirmed(id);
      var _ := UpdateBalance(r.currency, r.value, provider, receiver);
    }
  }
}
