# openLETS core, modelled in Dafny

openLETS is a local exchange trading system. People record transfers of a community
currency between each other. A transfer starts as a *transaction record* created by one
person (the creator) for another (the target). The target then confirms or rejects it.
Confirmation does two things:

- It links the record and a newly created mirrored record to one transaction.
- It updates the *balance* between the two persons in that currency.

A balance stores a non-negative magnitude. Each of its two persons holds a *credited*
flag that says who is owed the magnitude. When a payment overshoots the debt, the
magnitude becomes its absolute value and both flags are inverted.

The model covers these parts:

- **The balance engine** (`balance_engine.dfy`, module `BalanceEngine`). This is the
  arithmetic of `update_balance`. Over any sequence of transfers between two persons, the
  stored magnitude and flags are a running net sum.
- **Transaction records** (`trans_records.dfy`, module `TransRecords`). This covers:
  - the three statuses (pending, confirmed, rejected)
  - the mirrored record that confirmation creates
  - the lookups `get_pending_trans_for_user` and `get_trans_record_for_user`
- **The ledger** (`ledger.dfy`, module `LedgerStore`). A class `Ledger` holds the stored
  tables as maps that its methods update in place:
  - transaction records
  - balances
  - the person–balance rows with their `credited` flags
  - id counters

  Its methods are `update_balance`, `new_balance`, `confirm_trans_record` and
  `reject_trans_record`, plus record creation. Confirmation and rejection follow the
  corrected workflow, which acts on pending records only; the behaviour as written is
  modelled beside it on values (see "Left out" and "Findings"). The methods are proved to
  keep a table invariant:
  - every linked transaction has exactly its two mirrored records
  - every balance has exactly two rows
  - there is at most one balance per pair of persons and currency
  - magnitudes are non-negative

  They are also proved to move each person's net position by exactly the confirmed amount.
- **The transfer history** (`transfer_history.dfy`, module `TransferHistory`). This is the
  filter-building of `get_transfer_history`:
  - how `conv` turns form values into clause lists for the two tables
  - how `dict()` keeps the last clause per field
  - which kinds `transfer_type` selects
  - the merge of the rows, newest first
- **Currency amounts** (`currency_value.dfy`, module `CurrencyValue`). This is the form
  parsing of `CurrencyValueField.clean` and `currency_clean_helper`, plus a corrected
  fixed-point parser with a proved round trip.

`wrappers.dfy` holds `Option` and `Result`.

## Model

| member | source | states |
|---|---|---|
| BalanceEngine.Apply | core/db.py:199-212 | A debtor provider grows the magnitude; otherwise the amount is subtracted, and the flags flip exactly when the result is below zero (zero is not a flip); the magnitude stays non-negative; the receiver's position rises and the provider's falls by the amount in every branch |
| BalanceEngine.StepPosition | core/db.py:199-212 | One `update_balance` moves A's position by exactly the signed amount |
| BalanceEngine.ReplayPosition | core/db.py:190-214 | After any sequence of transfers, A's position is the start position plus what the transfers moved to A |
| BalanceEngine.ReplayNonNegative | core/db.py:205-208 | With non-negative amounts the stored magnitude never becomes negative |
| BalanceEngine.ReplayMagnitude | core/db.py:190-214 | The stored magnitude is the absolute value of the net debt |
| TransRecords.NewRecord | core/migrations/0001_initial.py:96-115 | A newly saved record is pending (not rejected, no transaction) and keeps the given fields |
| TransRecords.MirrorOf | core/db.py:170-177 | The confirmation record swaps creator and target, inverts `from_receiver`, keeps currency, time and value, and is confirmed |
| TransRecords.GetPendingTransForUser | core/db.py:47-53 | Exactly the records targeting the user that are pending |
| TransRecords.GetTransRecordForUser | core/db.py:151-155 | Finds a record iff it has the id, targets the user and is not rejected; confirmed records are still found |
| TransRecords.GetPendingTransRecordForUser | core/db.py:151-155 | Corrected lookup: finds a record iff it is in the user's pending set |
| TransRecords.PendingLookupRefines | core/db.py:151-155 | The corrected lookup agrees with the written one on every record that is not confirmed |
| TransRecords.ConfirmedRecordStillFound | core/db.py:151-155 | A concrete confirmed record that the lookup as written still returns |
| TransRecords.ConfirmRecords | core/db.py:169-183 | The record changes of a confirmation: the record linked to the transaction, its mirror stored under the new id, every other record unchanged |
| TransRecords.RejectRecords | core/db.py:158-163 | The record change of a rejection: the record is the same record with only `rejected` set (creator, target, direction, currency, time, value and transaction link kept); same keys; every other record unchanged |
| TransRecords.ConfirmAsWritten | openletsweb/views.py:263-266 | Confirmation as the view runs it: succeeds iff the lookup as written finds the record, and the records are then exactly `ConfirmRecords` of them (record linked with its other fields kept, `MirrorOf` it under the new id, every other record unchanged) |
| TransRecords.RejectAsWritten | core/db.py:158-163 | Rejection as written: succeeds iff the lookup as written finds the record; the records are then exactly `RejectRecords` of them: same keys, the record with only `rejected` set (its transaction link kept), other records unchanged |
| TransRecords.SecondConfirmRelinks | core/db.py:151-155 | As written, a second confirmation relinks the record to a second transaction with a second mirror; the first transaction keeps only its mirror |
| TransRecords.RejectAfterConfirm | core/db.py:158-163 | As written, a confirmed record can be rejected: it is then rejected and still linked, and its mirror stays confirmed |
| LedgerStore.PendingIsUnlinked | core/db.py:47-53 | Under the invariant, a pending record belongs to no transaction |
| LedgerStore.ProposeKeepsRecords | core/migrations/0001_initial.py:96-115 | Adding a pending record keeps the record invariant |
| LedgerStore.RejectKeepsRecords | core/db.py:158-163 | Marking a pending record rejected keeps the record invariant |
| LedgerStore.ConfirmKeepsRecords | core/db.py:166-186 | Linking a record and its mirror to a fresh transaction keeps the record invariant |
| LedgerStore.FindLink | core/db.py:16-22 | `get_balance`: a found id is a balance in the currency with rows for both persons |
| LedgerStore.FindLinkNone | core/db.py:16-22 | The lookup finds nothing iff no balance links the two persons in the currency |
| LedgerStore.FlipRows | core/db.py:207-209 | Inverting the flags of one balance keeps the set of rows |
| LedgerStore.UniqueLink | core/db.py:16-22 | Under the invariant, at most one balance links two persons in a currency, and it belongs to that pair |
| LedgerStore.PositionVia | core/db.py:16-22 | The net position read through the lookup is the flag-signed magnitude, and it is antisymmetric between the two persons |
| LedgerStore.NewRowsShape | core/db.py:218-230 | Two new rows for a fresh balance keep every balance with exactly its two rows |
| LedgerStore.NewPairUnique | core/db.py:218-230 | A new balance for a pair that has none keeps one balance per pair and currency |
| LedgerStore.NewBalanceKeepsBalances | core/db.py:218-230 | `new_balance` keeps the balance invariant and gives the receiver +amount and the provider −amount |
| LedgerStore.FlipKeepsShape | core/db.py:207-209 | Flipping the flags keeps the row shape |
| LedgerStore.TransferKeepsInvariant | core/db.py:199-214 | Storing the updated magnitude and flags keeps the balance invariant |
| LedgerStore.SetBalanceKeepsInvariant | core/db.py:199-214 | Replacing one magnitude by a non-negative value keeps the balance invariant |
| LedgerStore.SameCurrenciesUnique | core/db.py:199-214 | Changing values but not currencies keeps one balance per pair |
| LedgerStore.TransferKeepsBalances | core/db.py:199-214 | An update keeps the invariant and moves the receiver's position by +amount and the provider's by −amount |
| LedgerStore.Ledger.constructor | core/migrations/0001_initial.py:96-115 | Empty tables satisfy the invariant |
| LedgerStore.Ledger.Propose | core/migrations/0001_initial.py:96-115 | Stores a new pending record under a fresh id, which appears in the target's pending set |
| LedgerStore.Ledger.RejectTransRecord | core/db.py:158-163 | Corrected workflow (the record is looked up with the pending lookup): rejects exactly when the record is pending for the user; afterwards no lookup finds it; nothing else changes |
| LedgerStore.Ledger.FlipCredited | core/db.py:207-209 | The loop inverts the flags of the balance's rows and no others |
| LedgerStore.Ledger.NewBalance | core/db.py:218-230 | New balance of the amount; the provider's row is not credited, the receiver's is; positions −amount and +amount |
| LedgerStore.Ledger.Settle | core/db.py:199-214 | The stored magnitude and flags are `Apply`'s result; positions move by ±amount; the invariant is kept |
| LedgerStore.Ledger.UpdateBalance | core/db.py:190-214 | Updates the existing balance if the lookup finds one, else creates one; either way the pair is linked and positions move by ±amount |
| LedgerStore.Ledger.LinkConfirmed | core/db.py:169-183 | The record half of a confirmation: a fresh transaction, the mirror under a fresh id, exactly these two records linked to it, neither pending; the record invariant is kept |
| LedgerStore.Ledger.ConfirmTransRecord | core/db.py:166-186 | Corrected workflow (a pending record): creates the mirror and links exactly the two records to a fresh transaction; the balance table becomes exactly `update_balance`'s result for the record's value (the found balance settled by `Apply`, or a new one), leaving every other balance as it was; positions move by the record's value |
| LedgerStore.SecondConfirmBreaksRecords | core/db.py:151-155 | As written (lookup then `confirm_trans_record`), a second confirmation succeeds and leaves the first transaction with one record, a state the record invariant excludes |
| LedgerStore.SecondConfirmMovesBalanceTwice | core/db.py:185-212 | As written, the first confirmation finds no balance and creates one (`new_balance`); the second finds that balance and settles the value again (`update_balance`); the receiver is then owed twice the value |
| LedgerStore.RejectAfterConfirmBreaksRecords | core/db.py:158-163 | As written, rejecting a confirmed record succeeds and leaves it rejected and linked, a state the record invariant excludes |
| TransferHistory.Conv | core/db.py:85-95 | A falsy value adds nothing; otherwise exactly the clause (field, coerced value) is appended to each list whose field is given, and nothing to the other |
| TransferHistory.StatusConv | core/db.py:103-111 | The status stage keeps every clause on a field of its own table |
| TransferHistory.FilterLists | core/db.py:98-125 | Every clause names a field of the table it is for; which field and value each filter sets is stated by the five `…FilterFields` lemmas below |
| TransferHistory.PersonFilterFields | core/db.py:99 | The person filter sets `target_person` on transaction records and `resolution__persons` on resolutions, to the person, exactly when it is truthy; nothing else sets these fields |
| TransferHistory.TransactionTypeFilterFields | core/db.py:100 | The transaction type sets `from_receiver` and `credited` to whether it is "charge", exactly when it is truthy |
| TransferHistory.CurrencyFilterFields | core/db.py:101 | The currency filter sets `currency` and `resolution__currency` to the currency, exactly when it is truthy |
| TransferHistory.WindowFilterFields | core/db.py:113-125 | `transaction_time` sets `transaction_time__gt` and `confirmed_time` sets `transaction__time_confirmed__gt` to their windows; on resolutions both write `resolution__time_confirmed__gt`, each truthy one adding its window and nothing else writing it |
| TransferHistory.SetsFieldDict | core/db.py:128-141 | For a field the form sets, the query `dict()` builds has the field exactly when the filter is truthy, with the filter's coerced value |
| TransferHistory.WindowsAppend | core/db.py:113-125 | The day-window clauses are appended independently of the earlier ones |
| TransferHistory.FalsyFilterAddsNothing | core/db.py:87-89 | A filter with a falsy value produces the same lists as the form without it |
| TransferHistory.OtherKeysIgnored | core/db.py:98-125 | Keys other than the six filters change nothing |
| TransferHistory.NoFiltersNoClauses | core/db.py:85-125 | An empty form produces no clauses |
| TransferHistory.RejectedStatusTransactionsOnly | core/db.py:103-104 | Status "rejected" adds exactly the clause `rejected = true` to the transaction list and nothing to the resolution list |
| TransferHistory.StatusOnlyInStatus | core/db.py:98-125 | Only the status stage reads the status filter |
| TransferHistory.OtherStatusBothSides | core/db.py:105-111 | Any other status adds an is-null test on the confirmation time to both lists, true exactly for "pending" |
| TransferHistory.ToDict | core/db.py:131 | `dict()` of the clause list has exactly the fields that occur in it |
| TransferHistory.ToDictLastWins | core/db.py:131 | A field's value is that of its last clause |
| TransferHistory.ConfirmedTimeWinsForResolutions | core/db.py:113-125 | With both day filters set, the resolution query keeps only the confirmation-time window |
| TransferHistory.TransferTypeSelects | core/db.py:128-141 | An unset type selects both kinds, "transaction" or "resolution" selects only that kind, and any other value selects neither |
| TransferHistory.Select | core/db.py:130-131 | The rows of one table that belong to the user and match its clauses |
| TransferHistory.Chain | core/db.py:145 | Concatenation of the selected query sets |
| TransferHistory.Insert | core/db.py:144-148 | Inserting adds exactly one occurrence of the row |
| TransferHistory.InsertAtMost | core/db.py:144-148 | Inserting a row no newer than a bound keeps every row within that bound |
| TransferHistory.InsertNewestFirst | core/db.py:144-148 | Inserting keeps a newest-first sequence newest first |
| TransferHistory.SortNewestFirst | core/db.py:144-148 | The result is newest first and a permutation of the input |
| TransferHistory.GetTransferHistory | core/db.py:77-148 | Newest first; the same rows, as often as expected, from the selected kinds; every row belongs to the user and matches its kind's clauses |
| CurrencyValue.Split | openletsweb/forms/base.py:117 | `str.split(".")`: one more part than dots, no dot in any part, and joining the parts gives back the input |
| CurrencyValue.SplitJoin | openletsweb/forms/base.py:117 | Splitting dot-free parts joined by dots gives back the parts |
| CurrencyValue.Clean | openletsweb/forms/base.py:114-123 | Accepts one or two parts; every rejection is "Unknown number" with the input; more than one dot is rejected |
| CurrencyValue.CleanWellFormed | openletsweb/forms/base.py:114-123 | Accepted iff the input is ASCII digits, optionally followed by a dot and more ASCII digits |
| CurrencyValue.DottedIsAccepted | openletsweb/forms/base.py:117-123 | Two digit strings joined by one dot are read as the pair of integers they denote, leading zeros included ("007.50" gives [7, 50]) |
| CurrencyValue.DigitsAccepted | openletsweb/forms/base.py:117-123 | A digit string is read as the one integer it denotes |
| CurrencyValue.AcceptedParts | openletsweb/forms/base.py:117-123 | Text splitting into one or two digit strings is read as their integers, in order |
| CurrencyValue.CleanRejectsEmptyParts | openletsweb/forms/base.py:120-122 | An empty input, or a leading or trailing dot, is rejected |
| CurrencyValue.CleanShowWhole | openletsweb/forms/base.py:114-123 | The decimal text of a whole number parses to that number |
| CurrencyValue.CleanShowFraction | openletsweb/forms/base.py:114-123 | "w.f" parses to the pair (w, f) |
| CurrencyValue.Show | openletsweb/forms/base.py:138 | `str(int)`: ASCII digits denoting the number, without leading zeros |
| CurrencyValue.DigitsValueAppend | openletsweb/forms/base.py:150 | `int()` of concatenated digits is the shifted sum |
| CurrencyValue.CleanHelper | openletsweb/forms/base.py:131-150 | Fails iff the fraction's `str` is longer than the decimal places; otherwise the whole part scaled by 10^places plus the fraction padded on the right |
| CurrencyValue.PaddedValue | openletsweb/forms/base.py:145-150 | The value of the whole digits followed by the padded fraction |
| CurrencyValue.ZeroFractionNeedsOnePlace | openletsweb/forms/base.py:137-143 | "5.0" is refused for a currency with no decimal places |
| CurrencyValue.LeadingZerosLost | openletsweb/forms/base.py:138 | "1.05" at two places becomes 150 as written; the corrected parser gives 105 |
| CurrencyValue.FixedPoint | openletsweb/forms/base.py:145-150 | Whole digits times 10^places plus the fraction digits scaled to the remaining places |
| CurrencyValue.ParseAmount | openletsweb/forms/base.py:131-150 | Corrected helper: rejects what `clean` rejects; otherwise the fixed-point value, keeping the fraction's leading zeros |
| CurrencyValue.ParseAmountRoundTrip | openletsweb/forms/base.py:131-150 | Rendering any amount at a number of places and parsing it back gives the amount |

## Left out

- Django's ORM, HTTP views, templates and notifications are not modelled. Queries are
  functions over maps and sequences. `transaction.atomic` is not modelled: each method is
  one atomic step, so the races between concurrent confirmations are not represented.
- `core/models.py` is not part of this model. The `provider` and `receiver` of a record
  are parameters of `ConfirmTransRecord`, required to be the record's two persons. The
  `debted` property is taken to be the person whose row is not credited.
- `LedgerStore.Ledger.ConfirmTransRecord` moves the balance by the record's value as it is
  stored. The value is assumed non-negative: the record invariant requires it, because
  `Propose` takes a `nat`. The form rejects signs, but the database column accepts any
  integer.
- `LedgerStore.Ledger.Propose` requires creator ≠ target. This is an assumption about the
  record form, which is not part of this model; neither the view nor the database checks it.
- `LedgerStore.Ledger.ConfirmTransRecord` models the corrected workflow. Its caller finds
  the record with `GetPendingTransRecordForUser`, so the method requires a pending record.
  As written, the view (`openletsweb/views.py:265-266`) confirms whatever the lookup as
  written returns, including an already confirmed record. `TransRecords.SecondConfirmRelinks`,
  `LedgerStore.SecondConfirmBreaksRecords` and `LedgerStore.SecondConfirmMovesBalanceTwice`
  show what that does. The table invariant holds for the corrected workflow only.
- `LedgerStore.Ledger.RejectTransRecord` models the corrected workflow. It finds the record
  with `GetPendingTransRecordForUser` and does nothing for a confirmed record. As written,
  `reject_trans_record` also rejects a confirmed record, leaving it rejected and linked
  (`TransRecords.RejectAsWritten`, `TransRecords.RejectAfterConfirm`,
  `LedgerStore.RejectAfterConfirmBreaksRecords`).
- `LedgerStore.Ledger.LinkConfirmed` is the record half of the corrected confirmation and
  requires a pending record. `confirm_trans_record` (`core/db.py:167-183`) links whatever
  record it is given; its record changes for any record, confirmed ones included, are
  `TransRecords.ConfirmRecords`, which `TransRecords.ConfirmAsWritten` applies.
- Ids are unbounded integers that come from counters. The database's auto-increment and
  integer widths are not modelled.
- `TransferHistory.GetTransferHistory`: the wall clock `now` is left out. The day windows
  carry their number of days (`DaysAgo`). How a clause is evaluated against a stored row is
  a parameter (`matches`), and so are the table contents.
- `TransferHistory.SortNewestFirst`: the sort is stable, like Python's `sorted`, but the
  stability (order of rows with equal times) is not stated in a contract. Only newest-first
  order and permutation are stated.
- The status filter "rejected" adds no clause to the resolution query. Resolutions are
  therefore listed unfiltered by status in that case. The model keeps this behaviour.
- `CurrencyValue.Clean`: `CharField.clean` (required check, whitespace stripping) is not
  modelled. The input is the already-cleaned text. `isdigit` is modelled for ASCII digits
  only; Unicode digits are not considered.
- `CurrencyValue.CleanHelper` takes the currency's `decimal_places` as a natural number. The
  currency itself appears only in the error message, which is modelled by its data.
- `get_balance` raising `ObjectDoesNotExist`, which `update_balance` catches, becomes
  `FindLink` returning `None`. `MultipleObjectsReturned` is not caught by the source and
  cannot happen in the model: under the balance invariant at most one balance links two
  persons in a currency (`LedgerStore.UniqueLink`).

## Findings

| source | as written | input that shows it | evidently intended | confidence | as-written member | corrected member |
|---|---|---|---|---|---|---|
| core/db.py:151-155 | the lookup filters on id, target and `rejected=False` only | a record already linked to a transaction is found again | also require `transaction__isnull=True`, as `get_pending_trans_for_user` does | not executed | TransRecords.ConfirmedRecordStillFound | TransRecords.GetPendingTransRecordForUser |
| openletsweb/views.py:265-266 | confirmation uses the lookup as written | confirming record 0 (500, from 1 to 2) twice: a second transaction and mirror, the first transaction left with one record, the balance moved twice | confirm pending records only | not executed | LedgerStore.SecondConfirmBreaksRecords | LedgerStore.Ledger.ConfirmTransRecord |
| core/db.py:158-163 | rejection uses the lookup as written | rejecting record 0 after it was confirmed: rejected yet still linked, its mirror still confirmed | reject pending records only | not executed | LedgerStore.RejectAfterConfirmBreaksRecords | LedgerStore.Ledger.RejectTransRecord |
| openletsweb/forms/base.py:138 | the fraction is re-rendered with `str(int)`, dropping its leading zeros | "1.05" at two decimal places becomes 150 instead of 105 | keep the fraction's digits as typed | not executed | CurrencyValue.LeadingZerosLost | CurrencyValue.ParseAmountRoundTrip |
