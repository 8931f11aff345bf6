/**
 * The transfer history of one person: the filter form's values become two lists of
 * (field, value) clauses, one for transaction records and one for resolutions; the
 * `transfer_type` filter picks which of the two kinds are queried; and the rows found are
 * merged newest first.
 *
 * Evaluating a clause against a stored row belongs to the database and is a parameter here
 * (`matches`), as are the rows of the two tables; the day-window filters keep their number
 * of days, since the wall clock they are subtracted from is not modelled.
 */
module TransferHistory {
  import opened Wrappers

  type PersonId = int

  /** A value of the filter form: missing, a piece of text, or a number (an id or a number
      of days). */
  datatype FilterValue = Absent | Text(s: string) | Number(n: int)

  type Filters = map<string, FilterValue>

  /** `filters.get(key)`. */
  function Get(filters: Filters, key: string): FilterValue {
    if key in filters then filters[key] else Absent
  }

  /** Python truthiness of a form value: a missing value, the empty text and zero are false. */
  predicate Truthy(v: FilterValue) {
    match v
    case Absent => false
    case Text(s) => s != ""
    case Number(n) => n != 0
  }

  /** What a clause compares its field with: the form value itself, a flag, or the start of a
      window of the given number of days before now. */
  datatype ClauseValue = Same(v: FilterValue) | Flag(b: bool) | DaysAgo(days: FilterValue)

  type Clause = (string, ClauseValue)

  /** How a form value is turned into a clause value. */
  datatype Coercion = AsIs | IsCharge | AlwaysTrue | IsPending | SinceDaysAgo

  function Coerce(c: Coercion, v: FilterValue): ClauseValue {
    match c
    case AsIs => Same(v)
    case IsCharge => Flag(v == Text("charge"))
    case AlwaysTrue => Flag(true)
    case IsPending => Flag(v == Text("pending"))
    case SinceDaysAgo => DaysAgo(v)
  }

  /** The clause lists for transaction records and for resolutions. */
  datatype Queries = Queries(trans: seq<Clause>, resolution: seq<Clause>)

  /** The `conv` helper: when the filter `key` has a truthy value, appends its coerced value
      under the field `trans` to the transaction list and under `resolution` to the
      resolution list, each when that field is given. */
  function Conv(filters: Filters, key: string, trans: Option<string>, resolution: Option<string>,
                coerce: Coercion, q: Queries): (r: Queries)
    ensures !Truthy(Get(filters, key)) ==> r == q
    ensures q.trans <= r.trans && |r.trans| <= |q.trans| + 1
    ensures q.resolution <= r.resolution && |r.resolution| <= |q.resolution| + 1
    ensures |r.trans| == |q.trans| + 1 <==> Truthy(Get(filters, key)) && trans.Some?
    ensures |r.resolution| == |q.resolution| + 1 <==> Truthy(Get(filters, key)) && resolution.Some?
    ensures Truthy(Get(filters, key)) && trans.Some? ==>
      r.trans == q.trans + [(trans.value, Coerce(coerce, Get(filters, key)))]
    ensures Truthy(Get(filters, key)) && resolution.Some? ==>
      r.resolution == q.resolution + [(resolution.value, Coerce(coerce, Get(filters, key)))]
    ensures (Named(q) && (trans.Some? ==> trans.value in TransFields)
             && (resolution.Some? ==> resolution.value in ResolutionFields)) ==> Named(r)
  {
    Queries(q.trans + Added(filters, key, trans, coerce), q.resolution + Added(filters, key, resolution, coerce))
  }

  /** The clause `conv` appends to one list: none when the filter is falsy or the list has no
      field for it. */
  function Added(filters: Filters, key: string, field: Option<string>, coerce: Coercion): seq<Clause> {
    var v := Get(filters, key);
    if Truthy(v) && field.Some? then [(field.value, Coerce(coerce, v))] else []
  }

  const TransFields: set<string> := {"target_person", "from_receiver", "currency", "rejected",
    "transaction__time_confirmed__isnull", "transaction_time__gt", "transaction__time_confirmed__gt"}

  const ResolutionFields: set<string> := {"resolution__persons", "credited", "resolution__currency",
    "resolution__time_confirmed__isnull", "resolution__time_confirmed__gt"}

  /** Every clause names a field of its own table. */
  predicate Named(q: Queries) {
    && (forall i :: 0 <= i < |q.trans| ==> q.trans[i].0 in TransFields)
    && (forall i :: 0 <= i < |q.resolution| ==> q.resolution[i].0 in ResolutionFields)
  }

  /** The status filter: "rejected" asks for rejected transaction records only; any other
      value asks, on both sides, whether the confirmation time is still unset, which is true
      exactly for "pending". */
  function StatusConv(filters: Filters, q: Queries): (r: Queries)
    ensures Named(q) ==> Named(r)
  {
    if Get(filters, "status") == Text("rejected") then
      Conv(filters, "status", Some("rejected"), None, AlwaysTrue, q)
    else
      Conv(filters, "status", Some("transaction__time_confirmed__isnull"),
           Some("resolution__time_confirmed__isnull"), IsPending, q)
  }

  /** The two clause lists built from the filter form, in the order the filters are read:
      person, transaction type, currency, status, and the two day windows. */
  function FilterLists(filters: Filters): (q: Queries)
    ensures Named(q)
  {
    Windows(filters, StatusConv(filters, Leading(filters)))
  }

  /** The clauses of the person, transaction type and currency filters. */
  function Leading(filters: Filters): (q: Queries)
    ensures Named(q)
  {
    var q0 := Queries([], []);
    var q1 := Conv(filters, "person", Some("target_person"), Some("resolution__persons"), AsIs, q0);
    var q2 := Conv(filters, "transaction_type", Some("from_receiver"), Some("credited"), IsCharge, q1);
    Conv(filters, "currency", Some("currency"), Some("resolution__currency"), AsIs, q2)
  }

  /** Appends the clauses of the two day windows, which both write the resolution's
      confirmation time. */
  function Windows(filters: Filters, q: Queries): (r: Queries)
    ensures Named(q) ==> Named(r)
  {
    var q5 := Conv(filters, "transaction_time", Some("transaction_time__gt"),
                   Some("resolution__time_confirmed__gt"), SinceDaysAgo, q);
    Conv(filters, "confirmed_time", Some("transaction__time_confirmed__gt"),
         Some("resolution__time_confirmed__gt"), SinceDaysAgo, q5)
  }

  /** The windows' clauses depend on the filters only, not on what came before them. */
  lemma WindowsAppend(filters: Filters, q: Queries)
    ensures Windows(filters, q).trans == q.trans + Windows(filters, Queries([], [])).trans
    ensures Windows(filters, q).resolution == q.resolution + Windows(filters, Queries([], [])).resolution
  {
    var a5 := Added(filters, "transaction_time", Some("transaction_time__gt"), SinceDaysAgo);
    var a6 := Added(filters, "confirmed_time", Some("transaction__time_confirmed__gt"), SinceDaysAgo);
    var b5 := Added(filters, "transaction_time", Some("resolution__time_confirmed__gt"), SinceDaysAgo);
    var b6 := Added(filters, "confirmed_time", Some("resolution__time_confirmed__gt"), SinceDaysAgo);
    assert Windows(filters, q).trans == q.trans + a5 + a6;
    assert Windows(filters, q).resolution == q.resolution + b5 + b6;
  }

  /** The filter keys the history reads. */
  const FilterKeys: set<string> := {"person", "transaction_type", "currency", "status",
    "transaction_time", "confirmed_time"}

  /** A filter whose value is falsy adds no clause: the lists are those of the form without it. */
  lemma FalsyFilterAddsNothing(filters: Filters, key: string)
    requires !Truthy(Get(filters, key))
    ensures FilterLists(filters) == FilterLists(filters - {key})
  {
    var smaller := filters - {key};
    assert forall k :: Truthy(Get(smaller, k)) == Truthy(Get(filters, k));
    assert forall k :: Truthy(Get(filters, k)) ==> Get(smaller, k) == Get(filters, k);
    assert (Get(smaller, "status") == Text("rejected")) == (Get(filters, "status") == Text("rejected"));
  }

  /** A key that is not one of the filters the history reads changes nothing. */
  lemma OtherKeysIgnored(filters: Filters, key: string)
    requires key !in FilterKeys
    ensures FilterLists(filters) == FilterLists(filters - {key})
  {
    var smaller := filters - {key};
    assert forall k :: k in FilterKeys ==> Get(smaller, k) == Get(filters, k);
  }

  /** With no filter set, both lists are empty. */
  lemma NoFiltersNoClauses()
    ensures FilterLists(map[]) == Queries([], [])
  {
    assert forall k :: !Truthy(Get(map[], k));
  }

  /** A "rejected" status adds the clause `rejected = true` to the transaction list and nothing
      to the resolution list. */
  lemma RejectedStatusTransactionsOnly(filters: Filters)
    requires Get(filters, "status") == Text("rejected")
    ensures var q, q' := FilterLists(filters), FilterLists(filters - {"status"});
      && q.resolution == q'.resolution
      && multiset(q.trans) == multiset(q'.trans) + multiset{("rejected", Flag(true))}
  {
    var smaller := filters - {"status"};
    StatusOnlyInStatus(filters);
    var s3 := Leading(filters);
    var s4 := StatusConv(filters, s3);
    var rejected := ("rejected", Flag(true));
    assert s4.trans == s3.trans + [rejected] && s4.resolution == s3.resolution;
    var w := Windows(filters, Queries([], []));
    WindowsAppend(filters, s4);
    WindowsAppend(smaller, s3);
    assert FilterLists(filters).trans == s3.trans + [rejected] + w.trans;
    assert FilterLists(smaller).trans == s3.trans + w.trans;
  }

  /** Dropping the status filter leaves the other stages alone and makes the status stage add
      nothing. */
  lemma StatusOnlyInStatus(filters: Filters)
    ensures var smaller := filters - {"status"};
      && Leading(smaller) == Leading(filters)
      && StatusConv(smaller, Leading(filters)) == Leading(filters)
      && Windows(smaller, Queries([], [])) == Windows(filters, Queries([], []))
  {
    var smaller := filters - {"status"};
    assert forall k :: k != "status" ==> Get(smaller, k) == Get(filters, k);
    assert Get(smaller, "status") == Absent;
  }

  /** Any other status adds, on both sides, whether the confirmation time is unset, which is
      true exactly when the status is "pending". */
  lemma OtherStatusBothSides(filters: Filters, status: string)
    requires Get(filters, "status") == Text(status) && status != "" && status != "rejected"
    ensures var q := FilterLists(filters);
      && ("transaction__time_confirmed__isnull", Flag(status == "pending")) in q.trans
      && ("resolution__time_confirmed__isnull", Flag(status == "pending")) in q.resolution
  {
    var s3 := Leading(filters);
    var s4 := StatusConv(filters, s3);
    var c := ("transaction__time_confirmed__isnull", Flag(status == "pending"));
    var d := ("resolution__time_confirmed__isnull", Flag(status == "pending"));
    assert s4.trans == s3.trans + [c] && s4.resolution == s3.resolution + [d];
    WindowsAppend(filters, s4);
    var q := FilterLists(filters);
    assert q.trans[|s3.trans|] == c;
    assert q.resolution[|s3.resolution|] == d;
  }

  // ---------------------------------------------------------------------------
  // dict() of a clause list
  // ---------------------------------------------------------------------------

  /** `dict(clauses)`: every field once, with the value of its last clause. */
  function ToDict(clauses: seq<Clause>): (d: map<string, ClauseValue>)
    ensures forall f :: f in d <==> exists i :: 0 <= i < |clauses| && clauses[i].0 == f
    decreases |clauses|
  {
    if clauses == [] then map[]
    else
      var last := clauses[|clauses| - 1];
      var d0 := ToDict(clauses[..|clauses| - 1]);
      assert forall f :: f in d0 ==> exists i :: 0 <= i < |clauses| && clauses[i].0 == f by {
        forall f | f in d0 ensures exists i :: 0 <= i < |clauses| && clauses[i].0 == f {
          var i :| 0 <= i < |clauses| - 1 && clauses[..|clauses| - 1][i].0 == f;
          assert clauses[i].0 == f;
        }
      }
      d0[last.0 := last.1]
  }

  /** The value a field gets is that of its last clause. */
  lemma {:induction false} ToDictLastWins(clauses: seq<Clause>, i: nat)
    requires i < |clauses|
    requires forall j :: i < j < |clauses| ==> clauses[j].0 != clauses[i].0
    ensures clauses[i].0 in ToDict(clauses) && ToDict(clauses)[clauses[i].0] == clauses[i].1
    decreases |clauses|
  {
    if i < |clauses| - 1 {
      var prefix := clauses[..|clauses| - 1];
      forall j | i < j < |prefix| ensures prefix[j].0 != prefix[i].0 {
        assert prefix[j] == clauses[j];
      }
      ToDictLastWins(prefix, i);
    }
  }

  /** With both day filters set, the resolution side keeps only the confirmation-time window:
      both write the same field and the later one wins. */
  lemma ConfirmedTimeWinsForResolutions(filters: Filters)
    requires Truthy(Get(filters, "transaction_time")) && Truthy(Get(filters, "confirmed_time"))
    ensures var d := ToDict(FilterLists(filters).resolution);
      "resolution__time_confirmed__gt" in d &&
      d["resolution__time_confirmed__gt"] == DaysAgo(Get(filters, "confirmed_time"))
  {
    var r := FilterLists(filters).resolution;
    var last := ("resolution__time_confirmed__gt", DaysAgo(Get(filters, "confirmed_time")));
    assert r[|r| - 1] == last;
    ToDictLastWins(r, |r| - 1);
  }

  // ---------------------------------------------------------------------------
  // Which field each filter sets
  // ---------------------------------------------------------------------------

  /** The clause list sets `field` exactly when the filter value `v` is truthy, and then only
      to `cv`. */
  predicate SetsField(clauses: seq<Clause>, field: string, v: FilterValue, cv: ClauseValue) {
    && (Truthy(v) ==> (field, cv) in clauses)
    && (forall c :: c in clauses && c.0 == field ==> Truthy(v) && c.1 == cv)
  }

  /** No clause of the list sets `field`. */
  predicate Avoids(clauses: seq<Clause>, field: string) {
    forall c :: c in clauses ==> c.0 != field
  }

  /** Once the filter form has set a field, the query `dict()` builds has it exactly when the
      filter is truthy, with the filter's coerced value. */
  lemma SetsFieldDict(clauses: seq<Clause>, field: string, v: FilterValue, cv: ClauseValue)
    requires SetsField(clauses, field, v, cv)
    ensures field in ToDict(clauses) <==> Truthy(v)
    ensures field in ToDict(clauses) ==> ToDict(clauses)[field] == cv
  {
    if Truthy(v) {
      var i :| 0 <= i < |clauses| && clauses[i] == (field, cv);
    }
    if field in ToDict(clauses) {
      ToDictFromClause(clauses, field);
    }
  }

  /** The value `dict()` keeps for a field is that of one of its clauses. */
  lemma {:induction false} ToDictFromClause(clauses: seq<Clause>, field: string)
    requires field in ToDict(clauses)
    ensures (field, ToDict(clauses)[field]) in clauses
    decreases |clauses|
  {
    var prefix := clauses[..|clauses| - 1];
    if clauses[|clauses| - 1].0 != field {
      ToDictFromClause(prefix, field);
      assert (field, ToDict(prefix)[field]) in prefix;
    }
  }

  /** The pieces the two lists are made of: the person, transaction type and currency clauses,
      the status clauses and the window clauses. */
  lemma FilterListsPieces(filters: Filters)
    ensures var e := Queries([], []);
      var q, l, st, w := FilterLists(filters), Leading(filters), StatusConv(filters, e), Windows(filters, e);
      && q.trans == l.trans + st.trans + w.trans
      && q.resolution == l.resolution + st.resolution + w.resolution
      && Avoids(st.trans, "target_person") && Avoids(st.trans, "from_receiver") && Avoids(st.trans, "currency")
      && Avoids(st.trans, "transaction_time__gt") && Avoids(st.trans, "transaction__time_confirmed__gt")
      && Avoids(st.resolution, "resolution__persons") && Avoids(st.resolution, "credited")
      && Avoids(st.resolution, "resolution__currency") && Avoids(st.resolution, "resolution__time_confirmed__gt")
  {
    var e := Queries([], []);
    var l := Leading(filters);
    WindowsAppend(filters, StatusConv(filters, l));
    assert StatusConv(filters, l).trans == l.trans + StatusConv(filters, e).trans;
    assert StatusConv(filters, l).resolution == l.resolution + StatusConv(filters, e).resolution;
  }

  /** A clause `conv` adds sets its own field and no other. */
  lemma AddedSetsField(filters: Filters, key: string, field: string, coerce: Coercion, other: string)
    ensures var v := Get(filters, key);
      SetsField(Added(filters, key, Some(field), coerce), field, v, Coerce(coerce, v))
    ensures other != field ==> Avoids(Added(filters, key, Some(field), coerce), other)
  {
  }

  /** The clauses of the person, transaction type and currency filters, in that order. */
  lemma LeadingPieces(filters: Filters)
    ensures Leading(filters).trans == Added(filters, "person", Some("target_person"), AsIs)
      + Added(filters, "transaction_type", Some("from_receiver"), IsCharge)
      + Added(filters, "currency", Some("currency"), AsIs)
    ensures Leading(filters).resolution == Added(filters, "person", Some("resolution__persons"), AsIs)
      + Added(filters, "transaction_type", Some("credited"), IsCharge)
      + Added(filters, "currency", Some("resolution__currency"), AsIs)
  {
  }

  /** The clauses of the two day windows, in that order. */
  lemma WindowPieces(filters: Filters)
    ensures var w := Windows(filters, Queries([], []));
      && w.trans == Added(filters, "transaction_time", Some("transaction_time__gt"), SinceDaysAgo)
           + Added(filters, "confirmed_time", Some("transaction__time_confirmed__gt"), SinceDaysAgo)
      && w.resolution == Added(filters, "transaction_time", Some("resolution__time_confirmed__gt"), SinceDaysAgo)
           + Added(filters, "confirmed_time", Some("resolution__time_confirmed__gt"), SinceDaysAgo)
  {
  }

  /** A field set by one of the three leading clause groups and by nothing after them is set
      by the whole list. */
  lemma SetsFieldInLeading(a0: seq<Clause>, a1: seq<Clause>, a2: seq<Clause>, st: seq<Clause>, w: seq<Clause>,
                           field: string, v: FilterValue, cv: ClauseValue)
    requires || (SetsField(a0, field, v, cv) && Avoids(a1, field) && Avoids(a2, field))
             || (Avoids(a0, field) && SetsField(a1, field, v, cv) && Avoids(a2, field))
             || (Avoids(a0, field) && Avoids(a1, field) && SetsField(a2, field, v, cv))
    requires Avoids(st, field) && Avoids(w, field)
    ensures SetsField(a0 + a1 + a2 + st + w, field, v, cv)
  {
  }

  /** The person filter sets `target_person` on transaction records and `resolution__persons`
      on resolutions, to the person given. */
  lemma PersonFilterFields(filters: Filters)
    ensures var q, v := FilterLists(filters), Get(filters, "person");
      && SetsField(q.trans, "target_person", v, Same(v))
      && SetsField(q.resolution, "resolution__persons", v, Same(v))
  {
    var v := Get(filters, "person");
    FilterListsPieces(filters);
    LeadingPieces(filters);
    WindowPieces(filters);
    var e := Queries([], []);
    var st, w := StatusConv(filters, e), Windows(filters, e);
    AddedSetsField(filters, "person", "target_person", AsIs, "target_person");
    AddedSetsField(filters, "transaction_type", "from_receiver", IsCharge, "target_person");
    AddedSetsField(filters, "currency", "currency", AsIs, "target_person");
    AddedSetsField(filters, "transaction_time", "transaction_time__gt", SinceDaysAgo, "target_person");
    AddedSetsField(filters, "confirmed_time", "transaction__time_confirmed__gt", SinceDaysAgo, "target_person");
    SetsFieldInLeading(Added(filters, "person", Some("target_person"), AsIs),
                       Added(filters, "transaction_type", Some("from_receiver"), IsCharge),
                       Added(filters, "currency", Some("currency"), AsIs),
                       st.trans, w.trans, "target_person", v, Same(v));
    AddedSetsField(filters, "person", "resolution__persons", AsIs, "resolution__persons");
    AddedSetsField(filters, "transaction_type", "credited", IsCharge, "resolution__persons");
    AddedSetsField(filters, "currency", "resolution__currency", AsIs, "resolution__persons");
    AddedSetsField(filters, "transaction_time", "resolution__time_confirmed__gt", SinceDaysAgo, "resolution__persons");
    AddedSetsField(filters, "confirmed_time", "resolution__time_confirmed__gt", SinceDaysAgo, "resolution__persons");
    SetsFieldInLeading(Added(filters, "person", Some("resolution__persons"), AsIs),
                       Added(filters, "transaction_type", Some("credited"), IsCharge),
                       Added(filters, "currency", Some("resolution__currency"), AsIs),
                       st.resolution, w.resolution, "resolution__persons", v, Same(v));
  }

  /** The transaction type filter sets `from_receiver` on transaction records and `credited`
      on resolutions, to whether it is "charge". */
  lemma TransactionTypeFilterFields(filters: Filters)
    ensures var q, v := FilterLists(filters), Get(filters, "transaction_type");
      && SetsField(q.trans, "from_receiver", v, Flag(v == Text("charge")))
      && SetsField(q.resolution, "credited", v, Flag(v == Text("charge")))
  {
    var v := Get(filters, "transaction_type");
    FilterListsPieces(filters);
    LeadingPieces(filters);
    WindowPieces(filters);
    var e := Queries([], []);
    var st, w := StatusConv(filters, e), Windows(filters, e);
    AddedSetsField(filters, "person", "target_person", AsIs, "from_receiver");
    AddedSetsField(filters, "transaction_type", "from_receiver", IsCharge, "from_receiver");
    AddedSetsField(filters, "currency", "currency", AsIs, "from_receiver");
    AddedSetsField(filters, "transaction_time", "transaction_time__gt", SinceDaysAgo, "from_receiver");
    AddedSetsField(filters, "confirmed_time", "transaction__time_confirmed__gt", SinceDaysAgo, "from_receiver");
    SetsFieldInLeading(Added(filters, "person", Some("target_person"), AsIs),
                       Added(filters, "transaction_type", Some("from_receiver"), IsCharge),
                       Added(filters, "currency", Some("currency"), AsIs),
                       st.trans, w.trans, "from_receiver", v, Flag(v == Text("charge")));
    AddedSetsField(filters, "person", "resolution__persons", AsIs, "credited");
    AddedSetsField(filters, "transaction_type", "credited", IsCharge, "credited");
    AddedSetsField(filters, "currency", "resolution__currency", AsIs, "credited");
    AddedSetsField(filters, "transaction_time", "resolution__time_confirmed__gt", SinceDaysAgo, "credited");
    AddedSetsField(filters, "confirmed_time", "resolution__time_confirmed__gt", SinceDaysAgo, "credited");
    SetsFieldInLeading(Added(filters, "person", Some("resolution__persons"), AsIs),
                       Added(filters, "transaction_type", Some("credited"), IsCharge),
                       Added(filters, "currency", Some("resolution__currency"), AsIs),
                       st.resolution, w.resolution, "credited", v, Flag(v == Text("charge")));
  }

  /** The currency filter sets `currency` on transaction records and `resolution__currency`
      on resolutions, to the currency given. */
  lemma CurrencyFilterFields(filters: Filters)
    ensures var q, v := FilterLists(filters), Get(filters, "currency");
      && SetsField(q.trans, "currency", v, Same(v))
      && SetsField(q.resolution, "resolution__currency", v, Same(v))
  {
    var v := Get(filters, "currency");
    FilterListsPieces(filters);
    LeadingPieces(filters);
    WindowPieces(filters);
    var e := Queries([], []);
    var st, w := StatusConv(filters, e), Windows(filters, e);
    AddedSetsField(filters, "person", "target_person", AsIs, "currency");
    AddedSetsField(filters, "transaction_type", "from_receiver", IsCharge, "currency");
    AddedSetsField(filters, "currency", "currency", AsIs, "currency");
    AddedSetsField(filters, "transaction_time", "transaction_time__gt", SinceDaysAgo, "currency");
    AddedSetsField(filters, "confirmed_time", "transaction__time_confirmed__gt", SinceDaysAgo, "currency");
    SetsFieldInLeading(Added(filters, "person", Some("target_person"), AsIs),
                       Added(filters, "transaction_type", Some("from_receiver"), IsCharge),
                       Added(filters, "currency", Some("currency"), AsIs),
                       st.trans, w.trans, "currency", v, Same(v));
    AddedSetsField(filters, "person", "resolution__persons", AsIs, "resolution__currency");
    AddedSetsField(filters, "transaction_type", "credited", IsCharge, "resolution__currency");
    AddedSetsField(filters, "currency", "resolution__currency", AsIs, "resolution__currency");
    AddedSetsField(filters, "transaction_time", "resolution__time_confirmed__gt", SinceDaysAgo, "resolution__currency");
    AddedSetsField(filters, "confirmed_time", "resolution__time_confirmed__gt", SinceDaysAgo, "resolution__currency");
    SetsFieldInLeading(Added(filters, "person", Some("resolution__persons"), AsIs),
                       Added(filters, "transaction_type", Some("credited"), IsCharge),
                       Added(filters, "currency", Some("resolution__currency"), AsIs),
                       st.resolution, w.resolution, "resolution__currency", v, Same(v));
  }

  /** A field set by one of the two window clause groups and by nothing before them is set
      by the whole list. */
  lemma SetsFieldInWindows(l: seq<Clause>, st: seq<Clause>, w0: seq<Clause>, w1: seq<Clause>,
                           field: string, v: FilterValue, cv: ClauseValue)
    requires Avoids(l, field) && Avoids(st, field)
    requires || (SetsField(w0, field, v, cv) && Avoids(w1, field))
             || (Avoids(w0, field) && SetsField(w1, field, v, cv))
    ensures SetsField(l + st + (w0 + w1), field, v, cv)
  {
  }

  /** The day windows: on transaction records, `transaction_time` sets `transaction_time__gt`
      and `confirmed_time` sets `transaction__time_confirmed__gt`, each to its window. On
      resolutions both write `resolution__time_confirmed__gt`: each truthy one adds its window,
      every clause on that field is such a window, and with only one of them set the field is
      set by that one alone. */
  lemma WindowFilterFields(filters: Filters)
    ensures var q, tt, ct := FilterLists(filters), Get(filters, "transaction_time"), Get(filters, "confirmed_time");
      && SetsField(q.trans, "transaction_time__gt", tt, DaysAgo(tt))
      && SetsField(q.trans, "transaction__time_confirmed__gt", ct, DaysAgo(ct))
      && (Truthy(tt) ==> ("resolution__time_confirmed__gt", DaysAgo(tt)) in q.resolution)
      && (Truthy(ct) ==> ("resolution__time_confirmed__gt", DaysAgo(ct)) in q.resolution)
      && (forall c :: c in q.resolution && c.0 == "resolution__time_confirmed__gt" ==>
            (Truthy(tt) && c.1 == DaysAgo(tt)) || (Truthy(ct) && c.1 == DaysAgo(ct)))
      && (!Truthy(ct) ==> SetsField(q.resolution, "resolution__time_confirmed__gt", tt, DaysAgo(tt)))
      && (!Truthy(tt) ==> SetsField(q.resolution, "resolution__time_confirmed__gt", ct, DaysAgo(ct)))
  {
    var tt, ct := Get(filters, "transaction_time"), Get(filters, "confirmed_time");
    FilterListsPieces(filters);
    LeadingPieces(filters);
    WindowPieces(filters);
    var e := Queries([], []);
    var l, st := Leading(filters), StatusConv(filters, e);
    var w0 := Added(filters, "transaction_time", Some("transaction_time__gt"), SinceDaysAgo);
    var w1 := Added(filters, "confirmed_time", Some("transaction__time_confirmed__gt"), SinceDaysAgo);
    var field := "transaction_time__gt";
    AddedSetsField(filters, "person", "target_person", AsIs, field);
    AddedSetsField(filters, "transaction_type", "from_receiver", IsCharge, field);
    AddedSetsField(filters, "currency", "currency", AsIs, field);
    AddedSetsField(filters, "transaction_time", field, SinceDaysAgo, field);
    AddedSetsField(filters, "confirmed_time", "transaction__time_confirmed__gt", SinceDaysAgo, field);
    SetsFieldInWindows(l.trans, st.trans, w0, w1, field, tt, DaysAgo(tt));
    field := "transaction__time_confirmed__gt";
    AddedSetsField(filters, "person", "target_person", AsIs, field);
    AddedSetsField(filters, "transaction_type", "from_receiver", IsCharge, field);
    AddedSetsField(filters, "currency", "currency", AsIs, field);
    AddedSetsField(filters, "transaction_time", "transaction_time__gt", SinceDaysAgo, field);
    AddedSetsField(filters, "confirmed_time", field, SinceDaysAgo, field);
    SetsFieldInWindows(l.trans, st.trans, w0, w1, field, ct, DaysAgo(ct));
    field := "resolution__time_confirmed__gt";
    AddedSetsField(filters, "person", "resolution__persons", AsIs, field);
    AddedSetsField(filters, "transaction_type", "credited", IsCharge, field);
    AddedSetsField(filters, "currency", "resolution__currency", AsIs, field);
    AddedSetsField(filters, "transaction_time", field, SinceDaysAgo, field);
    AddedSetsField(filters, "confirmed_time", field, SinceDaysAgo, field);
    BothWindowsSetField(l.resolution, st.resolution,
                        Added(filters, "transaction_time", Some(field), SinceDaysAgo),
                        Added(filters, "confirmed_time", Some(field), SinceDaysAgo), field, tt, ct);
  }

  /** Two window clause groups that both write `field`, after clauses that do not: each
      truthy window is in the list, and every clause on the field is one of them. */
  lemma BothWindowsSetField(l: seq<Clause>, st: seq<Clause>, w0: seq<Clause>, w1: seq<Clause>,
                            field: string, tt: FilterValue, ct: FilterValue)
    requires Avoids(l, field) && Avoids(st, field)
    requires SetsField(w0, field, tt, DaysAgo(tt)) && SetsField(w1, field, ct, DaysAgo(ct))
    ensures var q := l + st + (w0 + w1);
      && (Truthy(tt) ==> (field, DaysAgo(tt)) in q)
      && (Truthy(ct) ==> (field, DaysAgo(ct)) in q)
      && (forall c :: c in q && c.0 == field ==> (Truthy(tt) && c.1 == DaysAgo(tt)) || (Truthy(ct) && c.1 == DaysAgo(ct)))
      && (!Truthy(ct) ==> SetsField(q, field, tt, DaysAgo(tt)))
      && (!Truthy(tt) ==> SetsField(q, field, ct, DaysAgo(ct)))
  {
  }

  // ---------------------------------------------------------------------------
  // Choosing the kinds and merging the rows
  // ---------------------------------------------------------------------------

  /** A stored transaction record or resolution as the history lists it: the person it belongs
      to, its transaction time, and its id. */
  datatype Row = Row(owner: PersonId, transactionTime: int, id: int)

  datatype Kind = TransactionKind | ResolutionKind

  /** The transfer type selects transaction records when it is unset or "transaction". */
  predicate IncludesTransactions(transferType: FilterValue) {
    !Truthy(transferType) || transferType == Text("transaction")
  }

  /** The transfer type selects resolutions when it is unset or "resolution". */
  predicate IncludesResolutions(transferType: FilterValue) {
    !Truthy(transferType) || transferType == Text("resolution")
  }

  /** An unset transfer type selects both kinds, each of the two names selects only its own
      kind, and any other value selects neither. */
  lemma TransferTypeSelects(transferType: FilterValue)
    ensures !Truthy(transferType) ==> IncludesTransactions(transferType) && IncludesResolutions(transferType)
    ensures transferType == Text("transaction") ==>
      IncludesTransactions(transferType) && !IncludesResolutions(transferType)
    ensures transferType == Text("resolution") ==>
      !IncludesTransactions(transferType) && IncludesResolutions(transferType)
    ensures Truthy(transferType) && transferType != Text("transaction") && transferType != Text("resolution") ==>
      !IncludesTransactions(transferType) && !IncludesResolutions(transferType)
  {
  }

  /** The rows of one table that belong to `user` and satisfy the clauses, in table order. */
  function Select(kind: Kind, user: PersonId, clauses: map<string, ClauseValue>, rows: seq<Row>,
                  matches: (Kind, map<string, ClauseValue>, Row) -> bool): (r: seq<Row>)
    ensures forall x :: x in r <==> x in rows && x.owner == user && matches(kind, clauses, x)
    ensures multiset(r) <= multiset(rows)
    decreases |rows|
  {
    if rows == [] then []
    else
      var rest := Select(kind, user, clauses, rows[1..], matches);
      assert rows == [rows[0]] + rows[1..];
      if rows[0].owner == user && matches(kind, clauses, rows[0]) then [rows[0]] + rest else rest
  }

  /** `itertools.chain.from_iterable`. */
  function Chain(sets: seq<seq<Row>>): (r: seq<Row>)
    ensures |sets| == 0 ==> r == []
    ensures |sets| == 1 ==> r == sets[0]
    ensures |sets| == 2 ==> r == sets[0] + sets[1]
    decreases |sets|
  {
    if sets == [] then [] else sets[0] + Chain(sets[1..])
  }

  /** Newest first: transaction times never increase along the sequence. */
  predicate NewestFirst(s: seq<Row>) {
    forall i, j :: 0 <= i < j < |s| ==> s[i].transactionTime >= s[j].transactionTime
  }

  /** Every row is no newer than `t`. */
  predicate AtMost(s: seq<Row>, t: int) {
    forall k :: 0 <= k < |s| ==> s[k].transactionTime <= t
  }

  /** Places `x` into a newest-first sequence after every row at least as new as it, so that
      rows with equal times keep their order. */
  function Insert(x: Row, s: seq<Row>): (r: seq<Row>)
    ensures multiset(r) == multiset(s) + multiset{x}
    decreases |s|
  {
    if s == [] then [x]
    else if s[0].transactionTime >= x.transactionTime then
      assert s == [s[0]] + s[1..];
      [s[0]] + Insert(x, s[1..])
    else [x] + s
  }

  /** Inserting a row no newer than `t` keeps every row no newer than `t`. */
  lemma {:induction false} InsertAtMost(x: Row, s: seq<Row>, t: int)
    requires AtMost(s, t) && x.transactionTime <= t
    ensures AtMost(Insert(x, s), t)
    decreases |s|
  {
    if s != [] && s[0].transactionTime >= x.transactionTime {
      InsertAtMost(x, s[1..], t);
    }
  }

  /** Inserting into a newest-first sequence keeps it newest first. */
  lemma {:induction false} InsertNewestFirst(x: Row, s: seq<Row>)
    requires NewestFirst(s)
    ensures NewestFirst(Insert(x, s))
    decreases |s|
  {
    if s != [] && s[0].transactionTime >= x.transactionTime {
      InsertNewestFirst(x, s[1..]);
      InsertAtMost(x, s[1..], s[0].transactionTime);
    }
  }

  /** `sorted(rows, key=transaction_time, reverse=True)`: a stable sort, newest first. */
  function SortNewestFirst(rows: seq<Row>): (r: seq<Row>)
    ensures NewestFirst(r)
    ensures multiset(r) == multiset(rows)
    decreases |rows|
  {
    if rows == [] then []
    else
      var init := rows[..|rows| - 1];
      assert rows == init + [rows[|rows| - 1]];
      InsertNewestFirst(rows[|rows| - 1], SortNewestFirst(init));
      Insert(rows[|rows| - 1], SortNewestFirst(init))
  }

  /** The rows the history should list: the selected kinds' matching rows. */
  function Expected(user: PersonId, filters: Filters, transactions: seq<Row>, resolutions: seq<Row>,
                    matches: (Kind, map<string, ClauseValue>, Row) -> bool): seq<Row> {
    var q := FilterLists(filters);
    var tt := Get(filters, "transfer_type");
    (if IncludesTransactions(tt) then Select(TransactionKind, user, ToDict(q.trans), transactions, matches) else []) +
    (if IncludesResolutions(tt) then Select(ResolutionKind, user, ToDict(q.resolution), resolutions, matches) else [])
  }

  /** The history of `user`: builds the clause lists, queries each selected kind, and merges the
      rows newest first. The result holds exactly the expected rows, each as often as found,
      and every row belongs to the user, comes from a selected kind and satisfies that kind's
      clauses. */
  method GetTransferHistory(user: PersonId, filters: Filters, transactions: seq<Row>, resolutions: seq<Row>,
                            matches: (Kind, map<string, ClauseValue>, Row) -> bool) returns (history: seq<Row>)
    ensures NewestFirst(history)
    ensures multiset(history) == multiset(Expected(user, filters, transactions, resolutions, matches))
    ensures forall x :: x in history ==> x.owner == user
    ensures forall x :: x in history ==>
      var tt, q := Get(filters, "transfer_type"), FilterLists(filters);
      || (IncludesTransactions(tt) && x in transactions && matches(TransactionKind, ToDict(q.trans), x))
      || (IncludesResolutions(tt) && x in resolutions && matches(ResolutionKind, ToDict(q.resolution), x))
  {
    var querySets: seq<seq<Row>> := [];
    var q := FilterLists(filters);
    var transferType := Get(filters, "transfer_type");
    if !Truthy(transferType) || transferType == Text("transaction") {
      querySets := querySets + [Select(TransactionKind, user, ToDict(q.trans), transactions, matches)];
    }
    if !Truthy(transferType) || transferType == Text("resolution") {
      querySets := querySets + [Select(ResolutionKind, user, ToDict(q.resolution), resolutions, matches)];
    }
    var merged := Chain(querySets);
    assert merged == Expected(user, filters, transactions, resolutions, matches);
    history := SortNewestFirst(merged);
    assert forall x :: x in history ==> x in merged by {
      assert multiset(history) == multiset(merged);
      forall x | x in history ensures x in merged {
        assert x in multiset(history);
      }
    }
  }
}
