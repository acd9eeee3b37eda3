/**
 * The state of the subcontractor slice and of the hiring slice. The two slices
 * have the same shape and the same reducers; they differ only in the entry
 * type their fetch thunk keeps ("SC" or "HS") and in the calculator their
 * create and update thunks apply before the payload reaches the reducer.
 */
module EntrySlice {
  import opened JsValues
  import opened RecordLists

  /** The fetch thunks: the entries of one type, year and month, in their stored order. */
  function EntriesForPeriod(all: seq<Record>, entryType: string, year: Value, month: Value): (r: seq<Record>)
    ensures |r| <= |all|
    ensures forall e :: e in r <==>
              e in all && Get(e, "type") == Str(entryType) && Get(e, "year") == year && Get(e, "month") == month
  {
    if all == [] then []
    else
      var rest := EntriesForPeriod(all[1..], entryType, year, month);
      var e := all[0];
      if Get(e, "type") == Str(entryType) && Get(e, "year") == year && Get(e, "month") == month
      then [e] + rest else rest
  }

  /** Filtering keeps the stored order: the entries of a concatenation are the concatenation of the entries. */
  lemma {:induction false} EntriesForPeriodAppend(a: seq<Record>, b: seq<Record>, entryType: string, year: Value, month: Value)
    ensures EntriesForPeriod(a + b, entryType, year, month)
            == EntriesForPeriod(a, entryType, year, month) + EntriesForPeriod(b, entryType, year, month)
  {
    if a == [] {
      assert a + b == b;
    } else {
      assert (a + b)[0] == a[0];
      assert (a + b)[1..] == a[1..] + b;
      EntriesForPeriodAppend(a[1..], b, entryType, year, month);
    }
  }

  class EntryState {
    var entries: seq<Record>
    var loading: bool
    var error: Value
    var selectedYear: Value
    var selectedMonth: Value

    /** The initial state: no entries, not loading, no error, period July 2025. */
    constructor ()
      ensures entries == [] && !loading && error == Null
      ensures selectedYear == Num(2025.0) && selectedMonth == Num(7.0)
    {
      entries := [];
      loading := false;
      error := Null;
      selectedYear := Num(2025.0);
      selectedMonth := Num(7.0);
    }

    /** `setSelectedPeriod({ year, month })`. */
    method SetSelectedPeriod(payload: Record)
      modifies this
      ensures selectedYear == Get(payload, "year") && selectedMonth == Get(payload, "month")
      ensures entries == old(entries) && loading == old(loading) && error == old(error)
    {
      selectedYear := Get(payload, "year");
      selectedMonth := Get(payload, "month");
    }

    method ClearError()
      modifies this
      ensures error == Null
      ensures entries == old(entries) && loading == old(loading)
      ensures selectedYear == old(selectedYear) && selectedMonth == old(selectedMonth)
    {
      error := Null;
    }

    method FetchPending()
      modifies this
      ensures loading && error == Null
      ensures entries == old(entries)
      ensures selectedYear == old(selectedYear) && selectedMonth == old(selectedMonth)
    {
      loading := true;
      error := Null;
    }

    method FetchFulfilled(fetched: seq<Record>)
      modifies this
      ensures !loading && entries == fetched
      ensures error == old(error)
      ensures selectedYear == old(selectedYear) && selectedMonth == old(selectedMonth)
    {
      loading := false;
      entries := fetched;
    }

    method FetchRejected(message: Value)
      modifies this
      ensures !loading && error == message
      ensures entries == old(entries)
      ensures selectedYear == old(selectedYear) && selectedMonth == old(selectedMonth)
    {
      loading := false;
      error := message;
    }

    /** `state.entries.unshift(entry)`: exactly one entry more, at the front. */
    method CreateFulfilled(entry: Record)
      modifies this
      ensures entries == [entry] + old(entries)
      ensures loading == old(loading) && error == old(error)
      ensures selectedYear == old(selectedYear) && selectedMonth == old(selectedMonth)
    {
      entries := [entry] + entries;
    }

    /** Replace the first entry whose id is the payload's; an unknown id changes nothing. */
    method UpdateFulfilled(entry: Record)
      modifies this
      ensures entries == ReplaceFirstById(old(entries), entry)
      ensures |entries| == |old(entries)|
      ensures loading == old(loading) && error == old(error)
      ensures selectedYear == old(selectedYear) && selectedMonth == old(selectedMonth)
    {
      var index := IndexOfId(entries, Get(entry, "id"));
      if index != -1 {
        entries := entries[index := entry];
      }
    }

    /** `state.entries = state.entries.filter(e => e.id !== id)`. */
    method DeleteFulfilled(id: Value)
      modifies this
      ensures entries == RemoveById(old(entries), id)
      ensures forall e :: e in entries <==> e in old(entries) && Get(e, "id") != id
      ensures loading == old(loading) && error == old(error)
      ensures selectedYear == old(selectedYear) && selectedMonth == old(selectedMonth)
    {
      entries := RemoveById(entries, id);
    }
  }
}
