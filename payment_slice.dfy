/**
 * The payments slice: the net-amount rule, the paid/unpaid toggle of
 * `markPaymentPaid`, the records its thunks assemble and the reducers that
 * keep the payment list.
 */
module PaymentSlice {
  import opened JsValues
  import opened RecordLists

  /** `(Number(actual) || 0) - (Number(advance) || 0)`: an amount that is not a number counts as 0. */
  function NetAmount(actual: Value, advance: Value): (net: real)
    ensures forall a, b :: Number(actual) == Some(a) && Number(advance) == Some(b) ==> net == a - b
    ensures Number(advance).None? ==> net == Or(Number(actual), 0.0)
    ensures Number(actual).None? ==> net == -Or(Number(advance), 0.0)
  {
    Or(Number(actual), 0.0) - Or(Number(advance), 0.0)
  }

  /** `x || d` on a stored value: a falsy value is replaced by the number `d`. */
  function OrValue(v: Value, d: real): (r: Value)
    ensures Truthy(v) ==> r == v
    ensures !Truthy(v) ==> r == Num(d)
  {
    if Truthy(v) then v else Num(d)
  }

  /**
   * The net amount the create and update reducers store:
   * `Number(p.netAmount ?? (Number(p.actualAmount || 0) - Number(p.advance || 0)))`.
   * Here NaN is `None`, and NaN minus anything is NaN.
   */
  function StoredNetAmount(p: Record): (net: Option<real>)
    ensures !IsNullish(Get(p, "netAmount")) ==> net == Number(Get(p, "netAmount"))
    ensures IsNullish(Get(p, "netAmount")) && !Truthy(Get(p, "actualAmount")) && !Truthy(Get(p, "advance")) ==>
              net == Some(0.0)
    ensures forall a, b :: IsNullish(Get(p, "netAmount"))
                           && AmountReads(Get(p, "actualAmount"), a) && AmountReads(Get(p, "advance"), b)
                           ==> net == Some(a - b)
    ensures IsNullish(Get(p, "netAmount")) && (AmountIsNaN(Get(p, "actualAmount")) || AmountIsNaN(Get(p, "advance"))) ==>
              net == None
  {
    var stored := Get(p, "netAmount");
    if !IsNullish(stored) then Number(stored)
    else
      var actual := Number(OrValue(Get(p, "actualAmount"), 0.0));
      var advance := Number(OrValue(Get(p, "advance"), 0.0));
      if actual.Some? && advance.Some? then Some(actual.value - advance.value) else None
  }

  /** `Number(x || 0)` reads as `a`: a truthy amount as its number, a falsy one as 0. */
  predicate AmountReads(x: Value, a: real) {
    if Truthy(x) then Number(x) == Some(a) else a == 0.0
  }

  /** `Number(x || 0)` is NaN: a truthy amount that is not a number, such as "abc". */
  predicate AmountIsNaN(x: Value) {
    Truthy(x) && Number(x).None?
  }

  /** `{ ...p, netAmount: StoredNetAmount(p) }`: the payment as the create and update reducers store it. */
  function WithNetAmount(p: Record): (r: Record)
    ensures r.Keys == p.Keys + {"netAmount"}
    ensures forall k :: k != "netAmount" ==> Get(r, k) == Get(p, k)
    ensures Number(Get(r, "netAmount")) == StoredNetAmount(p)
  {
    p["netAmount" := NumberValue(StoredNetAmount(p))]
  }

  /** Filling the net amount in a second time changes nothing: once stored, it is kept. */
  lemma WithNetAmountIdempotent(p: Record)
    ensures WithNetAmount(WithNetAmount(p)) == WithNetAmount(p)
  {
    var q := WithNetAmount(p);
    assert !IsNullish(Get(q, "netAmount"));
    assert StoredNetAmount(q) == StoredNetAmount(p);
  }

  /** A payment that already carries a numeric net amount is stored as it is. */
  lemma WithNetAmountKeepsNumber(p: Record, net: real)
    requires Get(p, "netAmount") == Num(net)
    ensures WithNetAmount(p) == p
  {
    assert "netAmount" in p;
  }

  // ---------------------------------------------------------------- markPaymentPaid

  /** The status `markPaymentPaid` asks for: 'paid' becomes 'unpaid', anything else 'paid'. */
  function NextStatus(status: Value): (s: string)
    ensures s == "paid" || s == "unpaid"
    ensures s == "unpaid" <==> status == Str("paid")
  {
    if status == Str("paid") then "unpaid" else "paid"
  }

  /** `payments.find(p => p.id === id)?.status`: undefined for a missing payment. */
  function StatusOf(payments: seq<Record>, id: Value): (status: Value)
    ensures (forall p :: p in payments ==> Get(p, "id") != id) ==> status == Undefined
    ensures (exists p :: p in payments && Get(p, "id") == id) ==>
              exists i :: 0 <= i < |payments| && Get(payments[i], "id") == id
                          && (forall j :: 0 <= j < i ==> Get(payments[j], "id") != id)
                          && status == Get(payments[i], "status")
  {
    var i := IndexOfId(payments, id);
    if i < 0 then Undefined else Get(payments[i], "status")
  }

  /** The thunk's result `{ id, status }`. */
  function MarkPaidResult(payments: seq<Record>, id: Value): (r: Record)
    ensures Get(r, "id") == id
    ensures Get(r, "status") == Str(NextStatus(StatusOf(payments, id)))
    ensures IndexOfId(payments, id) < 0 ==> Get(r, "status") == Str("paid")
  {
    map["id" := id, "status" := Str(NextStatus(StatusOf(payments, id)))]
  }

  /** Toggling twice gives back a 'paid' or 'unpaid' status. */
  lemma NextStatusTwice(status: Value)
    requires status == Str("paid") || status == Str("unpaid")
    ensures Str(NextStatus(Str(NextStatus(status)))) == status
  {
  }

  /**
   * The markPaid reducer on the list: the first payment with the id gets the new status and
   * `updatedAt`; every other payment, and every other field, stays as it was.
   */
  function MarkStatus(payments: seq<Record>, id: Value, status: Value, updatedAt: string): (r: seq<Record>)
    ensures |r| == |payments|
    ensures IndexOfId(payments, id) < 0 ==> r == payments
    ensures forall j :: 0 <= j < |payments| && j != IndexOfId(payments, id) ==> r[j] == payments[j]
    ensures var i := IndexOfId(payments, id);
            i >= 0 ==> Get(r[i], "status") == status && Get(r[i], "updatedAt") == Str(updatedAt)
                       && forall k :: k != "status" && k != "updatedAt" ==> Get(r[i], k) == Get(payments[i], k)
  {
    var i := IndexOfId(payments, id);
    if i < 0 then payments
    else payments[i := payments[i]["status" := status]["updatedAt" := Str(updatedAt)]]
  }

  /**
   * Marking the same payment twice, through the thunk and the reducer each time, gives
   * it back the 'paid' or 'unpaid' status it had; no other payment changes.
   */
  lemma MarkPaidTwiceRestores(payments: seq<Record>, id: Value, t1: string, t2: string)
    requires IndexOfId(payments, id) >= 0
    requires StatusOf(payments, id) == Str("paid") || StatusOf(payments, id) == Str("unpaid")
    ensures var once := MarkStatus(payments, id, Get(MarkPaidResult(payments, id), "status"), t1);
            var twice := MarkStatus(once, id, Get(MarkPaidResult(once, id), "status"), t2);
            var i := IndexOfId(payments, id);
            |twice| == |payments| && Get(twice[i], "status") == Get(payments[i], "status")
            && forall j :: 0 <= j < |payments| && j != i ==> twice[j] == payments[j]
  {
    var i := IndexOfId(payments, id);
    var once := MarkStatus(payments, id, Get(MarkPaidResult(payments, id), "status"), t1);
    assert Get(once[i], "id") == id;
    assert IndexOfId(once, id) == i by {
      forall j | 0 <= j < i ensures Get(once[j], "id") != id {
        assert once[j] == payments[j];
      }
    }
    NextStatusTwice(StatusOf(payments, id));
  }

  // ---------------------------------------------------------------- thunks

  /** `createPayment`: `{ id, ...paymentData, createdAt, updatedAt }`, the clock and the id given. */
  function CreatedPayment(newId: string, now: string, paymentData: Record): (p: Record)
    ensures "id" !in paymentData ==> Get(p, "id") == Str(newId)
    ensures Get(p, "createdAt") == Str(now) && Get(p, "updatedAt") == Str(now)
    ensures forall k :: k != "createdAt" && k != "updatedAt" && k in paymentData ==> Get(p, k) == paymentData[k]
  {
    map["id" := Str(newId)] + paymentData + map["createdAt" := Str(now), "updatedAt" := Str(now)]
  }

  /** `updatePayment({ id, ...paymentData })`: `{ id, ...paymentData, updatedAt }`. */
  function UpdatedPayment(now: string, payload: Record): (p: Record)
    ensures Get(p, "id") == Get(payload, "id")
    ensures Get(p, "updatedAt") == Str(now)
    ensures forall k :: k != "updatedAt" && k != "id" ==> Get(p, k) == Get(payload, k)
  {
    map["id" := Get(payload, "id")] + (payload - {"id"}) + map["updatedAt" := Str(now)]
  }

  // ---------------------------------------------------------------- the slice

  class PaymentState {
    var payments: seq<Record>
    var loading: bool
    var error: Value
    var netAmount: real

    /** The initial state: no payments, not loading, no error, net amount 0. */
    constructor ()
      ensures payments == [] && !loading && error == Null && netAmount == 0.0
    {
      payments := [];
      loading := false;
      error := Null;
      netAmount := 0.0;
    }

    method ClearError()
      modifies this
      ensures error == Null
      ensures payments == old(payments) && loading == old(loading) && netAmount == old(netAmount)
    {
      error := Null;
    }

    /** `calculateNetAmount`: only the net amount changes. */
    method CalculateNetAmount(payload: Record)
      modifies this
      ensures netAmount == NetAmount(Get(payload, "actualAmount"), Get(payload, "advance"))
      ensures payments == old(payments) && loading == old(loading) && error == old(error)
    {
      var actual := Or(Number(Get(payload, "actualAmount")), 0.0);
      var advance := Or(Number(Get(payload, "advance")), 0.0);
      netAmount := actual - advance;
    }

    method FetchPending()
      modifies this
      ensures loading && error == Null
      ensures payments == old(payments) && netAmount == old(netAmount)
    {
      loading := true;
      error := Null;
    }

    method FetchFulfilled(fetched: seq<Record>)
      modifies this
      ensures !loading && payments == fetched
      ensures error == old(error) && netAmount == old(netAmount)
    {
      loading := false;
      payments := fetched;
    }

    method FetchRejected(message: Value)
      modifies this
      ensures !loading && error == message
      ensures payments == old(payments) && netAmount == old(netAmount)
    {
      loading := false;
      error := message;
    }

    /** `createPayment.fulfilled`: the payment, net amount filled in, goes to the front. */
    method CreateFulfilled(payment: Record)
      modifies this
      ensures payments == [WithNetAmount(payment)] + old(payments)
      ensures loading == old(loading) && error == old(error) && netAmount == old(netAmount)
    {
      var stored := payment["netAmount" := NumberValue(StoredNetAmount(payment))];
      payments := [stored] + payments;
    }

    /** `updatePayment.fulfilled`: the first payment with the id is replaced, net amount filled in. */
    method UpdateFulfilled(payment: Record)
      modifies this
      ensures payments == ReplaceFirstById(old(payments), WithNetAmount(payment))
      ensures |payments| == |old(payments)|
      ensures loading == old(loading) && error == old(error) && netAmount == old(netAmount)
    {
      var index := IndexOfId(payments, Get(payment, "id"));
      if index != -1 {
        payments := payments[index := WithNetAmount(payment)];
      }
    }

    /** `deletePayment.fulfilled`: every payment with the id goes, the rest keep their order. */
    method DeleteFulfilled(id: Value)
      modifies this
      ensures payments == RemoveById(old(payments), id)
      ensures forall p :: p in payments <==> p in old(payments) && Get(p, "id") != id
      ensures loading == old(loading) && error == old(error) && netAmount == old(netAmount)
    {
      payments := RemoveById(payments, id);
    }

    /** `markPaymentPaid.fulfilled`: status and `updatedAt` of the first payment with the id. */
    method MarkPaidFulfilled(result: Record, now: string)
      modifies this
      ensures payments == MarkStatus(old(payments), Get(result, "id"), Get(result, "status"), now)
      ensures loading == old(loading) && error == old(error) && netAmount == old(netAmount)
    {
      var index := IndexOfId(payments, Get(result, "id"));
      if index != -1 {
        var p := payments[index];
        p := p["status" := Get(result, "status")];
        p := p["updatedAt" := Str(now)];
        payments := payments[index := p];
      }
    }
  }
}
