/**
 * The payment modal: the vendor lookup on Enter with its auto-fill of site
 * and requester, the net amount shown while typing, and the checks and
 * payload of submit.
 */
module PaymentModal {
  import opened Strings
  import opened JsValues
  import opened RecordLists
  import opened VendorResolver
  import opened PaymentSlice
  import MonthlyEntryModal

  const SelectVendorMessage: string := "Please select a valid vendor"
  const VendorNotFoundMessage: string := "Vendor not found in Vendor Master"

  // ---------------------------------------------------------------- vendor lookup

  /** The cascade of `handleVendorKeyDown`: map hit, then lowercased field equality; no containment step. */
  function ResolvePayment(vendors: seq<Record>, vendorMap: map<string, Record>, typed: string): (r: Lookup)
    ensures r.Blank? <==> Trim(typed) == ""
  {
    var raw := Trim(typed);
    if raw == "" then Blank
    else
      var key := Upper(raw);
      if key in vendorMap then Found(vendorMap[key])
      else
        match FindFirst(vendors, LowerFieldTest(Lower(raw)))
        case Some(v) => Found(v)
        case None => NotFound
  }

  /**
   * With the map built from the vendor list, the lookup finds exactly the last vendor
   * owning the typed key, and nothing when no vendor owns it: the fallback never fires.
   */
  lemma ResolvePaymentSpec(vendors: seq<Record>, typed: string)
    ensures var raw, r := Trim(typed), ResolvePayment(vendors, VendorKeyMap(vendors), typed);
            var last := LastIndexWhere(vendors, OwnerTest(Upper(raw)));
            && (raw != "" && last >= 0 ==> r == Found(vendors[last]))
            && (raw != "" && last < 0 ==> r == NotFound)
  {
    var raw := Trim(typed);
    if raw != "" {
      VendorKeyMapLastOwner(vendors, Upper(raw));
      if Upper(raw) !in VendorKeyMap(vendors) {
        LowerFallbackUnreachable(vendors, raw);
      }
    }
  }

  /**
   * Whatever the payment modal finds, the monthly-entry modal finds too; the monthly
   * modal differs only where the payment modal finds nothing.
   */
  lemma ModalsAgreeOnFound(vendors: seq<Record>, typed: string)
    requires ResolvePayment(vendors, VendorKeyMap(vendors), typed).Found?
    ensures MonthlyEntryModal.ResolveMonthly(vendors, VendorKeyMap(vendors), typed)
            == ResolvePayment(vendors, VendorKeyMap(vendors), typed)
  {
    ResolvePaymentSpec(vendors, typed);
    MonthlyEntryModal.ResolveMonthlySpec(vendors, typed);
  }

  /** For a new payment, the vendor's site and contact person fill `site` and `reqBy` when truthy. */
  function AutoFill(f: Record, v: Record): (r: Record)
    ensures Truthy(Get(v, "site")) ==> Get(r, "site") == Get(v, "site")
    ensures !Truthy(Get(v, "site")) ==> Get(r, "site") == Get(f, "site")
    ensures Truthy(Get(v, "contact_person")) ==> Get(r, "reqBy") == Get(v, "contact_person")
    ensures !Truthy(Get(v, "contact_person")) ==> Get(r, "reqBy") == Get(f, "reqBy")
    ensures forall k :: k != "site" && k != "reqBy" ==> Get(r, k) == Get(f, k)
  {
    var withSite := if Truthy(Get(v, "site")) then f["site" := Get(v, "site")] else f;
    if Truthy(Get(v, "contact_person")) then withSite["reqBy" := Get(v, "contact_person")] else withSite
  }

  // ---------------------------------------------------------------- amounts

  /** `Number(advance) > Number(actualAmount)`, false whenever either side is NaN. */
  predicate AdvanceExceedsActual(f: Record) {
    var advance, actual := Number(Get(f, "advance")), Number(Get(f, "actualAmount"));
    advance.Some? && actual.Some? && advance.value > actual.value
  }

  /**
   * While both amounts come from the number inputs, the net amount shown goes negative
   * exactly when submit asks to confirm the advance.
   */
  lemma NegativeNetIffConfirm(f: Record)
    requires NumericField(Get(f, "actualAmount")) && NumericField(Get(f, "advance"))
    ensures NetAmount(Get(f, "actualAmount"), Get(f, "advance")) < 0.0 <==> AdvanceExceedsActual(f)
  {
    NumericFieldNumber(Get(f, "actualAmount"));
    NumericFieldNumber(Get(f, "advance"));
  }

  /** 20000 − 5000 = 15000; 20000 − 25000 = −5000, which shows the warning. */
  lemma NetAmountExamples(f: Record, g: Record)
    requires Get(f, "actualAmount") == Num(20000.0) && Get(f, "advance") == Num(5000.0)
    requires Get(g, "actualAmount") == Num(20000.0) && Get(g, "advance") == Num(25000.0)
    ensures NetAmount(Get(f, "actualAmount"), Get(f, "advance")) == 15000.0 && !AdvanceExceedsActual(f)
    ensures NetAmount(Get(g, "actualAmount"), Get(g, "advance")) == -5000.0 && AdvanceExceedsActual(g)
  {
    NegativeNetIffConfirm(f);
    NegativeNetIffConfirm(g);
  }

  // ---------------------------------------------------------------- submit

  datatype PaymentSubmit = NoVendor | NoActual | NoNarration | Cancelled | Save(payload: Record)

  /** The payload: the form, then vendor id and code, the amounts as numbers, the net amount and a status. */
  function PaymentPayload(f: Record, v: Record): (p: Record)
    ensures Get(p, "vendorId") == Get(v, "id")
    ensures Truthy(Get(v, "vendor_code")) ==> Get(p, "vendorCode") == Get(v, "vendor_code")
    ensures !Truthy(Get(v, "vendor_code")) ==> Get(p, "vendorCode") == Get(f, "vendorCode")
    ensures Number(Get(p, "actualAmount")) == Number(Get(f, "actualAmount"))
    ensures Get(p, "advance") == Num(Or(Number(Get(f, "advance")), 0.0))
    ensures Get(p, "netAmount") == Num(NetAmount(Get(f, "actualAmount"), Get(f, "advance")))
    ensures Truthy(Get(f, "status")) ==> Get(p, "status") == Get(f, "status")
    ensures !Truthy(Get(f, "status")) ==> Get(p, "status") == Str("unpaid")
    ensures forall k :: k in f && k !in PayloadKeys ==> Get(p, k) == f[k]
  {
    var code := Get(v, "vendor_code");
    var status := Get(f, "status");
    f["vendorId" := Get(v, "id")]
     ["vendorCode" := if Truthy(code) then code else Get(f, "vendorCode")]
     ["actualAmount" := NumberValue(Number(Get(f, "actualAmount")))]
     ["advance" := Num(Or(Number(Get(f, "advance")), 0.0))]
     ["status" := if Truthy(status) then status else Str("unpaid")]
     ["netAmount" := Num(NetAmount(Get(f, "actualAmount"), Get(f, "advance")))]
  }

  /** The keys the payload sets over the form. */
  const PayloadKeys: set<string> := {"vendorId", "vendorCode", "actualAmount", "advance", "netAmount", "status"}

  /** `handleSubmit`: the checks in source order; `confirmed` is the answer to the advance warning. */
  function SubmitPayment(f: Record, selected: Option<Record>, confirmed: bool): PaymentSubmit {
    if selected.None? then NoVendor
    else if Get(f, "actualAmount") == Str("") || IsNullish(Get(f, "actualAmount")) then NoActual
    else if !Truthy(Get(f, "narration")) then NoNarration
    else if AdvanceExceedsActual(f) && !confirmed then Cancelled
    else Save(PaymentPayload(f, selected.value))
  }

  /** The checks come in source order: vendor, actual amount, narration, then the advance warning. */
  lemma SubmitPaymentOrder(f: Record, selected: Option<Record>, confirmed: bool)
    ensures var s := SubmitPayment(f, selected, confirmed);
            var noActual := Get(f, "actualAmount") == Str("") || IsNullish(Get(f, "actualAmount"));
            var noNarration := !Truthy(Get(f, "narration"));
            && (s == NoVendor <==> selected.None?)
            && (s == NoActual <==> selected.Some? && noActual)
            && (s == NoNarration <==> selected.Some? && !noActual && noNarration)
            && (s == Cancelled <==> selected.Some? && !noActual && !noNarration && AdvanceExceedsActual(f) && !confirmed)
            && (s.Save? ==> !AdvanceExceedsActual(f) || confirmed)
  {
  }

  /**
   * A saved payload reaches the slice with its net amount intact: the reducers' fill-in
   * keeps it, so the stored net amount is the one the modal showed.
   */
  lemma SavedPaymentKeepsNetAmount(f: Record, selected: Option<Record>, confirmed: bool)
    requires SubmitPayment(f, selected, confirmed).Save?
    ensures var p := SubmitPayment(f, selected, confirmed).payload;
            WithNetAmount(p) == p
            && StoredNetAmount(p) == Some(NetAmount(Get(f, "actualAmount"), Get(f, "advance")))
  {
    var p := SubmitPayment(f, selected, confirmed).payload;
    WithNetAmountKeepsNumber(p, NetAmount(Get(f, "actualAmount"), Get(f, "advance")));
  }

  // ---------------------------------------------------------------- the form

  /** The form's defaults, which the initial data overrides. */
  function PaymentDefaults(today: string): Record {
    map["vendorCode" := Str(""), "date" := Str(today), "actualAmount" := Str(""), "advance" := Str(""),
        "netAmount" := Str(""), "ifsc" := Str(""), "accountNo" := Str(""), "narration" := Str(""),
        "site" := Str(""), "reqBy" := Str(""), "status" := Str("unpaid")]
  }

  class PaymentForm {
    const vendors: seq<Record>
    const vendorMap: map<string, Record>
    /** `initialData.id`: truthy when an existing payment is being edited. */
    const editingId: Value
    var formData: Record
    var selectedVendor: Option<Record>
    var vendorLookupError: string

    /**
     * Opening the modal: the defaults under the initial data, and, when the initial data
     * names a vendor code, the vendor the map holds for it or the not-found message.
     */
    constructor (vendors: seq<Record>, initialData: Record, today: string)
      ensures this.vendors == vendors && vendorMap == VendorKeyMap(vendors)
      ensures editingId == Get(initialData, "id")
      ensures formData == PaymentDefaults(today) + initialData
      ensures Text(initialData, "vendorCode") == "" ==> selectedVendor == None && vendorLookupError == ""
      ensures var key := Upper(Text(initialData, "vendorCode"));
              Text(initialData, "vendorCode") != "" && key in vendorMap ==>
                selectedVendor == Some(vendorMap[key]) && vendorLookupError == ""
      ensures var key := Upper(Text(initialData, "vendorCode"));
              Text(initialData, "vendorCode") != "" && key !in vendorMap ==>
                selectedVendor == None && vendorLookupError == VendorNotFoundMessage
    {
      this.vendors := vendors;
      var m := BuildVendorMap(vendors);
      vendorMap := m;
      editingId := Get(initialData, "id");
      formData := PaymentDefaults(today) + initialData;
      var code := Text(initialData, "vendorCode");
      if code == "" {
        selectedVendor := None;
        vendorLookupError := "";
      } else if Upper(code) in m {
        selectedVendor := Some(m[Upper(code)]);
        vendorLookupError := "";
      } else {
        selectedVendor := None;
        vendorLookupError := VendorNotFoundMessage;
      }
    }

    /** What Enter in the vendor field would find for the code typed now. */
    function LookupNow(): Lookup
      reads this
    {
      ResolvePayment(vendors, vendorMap, Text(formData, "vendorCode"))
    }

    /** `calculatedNetAmount` for the amounts typed now. */
    function CalculatedNetAmount(): real
      reads this
    {
      NetAmount(Get(formData, "actualAmount"), Get(formData, "advance"))
    }

    /**
     * Enter in the vendor field. A blank code changes nothing. A vendor found is selected
     * and, for a new payment, fills site and requester. No vendor found clears the
     * selection and reports it.
     */
    method HandleVendorKeyDown()
      modifies this
      ensures old(LookupNow()).Blank? ==>
                formData == old(formData) && selectedVendor == old(selectedVendor)
                && vendorLookupError == old(vendorLookupError)
      ensures old(LookupNow()).Found? ==>
                selectedVendor == Some(old(LookupNow()).vendor) && vendorLookupError == ""
      ensures old(LookupNow()).Found? && !Truthy(editingId) ==>
                formData == AutoFill(old(formData), old(LookupNow()).vendor)
      ensures old(LookupNow()).Found? && Truthy(editingId) ==> formData == old(formData)
      ensures old(LookupNow()).NotFound? ==>
                selectedVendor == None && vendorLookupError == VendorNotFoundMessage
                && formData == old(formData)
    {
      var r := LookupNow();
      ApplyLookup(r);
    }

    /** The state changes after a lookup with result `r`. */
    method ApplyLookup(r: Lookup)
      modifies this
      ensures r.Blank? ==>
                formData == old(formData) && selectedVendor == old(selectedVendor)
                && vendorLookupError == old(vendorLookupError)
      ensures r.Found? ==> selectedVendor == Some(r.vendor) && vendorLookupError == ""
      ensures r.Found? && !Truthy(editingId) ==> formData == AutoFill(old(formData), r.vendor)
      ensures r.Found? && Truthy(editingId) ==> formData == old(formData)
      ensures r.NotFound? ==>
                selectedVendor == None && vendorLookupError == VendorNotFoundMessage
                && formData == old(formData)
    {
      if r.Found? {
        var v := r.vendor;
        selectedVendor := Some(v);
        vendorLookupError := "";
        if !Truthy(editingId) {
          if Truthy(Get(v, "site")) {
            formData := formData["site" := Get(v, "site")];
          }
          if Truthy(Get(v, "contact_person")) {
            formData := formData["reqBy" := Get(v, "contact_person")];
          }
        }
      } else if r.NotFound? {
        selectedVendor := None;
        vendorLookupError := VendorNotFoundMessage;
      }
    }

    /** `handleNumberChange(field)`: the typed text stored as a number, or kept as the empty string. */
    method HandleNumberChange(field: string, raw: string)
      modifies this
      ensures formData == old(formData)[field := NumberInput(raw)]
      ensures NumericField(Get(formData, field))
      ensures selectedVendor == old(selectedVendor) && vendorLookupError == old(vendorLookupError)
    {
      var value := if raw == "" then Str("") else Num(Or(StringToNumber(raw), 0.0));
      formData := formData[field := value];
    }

    /** Submit: a missing vendor is reported in the lookup error; the other checks only alert. */
    method HandleSubmit(confirmed: bool) returns (outcome: PaymentSubmit)
      modifies this
      ensures outcome == SubmitPayment(old(formData), old(selectedVendor), confirmed)
      ensures outcome.Save? ==> Get(outcome.payload, "netAmount") == Num(old(CalculatedNetAmount()))
      ensures outcome == NoVendor ==> vendorLookupError == SelectVendorMessage
      ensures outcome != NoVendor ==> vendorLookupError == old(vendorLookupError)
      ensures formData == old(formData) && selectedVendor == old(selectedVendor)
    {
      outcome := SubmitPayment(formData, selectedVendor, confirmed);
      if outcome == NoVendor {
        vendorLookupError := SelectVendorMessage;
      }
    }
  }
}
