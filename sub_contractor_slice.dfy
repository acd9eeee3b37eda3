/**
 * The subcontractor (SC) regime of the entry-totals calculator and the
 * record assembly of the create and update thunks of the subcontractor slice.
 *
 * Every derived amount is rounded to two decimals; GST and TDS rates may be
 * typed as a percent (`5`) or as a fraction (`0.05`); retention is always 5%
 * of gross; an empty GST hold defaults to the computed GST.
 */
module SubContractorSlice {
  import opened JsValues

  /** `normalizeRate`: a rate of 1 or more is a percent, a smaller one is already a fraction; NaN and 0 give 0. */
  function NormalizeRate(rate: Value): real {
    match Number(rate)
    case None => 0.0
    case Some(x) => if x == 0.0 then 0.0 else if x >= 1.0 then x / 100.0 else x
  }

  /**
   * The two ways of typing a rate agree: `r` percent and the fraction `r / 100`
   * normalise to the same rate, for every percent from 1 up to (not including) 100.
   */
  lemma NormalizeRateForms(r: real)
    requires 1.0 <= r < 100.0
    ensures NormalizeRate(Num(r)) == NormalizeRate(Num(r / 100.0)) == r / 100.0
  {
  }

  /** Missing, empty, blank, zero and unparseable rates all normalise to 0; a percent of 100 or less becomes a fraction in [0, 1]. */
  lemma NormalizeRateRange(rate: Value)
    ensures (Number(rate) == None || Number(rate) == Some(0.0)) ==> NormalizeRate(rate) == 0.0
    ensures Number(rate).Some? && 0.0 <= Number(rate).value <= 100.0 ==> 0.0 <= NormalizeRate(rate) <= 1.0
    ensures rate == Str("") || rate == Null || rate == Undefined ==> NormalizeRate(rate) == 0.0
  {
  }

  /** The derived fields returned by `calculateEntryTotals`. */
  datatype Totals = Totals(
    gst_amount: real,
    total_amount: real,
    tds: real,
    retention: real,
    gst_hold: real,
    net_total: real,
    payables: real)

  /**
   * The calculator's numeric inputs, read from the entry with `parseFloat(x) || 0`, together
   * with the unrounded GST and TDS (`gross * gstRate`, `gross * tdsRate`, the rates normalised).
   */
  datatype EntryInputs = EntryInputs(
    gross: real, exactGst: real, exactTds: real, debit: real, others: real, advances: real, partPaid: real)

  /**
   * The GST hold typed by the user: `None` when the field is empty, undefined or null
   * (hold the computed GST), otherwise `Some(parseFloat(gst_hold) || 0)`.
   */
  function TypedHold(hold: Value): Option<real> {
    if hold != Str("") && hold != Undefined && hold != Null then Some(Or(ParseFloat(hold), 0.0)) else None
  }

  /** The GST hold actually deducted: the typed value rounded, else the computed GST. */
  function GstHold(hold: Option<real>, gst: real): real {
    if hold.Some? then Round2(hold.value) else gst
  }

  function ReadEntryInputs(values: Record): EntryInputs {
    EntryInputsFrom(
      FieldFloat(values, "gross_amount", 0.0),
      NormalizeRate(Get(values, "gst_rate")), NormalizeRate(Get(values, "tds_rate")),
      FieldFloat(values, "debit_deduction", 0.0), FieldFloat(values, "other_deductions", 0.0),
      FieldFloat(values, "advances", 0.0), FieldFloat(values, "part_paid", 0.0))
  }

  /** The inputs once read, with the unrounded GST and TDS worked out from the rates. */
  function EntryInputsFrom(gross: real, gstRate: real, tdsRate: real,
                           debit: real, others: real, advances: real, partPaid: real): EntryInputs {
    EntryInputs(gross, gross * gstRate, gross * tdsRate, debit, others, advances, partPaid)
  }

  /** The fields `calculateEntryTotals` reads, besides the GST hold. */
  const InputKeys: set<string> :=
    {"gross_amount", "gst_rate", "tds_rate", "debit_deduction", "other_deductions", "advances", "part_paid"}

  /** The fields `calculateEntryTotals` returns. */
  const TotalsKeys: set<string> :=
    {"gst_amount", "total_amount", "tds", "retention", "gst_hold", "net_total", "payables"}

  /** The fixed order gst, total, tds, retention, gst hold, net total, payables, each rounded to two decimals. */
  function ComputeTotals(i: EntryInputs, hold: Option<real>): Totals {
    var gst := Round2(i.exactGst);
    var total := Round2(i.gross + gst);
    var tds := Round2(i.exactTds);
    var retention := Round2(i.gross * 0.05);
    var gstHold := GstHold(hold, gst);
    var netTotal := Round2(total - (tds + i.debit + retention + gstHold + i.others));
    var payables := Round2(netTotal - i.advances - i.partPaid);
    Totals(gst, total, tds, retention, gstHold, netTotal, payables)
  }

  /** `calculateEntryTotals`. */
  function CalculateEntryTotals(values: Record): Totals {
    ComputeTotals(ReadEntryInputs(values), TypedHold(Get(values, "gst_hold")))
  }

  /** Every derived amount is a whole number of paise; GST and retention are within half a paisa of their exact values. */
  lemma TotalsInWholePaise(i: EntryInputs, hold: Option<real>)
    ensures var t := ComputeTotals(i, hold);
            IsCents(t.gst_amount) && IsCents(t.total_amount) && IsCents(t.tds) && IsCents(t.retention)
            && IsCents(t.gst_hold) && IsCents(t.net_total) && IsCents(t.payables)
    ensures var t := ComputeTotals(i, hold);
            t.retention - 0.005 <= i.gross * 0.05 < t.retention + 0.005
            && t.gst_amount - 0.005 <= i.exactGst < t.gst_amount + 0.005
            && t.tds - 0.005 <= i.exactTds < t.tds + 0.005
  {
    var t := ComputeTotals(i, hold);
    Round2Spec(i.exactGst);
    Round2Spec(i.gross + t.gst_amount);
    Round2Spec(i.exactTds);
    Round2Spec(i.gross * 0.05);
    if hold.Some? {
      Round2Spec(hold.value);
    }
    Round2Spec(t.total_amount - (t.tds + i.debit + t.retention + t.gst_hold + i.others));
    Round2Spec(t.net_total - i.advances - i.partPaid);
  }

  /** For a gross amount in whole paise the rounding of the total is exact: total = gross + gst. */
  lemma TotalIsGrossPlusGst(i: EntryInputs, hold: Option<real>)
    requires IsCents(i.gross)
    ensures ComputeTotals(i, hold).total_amount == i.gross + ComputeTotals(i, hold).gst_amount
  {
    var gst := Round2(i.exactGst);
    Round2Spec(i.exactGst);
    CentsClosed(i.gross, gst);
    Round2OfCents(i.gross + gst);
  }

  /**
   * When every typed amount is in whole paise, the last two roundings are exact:
   * net total = total - (tds + debit + retention + gst hold + others) and
   * payables = net total - advances - part paid.
   */
  lemma DeductionIdentities(i: EntryInputs, hold: Option<real>)
    requires IsCents(i.debit) && IsCents(i.others) && IsCents(i.advances) && IsCents(i.partPaid)
    ensures var t := ComputeTotals(i, hold);
            t.net_total == t.total_amount - (t.tds + i.debit + t.retention + t.gst_hold + i.others)
    ensures var t := ComputeTotals(i, hold);
            t.payables == t.net_total - i.advances - i.partPaid
  {
    var t := ComputeTotals(i, hold);
    TotalsInWholePaise(i, hold);
    var deductions := t.tds + i.debit + t.retention + t.gst_hold + i.others;
    CentsClosed(t.tds, i.debit);
    CentsClosed(t.tds + i.debit, t.retention);
    CentsClosed(t.tds + i.debit + t.retention, t.gst_hold);
    CentsClosed(t.tds + i.debit + t.retention + t.gst_hold, i.others);
    CentsClosed(t.total_amount, deductions);
    Round2OfCents(t.total_amount - deductions);
    CentsClosed(t.net_total, i.advances);
    CentsClosed(t.net_total - i.advances, i.partPaid);
    Round2OfCents(t.net_total - i.advances - i.partPaid);
  }

  /** A retention typed by the caller is ignored: the whole result is independent of it. */
  lemma RetentionInputIgnored(values: Record, typed: Value)
    ensures CalculateEntryTotals(values["retention" := typed]) == CalculateEntryTotals(values)
  {
    ReadEntryInputsAgree(values["retention" := typed], values);
    assert Get(values["retention" := typed], "gst_hold") == Get(values, "gst_hold");
  }

  /**
   * The three outcomes for the GST hold: an empty, undefined or null field holds the
   * computed GST; an explicit 0 or an unparseable field holds 0; any other field holds
   * the value it parses to, `x`, rounded to whole paise, so a typed amount in whole
   * paise is held as typed.
   */
  lemma GstHoldOutcomes(values: Record, x: real)
    ensures var hold := Get(values, "gst_hold"); var t := CalculateEntryTotals(values);
            (hold == Str("") || IsNullish(hold)) ==> t.gst_hold == t.gst_amount
    ensures var hold := Get(values, "gst_hold"); var t := CalculateEntryTotals(values);
            (hold == Num(0.0) || (hold != Str("") && !IsNullish(hold) && ParseFloat(hold) == None)) ==> t.gst_hold == 0.0
    ensures var hold := Get(values, "gst_hold"); var t := CalculateEntryTotals(values);
            hold.Num? && IsCents(hold.n) ==> t.gst_hold == hold.n
    ensures var hold := Get(values, "gst_hold"); var t := CalculateEntryTotals(values);
            hold != Str("") && !IsNullish(hold) && ParseFloat(hold) == Some(x) ==>
              IsCents(t.gst_hold) && t.gst_hold - 0.005 <= x < t.gst_hold + 0.005
  {
    var hold := Get(values, "gst_hold");
    assert Round2(0.0) == 0.0;
    Round2Spec(x);
    if hold.Num? && IsCents(hold.n) {
      Round2OfCents(hold.n);
    }
  }

  /** The worked example: gross 100000 at 5% GST and 1% TDS with an empty GST hold. */
  lemma WorkedExample(m: Record)
    requires Get(m, "gross_amount") == Num(100000.0) && Get(m, "gst_rate") == Num(5.0) && Get(m, "tds_rate") == Num(1.0)
    requires Get(m, "debit_deduction") == Num(0.0) && Get(m, "gst_hold") == Str("") && Get(m, "other_deductions") == Num(0.0)
    requires Get(m, "advances") == Num(0.0) && Get(m, "part_paid") == Num(0.0)
    ensures CalculateEntryTotals(m) == Totals(5000.0, 105000.0, 1000.0, 5000.0, 5000.0, 94000.0, 94000.0)
  {
    assert NormalizeRate(Num(5.0)) == 0.05;
    assert NormalizeRate(Num(1.0)) == 0.01;
    var i := EntryInputs(100000.0, 5000.0, 1000.0, 0.0, 0.0, 0.0, 0.0);
    assert ReadEntryInputs(m) == i;
    assert TypedHold(Get(m, "gst_hold")) == None;
    Round2OfCents(5000.0);
    Round2OfCents(105000.0);
    Round2OfCents(1000.0);
    Round2OfCents(94000.0);
  }

  // ---------------------------------------------------------------- thunks

  /** The derived fields as object keys, as spread into a stored entry. */
  function TotalsRecord(t: Totals): Record {
    map["gst_amount" := Num(t.gst_amount), "total_amount" := Num(t.total_amount), "tds" := Num(t.tds),
        "retention" := Num(t.retention), "gst_hold" := Num(t.gst_hold), "net_total" := Num(t.net_total),
        "payables" := Num(t.payables)]
  }

  /** `createSubcontractorEntry`: `{ id, type: "SC", ...entryData, ...calculateEntryTotals(entryData) }`. */
  function CreatedEntry(newId: string, entryData: Record): Record {
    map["id" := Str(newId), "type" := Str("SC")] + entryData + TotalsRecord(CalculateEntryTotals(entryData))
  }

  /** `updateSubcontractorEntry({ id, ...entryData })`: `{ id, ...entryData, ...calculateEntryTotals(entryData) }`. */
  function UpdatedEntry(payload: Record): Record {
    var entryData := payload - {"id"};
    map["id" := Get(payload, "id")] + entryData + TotalsRecord(CalculateEntryTotals(entryData))
  }

  /**
   * Recomputing from a stored record reproduces the stored derived fields, whatever
   * derived values the input carried: merging the recomputation changes nothing.
   */
  lemma {:induction false} StoredTotalsAreFixpoint(base: Record, entryData: Record)
    requires forall k :: k in base ==> k == "id" || k == "type"
    ensures var e := base + entryData + TotalsRecord(CalculateEntryTotals(entryData));
            CalculateEntryTotals(e) == CalculateEntryTotals(entryData)
            && e + TotalsRecord(CalculateEntryTotals(e)) == e
  {
    var t := CalculateEntryTotals(entryData);
    var r := base + entryData;
    forall k | k in InputKeys
      ensures Get(r, k) == Get(entryData, k)
    {
      assert k != "id" && k != "type";
    }
    RecomputeStored(r, entryData);
    assert CalculateEntryTotals(r + TotalsRecord(t)) == t;
    MergeTotalsTwice(r, t);
  }

  /** Recomputing from a record that spreads the inputs and then their totals gives the same totals. */
  lemma RecomputeStored(r: Record, entryData: Record)
    requires forall k :: k in InputKeys ==> Get(r, k) == Get(entryData, k)
    ensures CalculateEntryTotals(r + TotalsRecord(CalculateEntryTotals(entryData))) == CalculateEntryTotals(entryData)
  {
    var i := ReadEntryInputs(entryData);
    var hold := TypedHold(Get(entryData, "gst_hold"));
    var t := ComputeTotals(i, hold);
    var e := r + TotalsRecord(t);
    assert Get(e, "gst_hold") == Num(t.gst_hold);
    InputsApartFromTotals();
    forall k | k in InputKeys
      ensures Get(e, k) == Get(entryData, k)
    {
      GetAfterTotals(r, t, k);
    }
    ReadEntryInputsAgree(e, entryData);
    TypedHoldOfNumber(t.gst_hold);
    SettledHoldIsFixed(i, hold);
  }

  /** Feeding the settled GST hold back in as a typed hold reproduces the same totals. */
  lemma SettledHoldIsFixed(i: EntryInputs, hold: Option<real>)
    ensures ComputeTotals(i, Some(ComputeTotals(i, hold).gst_hold)) == ComputeTotals(i, hold)
  {
    var h := ComputeTotals(i, hold).gst_hold;
    TotalsInWholePaise(i, hold);
    Round2OfCents(h);
    ComputeTotalsHoldFixed(i, hold, h);
  }

  /** The calculator reads only its seven input fields. */
  lemma ReadEntryInputsAgree(a: Record, b: Record)
    requires forall k :: k in InputKeys ==> Get(a, k) == Get(b, k)
    ensures ReadEntryInputs(a) == ReadEntryInputs(b)
  {
    assert FieldFloat(a, "gross_amount", 0.0) == FieldFloat(b, "gross_amount", 0.0) by { assert "gross_amount" in InputKeys; }
    assert NormalizeRate(Get(a, "gst_rate")) == NormalizeRate(Get(b, "gst_rate")) by { assert "gst_rate" in InputKeys; }
    assert NormalizeRate(Get(a, "tds_rate")) == NormalizeRate(Get(b, "tds_rate")) by { assert "tds_rate" in InputKeys; }
    assert FieldFloat(a, "debit_deduction", 0.0) == FieldFloat(b, "debit_deduction", 0.0) by { assert "debit_deduction" in InputKeys; }
    assert FieldFloat(a, "other_deductions", 0.0) == FieldFloat(b, "other_deductions", 0.0) by { assert "other_deductions" in InputKeys; }
    assert FieldFloat(a, "advances", 0.0) == FieldFloat(b, "advances", 0.0) by { assert "advances" in InputKeys; }
    assert FieldFloat(a, "part_paid", 0.0) == FieldFloat(b, "part_paid", 0.0) by { assert "part_paid" in InputKeys; }
  }

  /**
   * No input field is a derived field, apart from the GST hold: the calculator reads it
   * and also returns it, so a stored entry's hold is the one it deducted.
   */
  lemma InputsApartFromTotals()
    ensures InputKeys !! TotalsKeys
    ensures (InputKeys + {"gst_hold"}) * TotalsKeys == {"gst_hold"}
  {
  }

  /** Spreading the totals leaves every other field as it was. */
  lemma GetAfterTotals(r: Record, t: Totals, k: string)
    requires k !in TotalsKeys
    ensures Get(r + TotalsRecord(t), k) == Get(r, k)
  {
    assert TotalsRecord(t).Keys == TotalsKeys;
  }

  /** A number stored as the GST hold is read back as typed (a stored 0 holds 0). */
  lemma TypedHoldOfNumber(x: real)
    ensures TypedHold(Num(x)) == Some(x)
  {
  }

  /** Spreading the same totals twice is spreading them once. */
  lemma MergeTotalsTwice(r: Record, t: Totals)
    ensures r + TotalsRecord(t) + TotalsRecord(t) == r + TotalsRecord(t)
  {
  }

  /** Replacing the typed hold by the hold the calculator settled on changes nothing. */
  lemma ComputeTotalsHoldFixed(i: EntryInputs, hold: Option<real>, h: real)
    requires Round2(h) == ComputeTotals(i, hold).gst_hold
    ensures ComputeTotals(i, Some(h)) == ComputeTotals(i, hold)
  {
  }

  /** The create thunk stores totals that a recomputation from the stored entry reproduces. */
  lemma CreatedEntryConsistent(newId: string, entryData: Record)
    ensures var e := CreatedEntry(newId, entryData);
            CalculateEntryTotals(e) == CalculateEntryTotals(entryData)
            && e + TotalsRecord(CalculateEntryTotals(e)) == e
            && Get(e, "payables") == Num(CalculateEntryTotals(entryData).payables)
  {
    StoredTotalsAreFixpoint(map["id" := Str(newId), "type" := Str("SC")], entryData);
  }

  /** The update thunk keeps the id and, like create, stores self-consistent totals. */
  lemma UpdatedEntryConsistent(payload: Record)
    ensures var e := UpdatedEntry(payload);
            Get(e, "id") == Get(payload, "id")
            && CalculateEntryTotals(e) == CalculateEntryTotals(payload - {"id"})
            && e + TotalsRecord(CalculateEntryTotals(e)) == e
  {
    var base := map["id" := Get(payload, "id")];
    var entryData := payload - {"id"};
    var t := CalculateEntryTotals(entryData);
    var e := UpdatedEntry(payload);
    assert e == base + entryData + TotalsRecord(t);
    assert Get(e, "id") == Get(payload, "id") by {
      assert "id" !in TotalsRecord(t) && "id" !in entryData;
    }
    assert CalculateEntryTotals(e) == t && e + TotalsRecord(t) == e by {
      StoredTotalsAreFixpoint(base, entryData);
    }
  }
}
