/**
 * The hiring-service (HS) regime of the entry-totals calculator and the record
 * assembly of the create and update thunks of the hiring slice.
 *
 * Unlike the subcontractor regime: missing or zero rates default to 18% GST and
 * 2% TDS and are taken as fractions; GST and TDS are rounded to whole units with
 * `Math.round` and nothing else is rounded; retention is whatever the entry says;
 * a GST hold that is missing, zero or unparseable falls back to the GST; and the
 * result carries no `gst_hold` field.
 */
module HiringSlice {
  import opened JsValues
  import SubContractorSlice

  /** The derived fields returned by `calculateHiringEntryTotals`. */
  datatype HiringTotals = HiringTotals(
    gst_amount: real,
    total_amount: real,
    tds: real,
    retention: real,
    net_total: real,
    payables: real)

  /**
   * The calculator's numeric inputs, each read with `parseFloat(x) || d`, together with
   * the unrounded GST and TDS (`gross * gstRate`, `gross * tdsRate`).
   */
  datatype HiringInputs = HiringInputs(
    gross: real, exactGst: real, exactTds: real, retention: real, debit: real, others: real, advances: real, partPaid: real)

  /** `parseFloat(values.gst_rate) || 0.18`. */
  function HiringGstRate(values: Record): real {
    FieldFloat(values, "gst_rate", 0.18)
  }

  /** `parseFloat(values.tds_rate) || 0.02`. */
  function HiringTdsRate(values: Record): real {
    FieldFloat(values, "tds_rate", 0.02)
  }

  function ReadHiringInputs(values: Record): HiringInputs {
    HiringInputsFrom(
      FieldFloat(values, "gross_amount", 0.0), HiringGstRate(values), HiringTdsRate(values),
      FieldFloat(values, "retention", 0.0), FieldFloat(values, "debit_deduction", 0.0),
      FieldFloat(values, "other_deductions", 0.0), FieldFloat(values, "advances", 0.0),
      FieldFloat(values, "part_paid", 0.0))
  }

  /** The inputs once read, with the unrounded GST and TDS worked out from the rates. */
  function HiringInputsFrom(gross: real, gstRate: real, tdsRate: real, retention: real,
                            debit: real, others: real, advances: real, partPaid: real): HiringInputs {
    HiringInputs(gross, gross * gstRate, gross * tdsRate, retention, debit, others, advances, partPaid)
  }

  /**
   * The computation proper; `hold` is `parseFloat(values.gst_hold)` (`None` for NaN),
   * and the hold deducted is `hold || gst`.
   */
  function ComputeHiringTotals(i: HiringInputs, hold: Option<real>): HiringTotals {
    var gst := RoundInt(i.exactGst);
    var total := i.gross + gst;
    var tds := RoundInt(i.exactTds);
    var gstHold := Or(hold, gst);
    var netTotal := total - (tds + i.debit + i.retention + gstHold + i.others);
    var payables := netTotal - i.advances - i.partPaid;
    HiringTotals(gst, total, tds, i.retention, netTotal, payables)
  }

  /** `calculateHiringEntryTotals`. */
  function CalculateHiringEntryTotals(values: Record): HiringTotals {
    ComputeHiringTotals(ReadHiringInputs(values), ParseFloat(Get(values, "gst_hold")))
  }

  /** A rate that reads as NaN or as 0 (an explicit 0 included) takes the hiring default. */
  lemma HiringRateDefaults(values: Record)
    ensures ParseFloat(Get(values, "gst_rate")) in {None, Some(0.0)} ==> HiringGstRate(values) == 0.18
    ensures ParseFloat(Get(values, "tds_rate")) in {None, Some(0.0)} ==> HiringTdsRate(values) == 0.02
    ensures ParseFloat(Get(values, "gst_rate")) !in {None, Some(0.0)} ==> Some(HiringGstRate(values)) == ParseFloat(Get(values, "gst_rate"))
    ensures ParseFloat(Get(values, "tds_rate")) !in {None, Some(0.0)} ==> Some(HiringTdsRate(values)) == ParseFloat(Get(values, "tds_rate"))
  {
  }

  /**
   * GST and TDS are whole units within half a unit of their exact values; the total is
   * not rounded again; retention passes through; net total and payables are exact
   * differences, so payables is gross plus GST minus every deduction.
   */
  lemma HiringTotalsShape(i: HiringInputs, hold: Option<real>)
    ensures var t := ComputeHiringTotals(i, hold);
            t.gst_amount.Floor as real == t.gst_amount && t.tds.Floor as real == t.tds
            && t.gst_amount - 0.5 <= i.exactGst < t.gst_amount + 0.5
            && t.tds - 0.5 <= i.exactTds < t.tds + 0.5
    ensures var t := ComputeHiringTotals(i, hold);
            t.total_amount == i.gross + t.gst_amount && t.retention == i.retention
    ensures var t := ComputeHiringTotals(i, hold);
            t.payables == i.gross + t.gst_amount - t.tds - i.debit - i.retention - Or(hold, t.gst_amount)
                          - i.others - i.advances - i.partPaid
  {
  }

  /** A GST hold that is missing, empty, unparseable or 0 deducts the GST itself; any other reads as typed, unrounded. */
  lemma HiringHoldFallsBack(values: Record)
    ensures var t := CalculateHiringEntryTotals(values); var i := ReadHiringInputs(values);
            ParseFloat(Get(values, "gst_hold")) in {None, Some(0.0)} ==>
              t.net_total == t.total_amount - (t.tds + i.debit + i.retention + t.gst_amount + i.others)
    ensures var t := CalculateHiringEntryTotals(values); var i := ReadHiringInputs(values);
            Get(values, "gst_hold").Num? && Get(values, "gst_hold").n != 0.0 ==>
              t.net_total == t.total_amount - (t.tds + i.debit + i.retention + Get(values, "gst_hold").n + i.others)
  {
  }

  /**
   * The two regimes disagree on an explicit zero GST rate: the subcontractor
   * calculator charges no GST, the hiring calculator charges the default 18%.
   */
  lemma ZeroRateContrast(values: Record)
    requires Get(values, "gst_rate") == Num(0.0)
    ensures SubContractorSlice.CalculateEntryTotals(values).gst_amount == 0.0
    ensures CalculateHiringEntryTotals(values).gst_amount == RoundInt(FieldFloat(values, "gross_amount", 0.0) * 0.18)
  {
    SubContractorZeroRate(values);
    HiringZeroRate(values);
  }

  /** At a GST rate of 0 the subcontractor calculator charges no GST. */
  lemma SubContractorZeroRate(values: Record)
    requires Get(values, "gst_rate") == Num(0.0)
    ensures SubContractorSlice.CalculateEntryTotals(values).gst_amount == 0.0
  {
    var i := SubContractorSlice.ReadEntryInputs(values);
    assert i.exactGst == 0.0 by {
      assert SubContractorSlice.NormalizeRate(Num(0.0)) == 0.0;
    }
    assert SubContractorSlice.CalculateEntryTotals(values).gst_amount == Round2(i.exactGst);
    assert Round2(0.0) == 0.0;
  }

  /** At a GST rate of 0 the hiring calculator falls back to 18%. */
  lemma HiringZeroRate(values: Record)
    requires Get(values, "gst_rate") == Num(0.0)
    ensures CalculateHiringEntryTotals(values).gst_amount == RoundInt(FieldFloat(values, "gross_amount", 0.0) * 0.18)
  {
    var i := ReadHiringInputs(values);
    assert HiringGstRate(values) == 0.18 by {
      assert ParseFloat(Num(0.0)) == Some(0.0);
      assert Or(Some(0.0), 0.18) == 0.18;
    }
    assert i.gross == FieldFloat(values, "gross_amount", 0.0) && i.exactGst == i.gross * HiringGstRate(values);
    assert CalculateHiringEntryTotals(values).gst_amount == RoundInt(i.exactGst);
  }

  /** The worked example: gross 50000 at 18% GST and 2% TDS, every other field empty. */
  lemma HiringWorkedExample(m: Record)
    requires Get(m, "gross_amount") == Num(50000.0) && Get(m, "gst_rate") == Num(0.18) && Get(m, "tds_rate") == Num(0.02)
    requires Get(m, "retention") == Str("") && Get(m, "debit_deduction") == Str("") && Get(m, "gst_hold") == Str("")
    requires Get(m, "other_deductions") == Str("") && Get(m, "advances") == Str("") && Get(m, "part_paid") == Str("")
    ensures CalculateHiringEntryTotals(m) == HiringTotals(9000.0, 59000.0, 1000.0, 0.0, 49000.0, 49000.0)
  {
    assert ParseFloat(Str("")) == None;
    assert ReadHiringInputs(m) == HiringInputs(50000.0, 9000.0, 1000.0, 0.0, 0.0, 0.0, 0.0, 0.0);
    assert RoundInt(9000.0) == 9000.0;
    assert RoundInt(1000.0) == 1000.0;
  }

  // ---------------------------------------------------------------- thunks

  /** The derived fields as object keys; there is no `gst_hold` among them. */
  function HiringTotalsRecord(t: HiringTotals): (r: Record)
    ensures r.Keys == HiringTotalsKeys
  {
    map["gst_amount" := Num(t.gst_amount), "total_amount" := Num(t.total_amount), "tds" := Num(t.tds),
        "retention" := Num(t.retention), "net_total" := Num(t.net_total), "payables" := Num(t.payables)]
  }

  const HiringTotalsKeys: set<string> := {"gst_amount", "total_amount", "tds", "retention", "net_total", "payables"}

  /** The fields the hiring calculator reads, besides retention (which it also writes). */
  const HiringInputKeys: set<string> :=
    {"gross_amount", "gst_rate", "tds_rate", "debit_deduction", "gst_hold", "other_deductions", "advances", "part_paid"}

  /** `createHiringEntry`: `{ id, type: "HS", ...entryData, ...calculateHiringEntryTotals(entryData) }`. */
  function CreatedHiringEntry(newId: string, entryData: Record): Record {
    map["id" := Str(newId), "type" := Str("HS")] + entryData + HiringTotalsRecord(CalculateHiringEntryTotals(entryData))
  }

  /** `updateHiringEntry({ id, ...entryData })`: `{ id, ...entryData, ...calculateHiringEntryTotals(entryData) }`. */
  function UpdatedHiringEntry(payload: Record): Record {
    var entryData := payload - {"id"};
    map["id" := Get(payload, "id")] + entryData + HiringTotalsRecord(CalculateHiringEntryTotals(entryData))
  }

  /** No input field is a derived field. */
  lemma HiringInputsApartFromTotals()
    ensures HiringInputKeys !! HiringTotalsKeys
    ensures "retention" in HiringTotalsKeys
  {
  }

  /** The calculator reads only its input fields and retention. */
  lemma ReadHiringInputsAgree(a: Record, b: Record)
    requires forall k :: k in HiringInputKeys ==> Get(a, k) == Get(b, k)
    requires FieldFloat(a, "retention", 0.0) == FieldFloat(b, "retention", 0.0)
    ensures CalculateHiringEntryTotals(a) == CalculateHiringEntryTotals(b)
  {
    assert FieldFloat(a, "gross_amount", 0.0) == FieldFloat(b, "gross_amount", 0.0) by { assert "gross_amount" in HiringInputKeys; }
    assert HiringGstRate(a) == HiringGstRate(b) by { assert "gst_rate" in HiringInputKeys; }
    assert HiringTdsRate(a) == HiringTdsRate(b) by { assert "tds_rate" in HiringInputKeys; }
    assert FieldFloat(a, "debit_deduction", 0.0) == FieldFloat(b, "debit_deduction", 0.0) by { assert "debit_deduction" in HiringInputKeys; }
    assert FieldFloat(a, "other_deductions", 0.0) == FieldFloat(b, "other_deductions", 0.0) by { assert "other_deductions" in HiringInputKeys; }
    assert FieldFloat(a, "advances", 0.0) == FieldFloat(b, "advances", 0.0) by { assert "advances" in HiringInputKeys; }
    assert FieldFloat(a, "part_paid", 0.0) == FieldFloat(b, "part_paid", 0.0) by { assert "part_paid" in HiringInputKeys; }
    assert Get(a, "gst_hold") == Get(b, "gst_hold") by { assert "gst_hold" in HiringInputKeys; }
    assert ReadHiringInputs(a) == ReadHiringInputs(b);
  }

  /**
   * Recomputing from a stored hiring entry reproduces its derived fields: the stored
   * retention is the parsed one, which parses back to itself (0 included).
   */
  lemma HiringRecomputeStored(r: Record, entryData: Record)
    requires forall k :: k in HiringInputKeys ==> Get(r, k) == Get(entryData, k)
    ensures var t := CalculateHiringEntryTotals(entryData);
            CalculateHiringEntryTotals(r + HiringTotalsRecord(t)) == t
  {
    var t := CalculateHiringEntryTotals(entryData);
    var e := r + HiringTotalsRecord(t);
    HiringInputsApartFromTotals();
    forall k | k in HiringInputKeys
      ensures Get(e, k) == Get(entryData, k)
    {
      assert k !in HiringTotalsRecord(t).Keys;
    }
    assert Get(e, "retention") == Num(t.retention);
    assert FieldFloat(e, "retention", 0.0) == t.retention;
    ReadHiringInputsAgree(e, entryData);
  }

  /** Spreading the same totals twice is spreading them once. */
  lemma MergeHiringTotalsTwice(r: Record, t: HiringTotals)
    ensures r + HiringTotalsRecord(t) + HiringTotalsRecord(t) == r + HiringTotalsRecord(t)
  {
  }

  /** Neither the id nor the type is a calculator input. */
  lemma BaseKeysAreNotInputs()
    ensures "id" !in HiringInputKeys && "type" !in HiringInputKeys
  {
  }

  /** The create thunk stores type "HS" and totals that a recomputation from the stored entry reproduces. */
  lemma CreatedHiringEntryConsistent(newId: string, entryData: Record)
    ensures var e := CreatedHiringEntry(newId, entryData);
            CalculateHiringEntryTotals(e) == CalculateHiringEntryTotals(entryData)
            && e + HiringTotalsRecord(CalculateHiringEntryTotals(e)) == e
            && ("type" !in entryData ==> Get(e, "type") == Str("HS"))
            && "gst_hold" !in e - entryData.Keys
  {
    var base := map["id" := Str(newId), "type" := Str("HS")];
    var t := CalculateHiringEntryTotals(entryData);
    var e := CreatedHiringEntry(newId, entryData);
    assert e == base + entryData + HiringTotalsRecord(t);
    assert CalculateHiringEntryTotals(e) == t by {
      HiringInputsApartFromTotals();
      forall k | k in HiringInputKeys
        ensures Get(base + entryData, k) == Get(entryData, k)
      {
        assert k !in base by {
          BaseKeysAreNotInputs();
        }
      }
      HiringRecomputeStored(base + entryData, entryData);
    }
    assert e + HiringTotalsRecord(t) == e by {
      MergeHiringTotalsTwice(base + entryData, t);
    }
    assert "type" !in entryData ==> Get(e, "type") == Str("HS") by {
      assert "type" !in HiringTotalsKeys;
    }
    assert "gst_hold" !in e - entryData.Keys by {
      HiringInputsApartFromTotals();
      assert "gst_hold" in HiringInputKeys;
      assert "gst_hold" !in base;
    }
  }

  /** The update thunk keeps the id and, like create, stores self-consistent totals. */
  lemma UpdatedHiringEntryConsistent(payload: Record)
    ensures var e := UpdatedHiringEntry(payload);
            Get(e, "id") == Get(payload, "id")
            && CalculateHiringEntryTotals(e) == CalculateHiringEntryTotals(payload - {"id"})
            && e + HiringTotalsRecord(CalculateHiringEntryTotals(e)) == e
  {
    var entryData := payload - {"id"};
    var base := map["id" := Get(payload, "id")];
    var t := CalculateHiringEntryTotals(entryData);
    var e := UpdatedHiringEntry(payload);
    assert e == base + entryData + HiringTotalsRecord(t);
    assert Get(e, "id") == Get(payload, "id") by {
      assert "id" !in HiringTotalsKeys && "id" !in entryData;
    }
    assert CalculateHiringEntryTotals(e) == t by {
      HiringInputsApartFromTotals();
      forall k | k in HiringInputKeys
        ensures Get(base + entryData, k) == Get(entryData, k)
      {
        assert k !in base by {
          BaseKeysAreNotInputs();
        }
      }
      HiringRecomputeStored(base + entryData, entryData);
    }
    assert e + HiringTotalsRecord(t) == e by {
      MergeHiringTotalsTwice(base + entryData, t);
    }
  }
}
