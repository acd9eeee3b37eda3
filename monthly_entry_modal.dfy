/**
 * The logic of the monthly-entry modal for subcontractor entries: the percent
 * field parser, the Enter-key vendor lookup, the "particular" field that is
 * composed from the vendor's work type and a free narration, the live preview
 * of the calculated totals and the submit checks with the saved payload.
 */
module MonthlyEntryModal {
  import opened Strings
  import opened JsValues
  import opened RecordLists
  import opened VendorResolver
  import opened SubContractorSlice

  // ---------------------------------------------------------------- percent input

  /** The characters `/[,\s%]+/g` removes. */
  predicate IsPercentJunk(c: char) {
    c == ',' || c == '%' || IsSpace(c)
  }

  /** `replace(/[,\s%]+/g, "")`: a filter that keeps every other character, in order. */
  function StripPercentJunk(s: string): (r: string)
    ensures |r| <= |s|
    ensures forall i :: 0 <= i < |r| ==> !IsPercentJunk(r[i])
    ensures |s| == 1 ==> r == if IsPercentJunk(s[0]) then [] else s
  {
    if s == [] then []
    else if IsPercentJunk(s[0]) then StripPercentJunk(s[1..])
    else [s[0]] + StripPercentJunk(s[1..])
  }

  /**
   * `parsePercentInput`: "" for "", null and undefined; otherwise commas, blanks and
   * percent signs are dropped and the rest is read with `Number`, NaN giving "".
   * A number is already its own `String` form read back.
   */
  function ParsePercentInput(input: Value): (r: Value)
    ensures NumericField(r)
    ensures input == Str("") || IsNullish(input) ==> r == Str("")
    ensures input.Num? ==> r == input
    ensures input == NaN ==> r == Str("")
  {
    if input == Str("") || IsNullish(input) then Str("")
    else
      match input
      case Num(n) => Num(n)
      case Str(s) =>
        var n := StringToNumber(StripPercentJunk(Trim(s)));
        if n.Some? then Num(n.value) else Str("")
      case _ => Str("")
  }

  /** Parsing an already parsed field changes nothing. */
  lemma ParsePercentInputIdempotent(input: Value)
    ensures ParsePercentInput(ParsePercentInput(input)) == ParsePercentInput(input)
  {
  }

  /** The strip works character by character: it distributes over concatenation. */
  lemma {:induction false} StripPercentJunkAppend(a: string, b: string)
    ensures StripPercentJunk(a + b) == StripPercentJunk(a) + StripPercentJunk(b)
  {
    if a != [] {
      var ab := a + b;
      assert ab[0] == a[0] && ab[1..] == a[1..] + b;
      StripPercentJunkAppend(a[1..], b);
      var x, y := StripPercentJunk(a[1..]), StripPercentJunk(b);
      if IsPercentJunk(a[0]) {
        assert StripPercentJunk(ab) == StripPercentJunk(a[1..] + b);
        assert StripPercentJunk(a) == x;
      } else {
        assert StripPercentJunk(ab) == [a[0]] + (x + y);
        assert StripPercentJunk(a) == [a[0]] + x;
        assert [a[0]] + (x + y) == ([a[0]] + x) + y;
      }
    } else {
      assert a + b == b;
    }
  }

  /** Nothing survives from a run of blanks, commas and percent signs. */
  lemma {:induction false} StripAllJunk(s: string)
    requires forall i :: 0 <= i < |s| ==> IsPercentJunk(s[i])
    ensures StripPercentJunk(s) == []
  {
    if s != [] {
      StripAllJunk(s[1..]);
    }
  }

  /** Trimming first makes no difference: the blanks it removes are stripped anyway. */
  lemma StripIgnoresTrim(s: string)
    ensures StripPercentJunk(Trim(s)) == StripPercentJunk(s)
  {
    StripIgnoresTrimStart(s);
    StripIgnoresTrimEnd(TrimStart(s));
  }

  /** The leading blanks `trimStart` drops are stripped anyway. */
  lemma StripIgnoresTrimStart(s: string)
    ensures StripPercentJunk(TrimStart(s)) == StripPercentJunk(s)
  {
    var t := TrimStart(s);
    var k := |s| - |t|;
    var front := s[..k];
    assert s == front + t;
    assert forall i :: 0 <= i < |front| ==> IsPercentJunk(front[i]) by {
      forall i | 0 <= i < |front| ensures IsPercentJunk(front[i]) {
        assert front[i] == s[i] && IsSpace(s[i]);
      }
    }
    StripAllJunk(front);
    StripPercentJunkAppend(front, t);
  }

  /** The trailing blanks `trimEnd` drops are stripped anyway. */
  lemma StripIgnoresTrimEnd(t: string)
    ensures StripPercentJunk(TrimEnd(t)) == StripPercentJunk(t)
  {
    var u := TrimEnd(t);
    var back := t[|u|..];
    assert t == u + back;
    assert forall i :: 0 <= i < |back| ==> IsPercentJunk(back[i]) by {
      forall i | 0 <= i < |back| ensures IsPercentJunk(back[i]) {
        assert back[i] == t[|u| + i] && IsSpace(t[|u| + i]);
      }
    }
    StripAllJunk(back);
    StripPercentJunkAppend(u, back);
  }

  /**
   * Every non-empty text: what is left after the strip is read as a decimal;
   * nothing left reads as 0, and a rest that is not a number gives "".
   */
  lemma ParsePercentText(s: string)
    requires s != ""
    ensures StripPercentJunk(s) == "" ==> ParsePercentInput(Str(s)) == Num(0.0)
    ensures forall x :: ParseDecimal(StripPercentJunk(s)) == Some(x) ==> ParsePercentInput(Str(s)) == Num(x)
    ensures StripPercentJunk(s) != "" && ParseDecimal(StripPercentJunk(s)).None? ==> ParsePercentInput(Str(s)) == Str("")
  {
    var d := StripPercentJunk(s);
    ParsePercentOfStripped(s);
    NumberOfStripped(d);
    assert ParseDecimal("") == None;
  }

  /** A non-empty text is read by `Number` once stripped; the trim makes no difference. */
  lemma ParsePercentOfStripped(s: string)
    requires s != ""
    ensures ParsePercentInput(Str(s)) == NumberValueOrBlank(StringToNumber(StripPercentJunk(s)))
  {
    var input := Str(s);
    assert input != Str("") && !IsNullish(input);
    assert ParsePercentInput(input) == NumberValueOrBlank(StringToNumber(StripPercentJunk(Trim(s))));
    StripIgnoresTrim(s);
  }

  /** Stripped text holds no blank, so `Number` reads it as a decimal, or as 0 when nothing is left. */
  lemma NumberOfStripped(d: string)
    requires forall i :: 0 <= i < |d| ==> !IsPercentJunk(d[i])
    ensures StringToNumber(d) == if d == "" then Some(0.0) else ParseDecimal(d)
  {
    assert NoSpace(d) by {
      forall i | 0 <= i < |d| ensures !IsSpace(d[i]) {
        assert !IsPercentJunk(d[i]);
      }
    }
    TrimNoSpace(d);
  }

  /** What `Number.isNaN(n) ? "" : n` returns. */
  function NumberValueOrBlank(n: Option<real>): Value {
    if n.Some? then Num(n.value) else Str("")
  }

  /** Text that keeps no digit after the strip, such as "abc", gives "". */
  lemma ParsePercentNoDigit(s: string)
    requires s != "" && StripPercentJunk(s) != "" && NoDigit(StripPercentJunk(s))
    ensures ParsePercentInput(Str(s)) == Str("")
  {
    ParseDecimalNoDigit(StripPercentJunk(s));
    ParsePercentText(s);
  }

  /** Text whose kept characters are digits reads as the number they spell, blanks at either end included. */
  lemma ParsePercentOfDigits(s: string, digits: string)
    requires s != "" && StripPercentJunk(s) == digits && digits != "" && AllDigits(digits)
    ensures ParsePercentInput(Str(s)) == Num(DigitsValue(digits) as real)
  {
    ParseDecimalDigits(digits);
    ParsePercentText(s);
  }

  /** "5%" reads as 5. */
  lemma ParsePercentFive(s: string)
    requires s == "5%"
    ensures ParsePercentInput(Str(s)) == Num(5.0)
  {
    assert StripPercentJunk(s) == "5" by {
      assert s[1..] == "%";
    }
    assert DigitsValue("5") == 5 by {
      assert "5"[..0] == "";
    }
    ParsePercentOfDigits(s, "5");
  }

  /** "1,000" reads as 1000. */
  lemma ParsePercentThousand(s: string)
    requires s == "1,000"
    ensures ParsePercentInput(Str(s)) == Num(1000.0)
  {
    assert StripPercentJunk(s) == "1000" by {
      assert s[1..] == ",000" && s[2..] == "000";
      StripNoJunk(s[2..]);
    }
    assert DigitsValue("1") == 1 by {
      assert "1"[..0] == "";
    }
    assert DigitsValue("10") == 10 by {
      assert "10"[..1] == "1";
    }
    assert DigitsValue("100") == 100 by {
      assert "100"[..2] == "10";
    }
    assert DigitsValue("1000") == 1000 by {
      assert "1000"[..3] == "100";
    }
    ParsePercentOfDigits(s, "1000");
  }

  /** " 12.5 %" reads as 12.5: blanks at either end and a fraction are accepted. */
  lemma ParsePercentSpacedFraction(s: string)
    requires s == " 12.5 %"
    ensures ParsePercentInput(Str(s)) == Num(12.5)
  {
    StripSpacedFraction(s);
    DecimalTwelveAndAHalf("12.5");
    ParsePercentText(s);
  }

  lemma StripSpacedFraction(s: string)
    requires s == " 12.5 %"
    ensures StripPercentJunk(s) == "12.5"
  {
    assert s == " " + "12.5" + " %";
    StripBetweenJunk(" ", "12.5", " %");
  }

  /** Text without junk between two runs of junk is exactly what the strip keeps. */
  lemma StripBetweenJunk(front: string, d: string, back: string)
    requires forall i :: 0 <= i < |front| ==> IsPercentJunk(front[i])
    requires forall i :: 0 <= i < |back| ==> IsPercentJunk(back[i])
    requires forall i :: 0 <= i < |d| ==> !IsPercentJunk(d[i])
    ensures StripPercentJunk(front + d + back) == d
  {
    StripPercentJunkAppend(front + d, back);
    StripPercentJunkAppend(front, d);
    StripAllJunk(front);
    StripAllJunk(back);
    StripNoJunk(d);
  }

  /** Text without blanks, commas or percent signs is kept whole. */
  lemma {:induction false} StripNoJunk(d: string)
    requires forall i :: 0 <= i < |d| ==> !IsPercentJunk(d[i])
    ensures StripPercentJunk(d) == d
  {
    if d != [] {
      StripNoJunk(d[1..]);
      assert d == [d[0]] + d[1..];
    }
  }

  lemma DecimalTwelveAndAHalf(d: string)
    requires d == "12.5"
    ensures ParseDecimal(d) == Some(12.5)
  {
    assert d == "12" + "." + "5";
    assert DigitsValue("12") == 12 by {
      assert "12"[..1] == "1" && "1"[..0] == "";
    }
    assert DigitsValue("5") == 5 by {
      assert "5"[..0] == "";
    }
    ParseUnsignedFraction(d, "12", "5");
    assert Pow10(1) == 10.0;
  }

  // ---------------------------------------------------------------- vendor lookup

  /** A truthy field whose lowercased text contains the lowercased input. */
  predicate FieldContains(v: Record, field: string, iv: string) {
    Text(v, field) != "" && Contains(Lower(Text(v, field)), iv)
  }

  /** The last resort of the lookup: some field contains the input (never the reverse). */
  function ContainsTest(iv: string): Record -> bool {
    (v: Record) =>
      FieldContains(v, "vendor_code", iv) || FieldContains(v, "vendor_name", iv)
      || FieldContains(v, "pan_no", iv) || FieldContains(v, "contact_no", iv)
  }

  /** The cascade of `handleVendorKeyDown`: map hit, exact field equality, then containment. */
  function ResolveMonthly(vendors: seq<Record>, vendorMap: map<string, Record>, typed: string): (r: Lookup)
    ensures r.Blank? <==> Trim(typed) == ""
  {
    var raw := Trim(typed);
    if raw == "" then Blank
    else
      var key := Upper(raw);
      if key in vendorMap then Found(vendorMap[key])
      else
        match FindFirst(vendors, OwnerTest(key))
        case Some(v) => Found(v)
        case None =>
          match FindFirst(vendors, ContainsTest(Lower(raw)))
          case Some(v) => Found(v)
          case None => NotFound
  }

  /**
   * With the map built from the vendor list: a map hit returns the last vendor owning
   * the key; on a miss the exact step never succeeds and the first vendor with a field
   * containing the input is returned; a vendor found is always one of the list.
   */
  lemma ResolveMonthlySpec(vendors: seq<Record>, typed: string)
    ensures var raw, r := Trim(typed), ResolveMonthly(vendors, VendorKeyMap(vendors), typed);
            var last := LastIndexWhere(vendors, OwnerTest(Upper(raw)));
            && (raw != "" && last >= 0 ==> r == Found(vendors[last]))
            && (raw != "" && last < 0 ==>
                  r == (match FindFirst(vendors, ContainsTest(Lower(raw)))
                        case Some(v) => Found(v)
                        case None => NotFound))
            && (r.Found? ==> r.vendor in vendors)
  {
    var raw := Trim(typed);
    if raw != "" {
      var key := Upper(raw);
      VendorKeyMapLastOwner(vendors, key);
      if key !in VendorKeyMap(vendors) {
        ExactFallbackUnreachable(vendors, key);
      }
    }
  }

  /** A vendor none of whose fields is as long as the input never matches by containment. */
  lemma ContainsNeedsLongerField(v: Record, raw: string)
    requires |Text(v, "vendor_code")| < |raw| && |Text(v, "vendor_name")| < |raw|
    requires |Text(v, "pan_no")| < |raw| && |Text(v, "contact_no")| < |raw|
    ensures !ContainsTest(Lower(raw))(v)
  {
    ContainsIff(Lower(Text(v, "vendor_code")), Lower(raw));
    ContainsIff(Lower(Text(v, "vendor_name")), Lower(raw));
    ContainsIff(Lower(Text(v, "pan_no")), Lower(raw));
    ContainsIff(Lower(Text(v, "contact_no")), Lower(raw));
  }

  // ---------------------------------------------------------------- particular

  /** `r ? `${left} - ${r}` : left`. */
  function Joined(left: string, right: string): (p: string)
    ensures StartsWith(p, left)
    ensures right == "" ==> p == left
  {
    if right != "" then left + " - " + right else left
  }

  /** The leading-hyphen replace of `handleParticularChange`: blanks, one hyphen and blanks at the front, if the hyphen is there. */
  function StripLeadingDash(s: string): string {
    var t := TrimStart(s);
    if t != [] && t[0] == '-' then TrimStart(t[1..]) else s
  }

  /** The narration `handleParticularChange` keeps when a vendor with a work type is selected. */
  function NarrationOf(left: string, raw: string): (t: string)
    ensures Trim(t) == t
  {
    var h := IndexOf(raw, " - ");
    if h >= 0 then
      TrimIdempotent(raw[h + 3..]);
      Trim(raw[h + 3..])
    else if |raw| < |left| then ""
    else if StartsWith(raw, left) then
      TrimIdempotent(StripLeadingDash(raw[|left|..]));
      Trim(StripLeadingDash(raw[|left|..]))
    else
      TrimIdempotent(StripLeadingDash(RemoveFirst(raw, left)));
      Trim(StripLeadingDash(RemoveFirst(raw, left)))
  }

  // ---------------------------------------------------------------- preview

  /** `x === "" ? "" : Number(x) || 0`. */
  function KeepBlank(x: Value): Value {
    if x == Str("") then Str("") else Num(Or(Number(x), 0.0))
  }

  /** `x === "" ? 0 : Number(x) || 0`. */
  function BlankAsZero(x: Value): Value {
    if x == Str("") then Num(0.0) else Num(Or(Number(x), 0.0))
  }

  /** The `normalized` object handed to the calculator (the order of the overwritten keys does not matter). */
  function NormalizePreview(f: Record): Record {
    f["gst_rate" := KeepBlank(Get(f, "gst_rate"))]
     ["tds_rate" := KeepBlank(Get(f, "tds_rate"))]
     ["debit_deduction" := BlankAsZero(Get(f, "debit_deduction"))]
     ["other_deductions" := BlankAsZero(Get(f, "other_deductions"))]
     ["advances" := BlankAsZero(Get(f, "advances"))]
     ["part_paid" := BlankAsZero(Get(f, "part_paid"))]
     ["gst_hold" := BlankAsZero(Get(f, "gst_hold"))]
     ["gross_amount" := KeepBlank(Get(f, "gross_amount"))]
  }

  /** `calculatedValues`: no totals (`{}`) exactly when the gross amount is the empty string. */
  function Preview(f: Record): (r: Option<Totals>)
    ensures r.None? <==> Get(f, "gross_amount") == Str("")
  {
    var n := NormalizePreview(f);
    assert Get(n, "gross_amount") == KeepBlank(Get(f, "gross_amount"));
    if Get(n, "gross_amount") == Str("") || IsNullish(Get(n, "gross_amount")) then None
    else Some(CalculateEntryTotals(n))
  }

  /**
   * A value typed into a number or percent input reaches the calculator unchanged,
   * except that the deduction fields and the GST hold read a blank as 0.
   */
  lemma NormalizeNumericField(v: Value)
    requires NumericField(v)
    ensures KeepBlank(v) == v
    ensures BlankAsZero(v) == if v == Str("") then Num(0.0) else v
  {
  }

  /** The preview turns an empty GST hold into 0 before the calculator sees it, so its hold is 0, not the GST. */
  lemma PreviewHoldIsZero(f: Record)
    requires Get(f, "gross_amount") != Str("") && Get(f, "gst_hold") == Str("")
    ensures Preview(f).Some? && Preview(f).value.gst_hold == 0.0
  {
    var n := NormalizePreview(f);
    assert Get(n, "gst_hold") == Num(0.0);
    assert TypedHold(Get(n, "gst_hold")) == Some(0.0);
    assert Round2(0.0) == 0.0;
  }

  /** The preview as the object spread into the payload. */
  function CalculatedValues(f: Record): Record {
    match Preview(f)
    case Some(t) => TotalsRecord(t)
    case None => map[]
  }

  // ---------------------------------------------------------------- submit

  datatype MonthlySubmit = NoVendor | NoGross | NoParticular | Save(payload: Record)

  const SelectVendorMessage: string := "Please select a valid vendor"
  const VendorNotFoundMessage: string := "Vendor not found in Vendor Master"

  /**
   * `handleSubmit`: the three checks in source order, then the payload. The memoised
   * `calculatedValues` and `combinedParticular` come in as they are.
   */
  function SubmitMonthly(formData: Record, selected: Option<Record>, combined: string, calculated: Record): MonthlySubmit {
    if selected.None? then NoVendor
    else if Get(formData, "gross_amount") == Str("") || IsNullish(Get(formData, "gross_amount")) then NoGross
    else if combined == "" then NoParticular
    else
      var v := selected.value;
      Save(formData + map["particular" := Str(combined), "vendor_id" := Get(v, "id"),
                          "vendor_code" := Get(v, "vendor_code")]
           + calculated)
  }

  /** The calculated values hold the derived fields only, and all of them once the gross amount is filled in. */
  lemma CalculatedValuesKeys(f: Record)
    ensures CalculatedValues(f).Keys <= TotalsKeys
    ensures Get(f, "gross_amount") != Str("") ==> CalculatedValues(f).Keys == TotalsKeys
  {
    if Preview(f).Some? {
      assert TotalsRecord(Preview(f).value).Keys == TotalsKeys;
    }
  }

  /**
   * The zero hold of the preview is what gets saved: the payload spreads the calculated
   * values, so it carries a hold of 0, and the create thunk, recomputing from that payload,
   * reads the explicit 0 and stores a hold of 0 too, not the GST.
   */
  lemma SavedEntryHoldIsZero(f: Record, v: Record, combined: string, newId: string)
    requires Get(f, "gross_amount") != Str("") && !IsNullish(Get(f, "gross_amount"))
    requires Get(f, "gst_hold") == Str("") && combined != ""
    ensures SubmitMonthly(f, Some(v), combined, CalculatedValues(f)).Save?
    ensures var payload := SubmitMonthly(f, Some(v), combined, CalculatedValues(f)).payload;
            Get(payload, "gst_hold") == Num(0.0) && Get(CreatedEntry(newId, payload), "gst_hold") == Num(0.0)
  {
    var c := CalculatedValues(f);
    PreviewHoldIsZero(f);
    SavedPayloadHold(f, v, combined, c);
    CreatedEntryZeroHold(newId, SubmitMonthly(f, Some(v), combined, c).payload);
  }

  /** A payload saved with calculated values holding a zero hold carries that zero hold. */
  lemma SavedPayloadHold(f: Record, v: Record, combined: string, c: Record)
    requires Get(f, "gross_amount") != Str("") && !IsNullish(Get(f, "gross_amount"))
    requires combined != "" && Get(c, "gst_hold") == Num(0.0)
    ensures SubmitMonthly(f, Some(v), combined, c).Save?
    ensures Get(SubmitMonthly(f, Some(v), combined, c).payload, "gst_hold") == Num(0.0)
  {
  }

  /** The create thunk stores an explicit zero hold as a zero hold. */
  lemma CreatedEntryZeroHold(newId: string, payload: Record)
    requires Get(payload, "gst_hold") == Num(0.0)
    ensures Get(CreatedEntry(newId, payload), "gst_hold") == Num(0.0)
  {
    GstHoldOutcomes(payload, 0.0);
  }

  /** The checks come in source order: vendor, then gross amount, then particular. */
  lemma SubmitMonthlyOrder(formData: Record, selected: Option<Record>, combined: string, calculated: Record)
    ensures var s := SubmitMonthly(formData, selected, combined, calculated);
            var noGross := Get(formData, "gross_amount") == Str("") || IsNullish(Get(formData, "gross_amount"));
            && (s == NoVendor <==> selected.None?)
            && (s == NoGross <==> selected.Some? && noGross)
            && (s == NoParticular <==> selected.Some? && !noGross && combined == "")
            && (s.Save? <==> selected.Some? && !noGross && combined != "")
  {
  }

  /**
   * A saved payload carries the combined particular and the selected vendor's own code,
   * and every calculated value overrides the form field of the same name (the calculated
   * values never hold `particular` or `vendor_code`, as `CalculatedValuesKeys` shows).
   */
  lemma SubmitMonthlyPayload(formData: Record, selected: Option<Record>, combined: string, calculated: Record)
    requires SubmitMonthly(formData, selected, combined, calculated).Save?
    requires "vendor_code" !in calculated && "particular" !in calculated
    ensures var p := SubmitMonthly(formData, selected, combined, calculated).payload;
            && Get(p, "vendor_code") == Get(selected.value, "vendor_code")
            && Get(p, "particular") == Str(combined)
            && forall k :: k in calculated ==> Get(p, k) == calculated[k]
  {
  }

  // ---------------------------------------------------------------- the form

  class MonthlyEntryForm {
    const vendors: seq<Record>
    const vendorMap: map<string, Record>
    /** `initialData.id`: truthy when an existing entry is being edited. */
    const editingId: Value
    var formData: Record
    var selectedVendor: Option<Record>
    var vendorLookupError: string
    var fetchedPart: string
    var narration: string

    /** A form over the given fields with no vendor selected yet; the vendor map is built once. */
    constructor (vendors: seq<Record>, editingId: Value, formData: Record)
      ensures this.vendors == vendors && vendorMap == VendorKeyMap(vendors) && this.editingId == editingId
      ensures this.formData == formData && selectedVendor == None && vendorLookupError == ""
      ensures fetchedPart == "" && narration == ""
    {
      this.vendors := vendors;
      this.editingId := editingId;
      var m := BuildVendorMap(vendors);
      vendorMap := m;
      this.formData := formData;
      selectedVendor := None;
      vendorLookupError := "";
      fetchedPart := "";
      narration := "";
    }

    /** `combinedParticular`: the work type and the trimmed narration, or the typed particular. */
    function CombinedParticular(): string
      reads this
    {
      if selectedVendor.Some? && fetchedPart != "" then Joined(fetchedPart, Trim(narration))
      else Text(formData, "particular")
    }

    /** What Enter in the vendor field would find for the code typed now. */
    function LookupNow(): Lookup
      reads this
    {
      ResolveMonthly(vendors, vendorMap, Text(formData, "vendor_code"))
    }

    /**
     * Enter in the vendor field. A blank code changes nothing. A vendor found is selected,
     * its work type fetched and, for a new entry, made the particular with the narration
     * cleared. No vendor found clears the selection and reports it.
     */
    method HandleVendorKeyDown()
      modifies this
      ensures old(LookupNow()).Blank? ==>
                formData == old(formData) && selectedVendor == old(selectedVendor)
                && vendorLookupError == old(vendorLookupError) && fetchedPart == old(fetchedPart)
                && narration == old(narration)
      ensures old(LookupNow()).Found? ==>
                selectedVendor == Some(old(LookupNow()).vendor) && vendorLookupError == ""
                && fetchedPart == Text(old(LookupNow()).vendor, "work_type")
      ensures old(LookupNow()).Found? && !Truthy(editingId) ==>
                narration == "" && formData == old(formData)["particular" := Str(fetchedPart)]
                && CombinedParticular() == Text(formData, "particular")
      ensures old(LookupNow()).Found? && Truthy(editingId) ==>
                narration == old(narration) && formData == old(formData)
      ensures old(LookupNow()).NotFound? ==>
                selectedVendor == None && vendorLookupError == VendorNotFoundMessage && fetchedPart == ""
                && formData == old(formData) && narration == old(narration)
    {
      var r := LookupNow();
      ApplyLookup(r);
    }

    /** The state changes after a lookup with result `r`. */
    method ApplyLookup(r: Lookup)
      modifies this
      ensures r.Blank? ==>
                formData == old(formData) && selectedVendor == old(selectedVendor)
                && vendorLookupError == old(vendorLookupError) && fetchedPart == old(fetchedPart)
                && narration == old(narration)
      ensures r.Found? ==>
                selectedVendor == Some(r.vendor) && vendorLookupError == ""
                && fetchedPart == Text(r.vendor, "work_type")
      ensures r.Found? && !Truthy(editingId) ==>
                narration == "" && formData == old(formData)["particular" := Str(fetchedPart)]
                && CombinedParticular() == Text(formData, "particular")
      ensures r.Found? && Truthy(editingId) ==>
                narration == old(narration) && formData == old(formData)
      ensures r.NotFound? ==>
                selectedVendor == None && vendorLookupError == VendorNotFoundMessage && fetchedPart == ""
                && formData == old(formData) && narration == old(narration)
    {
      if r.Found? {
        var v := r.vendor;
        selectedVendor := Some(v);
        vendorLookupError := "";
        fetchedPart := Text(v, "work_type");
        if !Truthy(editingId) {
          narration := "";
          formData := formData["particular" := Str(fetchedPart)];
        }
      } else if r.NotFound? {
        selectedVendor := None;
        vendorLookupError := VendorNotFoundMessage;
        fetchedPart := "";
      }
    }

    /**
     * Typing in the particular field. With a vendor and a work type the stored particular
     * is the work type, joined with a trimmed narration when there is one, and it is what
     * submit would send; without, the raw text is stored and narration and work type are cleared.
     */
    method HandleParticularChange(raw: string)
      modifies this
      ensures selectedVendor == old(selectedVendor) && vendorLookupError == old(vendorLookupError)
      ensures old(selectedVendor).Some? && old(fetchedPart) != "" ==>
                fetchedPart == old(fetchedPart) && narration == NarrationOf(fetchedPart, raw)
                && Trim(narration) == narration
                && formData == old(formData)["particular" := Str(Joined(fetchedPart, narration))]
                && StartsWith(Text(formData, "particular"), fetchedPart)
      ensures !(old(selectedVendor).Some? && old(fetchedPart) != "") ==>
                formData == old(formData)["particular" := Str(raw)] && narration == "" && fetchedPart == ""
      ensures CombinedParticular() == Text(formData, "particular")
    {
      if selectedVendor.Some? && fetchedPart != "" {
        var right := NarrationOf(fetchedPart, raw);
        narration := right;
        formData := formData["particular" := Str(Joined(fetchedPart, right))];
      } else {
        formData := formData["particular" := Str(raw)];
        narration := "";
        fetchedPart := "";
      }
    }

    /** `handleNumberChange(field)`: the typed text stored as a number, or kept as the empty string. */
    method HandleNumberChange(field: string, raw: string)
      modifies this
      ensures formData == old(formData)[field := NumberInput(raw)]
      ensures NumericField(Get(formData, field))
      ensures selectedVendor == old(selectedVendor) && vendorLookupError == old(vendorLookupError)
      ensures fetchedPart == old(fetchedPart) && narration == old(narration)
    {
      var value := if raw == "" then Str("") else Num(Or(StringToNumber(raw), 0.0));
      formData := formData[field := value];
    }

    /** `handlePercentChange(field)`: the typed text read by the percent parser. */
    method HandlePercentChange(field: string, raw: string)
      modifies this
      ensures formData == old(formData)[field := ParsePercentInput(Str(raw))]
      ensures NumericField(Get(formData, field))
      ensures selectedVendor == old(selectedVendor) && vendorLookupError == old(vendorLookupError)
      ensures fetchedPart == old(fetchedPart) && narration == old(narration)
    {
      var parsed := ParsePercentInput(Str(raw));
      formData := formData[field := parsed];
    }

    /** Submit: a missing vendor is reported in the lookup error; the other checks only alert. */
    method HandleSubmit() returns (outcome: MonthlySubmit)
      modifies this
      ensures outcome == SubmitMonthly(old(formData), old(selectedVendor), old(CombinedParticular()),
                                       CalculatedValues(old(formData)))
      ensures outcome == NoVendor ==> vendorLookupError == SelectVendorMessage
      ensures outcome != NoVendor ==> vendorLookupError == old(vendorLookupError)
      ensures formData == old(formData) && selectedVendor == old(selectedVendor)
      ensures fetchedPart == old(fetchedPart) && narration == old(narration)
    {
      outcome := SubmitMonthly(formData, selectedVendor, CombinedParticular(), CalculatedValues(formData));
      if outcome == NoVendor {
        vendorLookupError := SelectVendorMessage;
      }
    }
  }
}
