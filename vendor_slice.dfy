/**
 * The vendor slice: the next vendor code of a type, the record `createVendor`
 * assembles, and the reducers that keep the vendor list.
 */
module VendorSlice {
  import opened Strings
  import opened JsValues
  import opened RecordLists

  // ---------------------------------------------------------------- parseInt and toString

  /** The longest prefix of decimal digits. */
  function LeadingDigits(s: string): (r: string)
    ensures AllDigits(r) && |r| <= |s| && r == s[..|r|]
    ensures |r| < |s| ==> !IsDigit(s[|r|])
  {
    if s != [] && IsDigit(s[0]) then [s[0]] + LeadingDigits(s[1..]) else []
  }

  /** A string of digits is its own digit prefix. */
  lemma {:induction false} LeadingDigitsAll(s: string)
    requires AllDigits(s)
    ensures LeadingDigits(s) == s
  {
    if s != [] {
      LeadingDigitsAll(s[1..]);
      assert [s[0]] + s[1..] == s;
    }
  }

  /** The leading digits of `s` as a number; `None` when `s` does not start with a digit. */
  function ParseDigits(s: string): (r: Option<int>)
    ensures r.Some? <==> s != [] && IsDigit(s[0])
    ensures r.Some? ==> r.value >= 0
  {
    var digits := LeadingDigits(s);
    if digits == [] then None else Some(DigitsValue(digits) as int)
  }

  /** An optional sign, then the leading digits. */
  function ParseSigned(t: string): Option<int> {
    if t != [] && t[0] == '-' then
      match ParseDigits(t[1..])
      case Some(n) => Some(-n)
      case None => None
    else if t != [] && t[0] == '+' then ParseDigits(t[1..])
    else ParseDigits(t)
  }

  /**
   * `parseInt(s)` in base 10: leading whitespace, an optional sign, then the digits up to
   * the first non-digit; `None` (NaN) when there is no digit.
   */
  function ParseInt(s: string): Option<int> {
    ParseSigned(TrimStart(s))
  }

  /** Nothing to trim before a non-blank first character. */
  lemma TrimStartNoBlank(s: string)
    requires s != [] && !IsSpace(s[0])
    ensures TrimStart(s) == s
  {
  }

  /** `n.toString()` for an integer. */
  function IntToString(n: int): (s: string)
    ensures s != [] && '_' !in s
  {
    if n < 0 then "-" + NatToString(-n) else NatToString(n)
  }

  /** `n.toString().padStart(2, "0")`. */
  function PadNumber(n: int): (s: string)
    ensures '_' !in s && |s| >= 2
  {
    var t := IntToString(n);
    var r := PadStartZero(t, 2);
    assert '_' !in r by {
      forall i | 0 <= i < |r| ensures r[i] != '_' {
        if i >= |r| - |t| {
          assert r[i] == r[|r| - |t|..][i - (|r| - |t|)];
        }
      }
    }
    r
  }

  /** A digit string, signed or not, is read back by `parseInt`. */
  lemma ParseIntOfDigits(s: string)
    requires s != [] && AllDigits(s)
    ensures ParseInt(s) == Some(DigitsValue(s) as int)
    ensures ParseInt("-" + s) == Some(-(DigitsValue(s) as int))
  {
    LeadingDigitsAll(s);
    assert IsDigit(s[0]);
    TrimStartNoBlank(s);
    var m := "-" + s;
    TrimStartNoBlank(m);
    assert m[1..] == s;
  }

  /** The padded number reads back as the number: the generated suffix parses to the number it was made from. */
  lemma ParsePadNumber(n: int)
    ensures ParseInt(PadNumber(n)) == Some(n)
  {
    if n < 0 {
      ParsePadNegative(n);
    } else if n < 10 {
      ParsePadDigit(n);
    } else {
      DigitsValueOfNatToString(n);
      ParseIntOfDigits(NatToString(n));
    }
  }

  lemma ParseNegatedNat(m: nat)
    ensures ParseInt("-" + NatToString(m)) == Some(-(m as int))
  {
    var d := NatToString(m);
    ParseIntOfDigits(d);
    DigitsValueOfNatToString(m);
    assert DigitsValue(d) as int == m;
  }

  lemma ParsePadNegative(n: int)
    requires n < 0
    ensures ParseInt(PadNumber(n)) == Some(n)
  {
    var d := NatToString(-n);
    var t := "-" + d;
    assert IntToString(n) == t;
    assert PadStartZero(t, 2) == t;
    assert PadNumber(n) == t;
    ParseNegatedNat(-n);
  }

  lemma ParsePadDigit(n: int)
    requires 0 <= n < 10
    ensures ParseInt(PadNumber(n)) == Some(n)
  {
    var p := "0" + [DigitChar(n)];
    assert PadNumber(n) == p;
    assert AllDigits(p) by {
      assert IsDigit(p[0]) && IsDigit(p[1]);
    }
    assert DigitsValue(p) == n by {
      var z := p[..1];
      assert z == "0" && z[..0] == [];
      assert DigitsValue(z) == 0 by {
        assert DigitsValue(z) == DigitsValue(z[..0]) * 10 + DigitValue(z[0]);
      }
      assert p[|p| - 1] == DigitChar(n);
      assert DigitsValue(p) == DigitsValue(z) * 10 + DigitValue(p[|p| - 1]);
    }
    ParseIntOfDigits(p);
  }

  /** Seven is padded to "07" and 100 is left as "100". */
  lemma PadNumberExamples()
    ensures PadNumber(7) == "07" && PadNumber(100) == "100"
  {
    assert NatToString(7) == "7";
    assert NatToString(100) == NatToString(10) + "0";
    assert NatToString(10) == NatToString(1) + "0";
  }

  // ---------------------------------------------------------------- generateVendorCode

  /** `parseInt(code.split("_")[1])`: `None` when there is no second part or it has no digits. */
  function CodeSuffix(code: string): Option<int> {
    var parts := SplitOn(code, '_');
    if |parts| < 2 then None else ParseInt(parts[1])
  }

  /** Vendor `v` is of the type and its code has the numeric suffix `m`. */
  predicate HasSuffix(v: Record, vendorType: string, m: int) {
    Get(v, "type") == Str(vendorType) && CodeSuffix(Text(v, "vendor_code")) == Some(m)
  }

  /** The numeric suffixes of the vendors of `vendorType`, in list order; codes without one are skipped. */
  function Suffixes(vendors: seq<Record>, vendorType: string): seq<int> {
    if vendors == [] then []
    else
      var rest := Suffixes(vendors[1..], vendorType);
      var v := vendors[0];
      var suffix := CodeSuffix(Text(v, "vendor_code"));
      if Get(v, "type") == Str(vendorType) && suffix.Some? then [suffix.value] + rest else rest
  }

  /** The suffixes are exactly those of the vendors of the type whose code has one. */
  lemma {:induction false} SuffixesMembers(vendors: seq<Record>, vendorType: string)
    ensures forall m :: m in Suffixes(vendors, vendorType) <==>
              exists i :: 0 <= i < |vendors| && HasSuffix(vendors[i], vendorType, m)
  {
    if vendors != [] {
      SuffixesMembers(vendors[1..], vendorType);
      var v := vendors[0];
      assert forall m :: m in Suffixes(vendors, vendorType) <==>
               HasSuffix(v, vendorType, m) || m in Suffixes(vendors[1..], vendorType);
      assert forall i :: 0 < i < |vendors| ==> vendors[i] == vendors[1..][i - 1];
    }
  }

  /** The suffixes of two lists laid end to end. */
  lemma {:induction false} SuffixesAppend(a: seq<Record>, b: seq<Record>, vendorType: string)
    ensures Suffixes(a + b, vendorType) == Suffixes(a, vendorType) + Suffixes(b, vendorType)
  {
    if a == [] {
      assert a + b == b;
    } else {
      assert (a + b)[0] == a[0];
      assert (a + b)[1..] == a[1..] + b;
      SuffixesAppend(a[1..], b, vendorType);
    }
  }

  function MaxOf(xs: seq<int>): (m: int)
    requires xs != []
    ensures m in xs && forall x :: x in xs ==> x <= m
  {
    if |xs| == 1 then xs[0]
    else
      var rest := MaxOf(xs[1..]);
      assert forall x :: x in xs ==> x == xs[0] || x in xs[1..];
      if xs[0] >= rest then xs[0] else rest
  }

  /**
   * The number of the next code: 1 + the largest suffix of the type (the head of the
   * descending sort), or 1 when the type has none.
   */
  function NextNumber(vendors: seq<Record>, vendorType: string): (n: int)
    ensures var xs := Suffixes(vendors, vendorType);
            (xs == [] ==> n == 1) && (forall m :: m in xs ==> m < n) && (xs != [] ==> n - 1 in xs)
  {
    NextOf(Suffixes(vendors, vendorType))
  }

  /** One more than the largest number, or 1 for none. */
  function NextOf(xs: seq<int>): (n: int)
    ensures xs == [] ==> n == 1
    ensures forall m :: m in xs ==> m < n
    ensures xs != [] ==> n - 1 in xs
  {
    if xs == [] then 1 else MaxOf(xs) + 1
  }

  /** `generateVendorCode(vendors, type)`: `${type}_${padded next number}`. */
  function GenerateVendorCode(vendors: seq<Record>, vendorType: string): (code: string)
    ensures |code| > |vendorType| && code[..|vendorType|] == vendorType && code[|vendorType|] == '_'
  {
    vendorType + "_" + PadNumber(NextNumber(vendors, vendorType))
  }

  /** A list without vendors of the type has no suffixes of it. */
  lemma {:induction false} NoSuffixesOfType(vendors: seq<Record>, vendorType: string)
    requires forall i :: 0 <= i < |vendors| ==> Get(vendors[i], "type") != Str(vendorType)
    ensures Suffixes(vendors, vendorType) == []
  {
    if vendors != [] {
      NoSuffixesOfType(vendors[1..], vendorType);
    }
  }

  /** The first code of a type is `TYPE_01`. */
  lemma FirstCodeOfType(vendors: seq<Record>, vendorType: string)
    requires forall i :: 0 <= i < |vendors| ==> Get(vendors[i], "type") != Str(vendorType)
    ensures GenerateVendorCode(vendors, vendorType) == vendorType + "_01"
  {
    NoSuffixesOfType(vendors, vendorType);
    assert NatToString(1) == "1";
  }

  /** The generated code's suffix reads back as the number it was made from. */
  lemma GeneratedSuffix(vendors: seq<Record>, vendorType: string)
    requires '_' !in vendorType
    ensures CodeSuffix(GenerateVendorCode(vendors, vendorType)) == Some(NextNumber(vendors, vendorType))
  {
    var p := PadNumber(NextNumber(vendors, vendorType));
    assert GenerateVendorCode(vendors, vendorType) == vendorType + ['_'] + p;
    SplitOnFirst(vendorType, '_', p);
    SplitOnAbsent(p, '_');
    ParsePadNumber(NextNumber(vendors, vendorType));
  }

  /** No vendor of the type already has the generated code: its suffix exceeds every existing one. */
  lemma GeneratedCodeFresh(vendors: seq<Record>, vendorType: string, i: int)
    requires '_' !in vendorType
    requires 0 <= i < |vendors| && Get(vendors[i], "type") == Str(vendorType)
    ensures Text(vendors[i], "vendor_code") != GenerateVendorCode(vendors, vendorType)
  {
    GeneratedSuffix(vendors, vendorType);
    var c := CodeSuffix(Text(vendors[i], "vendor_code"));
    SuffixesMembers(vendors, vendorType);
    if c.Some? {
      assert HasSuffix(vendors[i], vendorType, c.value);
      assert c.value in Suffixes(vendors, vendorType);
    }
    assert c != Some(NextNumber(vendors, vendorType));
  }

  /** Vendors of other types, wherever they sit, do not change the generated code. */
  lemma OtherTypesIgnored(a: seq<Record>, v: Record, b: seq<Record>, vendorType: string)
    requires Get(v, "type") != Str(vendorType)
    ensures GenerateVendorCode(a + [v] + b, vendorType) == GenerateVendorCode(a + b, vendorType)
  {
    SuffixesSkipOther(a, v, b, vendorType);
    assert NextNumber(a + [v] + b, vendorType) == NextNumber(a + b, vendorType);
  }

  lemma SuffixesSkipOther(a: seq<Record>, v: Record, b: seq<Record>, vendorType: string)
    requires Get(v, "type") != Str(vendorType)
    ensures Suffixes(a + [v] + b, vendorType) == Suffixes(a + b, vendorType)
  {
    assert Suffixes([v], vendorType) == [] by {
      assert [v][1..] == [];
    }
    assert Suffixes(a + [v], vendorType) == Suffixes(a, vendorType) by {
      SuffixesAppend(a, [v], vendorType);
    }
    assert Suffixes(a + [v] + b, vendorType) == Suffixes(a + [v], vendorType) + Suffixes(b, vendorType) by {
      SuffixesAppend(a + [v], b, vendorType);
    }
    SuffixesAppend(a, b, vendorType);
  }

  // ---------------------------------------------------------------- createVendor

  /**
   * `{ id, vendor_code, ...vendorData }`: the caller's fields come last, so a `vendor_code`
   * (or `id`) in the vendor data overrides the generated one.
   */
  function NewVendorRecord(newId: string, code: string, vendorData: Record): (r: Record)
    ensures r.Keys == vendorData.Keys + {"id", "vendor_code"}
    ensures forall k :: k in vendorData ==> r[k] == vendorData[k]
    ensures "vendor_code" !in vendorData ==> r["vendor_code"] == Str(code)
    ensures "id" !in vendorData ==> r["id"] == Str(newId)
  {
    map["id" := Str(newId), "vendor_code" := Str(code)] + vendorData
  }

  /** `createVendor(vendorData)` against the current items, the id given. */
  function CreatedVendor(items: seq<Record>, newId: string, vendorData: Record): Record {
    NewVendorRecord(newId, GenerateVendorCode(items, Text(vendorData, "type")), vendorData)
  }

  /** Without a code of its own, a created vendor gets a code no vendor of its type has. */
  lemma CreatedVendorCodeFresh(items: seq<Record>, newId: string, vendorData: Record, i: int)
    requires "vendor_code" !in vendorData && '_' !in Text(vendorData, "type")
    requires 0 <= i < |items| && Get(items[i], "type") == Str(Text(vendorData, "type"))
    ensures Get(CreatedVendor(items, newId, vendorData), "vendor_code") != Get(items[i], "vendor_code")
  {
    GeneratedCodeFresh(items, Text(vendorData, "type"), i);
  }

  // ---------------------------------------------------------------- the slice

  class VendorState {
    var items: seq<Record>
    var loading: bool
    var error: Value

    /** The initial state: no vendors, not loading, no error. */
    constructor ()
      ensures items == [] && !loading && error == Null
    {
      items := [];
      loading := false;
      error := Null;
    }

    method ClearError()
      modifies this
      ensures error == Null && items == old(items) && loading == old(loading)
    {
      error := Null;
    }

    /** `fetchVendors.pending` and `createVendor.pending`. */
    method Pending()
      modifies this
      ensures loading && error == Null && items == old(items)
    {
      loading := true;
      error := Null;
    }

    /** `fetchVendors.rejected` and `createVendor.rejected`. */
    method Rejected(message: Value)
      modifies this
      ensures !loading && error == message && items == old(items)
    {
      loading := false;
      error := message;
    }

    method FetchFulfilled(fetched: seq<Record>)
      modifies this
      ensures !loading && items == fetched && error == old(error)
    {
      loading := false;
      items := fetched;
    }

    /** `createVendor.fulfilled`: the new vendor goes to the front. */
    method CreateFulfilled(vendor: Record)
      modifies this
      ensures !loading && items == [vendor] + old(items) && error == old(error)
    {
      loading := false;
      items := [vendor] + items;
    }

    /** `updateVendor.fulfilled`: the first vendor with the id is replaced; loading is untouched. */
    method UpdateFulfilled(vendor: Record)
      modifies this
      ensures items == ReplaceFirstById(old(items), vendor)
      ensures |items| == |old(items)|
      ensures loading == old(loading) && error == old(error)
    {
      var index := IndexOfId(items, Get(vendor, "id"));
      if index != -1 {
        items := items[index := vendor];
      }
    }

    /** `deleteVendor.fulfilled`: every vendor with the id goes, the rest keep their order. */
    method DeleteFulfilled(id: Value)
      modifies this
      ensures items == RemoveById(old(items), id)
      ensures forall v :: v in items <==> v in old(items) && Get(v, "id") != id
      ensures loading == old(loading) && error == old(error)
    {
      items := RemoveById(items, id);
    }
  }
}
