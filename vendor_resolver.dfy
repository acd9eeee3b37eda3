/**
 * The vendor key map both entry modals build from the vendor list, and the
 * field tests their Enter-key lookups use when the map misses.
 *
 * Every truthy `vendor_code`, `pan_no`, `contact_no` and `vendor_name` is
 * uppercased and mapped to its vendor, vendor by vendor and field by field in
 * that order, so a later `set` of the same key overwrites an earlier one.
 */
module VendorResolver {
  import opened Strings
  import opened JsValues
  import opened RecordLists

  /** The outcome of an Enter-key lookup: nothing typed, a vendor, or none found. */
  datatype Lookup = Blank | Found(vendor: Record) | NotFound

  /** `m.set(String(v[field]).toUpperCase(), v)` when the field is truthy. */
  function SetKey(m: map<string, Record>, v: Record, field: string): map<string, Record> {
    if Text(v, field) != "" then m[Upper(Text(v, field)) := v] else m
  }

  /** The four `set` calls of one `forEach` step, in source order. */
  function AddVendorKeys(m: map<string, Record>, v: Record): map<string, Record> {
    SetKey(SetKey(SetKey(SetKey(m, v, "vendor_code"), v, "pan_no"), v, "contact_no"), v, "vendor_name")
  }

  /** The field is truthy and its uppercased text is `key`. */
  predicate FieldKey(v: Record, field: string, key: string) {
    Text(v, field) != "" && Upper(Text(v, field)) == key
  }

  /** `key` is one of the keys vendor `v` puts into the map. */
  predicate OwnsKey(v: Record, key: string) {
    FieldKey(v, "vendor_code", key) || FieldKey(v, "pan_no", key)
    || FieldKey(v, "contact_no", key) || FieldKey(v, "vendor_name", key)
  }

  /** The map after the `forEach` over `vendors`. */
  function VendorKeyMap(vendors: seq<Record>): map<string, Record>
    decreases |vendors|
  {
    if vendors == [] then map[]
    else AddVendorKeys(VendorKeyMap(vendors[..|vendors| - 1]), vendors[|vendors| - 1])
  }

  /** One vendor's step adds exactly its own keys, pointing at it, and keeps every other entry. */
  lemma AddVendorKeysSpec(m: map<string, Record>, v: Record, key: string)
    ensures key in AddVendorKeys(m, v) <==> key in m || OwnsKey(v, key)
    ensures OwnsKey(v, key) ==> AddVendorKeys(m, v)[key] == v
    ensures !OwnsKey(v, key) && key in m ==> AddVendorKeys(m, v)[key] == m[key]
  {
  }

  /**
   * `OwnsKey` as a callback. It is also the monthly-entry modal's exact-equality test
   * (a truthy code, name, PAN or contact whose uppercased text equals the key).
   */
  function OwnerTest(key: string): Record -> bool {
    (v: Record) => OwnsKey(v, key)
  }

  /**
   * Last write wins: a key is in the map exactly when some vendor owns it, and it
   * maps to the last vendor in list order that owns it.
   */
  lemma {:induction false} VendorKeyMapLastOwner(vendors: seq<Record>, key: string)
    ensures var last := LastIndexWhere(vendors, OwnerTest(key));
            (key in VendorKeyMap(vendors) <==> last >= 0)
            && (last >= 0 ==> VendorKeyMap(vendors)[key] == vendors[last])
  {
    if vendors != [] {
      var n := |vendors| - 1;
      VendorKeyMapLastOwner(vendors[..n], key);
      AddVendorKeysSpec(VendorKeyMap(vendors[..n]), vendors[n], key);
    }
  }

  /** Every value of the map is one of the vendors. */
  lemma {:induction false} VendorKeyMapValues(vendors: seq<Record>, key: string)
    requires key in VendorKeyMap(vendors)
    ensures VendorKeyMap(vendors)[key] in vendors
    ensures OwnsKey(VendorKeyMap(vendors)[key], key)
  {
    var n := |vendors| - 1;
    var init := vendors[..n];
    AddVendorKeysSpec(VendorKeyMap(init), vendors[n], key);
    if !OwnsKey(vendors[n], key) {
      VendorKeyMapValues(init, key);
    }
  }

  /** The `useMemo` that builds the map: a `forEach` over the vendors, four guarded `set` calls each. */
  method BuildVendorMap(vendors: seq<Record>) returns (m: map<string, Record>)
    ensures m == VendorKeyMap(vendors)
  {
    m := map[];
    var i := 0;
    while i < |vendors|
      invariant 0 <= i <= |vendors|
      invariant m == VendorKeyMap(vendors[..i])
    {
      var v := vendors[i];
      ghost var m0 := m;
      if Text(v, "vendor_code") != "" {
        m := m[Upper(Text(v, "vendor_code")) := v];
      }
      ghost var m1 := m;
      if Text(v, "pan_no") != "" {
        m := m[Upper(Text(v, "pan_no")) := v];
      }
      ghost var m2 := m;
      if Text(v, "contact_no") != "" {
        m := m[Upper(Text(v, "contact_no")) := v];
      }
      ghost var m3 := m;
      if Text(v, "vendor_name") != "" {
        m := m[Upper(Text(v, "vendor_name")) := v];
      }
      assert m == AddVendorKeys(m0, v) by {
        assert m1 == SetKey(m0, v, "vendor_code");
        assert m2 == SetKey(m1, v, "pan_no");
        assert m3 == SetKey(m2, v, "contact_no");
        assert m == SetKey(m3, v, "vendor_name");
      }
      assert vendors[..i + 1][..i] == vendors[..i];
      i := i + 1;
    }
    assert vendors[..|vendors|] == vendors;
  }

  /** The truthy field, lowercased, equals the lowercased input. */
  predicate FieldLowerEquals(v: Record, field: string, iv: string) {
    Text(v, field) != "" && Lower(Text(v, field)) == iv
  }

  /** The payment modal's fallback test: some truthy field equals the input, both lowercased. */
  function LowerFieldTest(iv: string): Record -> bool {
    (v: Record) =>
      FieldLowerEquals(v, "vendor_code", iv) || FieldLowerEquals(v, "vendor_name", iv)
      || FieldLowerEquals(v, "pan_no", iv) || FieldLowerEquals(v, "contact_no", iv)
  }

  /** After a map miss, no vendor passes the exact-equality test: the map holds every such key. */
  lemma ExactFallbackUnreachable(vendors: seq<Record>, key: string)
    requires key !in VendorKeyMap(vendors)
    ensures FindFirst(vendors, OwnerTest(key)) == None
  {
    VendorKeyMapLastOwner(vendors, key);
  }

  /** Lowercased equality with the input is uppercased equality with the key. */
  lemma LowerFieldTestIsOwnsKey(v: Record, raw: string)
    ensures LowerFieldTest(Lower(raw))(v) <==> OwnsKey(v, Upper(raw))
  {
    LowerEqIffUpperEq(Text(v, "vendor_code"), raw);
    LowerEqIffUpperEq(Text(v, "vendor_name"), raw);
    LowerEqIffUpperEq(Text(v, "pan_no"), raw);
    LowerEqIffUpperEq(Text(v, "contact_no"), raw);
  }

  /** The same holds for the lowercased fallback: after a map miss it never finds a vendor either. */
  lemma LowerFallbackUnreachable(vendors: seq<Record>, raw: string)
    requires Upper(raw) !in VendorKeyMap(vendors)
    ensures FindFirst(vendors, LowerFieldTest(Lower(raw))) == None
  {
    VendorKeyMapLastOwner(vendors, Upper(raw));
    forall j | 0 <= j < |vendors|
      ensures !LowerFieldTest(Lower(raw))(vendors[j])
    {
      assert !OwnerTest(Upper(raw))(vendors[j]);
      LowerFieldTestIsOwnsKey(vendors[j], raw);
    }
  }
}
