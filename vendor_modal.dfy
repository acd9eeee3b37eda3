/**
 * The vendor form's field declarations and the three field validators.
 *
 * Each validator tests an anchored regular expression made of character
 * classes with repetition counts. The expressions are kept as data
 * (`Pattern`), matched by one backtracking matcher, and each validator's
 * language is then characterised position by position.
 */
module VendorModal {
  import opened Strings
  import opened JsValues

  // ---------------------------------------------------------------- anchored patterns

  /** One member of a bracket class: a range, a single character, or `\s`. */
  datatype ClassItem = Range(lo: char, hi: char) | Single(c: char) | Space

  /** A class repeated between `min` and `max` times: `[...]{min,max}`, `?` is `{0,1}`. */
  datatype Piece = Piece(cls: seq<ClassItem>, min: nat, max: nat)

  /** `^piece piece ...$`. */
  type Pattern = seq<Piece>

  predicate InItem(item: ClassItem, c: char) {
    match item
    case Range(lo, hi) => lo <= c <= hi
    case Single(d) => c == d
    case Space => IsSpace(c)
  }

  predicate InClass(cls: seq<ClassItem>, c: char) {
    exists item :: item in cls && InItem(item, c)
  }

  predicate AllIn(cls: seq<ClassItem>, s: string) {
    forall i :: 0 <= i < |s| ==> InClass(cls, s[i])
  }

  /** The whole of `s` matches the pattern. */
  predicate Matches(p: Pattern, s: string)
    decreases |p|, 1, 0
  {
    if p == [] then s == [] else TryCount(p, s, p[0].min)
  }

  /** The first piece takes `k`, `k + 1`, ... up to `max` characters and the rest matches what remains. */
  predicate TryCount(p: Pattern, s: string, k: nat)
    requires p != []
    decreases |p|, 0, if k <= p[0].max then p[0].max - k else 0
  {
    if k > p[0].max || k > |s| then false
    else
      (AllIn(p[0].cls, s[..k]) && Matches(p[1..], s[k..]))
      || (k < p[0].max && TryCount(p, s, k + 1))
  }

  /** A piece of fixed count `n` takes exactly `n` characters. */
  lemma FixedPiece(p: Pattern, s: string)
    requires p != [] && p[0].min == p[0].max
    ensures Matches(p, s) <==> |s| >= p[0].min && AllIn(p[0].cls, s[..p[0].min]) && Matches(p[1..], s[p[0].min..])
  {
  }

  /** A last piece matches exactly the strings of its class whose length is in range. */
  lemma {:induction false} LastPiece(p: Pattern, s: string, k: nat)
    requires |p| == 1 && k <= p[0].max
    ensures TryCount(p, s, k) <==> k <= |s| <= p[0].max && AllIn(p[0].cls, s)
    decreases p[0].max - k
  {
    if k <= |s| {
      assert Matches(p[1..], s[k..]) <==> k == |s|;
      if k == |s| {
        assert s[..k] == s;
      }
      if k < p[0].max {
        LastPiece(p, s, k + 1);
      }
    }
  }

  /** An optional piece followed by a last piece: take one character of the class, or none. */
  lemma OptionalThenLast(p: Pattern, s: string)
    requires |p| == 2 && p[0].min == 0 && p[0].max == 1
    ensures Matches(p, s) <==>
              (AllIn(p[1].cls, s) && p[1].min <= |s| <= p[1].max)
              || (|s| >= 1 && InClass(p[0].cls, s[0]) && AllIn(p[1].cls, s[1..]) && p[1].min <= |s| - 1 <= p[1].max)
  {
    var rest := p[1..];
    assert rest[0] == p[1];
    assert Matches(p, s) == TryCount(p, s, 0);
    assert TryCount(p, s, 0) == ((AllIn(p[0].cls, s[..0]) && Matches(rest, s[0..])) || TryCount(p, s, 1));
    assert TryCount(p, s, 1) == (|s| >= 1 && AllIn(p[0].cls, s[..1]) && Matches(rest, s[1..]));
    assert Matches(rest, s) == TryCount(rest, s, p[1].min);
    if |s| >= 1 {
      assert Matches(rest, s[1..]) == TryCount(rest, s[1..], p[1].min);
    }
    if p[1].min <= p[1].max {
      LastPiece(rest, s, p[1].min);
      if |s| >= 1 {
        LastPiece(rest, s[1..], p[1].min);
        assert AllIn(p[0].cls, s[..1]) <==> InClass(p[0].cls, s[0]);
      }
    }
    assert s[..0] == [] && s[0..] == s;
  }

  // ---------------------------------------------------------------- the three patterns

  const Upper: seq<ClassItem> := [Range('A', 'Z')]
  const Digit: seq<ClassItem> := [Range('0', '9')]

  /** `/^[A-Z]{5}[0-9]{4}[A-Z]{1}$/`. */
  const PanPattern: Pattern := [Piece(Upper, 5, 5), Piece(Digit, 4, 4), Piece(Upper, 1, 1)]

  /** `/^[A-Z]{4}0[A-Z0-9]{6}$/`. */
  const IfscPattern: Pattern := [Piece(Upper, 4, 4), Piece([Single('0')], 1, 1), Piece([Range('A', 'Z'), Range('0', '9')], 6, 6)]

  /** `/^[\+]?[0-9\s\-\(\)]{10,15}$/`. */
  const PhonePattern: Pattern :=
    [Piece([Single('+')], 0, 1), Piece([Range('0', '9'), Space, Single('-'), Single('('), Single(')')], 10, 15)]

  /** A PAN: five capital letters, four digits, one capital letter. */
  predicate PanShape(s: string) {
    |s| == 10
    && (forall i :: 0 <= i < 5 ==> IsUpperLetter(s[i]))
    && (forall i :: 5 <= i < 9 ==> IsDigit(s[i]))
    && IsUpperLetter(s[9])
  }

  /** An IFSC: four capital letters, a literal zero, six capital letters or digits. */
  predicate IfscShape(s: string) {
    |s| == 11
    && (forall i :: 0 <= i < 4 ==> IsUpperLetter(s[i]))
    && s[4] == '0'
    && (forall i :: 5 <= i < 11 ==> IsUpperLetter(s[i]) || IsDigit(s[i]))
  }

  /** The characters a phone number may hold after an optional '+'. */
  predicate PhoneChar(c: char) {
    IsDigit(c) || IsSpace(c) || c == '-' || c == '(' || c == ')'
  }

  /** A phone number: an optional '+', then 10 to 15 digits, blanks, hyphens or parentheses. */
  predicate PhoneShape(s: string) {
    if |s| > 0 && s[0] == '+' then PhoneBody(s[1..]) else PhoneBody(s)
  }

  /** 10 to 15 phone characters. */
  predicate PhoneBody(s: string) {
    10 <= |s| <= 15 && forall i :: 0 <= i < |s| ==> PhoneChar(s[i])
  }

  lemma AllInUpper(s: string)
    ensures AllIn(Upper, s) <==> forall i :: 0 <= i < |s| ==> IsUpperLetter(s[i])
  {
    forall c: char ensures InClass(Upper, c) <==> IsUpperLetter(c) {
      assert InClass(Upper, c) ==> InItem(Range('A', 'Z'), c);
      assert Range('A', 'Z') in Upper;
    }
  }

  lemma AllInDigit(s: string)
    ensures AllIn(Digit, s) <==> forall i :: 0 <= i < |s| ==> IsDigit(s[i])
  {
    forall c: char ensures InClass(Digit, c) <==> IsDigit(c) {
      assert InClass(Digit, c) ==> InItem(Range('0', '9'), c);
      assert Range('0', '9') in Digit;
    }
  }

  /** The PAN pattern matches exactly the PAN shape. */
  lemma PanPatternIff(s: string)
    ensures Matches(PanPattern, s) <==> PanShape(s)
  {
    var p := PanPattern;
    FixedPiece(p, s);
    if |s| >= 5 {
      FixedPiece(p[1..], s[5..]);
      if |s| >= 9 {
        FixedPiece(p[2..], s[9..]);
        assert p[3..] == [];
        AllInUpper(s[..5]);
        AllInDigit(s[5..][..4]);
        assert s[5..][4..] == s[9..];
        if |s| >= 10 {
          AllInUpper(s[9..][..1]);
        }
        if |s| == 10 {
          forall i | 5 <= i < 9 ensures s[i] == s[5..][..4][i - 5] {}
          assert s[9] == s[9..][..1][0];
        }
      }
    }
  }

  /** The IFSC pattern matches exactly the IFSC shape. */
  lemma IfscPatternIff(s: string)
    ensures Matches(IfscPattern, s) <==> IfscShape(s)
  {
    var p := IfscPattern;
    var alnum := [Range('A', 'Z'), Range('0', '9')];
    FixedPiece(p, s);
    if |s| >= 4 {
      FixedPiece(p[1..], s[4..]);
      if |s| >= 5 {
        FixedPiece(p[2..], s[5..]);
        assert p[3..] == [];
        AllInUpper(s[..4]);
        assert AllIn([Single('0')], s[4..][..1]) <==> s[4] == '0' by {
          assert s[4..][..1][0] == s[4];
          assert InClass([Single('0')], s[4]) ==> InItem(Single('0'), s[4]);
          assert Single('0') in [Single('0')];
        }
        assert s[4..][1..] == s[5..];
        if |s| == 11 {
          var tail := s[5..][..6];
          forall i | 0 <= i < 6 ensures InClass(alnum, tail[i]) <==> IsUpperLetter(s[i + 5]) || IsDigit(s[i + 5]) {
            assert tail[i] == s[i + 5];
            assert InClass(alnum, tail[i]) ==> InItem(Range('A', 'Z'), tail[i]) || InItem(Range('0', '9'), tail[i]);
            assert Range('A', 'Z') in alnum && Range('0', '9') in alnum;
          }
          assert AllIn(alnum, tail) <==> forall i :: 5 <= i < 11 ==> IsUpperLetter(s[i]) || IsDigit(s[i]) by {
            if forall i :: 5 <= i < 11 ==> IsUpperLetter(s[i]) || IsDigit(s[i]) {
              forall i | 0 <= i < 6 ensures InClass(alnum, tail[i]) {
                assert IsUpperLetter(s[i + 5]) || IsDigit(s[i + 5]);
              }
            }
            if AllIn(alnum, tail) {
              forall i | 5 <= i < 11 ensures IsUpperLetter(s[i]) || IsDigit(s[i]) {
                assert InClass(alnum, tail[i - 5]);
              }
            }
          }
        }
      }
    }
  }

  lemma PhoneClassIff(c: char)
    ensures InClass(PhonePattern[1].cls, c) <==> PhoneChar(c)
  {
    var cls := PhonePattern[1].cls;
    if PhoneChar(c) {
      if IsDigit(c) { assert InItem(cls[0], c); }
      else if IsSpace(c) { assert InItem(cls[1], c); }
      else if c == '-' { assert InItem(cls[2], c); }
      else if c == '(' { assert InItem(cls[3], c); }
      else { assert InItem(cls[4], c); }
    }
  }

  lemma AllInPhone(s: string)
    ensures AllIn(PhonePattern[1].cls, s) <==> forall i :: 0 <= i < |s| ==> PhoneChar(s[i])
  {
    forall i | 0 <= i < |s| ensures InClass(PhonePattern[1].cls, s[i]) <==> PhoneChar(s[i]) {
      PhoneClassIff(s[i]);
    }
  }

  /** The phone pattern matches exactly the phone shape; a '+' can only come first. */
  lemma PhonePatternIff(s: string)
    ensures Matches(PhonePattern, s) <==> PhoneShape(s)
  {
    var cls := PhonePattern[1].cls;
    OptionalThenLast(PhonePattern, s);
    AllInPhone(s);
    if |s| > 0 {
      AllInPhone(s[1..]);
      assert InClass(PhonePattern[0].cls, s[0]) <==> s[0] == '+' by {
        assert PhonePattern[0].cls == [Single('+')];
        assert InClass([Single('+')], s[0]) ==> InItem(Single('+'), s[0]);
        assert Single('+') in [Single('+')];
      }
      PhoneClassIff(s[0]);
      if s[0] == '+' {
        assert !AllIn(cls, s) by {
          assert !InClass(cls, s[0]);
        }
      }
    }
  }

  // ---------------------------------------------------------------- validators

  const PanMessage: string := "Invalid PAN format (e.g., XXXXX1234X)"
  const IfscMessage: string := "Invalid IFSC format (e.g., SBIN0000123)"
  const PhoneMessage: string := "Invalid phone number format"

  /** `value && !pattern.test(value) ? message : null`. */
  function Check(p: Pattern, message: string, value: string): (r: Option<string>)
    ensures r == None <==> value == "" || Matches(p, value)
    ensures r.Some? ==> r.value == message
  {
    if value != "" && !Matches(p, value) then Some(message) else None
  }

  /** The PAN validator accepts the empty value and exactly the PAN shape. */
  lemma ValidatePanSpec(value: string)
    ensures var r := Check(PanPattern, PanMessage, value);
            (r == None <==> value == "" || PanShape(value)) && (r.Some? ==> r.value == PanMessage)
  {
    PanPatternIff(value);
  }

  /** The IFSC validator accepts the empty value and exactly the IFSC shape. */
  lemma ValidateIfscSpec(value: string)
    ensures var r := Check(IfscPattern, IfscMessage, value);
            (r == None <==> value == "" || IfscShape(value)) && (r.Some? ==> r.value == IfscMessage)
  {
    IfscPatternIff(value);
  }

  /** The phone validator accepts the empty value and exactly the phone shape. */
  lemma ValidatePhoneSpec(value: string)
    ensures var r := Check(PhonePattern, PhoneMessage, value);
            (r == None <==> value == "" || PhoneShape(value)) && (r.Some? ==> r.value == PhoneMessage)
  {
    PhonePatternIff(value);
  }

  // ---------------------------------------------------------------- field declarations

  /** Which validator a field declares, if any. */
  datatype Validator = NoCheck | PanCheck | IfscCheck | PhoneCheck

  /** A declared form field: its name, whether it is required, its options (a select) and its validator. */
  datatype Field = Field(name: string, required: bool, options: seq<string>, validator: Validator)

  /** The vendor form's fields, in declaration order. */
  const VendorFields: seq<Field> := [
    Field("type", true, ["SC", "HS"], NoCheck),
    Field("vendor_name", true, [], NoCheck),
    Field("work_type", true, [], NoCheck),
    Field("pan_no", false, [], PanCheck),
    Field("bank_ac_no", false, [], NoCheck),
    Field("ifsc", false, [], IfscCheck),
    Field("contact_no", false, [], PhoneCheck),
    Field("address", false, [], NoCheck),
    Field("notes", false, [], NoCheck)
  ]

  /** The names of the required fields, in declaration order. */
  function RequiredNames(fields: seq<Field>): (names: seq<string>)
    ensures forall n :: n in names <==> exists i :: 0 <= i < |fields| && fields[i].required && fields[i].name == n
  {
    if fields == [] then []
    else (if fields[0].required then [fields[0].name] else []) + RequiredNames(fields[1..])
  }

  /** Type, vendor name and work type are required, and nothing else; type is SC or HS. */
  lemma VendorFieldsDeclared()
    ensures RequiredNames(VendorFields) == ["type", "vendor_name", "work_type"]
    ensures VendorFields[0].name == "type" && VendorFields[0].options == ["SC", "HS"]
  {
    var f := VendorFields;
    assert RequiredNames(f[3..]) == [] by {
      NoneRequired(f[3..]);
    }
    assert f[3..] == f[1..][1..][1..];
  }

  /** A list of optional fields requires nothing. */
  lemma {:induction false} NoneRequired(fields: seq<Field>)
    requires forall i :: 0 <= i < |fields| ==> !fields[i].required
    ensures RequiredNames(fields) == []
  {
    if fields != [] {
      NoneRequired(fields[1..]);
    }
  }

  /** The validator a field declares, applied to a value. */
  function ValidateField(f: Field, value: string): (r: Option<string>)
    ensures f.validator == NoCheck ==> r == None
    ensures value == "" ==> r == None
  {
    match f.validator
    case NoCheck => None
    case PanCheck => Check(PanPattern, PanMessage, value)
    case IfscCheck => Check(IfscPattern, IfscMessage, value)
    case PhoneCheck => Check(PhonePattern, PhoneMessage, value)
  }
}
