/**
 * JavaScript values as the application's plain objects hold them, the
 * coercions it applies to them (`Number(x)`, `parseFloat(x)`, `x || d`,
 * truthiness) and the two rounding functions of the entry calculators.
 *
 * A plain object is a map from keys to values; a missing key reads as
 * `undefined`, and an object spread `{...a, ...b}` is the map union
 * `a + b`, in which the right operand wins.
 *
 * Numbers are exact reals. Number parsing accepts plain decimal literals
 * only (an optional sign, digits, an optional fraction); every other
 * non-blank string (hexadecimal, exponents, `Infinity`, trailing junk)
 * reads as NaN.
 */
module JsValues {
  import opened Strings

  datatype Option<+T> = None | Some(value: T)

  datatype Value = Undefined | Null | NaN | Str(s: string) | Num(n: real)

  type Record = map<string, Value>

  /** `obj[key]`: a missing key reads as `undefined`. */
  function Get(r: Record, key: string): (v: Value)
    ensures key !in r ==> v == Undefined
  {
    if key in r then r[key] else Undefined
  }

  /** A string-valued field, with every non-string (absent, null, number) read as the empty string. */
  function Text(r: Record, key: string): string {
    if Get(r, key).Str? then Get(r, key).s else ""
  }

  predicate Truthy(v: Value) {
    match v
    case Str(s) => s != ""
    case Num(n) => n != 0.0
    case _ => false
  }

  /** `v == null`, which holds for both `null` and `undefined`. */
  predicate IsNullish(v: Value) {
    v == Undefined || v == Null
  }

  // ---------------------------------------------------------------- decimal literals

  function Pow10(k: nat): (p: real)
    ensures p >= 1.0
  {
    if k == 0 then 1.0 else 10.0 * Pow10(k - 1)
  }

  /** An unsigned decimal literal: digits, or digits '.' digits with at least one digit overall. */
  function ParseUnsigned(s: string): Option<real> {
    var dot := IndexOf(s, ".");
    if dot < 0 then
      if s != [] && AllDigits(s) then Some(DigitsValue(s) as real) else None
    else
      var whole, frac := s[..dot], s[dot + 1..];
      if AllDigits(whole) && AllDigits(frac) && |whole| + |frac| > 0
      then Some(DigitsValue(whole) as real + DigitsValue(frac) as real / Pow10(|frac|))
      else None
  }

  /** A decimal literal with an optional leading sign. */
  function ParseDecimal(s: string): Option<real> {
    if s != [] && s[0] == '-' then
      match ParseUnsigned(s[1..])
      case Some(v) => Some(-v)
      case None => None
    else if s != [] && s[0] == '+' then ParseUnsigned(s[1..])
    else ParseUnsigned(s)
  }

  /** A literal without any digit is never a number. */
  lemma ParseUnsignedNoDigit(s: string)
    requires NoDigit(s)
    ensures ParseUnsigned(s) == None
  {
    var dot := IndexOf(s, ".");
    if dot < 0 {
      if s != [] {
        assert !IsDigit(s[0]);
      }
    } else {
      var whole, frac := s[..dot], s[dot + 1..];
      assert !(AllDigits(whole) && AllDigits(frac) && |whole| + |frac| > 0) by {
        if |whole| > 0 {
          assert !IsDigit(whole[0]);
        } else if |frac| > 0 {
          assert !IsDigit(frac[0]);
        }
      }
    }
  }

  lemma ParseDecimalNoDigit(s: string)
    requires NoDigit(s)
    ensures ParseDecimal(s) == None
  {
    if s != [] {
      assert NoDigit(s[1..]) by {
        forall i | 0 <= i < |s[1..]| ensures !IsDigit(s[1..][i]) {
          assert s[1..][i] == s[i + 1];
        }
      }
      ParseUnsignedNoDigit(s[1..]);
    }
    ParseUnsignedNoDigit(s);
  }

  /** The printed form of a natural number reads back as that number. */
  lemma ParseDecimalNatToString(n: nat)
    ensures ParseDecimal(NatToString(n)) == Some(n as real)
  {
    var s := NatToString(n);
    NoDotInDigits(s);
    assert !IsDigit('-') && !IsDigit('+');
    DigitsValueOfNatToString(n);
  }

  /** A string of digits reads as the number it spells. */
  lemma ParseDecimalDigits(s: string)
    requires s != [] && AllDigits(s)
    ensures ParseDecimal(s) == Some(DigitsValue(s) as real)
  {
    NoDotInDigits(s);
  }

  /** A string of digits holds no '.': no position starts one. */
  lemma NoDotInDigits(s: string)
    requires AllDigits(s)
    ensures IndexOf(s, ".") == -1
  {
    forall j | 0 <= j <= |s| ensures !StartsWith(s[j..], ".") {
      if j < |s| {
        assert s[j..][0] == s[j] && IsDigit(s[j]);
      }
    }
  }

  /** The first '.' after a run of digits is the one right after it. */
  lemma DotAfterDigits(w: string, f: string)
    requires AllDigits(w)
    ensures IndexOf(w + "." + f, ".") == |w|
  {
    var h := w + "." + f;
    assert h[|w|..][..1] == ".";
    forall j | 0 <= j < |w| ensures !StartsWith(h[j..], ".") {
      assert h[j..][0] == w[j] && IsDigit(w[j]);
    }
  }

  /** Digits, a '.', and digits read as the whole part plus the fraction. */
  lemma ParseUnsignedFraction(h: string, w: string, f: string)
    requires h == w + "." + f
    requires AllDigits(w) && AllDigits(f) && |w| + |f| > 0
    ensures ParseUnsigned(h) == Some(DigitsValue(w) as real + DigitsValue(f) as real / Pow10(|f|))
  {
    DotAfterDigits(w, f);
    var dot := IndexOf(h, ".");
    assert dot == |w|;
    assert h[..dot] == w;
    assert h[dot + 1..] == f;
  }

  // ---------------------------------------------------------------- coercions

  /** `Number(s)` for a string: blank strings are 0. */
  function StringToNumber(s: string): Option<real> {
    var t := Trim(s);
    if t == "" then Some(0.0) else ParseDecimal(t)
  }

  /** `Number(v)`; `None` stands for NaN. */
  function Number(v: Value): Option<real> {
    match v
    case Undefined => None
    case Null => Some(0.0)
    case NaN => None
    case Num(n) => Some(n)
    case Str(s) => StringToNumber(s)
  }

  /** `parseFloat(v)`; unlike `Number`, the empty string and `null` are NaN. */
  function ParseFloat(v: Value): Option<real> {
    match v
    case Num(n) => Some(n)
    case Str(s) => var t := Trim(s); if t == "" then None else ParseDecimal(t)
    case _ => None
  }

  /** `x || d` where `x` is a number: NaN and 0 both give the default. */
  function Or(x: Option<real>, d: real): (r: real)
    ensures x == Some(r) || r == d
    ensures (x == None || x == Some(0.0)) ==> r == d
    ensures x.Some? && x.value != 0.0 ==> r == x.value
  {
    if x.Some? && x.value != 0.0 then x.value else d
  }

  /** `parseFloat(obj[key]) || d`, the calculators' reading of an amount field. */
  function FieldFloat(r: Record, key: string, d: real): real {
    Or(ParseFloat(Get(r, key)), d)
  }

  /** A computed JavaScript number stored back into an object. */
  function NumberValue(x: Option<real>): (v: Value)
    ensures Number(v) == x
  {
    match x
    case Some(n) => Num(n)
    case None => NaN
  }

  // ---------------------------------------------------------------- number inputs

  /** What the number inputs store: the empty string, or a number. */
  predicate NumericField(v: Value) {
    v == Str("") || v.Num?
  }

  /** `raw === "" ? "" : Number(raw) || 0`, what a number input stores. */
  function NumberInput(raw: string): (v: Value)
    ensures NumericField(v)
    ensures raw == "" <==> v == Str("")
    ensures forall n :: raw != "" && StringToNumber(raw) == Some(n) ==> v == Num(n)
    ensures raw != "" && StringToNumber(raw).None? ==> v == Num(0.0)
  {
    if raw == "" then Str("") else Num(Or(StringToNumber(raw), 0.0))
  }

  /** A number input always reads as a number; the empty string as 0. */
  lemma NumericFieldNumber(v: Value)
    requires NumericField(v)
    ensures Number(v) == if v.Num? then Some(v.n) else Some(0.0)
  {
    if v == Str("") {
      assert Trim("") == "";
    }
  }

  // ---------------------------------------------------------------- rounding

  /** `Math.round(v)`: halves round towards +infinity. */
  function RoundInt(v: real): (r: real)
    ensures r.Floor as real == r
    ensures r - 0.5 <= v < r + 0.5
  {
    (v + 0.5).Floor as real
  }

  /** `Math.round(v * 100) / 100` (the subcontractor calculator's `round2`, without its epsilon). */
  function Round2(v: real): real {
    (v * 100.0 + 0.5).Floor as real / 100.0
  }

  /** An amount in whole paise: a whole number of hundredths. */
  predicate IsCents(x: real) {
    (x * 100.0).Floor as real == x * 100.0
  }

  /** `round2` lands on whole paise, within half a paisa of its argument. */
  lemma Round2Spec(v: real)
    ensures IsCents(Round2(v))
    ensures Round2(v) - 0.005 <= v < Round2(v) + 0.005
  {
    var k := (v * 100.0 + 0.5).Floor;
    assert Round2(v) * 100.0 == k as real;
  }

  /** An amount already in whole paise is left unchanged by `round2`. */
  lemma Round2OfCents(x: real)
    requires IsCents(x)
    ensures Round2(x) == x
  {
    var k := (x * 100.0).Floor;
    assert (x * 100.0 + 0.5).Floor == k;
  }

  /** `round2` is idempotent. */
  lemma Round2Idempotent(v: real)
    ensures Round2(Round2(v)) == Round2(v)
  {
    Round2Spec(v);
    Round2OfCents(Round2(v));
  }

  lemma CentsClosed(a: real, b: real)
    requires IsCents(a) && IsCents(b)
    ensures IsCents(a + b) && IsCents(a - b)
  {
    var ka, kb := (a * 100.0).Floor, (b * 100.0).Floor;
    assert a * 100.0 == ka as real && b * 100.0 == kb as real;
    assert (a + b) * 100.0 == a * 100.0 + b * 100.0;
    assert (a - b) * 100.0 == a * 100.0 - b * 100.0;
    assert ((ka + kb) as real).Floor == ka + kb;
    assert ((ka - kb) as real).Floor == ka - kb;
  }

  lemma IntegerIsCents(x: real)
    requires x.Floor as real == x
    ensures IsCents(x)
  {
    var k := x.Floor;
    assert x * 100.0 == (k * 100) as real;
    assert ((k * 100) as real).Floor == k * 100;
  }
}
