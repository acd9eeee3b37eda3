/**
 * The pure helpers of the payments page: vendor-code normalisation and
 * equivalence, the vendor lookup by code, the vendor-name column, the CSV row
 * escaper of the export, and the truncation of long table cells.
 */
module PaymentPage {
  import opened Strings
  import opened JsValues
  import opened RecordLists

  // ---------------------------------------------------------------- splitting on separator runs

  /** A character of the class `[_\s-]`. */
  predicate IsSep(c: char) {
    c == '_' || c == '-' || IsSpace(c)
  }

  predicate NoSep(s: string) {
    forall i :: 0 <= i < |s| ==> !IsSep(s[i])
  }

  /** The index of the first separator, or `|s|`. */
  function FirstSep(s: string): (i: nat)
    ensures i <= |s| && NoSep(s[..i])
    ensures i < |s| ==> IsSep(s[i])
  {
    if s == [] || IsSep(s[0]) then 0 else 1 + FirstSep(s[1..])
  }

  /** `s` without its leading run of separators. */
  function DropSeps(s: string): (r: string)
    ensures |r| <= |s| && r == s[|s| - |r|..]
    ensures r != [] ==> !IsSep(r[0])
  {
    if s != [] && IsSep(s[0]) then DropSeps(s[1..]) else s
  }

  /**
   * `s.split(/[_\s-]+/)`: the pieces between maximal runs of separators; a leading
   * or trailing run gives an empty first or last piece, and "" gives [""].
   */
  function SplitRuns(s: string): (parts: seq<string>)
    ensures |parts| >= 1
    ensures forall k :: 0 <= k < |parts| ==> NoSep(parts[k])
    ensures NoSep(s) <==> parts == [s]
    decreases |s|
  {
    var i := FirstSep(s);
    if i == |s| then
      assert s[..i] == s;
      [s]
    else
      [s[..i]] + SplitRuns(DropSeps(s[i..]))
  }

  predicate AllSeps(s: string) {
    forall i :: 0 <= i < |s| ==> IsSep(s[i])
  }

  /** `s` with every separator dropped. */
  function RemoveSeps(s: string): (r: string)
    ensures NoSep(r) && |r| <= |s|
  {
    if s == [] then []
    else if IsSep(s[0]) then RemoveSeps(s[1..])
    else [s[0]] + RemoveSeps(s[1..])
  }

  lemma {:induction false} RemoveSepsAppend(a: string, b: string)
    ensures RemoveSeps(a + b) == RemoveSeps(a) + RemoveSeps(b)
  {
    if a != [] {
      var ab := a + b;
      assert ab[0] == a[0] && ab[1..] == a[1..] + b;
      RemoveSepsAppend(a[1..], b);
      var x, y := RemoveSeps(a[1..]), RemoveSeps(b);
      if !IsSep(a[0]) {
        assert RemoveSeps(ab) == [a[0]] + (x + y);
        assert [a[0]] + (x + y) == ([a[0]] + x) + y;
      }
    } else {
      assert a + b == b;
    }
  }

  lemma {:induction false} RemoveSepsNoSep(s: string)
    requires NoSep(s)
    ensures RemoveSeps(s) == s
  {
    if s != [] {
      RemoveSepsNoSep(s[1..]);
    }
  }

  lemma {:induction false} RemoveSepsDropSeps(s: string)
    ensures RemoveSeps(DropSeps(s)) == RemoveSeps(s)
  {
    if s != [] && IsSep(s[0]) {
      RemoveSepsDropSeps(s[1..]);
    }
  }

  /** A run of separators followed by a word start is dropped whole. */
  lemma {:induction false} DropSepsRun(r: string, t: string)
    requires AllSeps(r) && (t == [] || !IsSep(t[0]))
    ensures DropSeps(r + t) == t
  {
    if r == [] {
      assert r + t == t;
    } else {
      assert (r + t)[0] == r[0] && (r + t)[1..] == r[1..] + t;
      DropSepsRun(r[1..], t);
    }
  }

  /** `parts.join("")`. */
  function Concat(parts: seq<string>): (r: string)
    ensures (forall k :: 0 <= k < |parts| ==> NoSep(parts[k])) ==> NoSep(r)
  {
    if parts == [] then "" else parts[0] + Concat(parts[1..])
  }

  // ---------------------------------------------------------------- normalisation

  /**
   * The three shapes a normalised code takes: a single uppercased word, a prefix
   * with the number read from the digits of the rest, or a prefix with a rest
   * that holds no digit at all.
   */
  datatype CodeForm = Single(whole: string) | Numbered(prefix: string, number: nat) | Raw(prefix: string, rest: string)

  function CodeFormOf(code: string): CodeForm {
    var parts := SplitRuns(Trim(code));
    if |parts| == 1 then Single(Upper(parts[0]))
    else
      var numPart := Concat(parts[1..]);
      var digits := KeepDigits(numPart);
      if digits == [] then Raw(Upper(parts[0]), numPart) else Numbered(Upper(parts[0]), DigitsValue(digits))
  }

  /** The template strings `PREFIX_N` and `PREFIX_rest`. */
  function Render(f: CodeForm): string {
    match f
    case Single(w) => w
    case Numbered(p, n) => p + "_" + NatToString(n)
    case Raw(p, rest) => p + "_" + rest
  }

  /** `normalizeVendorCode`: "" for a falsy code. */
  function NormalizeVendorCode(code: string): string {
    if code == "" then "" else Render(CodeFormOf(code))
  }

  /** No underscore outside the one the template adds; a raw rest has neither separators nor digits. */
  predicate WellFormed(f: CodeForm) {
    match f
    case Single(w) => '_' !in w
    case Numbered(p, _) => '_' !in p
    case Raw(p, rest) => '_' !in p && NoSep(rest) && NoDigit(rest)
  }

  lemma NoSepNoUnderscore(s: string)
    requires NoSep(s)
    ensures '_' !in s
  {
  }

  lemma CodeFormWellFormed(code: string)
    ensures WellFormed(CodeFormOf(code))
  {
    var parts := SplitRuns(Trim(code));
    NoSepNoUnderscore(parts[0]);
    UpperKeepsChar(parts[0], '_');
    if |parts| > 1 {
      var numPart := Concat(parts[1..]);
      assert NoSep(numPart);
    }
  }

  /** Splitting a rendered code on "_" gives back its pieces. */
  lemma RenderedParts(f: CodeForm)
    requires WellFormed(f)
    ensures var p := SplitOn(Render(f), '_');
            match f
            case Single(w) => p == [w]
            case Numbered(pre, n) => p == [pre, NatToString(n)]
            case Raw(pre, rest) => p == [pre, rest]
  {
    match f
    case Single(w) =>
      SplitOnAbsent(w, '_');
    case Numbered(pre, n) =>
      SplitOnFirst(pre, '_', NatToString(n));
      SplitOnAbsent(NatToString(n), '_');
    case Raw(pre, rest) =>
      NoSepNoUnderscore(rest);
      SplitOnFirst(pre, '_', rest);
      SplitOnAbsent(rest, '_');
  }

  // ---------------------------------------------------------------- equivalence

  /** `pa[1] ? Number(pa[1]) : NaN`. */
  function TailNumber(p: seq<string>): Option<real> {
    if |p| > 1 && p[1] != "" then StringToNumber(p[1]) else None
  }

  /** `sameVendorCode(a, b)`. */
  function SameVendorCode(a: string, b: string): bool {
    if a == "" || b == "" then false
    else SameNormalized(NormalizeVendorCode(a), NormalizeVendorCode(b))
  }

  /** The comparison of two normalised codes: prefixes, then numeric tails, then the whole strings. */
  function SameNormalized(na: string, nb: string): bool {
    var pa, pb := SplitOn(na, '_'), SplitOn(nb, '_');
    if pa[0] != pb[0] then false
    else if |pa| == 1 && |pb| == 1 then pa[0] == pb[0]
    else
      var naNum, nbNum := TailNumber(pa), TailNumber(pb);
      if naNum.Some? && nbNum.Some? then naNum == nbNum else na == nb
  }

  /** Only a numbered code has a numeric tail, and it is the code's number. */
  lemma TailNumberOfForm(f: CodeForm)
    requires WellFormed(f)
    ensures TailNumber(SplitOn(Render(f), '_')) == if f.Numbered? then Some(f.number as real) else None
  {
    var p := SplitOn(Render(f), '_');
    match f
    case Single(w) =>
      assert p == [w] by {
        RenderedParts(f);
      }
    case Numbered(pre, n) =>
      assert p == [pre, NatToString(n)] by {
        RenderedParts(f);
      }
      NumberOfNatToString(n);
    case Raw(pre, rest) =>
      assert p == [pre, rest] by {
        RenderedParts(f);
      }
      if rest != "" {
        NumberOfRawRest(rest);
      }
  }

  lemma NumberOfNatToString(n: nat)
    ensures StringToNumber(NatToString(n)) == Some(n as real)
  {
    TrimNoSpace(NatToString(n));
    ParseDecimalNatToString(n);
  }

  lemma NumberOfRawRest(rest: string)
    requires rest != "" && NoSep(rest) && NoDigit(rest)
    ensures StringToNumber(rest) == None
  {
    assert NoSpace(rest) by {
      forall i | 0 <= i < |rest| ensures !IsSpace(rest[i]) {
        assert !IsSep(rest[i]);
      }
    }
    TrimNoSpace(rest);
    ParseDecimalNoDigit(rest);
  }

  /**
   * Two codes are the same vendor code exactly when both are non-empty and they
   * normalise to the same string.
   */
  lemma SameVendorCodeIff(a: string, b: string)
    ensures SameVendorCode(a, b) <==> a != "" && b != "" && NormalizeVendorCode(a) == NormalizeVendorCode(b)
  {
    if a != "" && b != "" {
      CodeFormWellFormed(a);
      CodeFormWellFormed(b);
      SameNormalizedForms(CodeFormOf(a), CodeFormOf(b));
    }
  }

  /** On well-formed normalised codes the comparison is plain string equality. */
  lemma SameNormalizedForms(fa: CodeForm, fb: CodeForm)
    requires WellFormed(fa) && WellFormed(fb)
    ensures SameNormalized(Render(fa), Render(fb)) <==> Render(fa) == Render(fb)
  {
    var na, nb := Render(fa), Render(fb);
    var pa, pb := SplitOn(na, '_'), SplitOn(nb, '_');
    assert |pa| == 1 <==> fa.Single? by {
      RenderedParts(fa);
    }
    assert |pb| == 1 <==> fb.Single? by {
      RenderedParts(fb);
    }
    assert pa[0] == (if fa.Single? then fa.whole else fa.prefix) by {
      RenderedParts(fa);
    }
    assert pb[0] == (if fb.Single? then fb.whole else fb.prefix) by {
      RenderedParts(fb);
    }
    assert TailNumber(pa) == if fa.Numbered? then Some(fa.number as real) else None by {
      TailNumberOfForm(fa);
    }
    assert TailNumber(pb) == if fb.Numbered? then Some(fb.number as real) else None by {
      TailNumberOfForm(fb);
    }
    if fa.Numbered? && fb.Numbered? && fa.prefix == fb.prefix && fa.number as real == fb.number as real {
      assert fa.number == fb.number;
      assert fa == fb;
    }
  }

  /** `sameVendorCode` is false whenever either code is empty. */
  lemma SameVendorCodeEmpty(a: string)
    ensures !SameVendorCode(a, "") && !SameVendorCode("", a)
  {
  }

  lemma SameVendorCodeReflexive(a: string)
    requires a != ""
    ensures SameVendorCode(a, a)
  {
    SameVendorCodeIff(a, a);
  }

  lemma SameVendorCodeSymmetric(a: string, b: string)
    ensures SameVendorCode(a, b) == SameVendorCode(b, a)
  {
    SameVendorCodeIff(a, b);
    SameVendorCodeIff(b, a);
  }

  lemma SameVendorCodeTransitive(a: string, b: string, c: string)
    requires SameVendorCode(a, b) && SameVendorCode(b, c)
    ensures SameVendorCode(a, c)
  {
    SameVendorCodeIff(a, b);
    SameVendorCodeIff(b, c);
    SameVendorCodeIff(a, c);
  }

  lemma FirstSepAfterWord(a: string, rest: string)
    requires NoSep(a) && rest != [] && IsSep(rest[0])
    ensures FirstSep(a + rest) == |a|
  {
    if a != [] {
      assert (a + rest)[1..] == a[1..] + rest;
      FirstSepAfterWord(a[1..], rest);
    }
  }

  /** A word, one separator and a word split into the two words. */
  lemma SplitRunsTwoWords(a: string, c: char, b: string)
    requires NoSep(a) && IsSep(c) && NoSep(b)
    ensures SplitRuns(a + [c] + b) == [a, b]
  {
    var s := a + [c] + b;
    FirstSepAfterWord(a, [c] + b);
    assert s == a + ([c] + b);
    assert s[..|a|] == a;
    assert s[|a|..] == [c] + b;
    assert DropSeps([c] + b) == b by {
      assert ([c] + b)[1..] == b;
    }
  }

  /** A first word, a maximal run of separators, and the rest: the word is the first piece. */
  lemma SplitRunsCons(a: string, r: string, t: string)
    requires NoSep(a) && r != [] && AllSeps(r) && (t == [] || !IsSep(t[0]))
    ensures SplitRuns(a + r + t) == [a] + SplitRuns(t)
  {
    var s := a + r + t;
    assert s == a + (r + t);
    FirstSepAfterWord(a, r + t);
    assert s[..|a|] == a;
    assert s[|a|..] == r + t;
    DropSepsRun(r, t);
  }

  /** The pieces of the split, joined, are the text with its separators removed. */
  lemma {:induction false} ConcatSplitRuns(s: string)
    ensures Concat(SplitRuns(s)) == RemoveSeps(s)
    decreases |s|
  {
    var i := FirstSep(s);
    if i == |s| {
      ConcatSplitRunsWord(s);
    } else {
      var rest := DropSeps(s[i..]);
      ConcatSplitRunsStep(s);
      RemoveSepsStep(s, i);
      ConcatSplitRuns(rest);
    }
  }

  /** Text without a separator is a single piece, kept whole by both sides. */
  lemma ConcatSplitRunsWord(s: string)
    requires FirstSep(s) == |s|
    ensures Concat(SplitRuns(s)) == RemoveSeps(s)
  {
    assert NoSep(s) by {
      assert s[..|s|] == s;
    }
    assert Concat([s]) == s + Concat([]);
    RemoveSepsNoSep(s);
  }

  /** Removing the separators keeps a leading word and removes them from what follows its run. */
  lemma RemoveSepsStep(s: string, i: nat)
    requires i <= |s| && NoSep(s[..i])
    ensures RemoveSeps(s) == s[..i] + RemoveSeps(DropSeps(s[i..]))
  {
    var w, u := s[..i], s[i..];
    assert RemoveSeps(s) == RemoveSeps(w + u) by {
      assert w + u == s;
    }
    RemoveSepsAfterWord(w, u);
  }

  /** One step of the split, joined: the first word, then the joined pieces after the run. */
  lemma ConcatSplitRunsStep(s: string)
    requires FirstSep(s) < |s|
    ensures var i := FirstSep(s);
            |DropSeps(s[i..])| < |s| && Concat(SplitRuns(s)) == s[..i] + Concat(SplitRuns(DropSeps(s[i..])))
  {
    var i := FirstSep(s);
    var parts := SplitRuns(s);
    assert parts[0] == s[..i] && parts[1..] == SplitRuns(DropSeps(s[i..]));
  }

  /** A word without separators is kept whole, and a run of separators after it goes. */
  lemma RemoveSepsAfterWord(w: string, u: string)
    requires NoSep(w)
    ensures RemoveSeps(w + u) == w + RemoveSeps(DropSeps(u))
  {
    RemoveSepsAppend(w, u);
    RemoveSepsNoSep(w);
    RemoveSepsDropSeps(u);
  }

  /** Separators are not digits, so removing them keeps every digit. */
  lemma {:induction false} KeepDigitsRemoveSeps(s: string)
    ensures KeepDigits(RemoveSeps(s)) == KeepDigits(s)
  {
    if s != [] {
      KeepDigitsRemoveSeps(s[1..]);
      if !IsSep(s[0]) {
        assert KeepDigits([s[0]] + RemoveSeps(s[1..])) == KeepDigits(s[..1]) + KeepDigits(RemoveSeps(s[1..])) by {
          assert ([s[0]] + RemoveSeps(s[1..]))[1..] == RemoveSeps(s[1..]);
        }
      }
    }
  }

  /** A code with no separator normalises to its trimmed text, uppercased whole. */
  lemma NormalizeSingleWord(code: string)
    requires code != "" && NoSep(Trim(code))
    ensures NormalizeVendorCode(code) == Upper(Trim(code))
  {
  }

  /**
   * A code whose trimmed text is a first word `a`, a run of separators `r` and a rest `t`:
   * the uppercased word, "_", and then the number spelt by every digit of `t`, or, when
   * `t` holds no digit, `t` with its separators removed and its case kept.
   */
  lemma NormalizeSplitCode(code: string, a: string, r: string, t: string)
    requires code != "" && Trim(code) == a + r + t
    requires NoSep(a) && r != [] && AllSeps(r) && (t == [] || !IsSep(t[0]))
    ensures KeepDigits(t) != [] ==>
              NormalizeVendorCode(code) == Upper(a) + "_" + NatToString(DigitsValue(KeepDigits(t)))
    ensures KeepDigits(t) == [] ==> NormalizeVendorCode(code) == Upper(a) + "_" + RemoveSeps(t)
  {
    SplitRunsCons(a, r, t);
    var parts := SplitRuns(Trim(code));
    assert parts[0] == a && parts[1..] == SplitRuns(t);
    ConcatSplitRuns(t);
    KeepDigitsRemoveSeps(t);
  }

  lemma KeepDigitsOfDigits(s: string)
    requires AllDigits(s)
    ensures KeepDigits(s) == s
  {
    if s != [] {
      KeepDigitsOfDigits(s[1..]);
    }
  }

  /** A code "prefix<sep>digits" normalises to "PREFIX_n". */
  lemma NormalizeNumbered(code: string, a: string, c: char, b: string)
    requires code != "" && Trim(code) == a + [c] + b
    requires NoSep(a) && IsSep(c) && NoSep(b) && b != [] && AllDigits(b)
    ensures NormalizeVendorCode(code) == Upper(a) + "_" + NatToString(DigitsValue(b))
  {
    var parts := SplitRuns(Trim(code));
    assert parts == [a, b] by {
      SplitRunsTwoWords(a, c, b);
    }
    assert Concat(parts[1..]) == b by {
      assert parts[1..] == [b];
      assert Concat([b]) == b + Concat([]);
    }
    assert KeepDigits(b) == b by {
      KeepDigitsOfDigits(b);
    }
    assert CodeFormOf(code) == Numbered(Upper(a), DigitsValue(b));
  }

  /** "hs_007", "HS-7", "HS 7" and "HS_07" all normalise to "HS_7". */
  lemma NormalizeExamples(code: string)
    requires code == "hs_007" || code == "HS-7" || code == "HS 7" || code == "HS_07"
    ensures NormalizeVendorCode(code) == "HS_7"
  {
    assert Upper("hs") == "HS" && Upper("HS") == "HS";
    assert "HS" + "_7" == "HS_7";
    if code == "hs_007" {
      assert NormalizeVendorCode(code) == Upper("hs") + "_7" by {
        NormalizeExample(code, "hs", '_', "007");
      }
    } else if code == "HS-7" {
      assert NormalizeVendorCode(code) == Upper("HS") + "_7" by {
        NormalizeExample(code, "HS", '-', "7");
      }
    } else if code == "HS 7" {
      assert NormalizeVendorCode(code) == Upper("HS") + "_7" by {
        NormalizeExample(code, "HS", ' ', "7");
      }
    } else {
      assert NormalizeVendorCode(code) == Upper("HS") + "_7" by {
        NormalizeExample(code, "HS", '_', "07");
      }
    }
  }

  lemma DigitsOfSeven(b: string)
    requires b == "7" || b == "07" || b == "007"
    ensures AllDigits(b) && DigitsValue(b) == 7
  {
    assert "07"[..1] == "0";
    assert "007"[..2] == "00";
    assert "00"[..1] == "0";
    assert DigitsValue("0") == 0;
  }

  /** A word, a separator and seven written with leading zeros or without. */
  lemma NormalizeExample(code: string, a: string, c: char, b: string)
    requires code == a + [c] + b
    requires a != [] && NoSep(a)
    requires IsSep(c) && (b == "7" || b == "07" || b == "007")
    ensures NormalizeVendorCode(code) == Upper(a) + "_7"
  {
    DigitsOfSeven(b);
    assert NatToString(7) == "7";
    assert !IsSpace(code[0]) && !IsSpace(code[|code| - 1]) by {
      assert code[0] == a[0];
      assert code[|code| - 1] == b[|b| - 1];
    }
    TrimEndsHere(code);
    NormalizeNumbered(code, a, c, b);
  }

  /** A run of several separators counts as one: "HS - 07" normalises to "HS_7". */
  lemma NormalizeSeparatorRun(code: string, a: string, r: string, t: string)
    requires a == "HS" && r == " - " && t == "07" && code == a + r + t
    ensures NormalizeVendorCode(code) == "HS_7"
  {
    var h := Upper(a) + "_" + NatToString(7);
    assert h == "HS_7" by {
      assert Upper(a) == "HS" && NatToString(7) == "7";
    }
    assert NormalizeVendorCode(code) == h by {
      DigitsOfSeven(t);
      KeepDigitsOfDigits(t);
      NormalizeWordRun(code, a, r, t);
    }
  }

  /** A rest without digits is kept as typed: "hs_abc" normalises to "HS_abc". */
  lemma NormalizeRawRest(code: string, a: string, r: string, t: string)
    requires a == "hs" && r == "_" && t == "abc" && code == a + r + t
    ensures NormalizeVendorCode(code) == "HS_abc"
  {
    var h := Upper(a) + "_" + t;
    assert h == "HS_abc" by {
      assert Upper(a) == "HS";
    }
    assert NormalizeVendorCode(code) == h by {
      assert NoDigit(t) && NoSep(t);
      RemoveSepsNoSep(t);
      NormalizeWordRun(code, a, r, t);
    }
  }

  /** The number is read from every piece after the first: "a_b_3" normalises to "A_3". */
  lemma NormalizeLaterPieces(code: string, a: string, r: string, t: string)
    requires a == "a" && r == "_" && t == "b_3" && code == a + r + t
    ensures NormalizeVendorCode(code) == "A_3"
  {
    var h := Upper(a) + "_" + NatToString(3);
    assert h == "A_3" by {
      assert Upper(a) == "A" && NatToString(3) == "3";
    }
    assert NormalizeVendorCode(code) == h by {
      assert KeepDigits(t) == "3" by {
        assert t[1..] == "_3" && t[1..][1..] == "3";
        assert KeepDigits("3") == "3";
      }
      assert DigitsValue("3") == 3 by {
        assert "3"[..0] == "";
      }
      NormalizeWordRun(code, a, r, t);
    }
  }

  /** `NormalizeSplitCode` for a code that needs no trimming, its pieces checked character by character. */
  lemma NormalizeWordRun(code: string, a: string, r: string, t: string)
    requires code == a + r + t && a != [] && t != []
    requires NoSep(a) && r != [] && AllSeps(r) && !IsSep(t[0]) && !IsSpace(t[|t| - 1])
    ensures KeepDigits(t) != [] ==>
              NormalizeVendorCode(code) == Upper(a) + "_" + NatToString(DigitsValue(KeepDigits(t)))
    ensures KeepDigits(t) == [] ==> NormalizeVendorCode(code) == Upper(a) + "_" + RemoveSeps(t)
  {
    assert !IsSpace(code[0]) && !IsSpace(code[|code| - 1]) by {
      assert code[0] == a[0];
      assert code[|code| - 1] == t[|t| - 1];
    }
    TrimEndsHere(code);
    NormalizeSplitCode(code, a, r, t);
  }

  /** "HS_07" and "HS-7" are the same vendor code; "HS_07" and "SC_07" are not, their prefixes differ. */
  lemma SameVendorCodeExamples(a: string, b: string, c: string)
    requires a == "HS_07" && b == "HS-7" && c == "SC_07"
    ensures SameVendorCode(a, b)
    ensures !SameVendorCode(a, c)
  {
    assert NormalizeVendorCode(a) == NormalizeVendorCode(b) by {
      NormalizeExamples(a);
      NormalizeExamples(b);
    }
    assert NormalizeVendorCode(a) != NormalizeVendorCode(c) by {
      NormalizeExamples(a);
      NormalizeOtherPrefix(c);
      assert "SC_7"[0] != "HS_7"[0];
    }
    SameVendorCodeIff(a, b);
    SameVendorCodeIff(a, c);
  }

  lemma NormalizeOtherPrefix(code: string)
    requires code == "SC_07"
    ensures NormalizeVendorCode(code) == "SC_7"
  {
    assert Upper("SC") == "SC";
    assert "SC" + "_7" == "SC_7";
    assert NormalizeVendorCode(code) == Upper("SC") + "_7" by {
      NormalizeExample(code, "SC", '_', "07");
    }
  }

  // ---------------------------------------------------------------- lookup

  /** `String(v.vendor_code || "").trim().toUpperCase() === String(code).trim().toUpperCase()`. */
  predicate ExactCode(v: Record, code: string) {
    Upper(Trim(Text(v, "vendor_code"))) == Upper(Trim(code))
  }

  /** `sameVendorCode(v.vendor_code, code)`. */
  predicate CodeMatches(v: Record, code: string) {
    SameVendorCode(Text(v, "vendor_code"), code)
  }

  /** The two tests of `findVendorByCode`, as the callbacks handed to `find`. */
  function ExactTest(code: string): Record -> bool {
    (v: Record) => ExactCode(v, code)
  }

  function MatchTest(code: string): Record -> bool {
    (v: Record) => CodeMatches(v, code)
  }

  /** `findVendorByCode`: an exact (trimmed, case-blind) code match first, else the first equivalent code. */
  function FindVendorByCode(vendors: seq<Record>, code: string): Option<Record> {
    if code == "" || vendors == [] then None
    else
      var exact := FindFirst(vendors, ExactTest(code));
      if exact.Some? then exact else FindFirst(vendors, MatchTest(code))
  }

  /**
   * No code or no vendors: no vendor. The first exact match wins, even over an earlier
   * vendor that only matches by equivalence; without an exact match the first equivalent
   * vendor is returned; a vendor is found only if one matches one way or the other.
   */
  lemma FindVendorByCodeSpec(vendors: seq<Record>, code: string)
    ensures code == "" || vendors == [] ==> FindVendorByCode(vendors, code) == None
    ensures FindVendorByCode(vendors, code).None? <==>
              code == "" || forall i :: 0 <= i < |vendors| ==> !ExactCode(vendors[i], code) && !CodeMatches(vendors[i], code)
  {
  }

  /** The first exact match wins, even over an earlier vendor that only matches by equivalence. */
  lemma FindVendorExactFirst(vendors: seq<Record>, code: string, j: int)
    requires code != "" && 0 <= j < |vendors| && ExactCode(vendors[j], code)
    requires forall i :: 0 <= i < j ==> !ExactCode(vendors[i], code)
    ensures FindVendorByCode(vendors, code) == Some(vendors[j])
  {
    var p := ExactTest(code);
    assert p(vendors[j]);
    assert forall i :: 0 <= i < j ==> !p(vendors[i]);
    assert FindFirst(vendors, p) == Some(vendors[j]);
  }

  /** Without any exact match, the first vendor whose code is equivalent is returned. */
  lemma FindVendorEquivalentFirst(vendors: seq<Record>, code: string, j: int)
    requires code != "" && 0 <= j < |vendors| && CodeMatches(vendors[j], code)
    requires forall i :: 0 <= i < |vendors| ==> !ExactCode(vendors[i], code)
    requires forall i :: 0 <= i < j ==> !CodeMatches(vendors[i], code)
    ensures FindVendorByCode(vendors, code) == Some(vendors[j])
  {
    var p, q := ExactTest(code), MatchTest(code);
    assert forall i :: 0 <= i < |vendors| ==> !p(vendors[i]);
    assert FindFirst(vendors, p) == None;
    assert q(vendors[j]);
    assert forall i :: 0 <= i < j ==> !q(vendors[i]);
    assert FindFirst(vendors, q) == Some(vendors[j]);
  }

  /** `v?.vendor_name || vendorCode || ""`: the name of the vendor found, else the code itself, also for a vendor without a name. */
  function GetVendorName(vendors: seq<Record>, code: string): (name: string)
    ensures FindVendorByCode(vendors, code).None? ==> name == code
    ensures FindVendorByCode(vendors, code).Some? && Text(FindVendorByCode(vendors, code).value, "vendor_name") != ""
            ==> name == Text(FindVendorByCode(vendors, code).value, "vendor_name")
    ensures FindVendorByCode(vendors, code).Some? && Text(FindVendorByCode(vendors, code).value, "vendor_name") == ""
            ==> name == code
  {
    var v := FindVendorByCode(vendors, code);
    if v.Some? && Text(v.value, "vendor_name") != "" then Text(v.value, "vendor_name") else code
  }

  // ---------------------------------------------------------------- CSV export

  /** A cell needs quoting when it holds a comma, a double quote, CR or LF. */
  predicate NeedsQuotes(s: string) {
    ',' in s || '"' in s || '\n' in s || '\r' in s
  }

  /** `str.replace(/"/g, '""')`. */
  function DoubleQuotes(s: string): (r: string)
    ensures '"' !in s ==> r == s
    ensures |r| >= |s|
  {
    if s == [] then []
    else if s[0] == '"' then "\"\"" + DoubleQuotes(s[1..])
    else [s[0]] + DoubleQuotes(s[1..])
  }

  /** One cell of `toCsvRow`: null and undefined are empty; quoted exactly when needed. */
  function EscapeCell(cell: Option<string>): (r: string)
    ensures cell.Some? ==> (r != [] && r[0] == '"' <==> NeedsQuotes(cell.value))
    ensures cell.Some? && !NeedsQuotes(cell.value) ==> r == cell.value
    ensures cell.None? ==> r == ""
  {
    match cell
    case None => ""
    case Some(s) =>
      var escaped := DoubleQuotes(s);
      if NeedsQuotes(s) then "\"" + escaped + "\"" else escaped
  }

  /** `toCsvRow`: the escaped cells joined with ",". */
  function ToCsvRow(cells: seq<Option<string>>): string {
    if cells == [] then ""
    else if |cells| == 1 then EscapeCell(cells[0])
    else EscapeCell(cells[0]) + "," + ToCsvRow(cells[1..])
  }

  /** The text a cell stands for. */
  function CellText(cell: Option<string>): string {
    if cell.Some? then cell.value else ""
  }

  function CellTexts(cells: seq<Option<string>>): (r: seq<string>)
    ensures |r| == |cells|
  {
    if cells == [] then [] else [CellText(cells[0])] + CellTexts(cells[1..])
  }

  // A reader for one record of section 2 of RFC 4180, as the reference the escaper is checked against.

  /** The rest of a quoted field after its opening quote: its text and what follows the closing quote. */
  function ParseQuoted(s: string): (r: Option<(string, string)>)
    ensures r.Some? ==> |r.value.1| < |s|
  {
    if s == [] then None
    else if s[0] == '"' then
      if |s| >= 2 && s[1] == '"' then
        match ParseQuoted(s[2..])
        case None => None
        case Some((text, rest)) => Some(("\"" + text, rest))
      else Some(("", s[1..]))
    else
      match ParseQuoted(s[1..])
      case None => None
      case Some((text, rest)) => Some(([s[0]] + text, rest))
  }

  /** The index of the first comma, or `|s|`. */
  function FirstComma(s: string): (i: nat)
    ensures i <= |s| && ',' !in s[..i]
    ensures i < |s| ==> s[i] == ','
  {
    if s == [] || s[0] == ',' then 0 else 1 + FirstComma(s[1..])
  }

  /** One field: quoted, or a run without quotes and line breaks; it must end at a comma or the end. */
  function ParseField(s: string): (r: Option<(string, string)>)
    ensures r.Some? ==> |r.value.1| <= |s| && (r.value.1 == [] || r.value.1[0] == ',')
  {
    if s != [] && s[0] == '"' then
      match ParseQuoted(s[1..])
      case None => None
      case Some((text, rest)) => if rest == [] || rest[0] == ',' then Some((text, rest)) else None
    else
      var i := FirstComma(s);
      var field := s[..i];
      if '"' in field || '\n' in field || '\r' in field then None else Some((field, s[i..]))
  }

  /** A whole record: fields separated by commas. */
  function ParseCsvRow(s: string): (r: Option<seq<string>>)
    ensures r.Some? ==> |r.value| >= 1
    decreases |s|
  {
    match ParseField(s)
    case None => None
    case Some((field, rest)) =>
      if rest == [] then Some([field])
      else
        match ParseCsvRow(rest[1..])
        case None => None
        case Some(fields) => Some([field] + fields)
  }

  /** A doubled quote inside a quoted field stands for one quote. */
  lemma ParseQuotedEscaped(s: string, tail: string)
    requires s != [] && s[0] == '"'
    requires ParseQuoted(DoubleQuotes(s[1..]) + "\"" + tail) == Some((s[1..], tail))
    ensures ParseQuoted(DoubleQuotes(s) + "\"" + tail) == Some((s, tail))
  {
    var u := DoubleQuotes(s[1..]) + "\"" + tail;
    var w := DoubleQuotes(s) + "\"" + tail;
    assert w == "\"\"" + u;
    assert w[0] == '"' && w[1] == '"' && w[2..] == u;
    assert "\"" + s[1..] == s;
  }

  /** Any other character is taken as it is. */
  lemma ParseQuotedPlain(s: string, tail: string)
    requires s != [] && s[0] != '"'
    requires ParseQuoted(DoubleQuotes(s[1..]) + "\"" + tail) == Some((s[1..], tail))
    ensures ParseQuoted(DoubleQuotes(s) + "\"" + tail) == Some((s, tail))
  {
    var u := DoubleQuotes(s[1..]) + "\"" + tail;
    var w := DoubleQuotes(s) + "\"" + tail;
    assert w == [s[0]] + u;
    assert w[0] == s[0] && w[1..] == u;
    assert [s[0]] + s[1..] == s;
  }

  lemma {:induction false} ParseQuotedDoubled(s: string, tail: string)
    requires tail == [] || tail[0] != '"'
    ensures ParseQuoted(DoubleQuotes(s) + "\"" + tail) == Some((s, tail))
  {
    if s == [] {
      assert DoubleQuotes(s) + "\"" + tail == "\"" + tail;
    } else {
      ParseQuotedDoubled(s[1..], tail);
      if s[0] == '"' {
        ParseQuotedEscaped(s, tail);
      } else {
        ParseQuotedPlain(s, tail);
      }
    }
  }

  lemma FirstCommaAfter(s: string, tail: string)
    requires ',' !in s && (tail == [] || tail[0] == ',')
    ensures FirstComma(s + tail) == |s|
  {
    if s != [] {
      var w := s + tail;
      assert w[0] == s[0] != ',';
      assert w[1..] == s[1..] + tail;
      assert ',' !in s[1..] by {
        assert forall c :: c in s[1..] ==> c in s;
      }
      FirstCommaAfter(s[1..], tail);
      assert FirstComma(w) == 1 + FirstComma(w[1..]);
    }
  }

  /** A quoted cell followed by the end or a comma reads back as its text. */
  lemma ParseQuotedCell(s: string, tail: string)
    requires tail == [] || tail[0] == ','
    ensures ParseField("\"" + DoubleQuotes(s) + "\"" + tail) == Some((s, tail))
  {
    var w := "\"" + DoubleQuotes(s) + "\"" + tail;
    ParseQuotedDoubled(s, tail);
    assert w == "\"" + (DoubleQuotes(s) + "\"" + tail);
    assert w[1..] == DoubleQuotes(s) + "\"" + tail;
  }

  /** A cell left unquoted, followed by the end or a comma, reads back as it is. */
  lemma ParsePlainCell(e: string, tail: string)
    requires tail == [] || tail[0] == ','
    requires (e == [] || e[0] != '"') && !NeedsQuotes(e)
    ensures ParseField(e + tail) == Some((e, tail))
  {
    FirstCommaAfter(e, tail);
    assert (e + tail)[..|e|] == e;
    assert (e + tail)[|e|..] == tail;
  }

  /** An escaped cell followed by the end or a comma reads back as the cell's text. */
  lemma ParseEscapedCell(cell: Option<string>, tail: string)
    requires tail == [] || tail[0] == ','
    ensures ParseField(EscapeCell(cell) + tail) == Some((CellText(cell), tail))
  {
    if cell.Some? && NeedsQuotes(cell.value) {
      ParseQuotedCell(cell.value, tail);
    } else {
      ParsePlainCell(CellText(cell), tail);
    }
  }

  /** A field followed by a comma and a readable rest reads as that field, then the rest's fields. */
  lemma ParseCsvRowStep(e: string, rest: string, text: string, fields: seq<string>)
    requires ParseField(e + ("," + rest)) == Some((text, "," + rest))
    requires ParseCsvRow(rest) == Some(fields)
    ensures ParseCsvRow(e + ("," + rest)) == Some([text] + fields)
  {
    assert ("," + rest)[1..] == rest;
  }

  /** Reading the exported row as an RFC 4180 record gives back every cell, null and undefined as "". */
  lemma {:induction false} CsvRowRoundTrip(cells: seq<Option<string>>)
    requires cells != []
    ensures ParseCsvRow(ToCsvRow(cells)) == Some(CellTexts(cells))
  {
    if |cells| == 1 {
      var e := EscapeCell(cells[0]);
      assert ParseField(e) == Some((CellText(cells[0]), "")) by {
        ParseEscapedCell(cells[0], "");
        assert e + "" == e;
      }
      assert CellTexts(cells) == [CellText(cells[0])] by {
        assert cells[1..] == [];
      }
    } else {
      var rest := ToCsvRow(cells[1..]);
      CsvRowRoundTrip(cells[1..]);
      ParseEscapedCell(cells[0], "," + rest);
      ParseCsvRowStep(EscapeCell(cells[0]), rest, CellText(cells[0]), CellTexts(cells[1..]));
      assert ToCsvRow(cells) == EscapeCell(cells[0]) + ("," + rest);
      assert CellTexts(cells) == [CellText(cells[0])] + CellTexts(cells[1..]);
    }
  }

  // ---------------------------------------------------------------- table cells

  /** `str.slice(0, end)`: a negative end counts from the back. */
  function SliceTo(s: string, end: int): (r: string)
    ensures r == s[..if end < 0 then (if |s| + end < 0 then 0 else |s| + end) else (if end > |s| then |s| else end)]
  {
    var e := if end < 0 then (if |s| + end < 0 then 0 else |s| + end) else (if end > |s| then |s| else end);
    s[..e]
  }

  /** The text of `renderWithTooltip(value, maxLen)`: short strings as they are, long ones cut with "...". */
  function TruncateForDisplay(s: string, maxLen: int): string {
    if s == "" then ""
    else if |s| <= maxLen then s
    else SliceTo(s, maxLen - 3) + "..."
  }

  /** For any limit of 3 or more, a long string shows its first `maxLen - 3` characters and "...", `maxLen` in all. */
  lemma TruncateForDisplaySpec(s: string, maxLen: int)
    requires maxLen >= 3
    ensures |s| <= maxLen ==> TruncateForDisplay(s, maxLen) == s
    ensures |s| > maxLen ==> TruncateForDisplay(s, maxLen) == s[..maxLen - 3] + "..."
                             && |TruncateForDisplay(s, maxLen)| == maxLen
  {
  }
}
