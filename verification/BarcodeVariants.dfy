/** The zero-padding variants of a barcode, in the two places that build them: `numericVariants` of
    src/decoding/evidenceVerifier.ts and `exampleBarcodeVariants` of src/decoding/decode.ts. */
module BarcodeVariants {
  import opened Decimal
  import opened CheckDigit

  function WithoutZeros(s: string): string {
    if s != "" && s[0] == '0' then WithoutZeros(s[1..]) else s
  }

  /** Leading zeros removed, "0" when nothing else is left. */
  function Stripped(code: string): string {
    if WithoutZeros(code) == "" then "0" else WithoutZeros(code)
  }

  /** `padStart(n, "0")`. */
  function Pad(s: string, n: nat): string {
    if |s| >= n then s else Zeros(n - |s|) + s
  }

  function DigitsOf(code: string): string {
    if code == "" then "" else (if IsDigit(code[0]) then [code[0]] else "") + DigitsOf(code[1..])
  }

  function Padded(base: string, n: nat): set<string> {
    if |base| <= n then {Pad(base, n)} else {}
  }

  function Spread(code: string): set<string> {
    var stripped := Stripped(code);
    {code, stripped}
    + Padded(code, 12) + Padded(code, 13) + Padded(code, 14)
    + Padded(stripped, 12) + Padded(stripped, 13) + Padded(stripped, 14)
  }

  function LongEnough(s: set<string>): set<string> {
    set c | c in s && |c| >= 8
  }

  function Variants(code: string): set<string> {
    LongEnough(Spread(code))
  }

  function ExampleVariants(code: string): set<string> {
    if DigitsOf(code) == "" then {} else Spread(DigitsOf(code))
  }

  method NumericVariants(code: string) returns (variants: set<string>)
    ensures variants == Variants(code)
  {
    var stripped := Stripped(code);
    var forms: set<string> := {code, stripped};
    var bases := [code, stripped];
    for i := 0 to 2
      invariant forms == {code, stripped}
        + (if i >= 1 then Padded(code, 12) + Padded(code, 13) + Padded(code, 14) else {})
        + (if i >= 2 then Padded(stripped, 12) + Padded(stripped, 13) + Padded(stripped, 14) else {})
    {
      var base := bases[i];
      if |base| <= 13 {
        forms := forms + {Pad(base, 13)};
      }
      if |base| <= 14 {
        forms := forms + {Pad(base, 14)};
      }
      if |base| <= 12 {
        forms := forms + {Pad(base, 12)};
      }
    }
    variants := set c | c in forms && |c| >= 8;
  }

  method ExampleBarcodeVariants(code: string) returns (variants: set<string>)
    ensures variants == ExampleVariants(code)
  {
    var digits := DigitsOf(code);
    if digits == "" {
      return {};
    }
    var stripped := Stripped(digits);
    variants := {digits, stripped};
    var bases := [digits, stripped];
    for i := 0 to 2
      invariant variants == {digits, stripped}
        + (if i >= 1 then Padded(digits, 12) + Padded(digits, 13) + Padded(digits, 14) else {})
        + (if i >= 2 then Padded(stripped, 12) + Padded(stripped, 13) + Padded(stripped, 14) else {})
    {
      var base := bases[i];
      if |base| <= 14 {
        variants := variants + {Pad(base, 14)};
      }
      if |base| <= 13 {
        variants := variants + {Pad(base, 13)};
      }
      if |base| <= 12 {
        variants := variants + {Pad(base, 12)};
      }
    }
  }

  // --- padding and stripping ------------------------------------------------------------------------

  lemma {:induction false} StripsZeros(k: nat, s: string)
    ensures WithoutZeros(Zeros(k) + s) == WithoutZeros(s)
  {
    if k == 0 {
      assert Zeros(0) + s == s;
    } else {
      assert (Zeros(k) + s)[1..] == Zeros(k - 1) + s;
      StripsZeros(k - 1, s);
    }
  }

  lemma {:induction false} IsPadded(s: string)
    ensures |WithoutZeros(s)| <= |s| && s == Zeros(|s| - |WithoutZeros(s)|) + WithoutZeros(s)
    ensures WithoutZeros(s) == "" || WithoutZeros(s)[0] != '0'
  {
    if s != "" && s[0] == '0' {
      IsPadded(s[1..]);
      var k := |s| - 1 - |WithoutZeros(s)|;
      assert s == "0" + s[1..] == "0" + (Zeros(k) + WithoutZeros(s)) == ("0" + Zeros(k)) + WithoutZeros(s);
    } else {
      assert Zeros(0) + s == s;
    }
  }

  lemma PadStrips(s: string, n: nat)
    ensures Stripped(Pad(s, n)) == Stripped(s)
    ensures |Pad(s, n)| == if |s| >= n then |s| else n
  {
    if |s| < n {
      StripsZeros(n - |s|, s);
      ZerosAre(n - |s|);
    }
  }

  lemma StrippedTwice(s: string)
    ensures Stripped(Stripped(s)) == Stripped(s) && |Stripped(s)| >= 1
    ensures s != "" ==> |Stripped(s)| <= |s|
  {
    IsPadded(s);
    assert WithoutZeros("0") == "";
  }

  lemma {:induction false} ZerosSplit(k: nat)
    requires k > 0
    ensures Zeros(k) == Zeros(k - 1) + "0"
  {
    if k > 1 {
      ZerosSplit(k - 1);
      assert "0" + (Zeros(k - 2) + "0") == ("0" + Zeros(k - 2)) + "0";
    }
  }

  /** A code is its stripped form padded to its own length. */
  lemma PadOfStripped(s: string)
    requires s != ""
    ensures Pad(Stripped(s), |s|) == s
  {
    IsPadded(s);
    StrippedTwice(s);
    if WithoutZeros(s) == "" {
      assert Zeros(|s|) + "" == Zeros(|s|);
      ZerosSplit(|s|);
      assert Zeros(0) + "0" == "0";
    } else if |Stripped(s)| == |s| {
      assert Zeros(0) + s == s;
    }
  }

  lemma PadOfPad(s: string, n: nat)
    requires s != "" && |s| <= n
    ensures Pad(s, n) == Pad(Stripped(s), n)
  {
    PadStrips(s, n);
    PadOfStripped(Pad(s, n));
  }

  lemma InPadded(base: string, n: nat, v: string)
    requires base != ""
    ensures v in Padded(base, n) <==> |v| == n && |base| <= n && Stripped(v) == Stripped(base)
  {
    PadStrips(base, n);
    if |v| == n && |base| <= n && Stripped(v) == Stripped(base) {
      PadOfPad(base, n);
      PadOfStripped(v);
    }
  }

  // --- the relation -----------------------------------------------------------------------------------

  predicate Standard(n: nat) {
    12 <= n <= 14
  }

  /** A string is a variant of a code exactly when it is long enough, equals the code up to leading
      zeros, and is the code itself, its stripped form, or of a standard length. */
  lemma VariantsExactly(code: string, v: string)
    requires code != ""
    ensures v in Variants(code)
       <==> |v| >= 8 && Stripped(v) == Stripped(code) && (v == code || v == Stripped(code) || Standard(|v|))
  {
    var stripped := Stripped(code);
    StrippedTwice(code);
    InPadded(code, 12, v);
    InPadded(code, 13, v);
    InPadded(code, 14, v);
    InPadded(stripped, 12, v);
    InPadded(stripped, 13, v);
    InPadded(stripped, 14, v);
    if Stripped(v) == stripped && Standard(|v|) {
      StrippedTwice(v);
    }
  }

  /** For codes of 12 to 14 digits the relation is "equal after leading zeros", so it is symmetric. */
  lemma StandardVariantsExactly(a: string, b: string)
    requires Standard(|a|) && Standard(|b|)
    ensures b in Variants(a) <==> Stripped(a) == Stripped(b)
    ensures b in Variants(a) <==> a in Variants(b)
  {
    VariantsExactly(a, b);
    VariantsExactly(b, a);
  }

  /** In general the way back can fail: a variant knows the code it came from exactly when that code
      is itself long enough and of standard length or without leading zeros. */
  lemma WayBackExactly(a: string, b: string)
    requires a != "" && b != "" && b in Variants(a)
    ensures a in Variants(b) <==> |a| >= 8 && (a == b || a == Stripped(a) || Standard(|a|))
  {
    VariantsExactly(a, b);
    VariantsExactly(b, a);
  }

  lemma {:induction false} DigitsOfDigits(code: string)
    requires AllDigits(code)
    ensures DigitsOf(code) == code
  {
    if code != "" {
      DigitsOfDigits(code[1..]);
    }
  }

  /** The two separately written builders agree on every digit code, up to the length filter; they
      differ on the empty code alone, where one still pads. */
  lemma BuildersAgreeExactly(code: string)
    requires AllDigits(code)
    ensures Variants(code) == LongEnough(ExampleVariants(code)) <==> code != ""
  {
    DigitsOfDigits(code);
    if code == "" {
      ZerosAre(12);
      var v := Pad("", 12);
      assert Zeros(12) + "" == Zeros(12);
      assert v in Padded("", 12) && |v| == 12;
      assert v in Variants(code);
    }
  }

  lemma {:induction false} DigitsOfConcat(a: string, b: string)
    ensures DigitsOf(a + b) == DigitsOf(a) + DigitsOf(b)
  {
    if a == "" {
      assert a + b == b;
    } else {
      assert (a + b)[1..] == a[1..] + b;
      DigitsOfConcat(a[1..], b);
    }
  }

  /** Whatever is no digit can be left out of an example's code without changing its variants; a code
      without digits has none. */
  lemma OthersAreIgnored(before: string, c: char, after: string)
    requires !IsDigit(c)
    ensures ExampleVariants(before + [c] + after) == ExampleVariants(before + after)
    ensures ExampleVariants([c]) == {}
  {
    DigitsOfConcat(before + [c], after);
    DigitsOfConcat(before, [c]);
    DigitsOfConcat(before, after);
    assert [c][1..] == "" && DigitsOf([c]) == "";
    assert DigitsOf(before + [c]) == DigitsOf(before);
    assert DigitsOf(before + [c] + after) == DigitsOf(before + after);
  }

  /** Every variant of a digit code has the same check-digit verdict, as far as it is checked at all. */
  lemma VariantsShareTheCheck(code: string, v: string)
    requires code != "" && v in Variants(code) && |code| >= 8
    ensures Valid(v) <==> Valid(code)
  {
    VariantsExactly(code, v);
    IsPadded(code);
    IsPadded(v);
    SamePadding(code, v);
  }

  lemma SamePadding(a: string, b: string)
    requires |a| >= 8 && |b| >= 8 && Stripped(a) == Stripped(b)
    ensures Valid(a) <==> Valid(b)
  {
    PadOfStripped(a);
    PadOfStripped(b);
    var n := if |a| >= |b| then |a| else |b|;
    PadOfPad(a, n);
    PadOfPad(b, n);
    if |a| < n {
      PaddingKeepsValidity(n - |a|, a);
    }
    if |b| < n {
      PaddingKeepsValidity(n - |b|, b);
    }
  }
}
