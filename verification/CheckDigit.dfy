/** The GS1 mod-10 check digit (section 7.9 of the GS1 General Specifications) over digit strings of
    any length. Models `mod10Valid` of src/decoding/barcodeAnatomy.ts. */
module CheckDigit {
  import opened Decimal
  import opened StampedCopy
  import opened Text

  /** `Number` of one character: a digit, 0 for white space, not a number otherwise. */
  function Num(c: char): Option<nat> {
    if IsDigit(c) then Some(DigitValue(c)) else if Blank(c) then Some(0) else None
  }

  function DigitOf(c: char): nat {
    if IsDigit(c) then DigitValue(c) else 0
  }

  predicate Numeric(s: string) {
    forall i :: 0 <= i < |s| ==> Num(s[i]).Some?
  }

  function Share(tripled: bool, d: int): (r: int)
    ensures d >= 0 ==> r >= 0
  {
    if tripled then 3 * d else d
  }

  /** The sum from the right with weights alternating between 3 and 1. */
  function Weighted(s: string, tripled: bool): nat {
    if s == "" then 0
    else Share(tripled, DigitOf(s[|s| - 1])) + Weighted(s[..|s| - 1], !tripled)
  }

  /** The whole string, check digit included, sums to a multiple of ten. */
  predicate Valid(digits: string) {
    |digits| >= 8 && Numeric(digits) && Weighted(digits, false) % 10 == 0
  }

  /** Whether the last character is the check digit of the others, for at least eight of them. */
  method Mod10Valid(digits: string) returns (valid: bool)
    ensures valid <==> Valid(digits)
  {
    var n := |digits|;
    if n < 8 {
      return false;
    }
    var sum := 0;
    for i := 0 to n - 1
      invariant forall j :: n - 1 - i <= j < n - 1 ==> Num(digits[j]).Some?
      invariant sum + Weighted(digits[..n - 1 - i], i % 2 == 0) == Weighted(digits[..n - 1], true)
    {
      var c := digits[n - 2 - i];
      assert digits[..n - 1 - i][..n - 2 - i] == digits[..n - 2 - i];
      if Num(c).None? {
        return false;
      }
      sum := sum + if i % 2 == 0 then Num(c).value * 3 else Num(c).value;
    }
    assert digits[..0] == "";
    var check := (10 - sum % 10) % 10;
    valid := Num(digits[n - 1]).Some? && check == Num(digits[n - 1]).value;
    CheckIsComplement(sum, DigitOf(digits[n - 1]));
  }

  lemma CheckIsComplement(sum: nat, last: nat)
    requires last < 10
    ensures (10 - sum % 10) % 10 == last <==> (last + sum) % 10 == 0
  {
  }

  function CheckDigitOf(body: string): char {
    ((10 - Weighted(body, true) % 10) % 10 + '0' as nat) as char
  }

  /** Each body has exactly one valid check digit. */
  lemma OneCheckDigit(body: string, c: char)
    requires AllDigits(body) && |body| >= 7 && IsDigit(c)
    ensures Valid(body + [c]) <==> c == CheckDigitOf(body)
  {
    assert (body + [c])[..|body|] == body;
    CheckIsComplement(Weighted(body, true), DigitOf(c));
    forall i | 0 <= i < |body + [c]| ensures Num((body + [c])[i]).Some? {
    }
  }

  /** Whether position i has weight 3. */
  predicate Tripled(length: nat, i: nat, tripled: bool)
    requires i < length
  {
    ((length - 1 - i) % 2 == 0) == tripled
  }

  lemma {:induction false} WeightedUpdate(s: string, i: nat, c: char, tripled: bool)
    requires i < |s|
    ensures Weighted(s[i := c], tripled) == Weighted(s, tripled)
        + Share(Tripled(|s|, i, tripled), DigitOf(c) - DigitOf(s[i]))
    decreases |s|
  {
    var front, n := s[..|s| - 1], |s| - 1;
    if i < n {
      WeightedUpdate(front, i, c, !tripled);
      assert s[i := c][..n] == front[i := c];
      assert Tripled(|s|, i, tripled) == Tripled(n, i, !tripled);
    } else {
      assert s[i := c][..n] == front;
    }
  }

  lemma SmallMultiple(tripled: bool, d: int)
    requires -10 < d < 10
    ensures Share(tripled, d) % 10 == 0 <==> d == 0
  {
  }

  lemma SumMod(a: int, b: int)
    requires a % 10 == 0
    ensures (a + b) % 10 == 0 <==> b % 10 == 0
  {
  }

  /** Every change of a single digit is rejected. */
  lemma SingleChangeIsRejected(s: string, i: nat, c: char)
    requires AllDigits(s) && Valid(s) && i < |s| && IsDigit(c) && c != s[i]
    ensures !Valid(s[i := c])
  {
    var w, d := Tripled(|s|, i, false), DigitOf(c) - DigitOf(s[i]);
    WeightedUpdate(s, i, c, false);
    SumMod(Weighted(s, false), Share(w, d));
    SmallMultiple(w, d);
  }

  /** A character that is no digit counts as a zero when it is blank and spoils the code otherwise; a
      code of fewer than eight characters is never valid. */
  lemma OtherCharacters(s: string, i: nat)
    requires i < |s| && !IsDigit(s[i])
    ensures Valid(s) <==> Blank(s[i]) && Valid(s[i := '0'])
    ensures Valid(s) ==> |s| >= 8
  {
    WeightedUpdate(s, i, '0', false);
    var z := s[i := '0'];
    if Numeric(s) {
      forall j | 0 <= j < |z| ensures Num(z[j]).Some? {
        assert Num(s[j]).Some?;
      }
    }
    if Numeric(z) && Blank(s[i]) {
      forall j | 0 <= j < |s| ensures Num(s[j]).Some? {
        assert Num(z[j]).Some?;
      }
    }
  }

  function Swapped(s: string, i: nat): string
    requires i + 1 < |s|
  {
    s[i := s[i + 1]][i + 1 := s[i]]
  }

  lemma DoubleMod(d: int)
    requires -10 < d < 10
    ensures (2 * d) % 10 == 0 <==> d == 0 || d == 5 || d == -5
  {
  }

  lemma {:induction false} SwapChange(s: string, i: nat)
    requires i + 1 < |s|
    ensures var d := DigitOf(s[i + 1]) - DigitOf(s[i]);
            Weighted(Swapped(s, i), false) == Weighted(s, false) + if Tripled(|s|, i, false) then 2 * d else -2 * d
  {
    var once, n := s[i := s[i + 1]], |s|;
    var d := DigitOf(s[i + 1]) - DigitOf(s[i]);
    WeightedUpdate(s, i, s[i + 1], false);
    WeightedUpdate(once, i + 1, s[i], false);
    assert once[i + 1] == s[i + 1];
    assert Tripled(n, i + 1, false) == !Tripled(n, i, false);
  }

  /** Swapping two adjacent digits goes unnoticed exactly when they differ by 0 or 5. */
  lemma {:induction false} SwapIsMissedExactly(s: string, i: nat)
    requires AllDigits(s) && Valid(s) && i + 1 < |s|
    ensures var d := DigitOf(s[i + 1]) - DigitOf(s[i]);
            Valid(Swapped(s, i)) <==> d == 0 || d == 5 || d == -5
  {
    var d := DigitOf(s[i + 1]) - DigitOf(s[i]);
    SwapChange(s, i);
    SumMod(Weighted(s, false), 2 * d);
    SumMod(Weighted(s, false), -2 * d);
    DoubleMod(d);
    DoubleMod(-d);
    NumericSwap(s, i);
  }

  lemma NumericSwap(s: string, i: nat)
    requires AllDigits(s) && i + 1 < |s|
    ensures Numeric(Swapped(s, i)) && |Swapped(s, i)| == |s|
  {
  }

  function Zeros(k: nat): string {
    if k == 0 then "" else "0" + Zeros(k - 1)
  }

  lemma {:induction false} ZerosAre(k: nat)
    ensures |Zeros(k)| == k && forall i :: 0 <= i < k ==> Zeros(k)[i] == '0'
  {
    if k > 0 {
      ZerosAre(k - 1);
    }
  }

  lemma {:induction false} WeightedZeros(k: nat, s: string, tripled: bool)
    ensures Weighted(Zeros(k) + s, tripled) == Weighted(s, tripled)
    decreases |s| + k
  {
    ZerosAre(k);
    var all := Zeros(k) + s;
    if s != "" {
      assert all[..|all| - 1] == Zeros(k) + s[..|s| - 1];
      WeightedZeros(k, s[..|s| - 1], !tripled);
    } else if k > 0 {
      ZerosAre(k - 1);
      assert all[..k - 1] == Zeros(k - 1) + "";
      WeightedZeros(k - 1, "", !tripled);
    }
  }

  /** Zero padding changes nothing, for any code that is long enough to be checked at all. */
  lemma PaddingKeepsValidity(k: nat, s: string)
    requires |s| >= 8
    ensures Valid(Zeros(k) + s) <==> Valid(s)
  {
    ZerosAre(k);
    WeightedZeros(k, s, false);
    var all := Zeros(k) + s;
    if Numeric(all) {
      forall i | 0 <= i < |s| ensures Num(s[i]).Some? {
        assert all[k + i] == s[i];
      }
    }
    if Numeric(s) {
      forall i | 0 <= i < |all| ensures Num(all[i]).Some? {
        assert i < k ==> all[i] == '0';
        assert i >= k ==> all[i] == s[i - k];
      }
    }
  }
}
