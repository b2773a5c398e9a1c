/** The canonical text is lossless: two values have the same text exactly when they are equal up to
    record key order. The proof reads the text from the left; every kind of text ends by itself or
    at a character it cannot contain. */
module CanonicalInjective {
  import Decimal
  import opened Canonical

  // --- texts that cannot contain a delimiter ----------------------------------------------------

  predicate IsStop(c: char) {
    c == ',' || c == ']' || c == '}'
  }

  predicate NoStop(s: string) {
    forall i :: 0 <= i < |s| ==> !IsStop(s[i])
  }

  predicate StartsWithStop(s: string) {
    s != [] ==> IsStop(s[0])
  }

  /** Length of the part before the first delimiter. */
  function Cut(s: string): (n: nat)
    ensures n <= |s|
  {
    if s == [] || IsStop(s[0]) then 0 else 1 + Cut(s[1..])
  }

  lemma {:induction false} CutAt(a: string, x: string)
    requires NoStop(a) && StartsWithStop(x)
    ensures Cut(a + x) == |a| && (a + x)[..|a|] == a && (a + x)[|a|..] == x
  {
    if a != [] {
      CutAt(a[1..], x);
      assert (a + x)[1..] == a[1..] + x;
    } else {
      assert a + x == x;
    }
  }

  lemma StopFreeSplit(a: string, x: string, b: string, y: string)
    requires NoStop(a) && NoStop(b) && StartsWithStop(x) && StartsWithStop(y)
    requires a + x == b + y
    ensures a == b && x == y
  {
    CutAt(a, x);
    CutAt(b, y);
  }

  lemma PrintIntPlain(n: int)
    ensures NoStop(PrintInt(n))
  {
    var digits := Decimal.Print(if n < 0 then -n else n);
    assert forall i :: 0 <= i < |digits| ==> Decimal.IsDigit(digits[i]);
  }

  lemma PrintIntInjective(m: int, n: int)
    requires PrintInt(m) == PrintInt(n)
    ensures m == n
  {
    var a, b := Decimal.Print(if m < 0 then -m else m), Decimal.Print(if n < 0 then -n else n);
    assert Decimal.IsDigit(a[0]) && Decimal.IsDigit(b[0]);
    if m < 0 {
      assert PrintInt(m)[0] == '-' && PrintInt(m)[1..] == a && PrintInt(n)[1..] == b;
    }
  }

  // --- strings ----------------------------------------------------------------------------------

  lemma EscapeCharSplit(c: char, x: string, d: char, y: string)
    requires EscapeChar(c) + x == EscapeChar(d) + y
    ensures c == d && x == y
  {
    var l, r := EscapeChar(c) + x, EscapeChar(d) + y;
    assert l[0] == EscapeChar(c)[0] && r[0] == EscapeChar(d)[0];
    if l[0] == '\\' {
      assert l[1] == EscapeChar(c)[1] && r[1] == EscapeChar(d)[1];
      if l[1] == 'u' {
        assert l[4] == EscapeChar(c)[4] && r[4] == EscapeChar(d)[4];
        assert l[5] == EscapeChar(c)[5] && r[5] == EscapeChar(d)[5];
        assert c as int == d as int;
      }
    }
    assert c == d;
    assert x == l[|EscapeChar(c)|..] && y == r[|EscapeChar(d)|..];
  }

  lemma EscapeCharHead(c: char)
    ensures EscapeChar(c) != [] && EscapeChar(c)[0] != '\"'
  {
  }

  /** The closing quote is the only unescaped one. */
  lemma QuotedHead(s: string, x: string)
    ensures var l := Escape(s) + "\"" + x;
            && (l[0] == '\"' <==> s == [])
            && (s == [] ==> l[1..] == x)
            && (s != [] ==> l == EscapeChar(s[0]) + (Escape(s[1..]) + "\"" + x))
  {
    var l := Escape(s) + "\"" + x;
    if s == [] {
      assert l == "\"" + x;
    } else {
      EscapeCharHead(s[0]);
      var e, rest := EscapeChar(s[0]), Escape(s[1..]);
      assert Escape(s) == e + rest;
      assert l == e + (rest + "\"" + x);
      assert l[0] == e[0];
    }
  }

  /** A quoted string ends at its own closing quote. */
  lemma {:induction false} QuotedSplit(s: string, x: string, t: string, y: string)
    requires Escape(s) + "\"" + x == Escape(t) + "\"" + y
    ensures s == t && x == y
    decreases |s|
  {
    QuotedHead(s, x);
    QuotedHead(t, y);
    if s != [] {
      var ls, rs := Escape(s[1..]) + "\"" + x, Escape(t[1..]) + "\"" + y;
      EscapeCharSplit(s[0], ls, t[0], rs);
      QuotedSplit(s[1..], x, t[1..], y);
      assert s == [s[0]] + s[1..] && t == [t[0]] + t[1..];
    }
  }

  lemma QuoteSplit(s: string, x: string, t: string, y: string)
    requires Quote(s) + x == Quote(t) + y
    ensures s == t && x == y
  {
    assert (Quote(s) + x)[1..] == Escape(s) + "\"" + x;
    assert (Quote(t) + y)[1..] == Escape(t) + "\"" + y;
    QuotedSplit(s, x, t, y);
  }

  // --- the kind of a value is in its first character ----------------------------------------------

  predicate IsAtom(v: Value) {
    !v.Text? && !v.Array? && !v.Record?
  }

  lemma NoStopAppend(a: string, b: string)
    requires NoStop(a) && NoStop(b)
    ensures NoStop(a + b)
  {
  }

  predicate IsNumber(v: Value) {
    v.Number? || v.NegativeZero? || v.NotANumber? || v.Infinity? || v.NegativeInfinity?
  }

  function NumberText(v: Value): string
    requires IsNumber(v)
  {
    match v
    case Number(n) => PrintInt(n)
    case NegativeZero => "-0"
    case NotANumber => "NaN"
    case Infinity => "Infinity"
    case NegativeInfinity => "-Infinity"
  }

  lemma NumberAtom(v: Value)
    requires IsNumber(v)
    ensures Canon(v) == "number:" + NumberText(v) && Canon(v)[7..] == NumberText(v) && NoStop(Canon(v))
  {
    var tag := "number:";
    assert NoStop(tag);
    if v.Number? {
      PrintIntPlain(v.n);
    }
    assert NoStop(NumberText(v));
    NoStopAppend(tag, NumberText(v));
    assert Canon(v) == tag + NumberText(v);
  }

  lemma BigIntAtom(v: Value)
    requires v.BigInt?
    ensures Canon(v) == "bigint:" + PrintInt(v.big) && Canon(v)[7..] == PrintInt(v.big) && NoStop(Canon(v))
  {
    var tag := "bigint:";
    assert NoStop(tag);
    PrintIntPlain(v.big);
    NoStopAppend(tag, PrintInt(v.big));
  }

  /** An atom's text holds no delimiter, and its third character tells its kind. */
  lemma AtomText(v: Value)
    requires IsAtom(v)
    ensures var c := Canon(v);
            && |c| > 2 && NoStop(c) && (c[0] == 'n' || c[0] == 'u' || c[0] == 'b')
            && c[2] == (if v.Null? then 'l' else if v.Undefined? then 'd' else if v.Bool? then 'o'
                        else if IsNumber(v) then 'm' else 'g')
  {
    if IsNumber(v) {
      NumberAtom(v);
      assert Canon(v)[2] == "number:"[2] && Canon(v)[0] == "number:"[0];
    } else if v.BigInt? {
      BigIntAtom(v);
      assert Canon(v)[2] == "bigint:"[2] && Canon(v)[0] == "bigint:"[0];
    }
  }

  /** The first character tells atoms, strings, arrays and records apart. */
  lemma FirstChar(v: Value)
    ensures var c := Canon(v);
            && c != []
            && (v.Text? <==> c[0] == 's') && (v.Array? <==> c[0] == '[') && (v.Record? <==> c[0] == '{')
            && !IsStop(c[0]) && c[0] != '\"'
  {
    if IsAtom(v) {
      AtomText(v);
    } else if v.Text? {
      assert Canon(v)[0] == "string:"[0];
    } else if v.Array? {
      assert Canon(v) == "[" + CanonItems(v.items) + "]";
    } else {
      assert Canon(v) == "{" + JoinEntries(Sort(Entries(v.fields))) + "}";
    }
  }

  lemma NumeralIsNotSpecial(n: int, s: string)
    requires s == "-0" || s == "NaN" || s == "Infinity" || s == "-Infinity"
    ensures PrintInt(n) != s
  {
    var digits := Decimal.Print(if n < 0 then -n else n);
    assert Decimal.IsDigit(digits[0]);
    assert n < 0 ==> PrintInt(n)[1..] == digits && PrintInt(n)[0] == '-' && PrintInt(n)[1] == digits[0];
    assert "-0"[1..] == "0" && "0"[..0] == "";
    assert Decimal.ValueOf("0") == 0;
  }

  /** The special numbers never read as an integer: -0 is not the text of 0, and no numeral holds a
      letter. */
  lemma NumberTextInjective(v: Value, w: Value)
    requires IsNumber(v) && IsNumber(w) && NumberText(v) == NumberText(w)
    ensures v == w
  {
    if v.Number? && w.Number? {
      PrintIntInjective(v.n, w.n);
    } else if v.Number? {
      NumeralIsNotSpecial(v.n, NumberText(w));
    } else if w.Number? {
      NumeralIsNotSpecial(w.n, NumberText(v));
    }
  }

  lemma AtomInjective(v: Value, w: Value)
    requires IsAtom(v) && IsAtom(w) && Canon(v) == Canon(w)
    ensures v == w
  {
    AtomText(v);
    AtomText(w);
    if IsNumber(v) {
      NumberAtom(v);
      NumberAtom(w);
      NumberTextInjective(v, w);
    } else if v.BigInt? {
      BigIntAtom(v);
      BigIntAtom(w);
      PrintIntInjective(v.big, w.big);
    } else if v.Bool? {
      assert |"boolean:true"| == 12 && |"boolean:false"| == 13;
    }
  }
}
