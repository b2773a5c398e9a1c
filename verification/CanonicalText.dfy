/** The canonical text is what the language's own functions would print: its strings read back as JSON
    strings, and its keys stand in the order of their UTF-16 code units. */
module CanonicalText {
  import opened StampedCopy
  import opened Canonical

  // --- strings, read as section 7 of RFC 8259 says ------------------------------------------------

  function HexValue(c: char): Option<nat> {
    if '0' <= c <= '9' then Some(c as nat - '0' as nat)
    else if 'a' <= c <= 'f' then Some(c as nat - 'a' as nat + 10)
    else if 'A' <= c <= 'F' then Some(c as nat - 'A' as nat + 10)
    else None
  }

  /** The character that the four digits name; surrogates are not characters here. */
  function HexChar(digits: string): Option<char>
    requires |digits| == 4
  {
    var a, b, c, d := HexValue(digits[0]), HexValue(digits[1]), HexValue(digits[2]), HexValue(digits[3]);
    if a.None? || b.None? || c.None? || d.None? then None
    else
      var u := a.value * 4096 + b.value * 256 + c.value * 16 + d.value;
      if 0xD800 <= u < 0xE000 then None else Some(u as char)
  }

  function ShortEscape(c: char): Option<char> {
    match c
    case '\"' => Some('\"')
    case '\\' => Some('\\')
    case '/' => Some('/')
    case 'b' => Some('\U{0008}')
    case 'f' => Some('\U{000C}')
    case 'n' => Some('\n')
    case 'r' => Some('\r')
    case 't' => Some('\t')
    case _ => None
  }

  /** The first character that the text names and how much of the text names it. */
  function ReadOne(text: string): (r: Option<(char, nat)>)
    requires text != ""
    ensures r.Some? ==> 1 <= r.value.1 <= |text|
  {
    if text[0] == '\"' || text[0] < ' ' then None
    else if text[0] != '\\' then Some((text[0], 1))
    else if |text| == 1 then None
    else if text[1] == 'u' then
      if |text| < 6 || HexChar(text[2..6]).None? then None else Some((HexChar(text[2..6]).value, 6))
    else if ShortEscape(text[1]).None? then None
    else Some((ShortEscape(text[1]).value, 2))
  }

  /** The inside of a JSON string, read from the left. */
  function Read(text: string): Option<string>
    decreases |text|
  {
    if text == "" then Some("")
    else
      var one := ReadOne(text);
      if one.None? then None
      else
        var rest := Read(text[one.value.1..]);
        if rest.None? then None else Some([one.value.0] + rest.value)
  }

  lemma ReadsEscape(c: char, rest: string)
    ensures ReadOne(EscapeChar(c) + rest) == Some((c, |EscapeChar(c)|))
  {
    var e := EscapeChar(c);
    var text := e + rest;
    assert text[0] == e[0] && (|e| > 1 ==> text[1] == e[1]);
    if |e| == 6 {
      assert text[2..6] == e[2..6];
      assert HexValue(e[4]) == Some(c as nat / 16) && HexValue(e[5]) == Some(c as nat % 16);
      assert HexChar(e[2..6]) == Some(c);
    }
  }

  /** The inside of every quoted string is JSON and reads back as the string. */
  lemma {:induction false} EscapeReadsBack(s: string)
    ensures Read(Escape(s)) == Some(s)
  {
    if s != "" {
      var e, rest := EscapeChar(s[0]), Escape(s[1..]);
      ReadsEscape(s[0], rest);
      assert (e + rest)[|e|..] == rest;
      EscapeReadsBack(s[1..]);
      assert s == [s[0]] + s[1..];
    }
  }

  /** Only what must be escaped is, in two characters where that is possible and with lower-case digits
      where it is not. */
  lemma EscapedExactly(c: char)
    ensures EscapeChar(c) == [c] <==> c != '\"' && c != '\\' && c >= ' '
    ensures |EscapeChar(c)| <= 2 <==> c >= ' ' || c in {'\U{0008}', '\t', '\n', '\U{000C}', '\r'}
    ensures forall i :: 0 <= i < |EscapeChar(c)| && |EscapeChar(c)| == 6 ==> !('A' <= EscapeChar(c)[i] <= 'Z')
  {
  }

  // --- the order of keys ----------------------------------------------------------------------------

  /** UTF-16: a character outside the basic plane is written as a pair of surrogates. */
  function Units(c: char): seq<int> {
    var u := c as int;
    if u < 0x10000 then [u] else [0xD800 + (u - 0x10000) / 1024, 0xDC00 + (u - 0x10000) % 1024]
  }

  function Utf16(s: string): seq<int> {
    if s == "" then [] else Units(s[0]) + Utf16(s[1..])
  }

  predicate Before(a: seq<int>, b: seq<int>) {
    if b == [] then false
    else if a == [] then true
    else a[0] < b[0] || (a[0] == b[0] && Before(a[1..], b[1..]))
  }

  lemma CommonFront(u: seq<int>, a: seq<int>, b: seq<int>)
    requires 1 <= |u| <= 2
    ensures Before(u + a, u + b) <==> Before(a, b)
  {
    assert (u + a)[1..] == u[1..] + a && (u + b)[1..] == u[1..] + b;
    if |u| == 2 {
      assert (u[1..] + a)[1..] == a && (u[1..] + b)[1..] == b;
    } else {
      assert u[1..] + a == a && u[1..] + b == b;
    }
  }

  /** Different characters are told apart by their own units. */
  lemma DifferentFronts(c: char, d: char, a: seq<int>, b: seq<int>)
    requires c != d
    ensures Before(Units(c) + a, Units(d) + b) <==> Rank(c) < Rank(d)
  {
    var x, y := Units(c) + a, Units(d) + b;
    assert x[0] == Units(c)[0] && y[0] == Units(d)[0];
    if x[0] == y[0] {
      assert x[1..][0] == Units(c)[1] && y[1..][0] == Units(d)[1];
    }
  }

  /** Keys are ordered by their UTF-16 code units. */
  lemma {:induction false} LessIsUnitOrder(s: string, t: string)
    ensures Less(s, t) <==> Before(Utf16(s), Utf16(t))
  {
    if s != "" && t != "" {
      if s[0] == t[0] {
        LessIsUnitOrder(s[1..], t[1..]);
        CommonFront(Units(s[0]), Utf16(s[1..]), Utf16(t[1..]));
      } else {
        DifferentFronts(s[0], t[0], Utf16(s[1..]), Utf16(t[1..]));
      }
    }
  }
}
