/** The canonical text of a JSON-like value, independent of record key order.
    Models `canonicalIdempotencyValue` of src/inventory/idempotency.ts. */
module Canonical {
  import Decimal

  const MAX_SAFE_INTEGER := 9007199254740991

  type SafeInt = n: int | -MAX_SAFE_INTEGER <= n <= MAX_SAFE_INTEGER

  datatype Value =
    | Null
    | Undefined
    | Bool(b: bool)
    | Number(n: SafeInt)
    | NegativeZero | NotANumber | Infinity | NegativeInfinity
    | BigInt(big: int)
    | Text(text: string)
    | Array(items: seq<Value>)
    | Record(fields: seq<Field>)   // in insertion order

  datatype Field = Field(key: string, value: Value)

  // --- strings, section 7 of RFC 8259 -----------------------------------------------------------

  function HexDigit(d: nat): char
    requires d < 16
  {
    if d < 10 then '0' + d as char else 'a' + (d - 10) as char
  }

  /** `JSON.stringify` of one character: two-character escapes where they exist, then \u00XX. */
  function EscapeChar(c: char): string {
    if c == '\"' then "\\\""
    else if c == '\\' then "\\\\"
    else if c == '\U{0008}' then "\\b"
    else if c == '\t' then "\\t"
    else if c == '\n' then "\\n"
    else if c == '\U{000C}' then "\\f"
    else if c == '\r' then "\\r"
    else if c < ' ' then ['\\', 'u', '0', '0', HexDigit(c as int / 16), HexDigit(c as int % 16)]
    else [c]
  }

  function Escape(s: string): string {
    if s == [] then [] else EscapeChar(s[0]) + Escape(s[1..])
  }

  function Quote(s: string): string {
    "\"" + Escape(s) + "\""
  }

  // --- key order --------------------------------------------------------------------------------

  /** Position of a character in UTF-16 code unit order: the characters outside the basic plane are
      led by surrogates and sort below U+E000. */
  function Rank(c: char): int {
    var u := c as int;
    if u < 0xD800 then u
    else if u >= 0x10000 then u - 0x10000 + 0xD800
    else u - 0xE000 + 0xD800 + 0x100000
  }

  predicate Less(s: string, t: string) {
    if t == [] then false
    else if s == [] then true
    else Rank(s[0]) < Rank(t[0]) || (s[0] == t[0] && Less(s[1..], t[1..]))
  }

  datatype Entry = Entry(key: string, text: string)

  function Insert(e: Entry, sorted: seq<Entry>): seq<Entry> {
    if sorted == [] then [e]
    else if Less(sorted[0].key, e.key) then [sorted[0]] + Insert(e, sorted[1..])
    else [e] + sorted
  }

  function Sort(entries: seq<Entry>): seq<Entry> {
    if entries == [] then [] else Insert(entries[0], Sort(entries[1..]))
  }

  // --- the canonical text -----------------------------------------------------------------------

  function PrintInt(n: int): string {
    if n < 0 then "-" + Decimal.Print(-n) else Decimal.Print(n)
  }

  /** entries joined with commas */
  function JoinEntries(entries: seq<Entry>): string {
    if entries == [] then ""
    else
      Quote(entries[0].key) + ":" + entries[0].text
      + if |entries| == 1 then "" else "," + JoinEntries(entries[1..])
  }

  function Canon(v: Value): string
    decreases v, 1
  {
    match v
    case Null => "null"
    case Undefined => "undefined"
    case Bool(b) => if b then "boolean:true" else "boolean:false"
    case Number(n) => "number:" + PrintInt(n)
    case NegativeZero => "number:-0"
    case NotANumber => "number:NaN"
    case Infinity => "number:Infinity"
    case NegativeInfinity => "number:-Infinity"
    case BigInt(n) => "bigint:" + PrintInt(n)
    case Text(s) => "string:" + Quote(s)
    case Array(items) => "[" + CanonItems(items) + "]"
    case Record(fields) => "{" + JoinEntries(Sort(Entries(fields))) + "}"
  }

  function CanonItems(items: seq<Value>): string
    decreases items, 0
  {
    if items == [] then ""
    else Canon(items[0]) + (if |items| == 1 then "" else "," + CanonItems(items[1..]))
  }

  function Entries(fields: seq<Field>): seq<Entry>
    decreases fields, 0
  {
    if fields == [] then [] else [Entry(fields[0].key, Canon(fields[0].value))] + Entries(fields[1..])
  }

  // --- meaning ----------------------------------------------------------------------------------

  predicate DistinctKeys(fields: seq<Field>) {
    forall i, j :: 0 <= i < j < |fields| ==> fields[i].key != fields[j].key
  }

  /** A value JavaScript can hold: no record has a key twice. */
  predicate WellFormed(v: Value) {
    match v
    case Array(items) => forall i :: 0 <= i < |items| ==> WellFormed(items[i])
    case Record(fields) => DistinctKeys(fields) && forall i :: 0 <= i < |fields| ==> WellFormed(fields[i].value)
    case _ => true
  }

  /** Equal up to the order of record keys, at every depth. */
  predicate Equal(v: Value, w: Value) {
    match (v, w)
    case (Array(a), Array(b)) => |a| == |b| && forall i :: 0 <= i < |a| ==> Equal(a[i], b[i])
    case (Record(f), Record(g)) =>
      && |f| == |g|
      && forall i :: 0 <= i < |f| ==> exists j :: 0 <= j < |g| && f[i].key == g[j].key && Equal(f[i].value, g[j].value)
    case (_, _) => v == w
  }
}
