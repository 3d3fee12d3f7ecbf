/**
  JSON text as `JSON.stringify(value, null, 2)` writes it: decimal integers,
  quoted strings with JSON escapes, and arrays and objects laid out one member
  per line, indented two spaces per level. Each writer has a reader beside it,
  and the lemmas show that reading gives back what was written.
*/
module JsonText {
  import opened Wrappers
  import opened JsonValue
  import opened CharClass

  // ---------------------------------------------------------------------------
  // Integers

  function DigitChar(d: nat): (c: char)
    requires d < 10
    ensures IsDigit(c) && c as int - '0' as int == d
  {
    (d + '0' as int) as char
  }

  /** `String(n)` for a natural number: decimal, no leading zeros. */
  function NatToString(n: nat): (s: string)
    ensures s != [] && forall i :: 0 <= i < |s| ==> IsDigit(s[i])
    ensures |s| > 1 ==> s[0] != '0'
  {
    if n < 10 then [DigitChar(n)] else NatToString(n / 10) + [DigitChar(n % 10)]
  }

  /** The value of a string of decimal digits. */
  function DigitsValue(s: string): nat
    requires forall i :: 0 <= i < |s| ==> IsDigit(s[i])
  {
    if s == [] then 0
    else
      var d := s[|s| - 1];
      assert IsDigit(d);
      DigitsValue(s[..|s| - 1]) * 10 + (d as int - '0' as int)
  }

  lemma {:induction false} NatToStringRoundTrip(n: nat)
    ensures DigitsValue(NatToString(n)) == n
  {
    if n >= 10 {
      NatToStringRoundTrip(n / 10);
      var s := NatToString(n);
      assert s[..|s| - 1] == NatToString(n / 10);
    }
  }

  /** The length of the run of decimal digits at the start of `t`. */
  function DigitRun(t: string): (n: nat)
    ensures n <= |t|
    ensures forall i :: 0 <= i < n ==> IsDigit(t[i])
    ensures n < |t| ==> !IsDigit(t[n])
  {
    if t != [] && IsDigit(t[0]) then 1 + DigitRun(t[1..]) else 0
  }

  lemma DigitRunOfDigits(d: string, rest: string)
    requires forall i :: 0 <= i < |d| ==> IsDigit(d[i])
    requires rest == [] || !IsDigit(rest[0])
    ensures DigitRun(d + rest) == |d|
  {
    var t := d + rest;
    assert forall i :: 0 <= i < |d| ==> t[i] == d[i];
    assert rest != [] ==> t[|d|] == rest[0];
  }

  /** `String(n)`: a minus sign before a negative number. */
  function IntToString(n: int): string {
    if n < 0 then "-" + NatToString(-n) else NatToString(n)
  }

  // ---------------------------------------------------------------------------
  // Strings

  function HexDigit(d: nat): (c: char)
    requires d < 16
  {
    "0123456789abcdef"[d]
  }

  function HexValue(c: char): Option<nat> {
    if '0' <= c <= '9' then Some(c as int - '0' as int)
    else if 'a' <= c <= 'f' then Some(c as int - 'a' as int + 10)
    else if 'A' <= c <= 'F' then Some(c as int - 'A' as int + 10)
    else None
  }

  lemma HexDigitValue(d: nat)
    requires d < 16
    ensures HexValue(HexDigit(d)) == Some(d)
  {
  }

  /** How `JSON.stringify` writes one character of a string. */
  function EscapeChar(c: char): (e: string)
    ensures e != [] && (e[0] == '\\' || e == [c])
  {
    if c == '"' then "\\\""
    else if c == '\\' then "\\\\"
    else if c as int == 8 then "\\b"
    else if c as int == 9 then "\\t"
    else if c as int == 10 then "\\n"
    else if c as int == 12 then "\\f"
    else if c as int == 13 then "\\r"
    else if c as int < 0x20 then "\\u00" + [HexDigit(c as int / 16), HexDigit(c as int % 16)]
    else [c]
  }

  function Escape(s: string): string {
    if s == [] then [] else EscapeChar(s[0]) + Escape(s[1..])
  }

  /** The body of a JSON string literal read back: `None` on a bad escape, a raw quote or a raw control character. */
  function Unescape(t: string): Option<string>
    decreases |t|
  {
    if t == [] then Some([])
    else if t[0] == '\\' then
      if |t| < 2 then None
      else
        var c := t[1];
        var single :=
          if c == '"' then Some('"')
          else if c == '\\' then Some('\\')
          else if c == '/' then Some('/')
          else if c == 'b' then Some(8 as char)
          else if c == 't' then Some(9 as char)
          else if c == 'n' then Some(10 as char)
          else if c == 'f' then Some(12 as char)
          else if c == 'r' then Some(13 as char)
          else None;
        if single.Some? then
          match Unescape(t[2..])
          case None => None
          case Some(rest) => Some([single.value] + rest)
        else if c == 'u' && |t| >= 6 then
          var h := [HexValue(t[2]), HexValue(t[3]), HexValue(t[4]), HexValue(t[5])];
          if h[0].Some? && h[1].Some? && h[2].Some? && h[3].Some? then
            var code := ((h[0].value * 16 + h[1].value) * 16 + h[2].value) * 16 + h[3].value;
            if 0xD800 <= code < 0xE000 then None
            else
              match Unescape(t[6..])
              case None => None
              case Some(rest) => Some([code as char] + rest)
          else None
        else None
    else if t[0] == '"' || t[0] as int < 0x20 then None
    else
      match Unescape(t[1..])
      case None => None
      case Some(rest) => Some([t[0]] + rest)
  }

  lemma EscapeCharRoundTrip(c: char, rest: string)
    ensures Unescape(EscapeChar(c) + rest) == match Unescape(rest) case None => None case Some(r) => Some([c] + r)
  {
    var t := EscapeChar(c) + rest;
    if c as int < 0x20 && c as int !in {8, 9, 10, 12, 13} {
      var hi, lo := c as int / 16, c as int % 16;
      HexDigitValue(hi);
      HexDigitValue(lo);
      assert t[2] == '0' && t[3] == '0' && t[4] == HexDigit(hi) && t[5] == HexDigit(lo);
      assert t[6..] == rest;
    } else if c == '"' || c == '\\' || c as int in {8, 9, 10, 12, 13} {
      assert t[2..] == rest;
    } else {
      assert t[1..] == rest;
    }
  }

  /** Reading an escaped string gives back the string. */
  lemma {:induction false} EscapeRoundTrip(s: string)
    ensures Unescape(Escape(s)) == Some(s)
  {
    if s != [] {
      EscapeRoundTrip(s[1..]);
      EscapeCharRoundTrip(s[0], Escape(s[1..]));
      assert s == [s[0]] + s[1..];
    }
  }

  /** `JSON.stringify` of a string: the escaped text between double quotes. */
  function Quote(s: string): string {
    "\"" + Escape(s) + "\""
  }

  /** An escaped body has no raw quote, so the closing quote is the first unescaped one. */
  lemma {:induction false} EscapeHasNoRawQuote(s: string, i: nat)
    requires i < |Escape(s)| && Escape(s)[i] == '"'
    ensures i > 0 && Escape(s)[i - 1] == '\\'
  {
    assert s != [];
    var e := EscapeChar(s[0]);
    assert Escape(s) == e + Escape(s[1..]);
    if i >= |e| {
      EscapeHasNoRawQuote(s[1..], i - |e|);
    }
  }

  // ---------------------------------------------------------------------------
  // Values

  /** The indentation unit `JSON.stringify(v, null, 2)` adds per level. */
  const Gap: string := "  "

  /** `JSON.stringify(v, null, 2)` for a value nested at `indent`. */
  function Stringify(v: Json, indent: string): string
    decreases v
  {
    match v
    case JNull => "null"
    case JBool(b) => if b then "true" else "false"
    case JNum(n) => IntToString(n)
    case JStr(s) => Quote(s)
    case JArr(items) =>
      if items == [] then "[]"
      else "[\n" + indent + Gap + Elements(items, indent + Gap) + "\n" + indent + "]"
    case JObj(ms) =>
      var keys := UniqueKeys(ms);
      if keys == [] then "{}"
      else "{\n" + indent + Gap + Properties(ms, keys, indent + Gap) + "\n" + indent + "}"
  }

  /** The elements of a non-empty array, one per line. */
  function Elements(items: seq<Json>, inner: string): string
    requires items != []
    decreases items
  {
    var first := Stringify(items[0], inner);
    if |items| == 1 then first else first + ",\n" + inner + Elements(items[1..], inner)
  }

  /** The properties of a non-empty object, one per line, each key with its last value. */
  function Properties(ms: Members, keys: seq<string>, inner: string): string
    requires keys != [] && forall k :: k in keys ==> k in KeysOf(ms)
    decreases ms, |keys|
  {
    var v := Lookup(ms, keys[0]).value;
    assert Member(keys[0], v) in ms;
    var first := Quote(keys[0]) + ": " + Stringify(v, inner);
    if |keys| == 1 then first else first + ",\n" + inner + Properties(ms, keys[1..], inner)
  }

  /** `JSON.stringify(v, null, 2)` at the top level. */
  function PrettyPrint(v: Json): (text: string)
    ensures text != []
    ensures text[0] == '"' <==> v.JStr?
    ensures text[0] == '[' <==> v.JArr?
    ensures text[0] == '{' <==> v.JObj?
  {
    Stringify(v, "")
  }
}
