/**
  `JSON.parse` on the text `JSON.stringify` writes: whitespace between tokens,
  integers, string literals with their escapes, arrays, and objects whose
  repeated keys collapse as they do when the parser stores them into one
  object. The lemmas show that reading the indented text of a value gives the
  value back.
*/
module JsonRead {
  import opened Wrappers
  import opened JsonValue
  import opened JsonText
  import opened CharClass

  // ---------------------------------------------------------------------------
  // Tokens

  /** The four characters JSON allows between tokens. */
  predicate IsWs(c: char) { c == ' ' || c == '\t' || c == '\n' || c == '\r' }

  predicate AllWs(w: string) {
    forall i :: 0 <= i < |w| ==> IsWs(w[i])
  }

  function SkipWs(t: string): (r: string)
    ensures |r| <= |t|
    ensures r == [] || !IsWs(r[0])
    decreases |t|
  {
    if t != [] && IsWs(t[0]) then SkipWs(t[1..]) else t
  }

  /** A value read from the front of a text, and the text after it. */
  datatype Step<T> = Step(value: T, rest: string)

  /** `null`, `true` or `false` at the start of `s`. */
  function Literal(s: string, word: string, v: Json): (r: Option<Step<Json>>)
    requires word != []
    ensures r.Some? ==> |r.value.rest| < |s|
  {
    if |word| <= |s| && s[..|word|] == word then Some(Step(v, s[|word|..])) else None
  }

  /**
    An integer at the start of `s`: an optional minus sign, then `0` or digits
    without a leading zero. A fraction or an exponent is not part of this model
    and is refused.
  */
  function ParseNumber(s: string): (r: Option<Step<Json>>)
    ensures r.Some? ==> |r.value.rest| < |s|
  {
    var neg := s != [] && s[0] == '-';
    var d := if neg then s[1..] else s;
    var n := DigitRun(d);
    if n == 0 then None
    else if d[0] == '0' && n > 1 then None
    else if n < |d| && (d[n] == '.' || d[n] == 'e' || d[n] == 'E') then None
    else
      var digits := d[..n];
      assert forall i :: 0 <= i < n ==> digits[i] == d[i];
      var m: int := DigitsValue(digits);
      Some(Step(JNum(if neg then -m else m), d[n..]))
  }

  function Shift(o: Option<nat>, k: nat): Option<nat> {
    match o
    case None => None
    case Some(e) => Some(e + k)
  }

  /** The index of the quote that closes a string literal whose body starts `u`: a backslash hides the next character. */
  function QuoteEnd(u: string): (r: Option<nat>)
    ensures r.Some? ==> r.value < |u| && u[r.value] == '"'
    decreases |u|
  {
    if u == [] then None
    else if u[0] == '"' then Some(0)
    else if u[0] == '\\' then
      if |u| < 2 then None else Shift(QuoteEnd(u[2..]), 2)
    else Shift(QuoteEnd(u[1..]), 1)
  }

  /** A string literal whose opening quote has been read. */
  function ParseString(u: string): (r: Option<Step<string>>)
    ensures r.Some? ==> |r.value.rest| < |u|
  {
    match QuoteEnd(u)
    case None => None
    case Some(e) =>
      match Unescape(u[..e])
      case None => None
      case Some(s) => Some(Step(s, u[e + 1..]))
  }

  // ---------------------------------------------------------------------------
  // Values

  function ParseValue(t: string): (r: Option<Step<Json>>)
    ensures r.Some? ==> |r.value.rest| < |t|
    decreases |t|, 1
  {
    var s := SkipWs(t);
    if s == [] then None
    else if s[0] == '[' then ParseArray(s[1..])
    else if s[0] == '{' then ParseObject(s[1..])
    else if s[0] == '"' then
      match ParseString(s[1..])
      case None => None
      case Some(str) => Some(Step(JStr(str.value), str.rest))
    else if s[0] == '-' || IsDigit(s[0]) then ParseNumber(s)
    else if s[0] == 'n' then Literal(s, "null", JNull)
    else if s[0] == 't' then Literal(s, "true", JBool(true))
    else if s[0] == 'f' then Literal(s, "false", JBool(false))
    else None
  }

  /** An array whose `[` has been read. */
  function ParseArray(u: string): (r: Option<Step<Json>>)
    ensures r.Some? ==> |r.value.rest| < |u|
    decreases |u|, 3
  {
    var s := SkipWs(u);
    if s != [] && s[0] == ']' then Some(Step(JArr([]), s[1..]))
    else
      match ParseElementList(s)
      case None => None
      case Some(items) => Some(Step(JArr(items.value), items.rest))
  }

  /** One element, then the elements after it up to the closing `]`. */
  function ParseElementList(u: string): (r: Option<Step<seq<Json>>>)
    ensures r.Some? ==> |r.value.rest| < |u|
    decreases |u|, 2
  {
    match ParseValue(u)
    case None => None
    case Some(first) =>
      match ParseElements(first.rest)
      case None => None
      case Some(more) => Some(Step([first.value] + more.value, more.rest))
  }

  /** After an element: `]`, or `,` and another element. */
  function ParseElements(u: string): (r: Option<Step<seq<Json>>>)
    ensures r.Some? ==> |r.value.rest| < |u|
    decreases |u|, 2
  {
    var s := SkipWs(u);
    if s == [] then None
    else if s[0] == ']' then Some(Step([], s[1..]))
    else if s[0] == ',' then ParseElementList(s[1..])
    else None
  }

  /** An object whose `{` has been read; a repeated key keeps every member, and the last one wins on lookup. */
  function ParseObject(u: string): (r: Option<Step<Json>>)
    ensures r.Some? ==> |r.value.rest| < |u|
    decreases |u|, 3
  {
    var s := SkipWs(u);
    if s != [] && s[0] == '}' then Some(Step(JObj([]), s[1..]))
    else
      match ParseMemberList(s)
      case None => None
      case Some(ms) => Some(Step(JObj(ms.value), ms.rest))
  }

  /** `"key": value` */
  function ParseMember(u: string): (r: Option<Step<Member>>)
    ensures r.Some? ==> |r.value.rest| < |u|
    decreases |u|, 1
  {
    var s := SkipWs(u);
    if s == [] || s[0] != '"' then None
    else
      match ParseString(s[1..])
      case None => None
      case Some(key) =>
        var c := SkipWs(key.rest);
        if c == [] || c[0] != ':' then None
        else
          match ParseValue(c[1..])
          case None => None
          case Some(v) => Some(Step(Member(key.value, v.value), v.rest))
  }

  /** One member, then the members after it up to the closing `}`. */
  function ParseMemberList(u: string): (r: Option<Step<Members>>)
    ensures r.Some? ==> |r.value.rest| < |u|
    decreases |u|, 2
  {
    match ParseMember(u)
    case None => None
    case Some(first) =>
      match ParseMembers(first.rest)
      case None => None
      case Some(more) => Some(Step([first.value] + more.value, more.rest))
  }

  /** After a member: `}`, or `,` and another member. */
  function ParseMembers(u: string): (r: Option<Step<Members>>)
    ensures r.Some? ==> |r.value.rest| < |u|
    decreases |u|, 2
  {
    var s := SkipWs(u);
    if s == [] then None
    else if s[0] == '}' then Some(Step([], s[1..]))
    else if s[0] == ',' then ParseMemberList(s[1..])
    else None
  }

  /** `JSON.parse(text)`: one value and nothing but whitespace after it; `None` for a `SyntaxError`. */
  function Parse(text: string): Option<Json> {
    match ParseValue(text)
    case None => None
    case Some(st) => if SkipWs(st.rest) == [] then Some(st.value) else None
  }

  // ---------------------------------------------------------------------------
  // What a parse gives back

  /**
    The value as one JavaScript object would hold it: each key once, at its
    first position, with its last value; arrays and objects inside likewise.
  */
  function Canonical(v: Json): Json
    decreases v
  {
    match v
    case JArr(items) => JArr(CanonicalItems(items))
    case JObj(ms) => JObj(CanonicalMembers(ms, UniqueKeys(ms)))
    case _ => v
  }

  function CanonicalOpt(o: Option<Json>): Option<Json> {
    match o
    case None => None
    case Some(x) => Some(Canonical(x))
  }

  function CanonicalItems(items: seq<Json>): (r: seq<Json>)
    ensures |r| == |items|
    decreases items
  {
    if items == [] then [] else [Canonical(items[0])] + CanonicalItems(items[1..])
  }

  function CanonicalMembers(ms: Members, keys: seq<string>): (r: Members)
    requires forall k :: k in keys ==> k in KeysOf(ms)
    decreases ms, |keys|
  {
    if keys == [] then []
    else
      var v := Lookup(ms, keys[0]).value;
      assert Member(keys[0], v) in ms;
      [Member(keys[0], Canonical(v))] + CanonicalMembers(ms, keys[1..])
  }

  // ---------------------------------------------------------------------------
  // Whitespace

  lemma {:induction false} SkipWsPrefix(w: string, x: string)
    requires AllWs(w)
    ensures SkipWs(w + x) == SkipWs(x)
    decreases |w|
  {
    if w == [] {
      assert w + x == x;
    } else {
      assert (w + x)[1..] == w[1..] + x;
      SkipWsPrefix(w[1..], x);
    }
  }

  lemma ParseValueSkipsWs(w: string, x: string)
    requires AllWs(w)
    ensures ParseValue(w + x) == ParseValue(x)
  {
    SkipWsPrefix(w, x);
  }

  lemma ParseElementListSkipsWs(w: string, x: string)
    requires AllWs(w)
    ensures ParseElementList(w + x) == ParseElementList(x)
  {
    ParseValueSkipsWs(w, x);
  }

  lemma ParseMemberSkipsWs(w: string, x: string)
    requires AllWs(w)
    ensures ParseMember(w + x) == ParseMember(x)
  {
    SkipWsPrefix(w, x);
  }

  lemma ParseMemberListSkipsWs(w: string, x: string)
    requires AllWs(w)
    ensures ParseMemberList(w + x) == ParseMemberList(x)
  {
    ParseMemberSkipsWs(w, x);
  }

  /** A line break and an indentation are whitespace. */
  lemma NewlineIndent(indent: string)
    requires AllWs(indent)
    ensures AllWs("\n" + indent) && AllWs(indent + Gap)
  {
  }

  /** What may follow a value in indented text: the end, a comma, or a line break. */
  predicate EndsValue(rest: string) {
    rest == [] || rest[0] == ',' || IsWs(rest[0])
  }

  /** Indented text starts with the first character of a token, never with whitespace or a closing bracket. */
  lemma StringifyStart(v: Json, indent: string)
    ensures Stringify(v, indent) != []
    ensures var c := Stringify(v, indent)[0];
      !IsWs(c) && c != ']' && c != '}' && c != ',' && c != ':'
  {
    match v
    case JNum(n) =>
      if n < 0 {
        assert Stringify(v, indent)[0] == '-';
      } else {
        assert IsDigit(NatToString(n)[0]);
      }
    case JStr(s) =>
      assert Stringify(v, indent)[0] == '"';
    case _ =>
  }

  // ---------------------------------------------------------------------------
  // Round trips for the leaves

  /** Digits without a leading zero read back as their value. */
  lemma NaturalRoundTrip(m: nat, rest: string)
    requires EndsValue(rest)
    ensures ParseNumber(NatToString(m) + rest) == Some(Step(JNum(m), rest))
  {
    var d := NatToString(m);
    var t := d + rest;
    DigitRunOfDigits(d, rest);
    NatToStringRoundTrip(m);
    assert t[..|d|] == d;
    assert t[|d|..] == rest;
    assert rest != [] ==> t[|d|] == rest[0];
    assert t[0] == d[0] && IsDigit(d[0]);
  }

  /** A minus sign negates the number after it. */
  lemma NegatedNumber(t: string)
    requires t != [] && IsDigit(t[0])
    ensures ParseNumber("-" + t) ==
      match ParseNumber(t)
      case None => None
      case Some(st) => Some(Step(JNum(-st.value.n), st.rest))
  {
    assert ("-" + t)[1..] == t;
  }

  /** A token that starts like a number is read as one. */
  lemma ParseValueNumber(s: string)
    requires s != [] && (s[0] == '-' || IsDigit(s[0]))
    ensures ParseValue(s) == ParseNumber(s)
  {
    assert SkipWs(s) == s;
  }

  lemma NaturalValueRoundTrip(m: nat, rest: string)
    requires EndsValue(rest)
    ensures ParseValue(NatToString(m) + rest) == Some(Step(JNum(m), rest))
  {
    var t := NatToString(m) + rest;
    NaturalRoundTrip(m, rest);
    assert t[0] == NatToString(m)[0];
    ParseValueNumber(t);
  }

  lemma NegativeValueRoundTrip(m: nat, rest: string)
    requires EndsValue(rest)
    ensures ParseValue("-" + (NatToString(m) + rest)) == Some(Step(JNum(-(m as int)), rest))
  {
    var t := NatToString(m) + rest;
    NaturalRoundTrip(m, rest);
    assert t[0] == NatToString(m)[0];
    NegatedNumber(t);
    ParseValueNumber("-" + t);
  }

  lemma Associative(a: string, b: string, c: string)
    ensures a + b + c == a + (b + c)
  {
  }

  lemma NumberRoundTrip(n: int, rest: string)
    requires EndsValue(rest)
    ensures ParseValue(IntToString(n) + rest) == Some(Step(JNum(n), rest))
  {
    if n < 0 {
      assert IntToString(n) == "-" + NatToString(-n);
      Associative("-", NatToString(-n), rest);
      NegativeValueRoundTrip(-n, rest);
    } else {
      NaturalValueRoundTrip(n, rest);
    }
  }

  /** Characters that are neither a quote nor a backslash. */
  predicate Plain(p: string) {
    forall i :: 0 <= i < |p| ==> p[i] != '"' && p[i] != '\\'
  }

  /** The scan for the closing quote walks over plain characters one at a time. */
  lemma {:induction false} QuoteEndPlainRun(p: string, t: string)
    requires Plain(p)
    ensures QuoteEnd(p + t) == Shift(QuoteEnd(t), |p|)
    decreases |p|
  {
    if p == [] {
      assert p + t == t;
    } else {
      assert (p + t)[1..] == p[1..] + t;
      assert Plain(p[1..]);
      QuoteEndPlainRun(p[1..], t);
    }
  }

  /** A backslash hides the character after it. */
  lemma EscapedQuoteEnd(e: string, t: string)
    requires |e| >= 2 && e[0] == '\\' && Plain(e[2..])
    ensures QuoteEnd(e + t) == Shift(QuoteEnd(t), |e|)
  {
    assert (e + t)[2..] == e[2..] + t;
    QuoteEndPlainRun(e[2..], t);
  }

  lemma EscapeCharQuoteEnd(c: char, t: string)
    ensures QuoteEnd(EscapeChar(c) + t) == Shift(QuoteEnd(t), |EscapeChar(c)|)
  {
    var e := EscapeChar(c);
    if c == '"' || c == '\\' || c as int in {8, 9, 10, 12, 13} || c as int < 0x20 {
      assert |e| >= 2 && e[0] == '\\' && Plain(e[2..]);
      EscapedQuoteEnd(e, t);
    } else {
      assert e == [c] && Plain(e);
      QuoteEndPlainRun(e, t);
    }
  }

  lemma Regroup(a: string, b: string, c: string, d: string)
    ensures a + b + c + d == a + (b + c + d)
  {
  }

  lemma {:induction false} EscapeQuoteEnd(s: string, t: string)
    ensures QuoteEnd(Escape(s) + "\"" + t) == Some(|Escape(s)|)
  {
    if s == [] {
      assert Escape(s) + "\"" + t == "\"" + t;
    } else {
      EscapeQuoteEnd(s[1..], t);
      EscapeCharQuoteEnd(s[0], Escape(s[1..]) + "\"" + t);
      Regroup(EscapeChar(s[0]), Escape(s[1..]), "\"", t);
    }
  }

  /** A quoted string reads back as the string, leaving the text after its closing quote. */
  lemma StringRoundTrip(s: string, rest: string)
    ensures ParseString(Escape(s) + "\"" + rest) == Some(Step(s, rest))
  {
    var u := Escape(s) + "\"" + rest;
    EscapeQuoteEnd(s, rest);
    EscapeRoundTrip(s);
    assert u[..|Escape(s)|] == Escape(s);
    assert u[|Escape(s)| + 1..] == rest;
  }

  // ---------------------------------------------------------------------------
  // Round trips for arrays, objects and whole texts

  /** A keyword reads back as itself. */
  lemma LiteralRead(word: string, v: Json, rest: string)
    requires word != []
    ensures Literal(word + rest, word, v) == Some(Step(v, rest))
  {
    assert (word + rest)[..|word|] == word;
    assert (word + rest)[|word|..] == rest;
  }

  /** The elements of an array start with the first element. */
  lemma ElementsStart(items: seq<Json>, inner: string)
    requires items != []
    ensures Elements(items, inner) != [] && Elements(items, inner)[0] == Stringify(items[0], inner)[0]
  {
    StringifyStart(items[0], inner);
  }

  /** After the last element: a line break, the indentation, and the closing bracket. */
  lemma CloseRead(indent: string, close: char, rest: string)
    requires AllWs(indent) && !IsWs(close)
    ensures SkipWs("\n" + indent + [close] + rest) == [close] + rest
  {
    NewlineIndent(indent);
    assert "\n" + indent + [close] + rest == ("\n" + indent) + ([close] + rest);
    SkipWsPrefix("\n" + indent, [close] + rest);
  }

  /** `[`, whitespace, and a list of elements that starts with a token. */
  lemma ArrayRead(w: string, e: string, tail: string, xs: seq<Json>, rest: string)
    requires AllWs(w) && e != [] && !IsWs(e[0]) && e[0] != ']'
    requires ParseElementList(e + tail) == Some(Step(xs, rest))
    ensures ParseValue("[" + (w + (e + tail))) == Some(Step(JArr(xs), rest))
  {
    assert ("[" + (w + (e + tail)))[1..] == w + (e + tail);
    SkipWsPrefix(w, e + tail);
    assert (e + tail)[0] == e[0];
  }

  /** `{`, whitespace, and a list of members that starts with a token. */
  lemma ObjectRead(w: string, p: string, tail: string, ms: Members, rest: string)
    requires AllWs(w) && p != [] && !IsWs(p[0]) && p[0] != '}'
    requires ParseMemberList(p + tail) == Some(Step(ms, rest))
    ensures ParseValue("{" + (w + (p + tail))) == Some(Step(JObj(ms), rest))
  {
    assert ("{" + (w + (p + tail)))[1..] == w + (p + tail);
    SkipWsPrefix(w, p + tail);
    assert (p + tail)[0] == p[0];
  }

  /** An indented block `o`, the body on its own lines, `c`, regrouped the way the reader meets it. */
  lemma BlockLayout(o: string, indent: string, body: string, c: string, rest: string)
    requires |o| == 1
    ensures o + "\n" + indent + Gap + body + "\n" + indent + c + rest ==
      o + (("\n" + (indent + Gap)) + (body + ("\n" + indent + c + rest)))
  {
  }

  lemma ArrayLayout(items: seq<Json>, indent: string, rest: string)
    requires items != []
    ensures Stringify(JArr(items), indent) + rest ==
      "[" + (("\n" + (indent + Gap)) + (Elements(items, indent + Gap) + ("\n" + indent + "]" + rest)))
  {
    var body := Elements(items, indent + Gap);
    assert Stringify(JArr(items), indent) == "[" + "\n" + indent + Gap + body + "\n" + indent + "]";
    BlockLayout("[", indent, body, "]", rest);
  }

  lemma ObjectLayout(ms: Members, indent: string, rest: string)
    requires UniqueKeys(ms) != []
    ensures Stringify(JObj(ms), indent) + rest ==
      "{" + (("\n" + (indent + Gap)) + (Properties(ms, UniqueKeys(ms), indent + Gap) + ("\n" + indent + "}" + rest)))
  {
    var body := Properties(ms, UniqueKeys(ms), indent + Gap);
    assert Stringify(JObj(ms), indent) == "{" + "\n" + indent + Gap + body + "\n" + indent + "}";
    BlockLayout("{", indent, body, "}", rest);
  }

  /** The properties of an object start with the quote of the first key. */
  lemma PropertiesStart(ms: Members, keys: seq<string>, inner: string)
    requires keys != [] && forall k :: k in keys ==> k in KeysOf(ms)
    ensures Properties(ms, keys, inner) != [] && Properties(ms, keys, inner)[0] == '"'
  {
  }

  /** An element followed by a comma and more elements. */
  lemma ElementsCons(fs: string, m: string, a: Json, xs: seq<Json>, r: string)
    requires ParseValue(fs + ("," + m)) == Some(Step(a, "," + m))
    requires ParseElementList(m) == Some(Step(xs, r))
    ensures ParseElementList(fs + ("," + m)) == Some(Step([a] + xs, r))
  {
    assert ("," + m)[1..] == m;
  }

  /** The last element, followed by what closes the list. */
  lemma ElementsLast(fs: string, tail: string, a: Json, r: string)
    requires ParseValue(fs + tail) == Some(Step(a, tail))
    requires ParseElements(tail) == Some(Step([], r))
    ensures ParseElementList(fs + tail) == Some(Step([a], r))
  {
    assert [a] + [] == [a];
  }

  /** A member followed by a comma and more members. */
  lemma MembersCons(fs: string, m: string, a: Member, xs: Members, r: string)
    requires ParseMember(fs + ("," + m)) == Some(Step(a, "," + m))
    requires ParseMemberList(m) == Some(Step(xs, r))
    ensures ParseMemberList(fs + ("," + m)) == Some(Step([a] + xs, r))
  {
    assert ("," + m)[1..] == m;
  }

  /** The last member, followed by what closes the list. */
  lemma MembersLast(fs: string, tail: string, a: Member, r: string)
    requires ParseMember(fs + tail) == Some(Step(a, tail))
    requires ParseMembers(tail) == Some(Step([], r))
    ensures ParseMemberList(fs + tail) == Some(Step([a], r))
  {
    assert [a] + [] == [a];
  }

  lemma MemberLayout(k: string, sv: string, x: string)
    ensures Quote(k) + ": " + sv + x == "\"" + (Escape(k) + "\"" + (":" + (" " + (sv + x))))
  {
  }

  /** `"key": value` reads back as the member, given that the value does. */
  lemma MemberText(k: string, sv: string, val: Json, x: string)
    requires ParseValue(sv + x) == Some(Step(val, x))
    ensures ParseMember(Quote(k) + ": " + sv + x) == Some(Step(Member(k, val), x))
  {
    var c := " " + (sv + x);
    MemberLayout(k, sv, x);
    StringRoundTrip(k, ":" + c);
    ParseValueSkipsWs(" ", sv + x);
    MemberSteps(Escape(k) + "\"" + (":" + c), k, c, val, x);
  }

  /** The steps of reading one member: the key, the colon, the value. */
  lemma MemberSteps(u: string, k: string, c: string, val: Json, x: string)
    requires ParseString(u) == Some(Step(k, ":" + c))
    requires ParseValue(c) == Some(Step(val, x))
    ensures ParseMember("\"" + u) == Some(Step(Member(k, val), x))
  {
    assert ("\"" + u)[1..] == u;
    assert (":" + c)[1..] == c;
  }

  /** A quote opens a string literal. */
  lemma StringStep(u: string)
    ensures ParseValue("\"" + u) ==
      match ParseString(u) case None => None case Some(st) => Some(Step(JStr(st.value), st.rest))
  {
    assert ("\"" + u)[1..] == u;
  }

  /** A string value reads back as itself. */
  lemma StringValueRoundTrip(s: string, indent: string, rest: string)
    ensures ParseValue(Stringify(JStr(s), indent) + rest) == Some(Step(JStr(s), rest))
  {
    assert Stringify(JStr(s), indent) == "\"" + Escape(s) + "\"";
    Regroup("\"", Escape(s), "\"", rest);
    StringRoundTrip(s, rest);
    StringStep(Escape(s) + "\"" + rest);
  }

  /** `null`, `true` and `false` read back as themselves. */
  lemma LiteralValueRoundTrip(v: Json, indent: string, rest: string)
    requires v.JNull? || v.JBool?
    ensures ParseValue(Stringify(v, indent) + rest) == Some(Step(v, rest))
  {
    match v
    case JNull => LiteralRead("null", JNull, rest);
    case JBool(b) =>
      if b { LiteralRead("true", v, rest); } else { LiteralRead("false", v, rest); }
  }

  /** `[]` reads back as the empty array. */
  lemma EmptyArrayRoundTrip(indent: string, rest: string)
    ensures ParseValue(Stringify(JArr([]), indent) + rest) == Some(Step(JArr([]), rest))
  {
    assert ("[]" + rest)[1..] == "]" + rest;
    assert ("]" + rest)[1..] == rest;
  }

  /** An object without members is written `{}` and reads back as the empty object. */
  lemma EmptyObjectRoundTrip(ms: Members, indent: string, rest: string)
    requires UniqueKeys(ms) == []
    ensures ParseValue(Stringify(JObj(ms), indent) + rest) == Some(Step(Canonical(JObj(ms)), rest))
  {
    assert ("{}" + rest)[1..] == "}" + rest;
    assert ("}" + rest)[1..] == rest;
  }

  /** A non-empty array reads back as its canonical elements, given that they do. */
  lemma ArrayValueRoundTrip(items: seq<Json>, indent: string, rest: string)
    requires items != [] && AllWs(indent)
    requires ParseElementList(Elements(items, indent + Gap) + ("\n" + indent + "]" + rest))
      == Some(Step(CanonicalItems(items), rest))
    ensures ParseValue(Stringify(JArr(items), indent) + rest) == Some(Step(Canonical(JArr(items)), rest))
  {
    var inner := indent + Gap;
    NewlineIndent(indent);
    NewlineIndent(inner);
    ElementsStart(items, inner);
    StringifyStart(items[0], inner);
    ArrayLayout(items, indent, rest);
    ArrayRead("\n" + inner, Elements(items, inner), "\n" + indent + "]" + rest, CanonicalItems(items), rest);
  }

  /** An object with members reads back as its canonical members, given that they do. */
  lemma ObjectValueRoundTrip(ms: Members, indent: string, rest: string)
    requires UniqueKeys(ms) != [] && AllWs(indent)
    requires ParseMemberList(Properties(ms, UniqueKeys(ms), indent + Gap) + ("\n" + indent + "}" + rest))
      == Some(Step(CanonicalMembers(ms, UniqueKeys(ms)), rest))
    ensures ParseValue(Stringify(JObj(ms), indent) + rest) == Some(Step(Canonical(JObj(ms)), rest))
  {
    var inner, keys := indent + Gap, UniqueKeys(ms);
    NewlineIndent(indent);
    NewlineIndent(inner);
    PropertiesStart(ms, keys, inner);
    ObjectLayout(ms, indent, rest);
    ObjectRead("\n" + inner, Properties(ms, keys, inner), "\n" + indent + "}" + rest, CanonicalMembers(ms, keys), rest);
  }

  /** Indented text of any value reads back as its canonical form, up to the end of the value. */
  lemma {:induction false} ValueRoundTrip(v: Json, indent: string, rest: string)
    requires AllWs(indent) && EndsValue(rest)
    ensures ParseValue(Stringify(v, indent) + rest) == Some(Step(Canonical(v), rest))
    decreases v
  {
    match v
    case JNull => LiteralValueRoundTrip(v, indent, rest);
    case JBool(_) => LiteralValueRoundTrip(v, indent, rest);
    case JNum(n) => NumberRoundTrip(n, rest);
    case JStr(s) => StringValueRoundTrip(s, indent, rest);
    case JArr(items) =>
      if items == [] {
        EmptyArrayRoundTrip(indent, rest);
      } else {
        NewlineIndent(indent);
        CloseRead(indent, ']', rest);
        ElementsRoundTrip(items, indent + Gap, "\n" + indent + "]" + rest, rest);
        ArrayValueRoundTrip(items, indent, rest);
      }
    case JObj(ms) =>
      if UniqueKeys(ms) == [] {
        EmptyObjectRoundTrip(ms, indent, rest);
      } else {
        NewlineIndent(indent);
        CloseRead(indent, '}', rest);
        PropertiesRoundTrip(ms, UniqueKeys(ms), indent + Gap, "\n" + indent + "}" + rest, rest);
        ObjectValueRoundTrip(ms, indent, rest);
      }
  }

  /** A line `first,` followed by the next line, regrouped the way the reader meets them. */
  lemma NextLine(first: string, inner: string, later: string, tail: string)
    ensures first + ",\n" + inner + later + tail == first + ("," + (("\n" + inner) + (later + tail)))
  {
  }

  /** The elements of an array read back one by one, up to and including what closes the list. */
  lemma {:induction false} ElementsRoundTrip(items: seq<Json>, inner: string, tail: string, r: string)
    requires items != [] && AllWs(inner)
    requires tail != [] && IsWs(tail[0]) && ParseElements(tail) == Some(Step([], r))
    ensures ParseElementList(Elements(items, inner) + tail) == Some(Step(CanonicalItems(items), r))
    decreases items
  {
    var first := Stringify(items[0], inner);
    if |items| == 1 {
      ValueRoundTrip(items[0], inner, tail);
      ElementsLast(first, tail, Canonical(items[0]), r);
    } else {
      var later := Elements(items[1..], inner) + tail;
      var more := ("\n" + inner) + later;
      NextLine(first, inner, Elements(items[1..], inner), tail);
      ValueRoundTrip(items[0], inner, "," + more);
      ElementsRoundTrip(items[1..], inner, tail, r);
      NewlineIndent(inner);
      ParseElementListSkipsWs("\n" + inner, later);
      ElementsCons(first, more, Canonical(items[0]), CanonicalItems(items[1..]), r);
    }
  }

  /** The properties of an object read back one by one, each key with its canonical value. */
  lemma {:induction false} PropertiesRoundTrip(ms: Members, keys: seq<string>, inner: string, tail: string, r: string)
    requires keys != [] && (forall k :: k in keys ==> k in KeysOf(ms)) && AllWs(inner)
    requires tail != [] && IsWs(tail[0]) && ParseMembers(tail) == Some(Step([], r))
    ensures ParseMemberList(Properties(ms, keys, inner) + tail) == Some(Step(CanonicalMembers(ms, keys), r))
    decreases ms, |keys|
  {
    var v := Lookup(ms, keys[0]).value;
    assert Member(keys[0], v) in ms;
    var sv := Stringify(v, inner);
    var first := Quote(keys[0]) + ": " + sv;
    var m := Member(keys[0], Canonical(v));
    if |keys| == 1 {
      ValueRoundTrip(v, inner, tail);
      MemberText(keys[0], sv, Canonical(v), tail);
      MembersLast(first, tail, m, r);
    } else {
      var later := Properties(ms, keys[1..], inner) + tail;
      var more := ("\n" + inner) + later;
      NextLine(first, inner, Properties(ms, keys[1..], inner), tail);
      ValueRoundTrip(v, inner, "," + more);
      MemberText(keys[0], sv, Canonical(v), "," + more);
      PropertiesRoundTrip(ms, keys[1..], inner, tail, r);
      NewlineIndent(inner);
      ParseMemberListSkipsWs("\n" + inner, later);
      MembersCons(first, more, m, CanonicalMembers(ms, keys[1..]), r);
    }
  }

  /** `JSON.parse(JSON.stringify(v, null, 2))` gives back `v` as one JavaScript object holds it. */
  lemma PrettyPrintRoundTrip(v: Json)
    ensures Parse(PrettyPrint(v)) == Some(Canonical(v))
  {
    ValueRoundTrip(v, "", "");
    assert Stringify(v, "") + "" == PrettyPrint(v);
  }

  // ---------------------------------------------------------------------------
  // What the canonical form keeps

  /** The canonical members are the given keys in order, each with the canonical form of its last value. */
  lemma {:induction false} CanonicalMembersShape(ms: Members, keys: seq<string>)
    requires forall k :: k in keys ==> k in KeysOf(ms)
    ensures var r := CanonicalMembers(ms, keys);
      |r| == |keys| &&
      forall i :: 0 <= i < |r| ==> r[i] == Member(keys[i], Canonical(Lookup(ms, keys[i]).value))
    decreases |keys|
  {
    if keys != [] {
      var r, later := CanonicalMembers(ms, keys), CanonicalMembers(ms, keys[1..]);
      CanonicalMembersShape(ms, keys[1..]);
      assert r == [Member(keys[0], Canonical(Lookup(ms, keys[0]).value))] + later;
      forall i | 1 <= i < |r|
        ensures r[i] == Member(keys[i], Canonical(Lookup(ms, keys[i]).value))
      {
        assert r[i] == later[i - 1] && keys[i] == keys[1..][i - 1];
      }
    }
  }

  /**
    Reading an object back keeps each key once, in the order the keys first
    appeared, and answers every lookup with the canonical form of the value the
    original object gives.
  */
  lemma CanonicalObject(ms: Members)
    ensures Canonical(JObj(ms)).JObj?
    ensures KeysOf(Canonical(JObj(ms)).members) == UniqueKeys(ms)
    ensures forall k :: Lookup(Canonical(JObj(ms)).members, k) == CanonicalOpt(Lookup(ms, k))
  {
    var keys := UniqueKeys(ms);
    var r := CanonicalMembers(ms, keys);
    CanonicalMembersShape(ms, keys);
    assert KeysOf(r) == keys;
    forall k
      ensures Lookup(r, k) == CanonicalOpt(Lookup(ms, k))
    {
      var l := Lookup(r, k);
      if l.Some? {
        var i :| 0 <= i < |r| && r[i] == Member(k, l.value);
        assert keys[i] == k;
      }
    }
  }

  /** An array reads back with the same number of elements, each in canonical form. */
  lemma {:induction false} CanonicalArray(items: seq<Json>)
    ensures |CanonicalItems(items)| == |items|
    ensures forall i :: 0 <= i < |items| ==> CanonicalItems(items)[i] == Canonical(items[i])
    decreases |items|
  {
    if items != [] {
      CanonicalArray(items[1..]);
    }
  }
}
