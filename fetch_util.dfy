/**
  `fetchData(url, options)`: one `fetch` with browser-like default headers and
  request settings that the caller's options can override, an error for a
  non-ok status, and the JSON body returned re-serialised as indented text.
  The network is a parameter: `transport` answers a request with a response,
  or with `None` when `fetch` itself rejects.
*/
module FetchUtil {
  import opened Wrappers
  import opened JsonValue
  import opened JsonText
  import opened JsonRead

  /** The header set sent when the caller gives none. */
  const DefaultHeaders: Members := [
    Member("accept", JStr("application/json, text/plain, */*")),
    Member("accept-language", JStr("en-US,en;q=0.9")),
    Member("priority", JStr("u=1, i")),
    Member("sec-ch-ua", JStr("\"Chromium\";v=\"136\", \"Microsoft Edge\";v=\"136\", \"Not.A/Brand\";v=\"99\"")),
    Member("sec-ch-ua-mobile", JStr("?0")),
    Member("sec-ch-ua-platform", JStr("\"Windows\"")),
    Member("sec-fetch-dest", JStr("empty")),
    Member("sec-fetch-mode", JStr("cors")),
    Member("sec-fetch-site", JStr("same-origin")),
    Member("Referrer-Policy", JStr("strict-origin-when-cross-origin"))
  ]

  const HeadersKey: string := "headers"

  /**
    The members `...x` copies into an object literal: an object's own members,
    a string's or an array's index-named elements, nothing for `undefined`,
    `null`, numbers and booleans.
  */
  function SpreadSource(x: Option<Json>): (ms: Members)
    ensures x.None? ==> ms == []
    ensures x.Some? && x.value.JObj? ==> ms == x.value.members
  {
    if x.None? then []
    else
      match x.value
      case JObj(ms) => ms
      case JStr(s) => seq(|s|, i requires 0 <= i < |s| => Member(NatToString(i), JStr([s[i]])))
      case JArr(xs) => seq(|xs|, i requires 0 <= i < |xs| => Member(NatToString(i), xs[i]))
      case _ => []
  }

  /** The header object built inside the literal: the defaults, then `...options.headers`. */
  function MergedHeaders(options: Members): Members {
    Spread(DefaultHeaders, SpreadSource(Lookup(options, HeadersKey)))
  }

  /** The request settings written before `...options`. */
  function BaseInit(options: Members): Members {
    [
      Member(HeadersKey, JObj(MergedHeaders(options))),
      Member("referrerPolicy", JStr("strict-origin-when-cross-origin")),
      Member("mode", JStr("cors")),
      Member("credentials", JStr("include"))
    ]
  }

  /** The second argument `fetch` receives. */
  function RequestInit(options: Members): (init: Members)
    ensures forall k :: k in KeysOf(options) ==> Lookup(init, k) == Lookup(options, k)
    ensures forall k :: k !in KeysOf(options) ==> Lookup(init, k) == Lookup(BaseInit(options), k)
  {
    Spread(BaseInit(options), options)
  }

  /** What `fetch` resolves to; `body` is `None` when `response.json()` rejects. */
  datatype Response = Response(ok: bool, status: nat, statusText: string, body: Option<Json>)

  type Transport = (string, Members) -> Option<Response>

  /** The error `fetchData` logs and rethrows. */
  datatype FetchError = RequestFailed | NotOk(message: string) | BodyNotJson

  const NotOkPrefix: string := "Network response was not ok: "

  function NotOkMessage(status: nat, statusText: string): string {
    NotOkPrefix + NatToString(status) + " " + statusText
  }

  /** `fetchData(url, options)`: the indented JSON text, or the error it rethrows. */
  function FetchData(url: string, options: Members, transport: Transport): (r: Result<string, FetchError>)
    ensures r.Success? <==>
      transport(url, RequestInit(options)).Some? &&
      transport(url, RequestInit(options)).value.ok &&
      transport(url, RequestInit(options)).value.body.Some?
    ensures r.Success? ==> r.value == PrettyPrint(transport(url, RequestInit(options)).value.body.value)
  {
    match transport(url, RequestInit(options))
    case None => Failure(RequestFailed)
    case Some(response) =>
      if !response.ok then Failure(NotOk(NotOkMessage(response.status, response.statusText)))
      else
        match response.body
        case None => Failure(BodyNotJson)
        case Some(jsonData) => Success(PrettyPrint(jsonData))
  }

  // ---------------------------------------------------------------------------
  // The request

  /** The settings before `...options`, by name. */
  lemma BaseInitLookup(options: Members, key: string)
    ensures Lookup(BaseInit(options), key) ==
      if key == HeadersKey then Some(JObj(MergedHeaders(options)))
      else if key == "referrerPolicy" then Some(JStr("strict-origin-when-cross-origin"))
      else if key == "mode" then Some(JStr("cors"))
      else if key == "credentials" then Some(JStr("include"))
      else None
  {
    var b := BaseInit(options);
    LookupFour(b[0], b[1], b[2], b[3], key);
  }

  /** Lookup in a four-member object whose keys are all different. */
  lemma LookupFour(m0: Member, m1: Member, m2: Member, m3: Member, key: string)
    ensures Lookup([m0, m1, m2, m3], key) ==
      if key == m3.key then Some(m3.value)
      else if key == m2.key then Some(m2.value)
      else if key == m1.key then Some(m1.value)
      else if key == m0.key then Some(m0.value)
      else None
  {
    assert [m0, m1, m2, m3] == [m0, m1, m2] + [m3];
    assert [m0, m1, m2] == [m0, m1] + [m2];
    assert [m0, m1] == [m0] + [m1];
    assert [m0] == [] + [m0];
    Snoc([m0, m1, m2], m3);
    Snoc([m0, m1], m2);
    Snoc([m0], m1);
    Snoc([], m0);
  }

  /** With no options, the defaults go out as they are. */
  lemma DefaultRequest()
    ensures Lookup(RequestInit([]), HeadersKey) == Some(JObj(DefaultHeaders))
    ensures Lookup(RequestInit([]), "referrerPolicy") == Some(JStr("strict-origin-when-cross-origin"))
    ensures Lookup(RequestInit([]), "mode") == Some(JStr("cors"))
    ensures Lookup(RequestInit([]), "credentials") == Some(JStr("include"))
    ensures forall key :: key !in {HeadersKey, "referrerPolicy", "mode", "credentials"} ==> Lookup(RequestInit([]), key).None?
  {
    assert RequestInit([]) == BaseInit([]);
    forall key | key !in {HeadersKey, "referrerPolicy", "mode", "credentials"}
      ensures Lookup(RequestInit([]), key).None?
    {
      BaseInitLookup([], key);
    }
    BaseInitLookup([], HeadersKey);
    BaseInitLookup([], "referrerPolicy");
    BaseInitLookup([], "mode");
    BaseInitLookup([], "credentials");
  }

  /** Any top-level option replaces the setting of the same name; the others keep their defaults. */
  lemma OptionsOverride(options: Members, key: string)
    ensures key in KeysOf(options) ==> Lookup(RequestInit(options), key) == Lookup(options, key)
    ensures key !in KeysOf(options) && key != HeadersKey ==>
      Lookup(RequestInit(options), key) == Lookup(BaseInit([]), key)
  {
    BaseInitLookup(options, key);
    BaseInitLookup([], key);
  }

  /**
    The headers sent are the caller's `headers` option whenever there is one,
    whatever it holds, so none of the defaults survive next to it; without it,
    exactly the defaults.
  */
  lemma HeadersSent(options: Members)
    ensures HeadersKey in KeysOf(options) ==> Lookup(RequestInit(options), HeadersKey) == Lookup(options, HeadersKey)
    ensures HeadersKey !in KeysOf(options) ==> Lookup(RequestInit(options), HeadersKey) == Some(JObj(DefaultHeaders))
  {
    BaseInitLookup(options, HeadersKey);
  }

  /** A default header the caller's header object lacks is not sent. */
  lemma CallerHeadersDropDefaults(options: Members, h: Members, name: string)
    requires Lookup(options, HeadersKey) == Some(JObj(h))
    requires name !in KeysOf(h)
    ensures Lookup(RequestInit(options), HeadersKey) == Some(JObj(h))
    ensures Lookup(Lookup(RequestInit(options), HeadersKey).value.members, name).None?
  {
    HeadersSent(options);
  }

  // ---------------------------------------------------------------------------
  // The response

  /** Reads a not-ok message back: the status code and the status text. */
  function ParseNotOkMessage(m: string): Option<(nat, string)> {
    if |m| < |NotOkPrefix| || m[..|NotOkPrefix|] != NotOkPrefix then None
    else
      var rest := m[|NotOkPrefix|..];
      var n := DigitRun(rest);
      if n == 0 || n == |rest| || rest[n] != ' ' then None
      else Some((DigitsValue(rest[..n]), rest[n + 1..]))
  }

  /** The error message carries the status code and text, and both can be read back from it. */
  lemma NotOkMessageReadsBack(status: nat, statusText: string)
    ensures ParseNotOkMessage(NotOkMessage(status, statusText)) == Some((status, statusText))
  {
    var digits := NatToString(status);
    var m := NotOkMessage(status, statusText);
    assert m == NotOkPrefix + (digits + (" " + statusText));
    assert m[..|NotOkPrefix|] == NotOkPrefix;
    var rest := m[|NotOkPrefix|..];
    assert rest == digits + (" " + statusText);
    DigitRunOfDigits(digits, " " + statusText);
    assert rest[..|digits|] == digits;
    assert rest[|digits| + 1..] == statusText;
    NatToStringRoundTrip(status);
  }

  /** A not-ok response fails with its status whatever its body: the body is never read. */
  lemma NotOkIgnoresBody(url: string, options: Members, t1: Transport, t2: Transport)
    requires t1(url, RequestInit(options)).Some? && t2(url, RequestInit(options)).Some?
    requires !t1(url, RequestInit(options)).value.ok
    requires t1(url, RequestInit(options)).value.(body := None) == t2(url, RequestInit(options)).value.(body := None)
    ensures FetchData(url, options, t1) == FetchData(url, options, t2)
    ensures FetchData(url, options, t1) ==
      Failure(NotOk(NotOkMessage(t1(url, RequestInit(options)).value.status, t1(url, RequestInit(options)).value.statusText)))
  {
  }

  /**
    The text `fetchData` returns is the body as the caller's `JSON.parse` will
    see it: parsing it gives the response's JSON back, with each repeated key
    collapsed to its last value.
  */
  lemma FetchDataReadsBack(url: string, options: Members, transport: Transport)
    requires FetchData(url, options, transport).Success?
    ensures Parse(FetchData(url, options, transport).value) ==
      Some(Canonical(transport(url, RequestInit(options)).value.body.value))
  {
    PrettyPrintRoundTrip(transport(url, RequestInit(options)).value.body.value);
  }

  // ---------------------------------------------------------------------------
  // The header merge as evidently intended

  /**
    The request with the merged header object restored after `...options`, so
    that the caller's headers are laid over the defaults instead of replacing
    them.
  */
  function CorrectedRequestInit(options: Members): Members {
    Put(RequestInit(options), HeadersKey, JObj(MergedHeaders(options)))
  }

  /**
    With the correction, a header the caller names takes the caller's value and
    every other default header is still sent; the other settings are those of
    the request as written.
  */
  lemma CorrectedHeadersKeepDefaults(options: Members, h: Members, name: string)
    requires Lookup(options, HeadersKey) == Some(JObj(h))
    ensures Lookup(CorrectedRequestInit(options), HeadersKey) == Some(JObj(MergedHeaders(options)))
    ensures Lookup(MergedHeaders(options), name) ==
      if name in KeysOf(h) then Lookup(h, name) else Lookup(DefaultHeaders, name)
    ensures forall key :: key != HeadersKey ==> Lookup(CorrectedRequestInit(options), key) == Lookup(RequestInit(options), key)
  {
  }
}
