/** The request guards of the budgeting app: the CSRF check on form posts,
    handing out a CSRF token through a cookie, reading the sign-in cookie, and
    the hex-encoded random tokens. */
module WithAuth {
  import opened Wrappers

  newtype byte = x: int | 0 <= x < 256

  /** The SameSite attribute of a cookie (the `http.SameSite` modes). */
  datatype SameSite = DefaultMode | LaxMode | StrictMode | NoneMode

  datatype Cookie = Cookie(name: string, value: string, path: string, secure: bool, httpOnly: bool, sameSite: SameSite)

  /** The parts of a request the guards look at: the method (`verb`), the value of the
      "csrf-token" form field (`FormValue`, "" when absent), the cookies sent,
      in header order, and the URL scheme. */
  datatype Request = Request(verb: string, formToken: string, cookies: seq<Cookie>, scheme: string)

  const CsrfCookieName := "csrf-token"
  const SignInCookieName := "sign-in"
  const CsrfTokenBytes := 16
  const SignInTokenBytes := 32

  /** `r.Cookie(name)`: the first cookie sent under that name. */
  function FindCookie(cookies: seq<Cookie>, name: string): (r: Option<Cookie>)
    ensures r.None? <==> forall i :: 0 <= i < |cookies| ==> cookies[i].name != name
    ensures r.Some? ==> exists k :: 0 <= k < |cookies| && cookies[k] == r.value && r.value.name == name &&
                                    forall j :: 0 <= j < k ==> cookies[j].name != name
  {
    if cookies == [] then None
    else if cookies[0].name == name then Some(cookies[0])
    else
      var rest := FindCookie(cookies[1..], name);
      assert forall i :: 1 <= i < |cookies| ==> cookies[i] == cookies[1..][i - 1];
      rest
  }

  // ---------------------------------------------------------------------
  // The CSRF gate

  datatype Gate =
    | Refused(status: int, allow: Option<string>, message: string)
    | Passed                                   // the wrapped handler runs

  /** csrf: only a POST whose form token equals the value of its
      "csrf-token" cookie reaches the handler. */
  function Csrf(req: Request): (g: Gate)
    ensures g.Passed? <==>
      req.verb == "POST" && FindCookie(req.cookies, CsrfCookieName).Some? &&
      req.formToken == FindCookie(req.cookies, CsrfCookieName).value.value
    ensures req.verb != "POST" ==> g == Refused(405, Some("POST"), "405 method not allowed")
    ensures req.verb == "POST" && !g.Passed? ==> g == Refused(400, None, "invalid CSRF token or cookie")
  {
    if req.verb != "POST" then Refused(405, Some("POST"), "405 method not allowed")
    else
      match FindCookie(req.cookies, CsrfCookieName)
      case None => Refused(400, None, "invalid CSRF token or cookie")
      case Some(cookie) =>
        if req.formToken != cookie.value then Refused(400, None, "invalid CSRF token or cookie")
        else Passed
  }

  /** The check compares strings only: an empty form field matches an empty
      cookie. */
  lemma EmptyTokenMatchesEmptyCookie(c: Cookie, scheme: string)
    requires c.name == CsrfCookieName && c.value == ""
    ensures Csrf(Request("POST", "", [c], scheme)).Passed?
  {
  }

  /** Only the first "csrf-token" cookie counts: a later one with the right
      value does not help. */
  lemma FirstCookieDecides(first: Cookie, later: Cookie, token: string, scheme: string)
    requires first.name == CsrfCookieName && later.name == CsrfCookieName
    requires first.value != token && later.value == token
    ensures !Csrf(Request("POST", token, [first, later], scheme)).Passed?
  {
  }

  // ---------------------------------------------------------------------
  // Hex-encoded random tokens

  /** A digit of `hex.EncodeToString`: 0-9 or a lower-case a-f. */
  predicate IsHexChar(c: char)
  {
    '0' <= c <= '9' || 'a' <= c <= 'f'
  }

  predicate IsLowerHex(s: string)
  {
    forall i :: 0 <= i < |s| ==> IsHexChar(s[i])
  }

  function HexDigit(n: int): (c: char)
    requires 0 <= n < 16
    ensures IsHexChar(c)
  {
    if n < 10 then ('0' as int + n) as char else ('a' as int + n - 10) as char
  }

  /** The value a lower-case hex digit stands for. */
  function HexValue(c: char): (n: int)
    requires IsHexChar(c)
    ensures 0 <= n < 16 && HexDigit(n) == c
  {
    if '0' <= c <= '9' then c as int - '0' as int else c as int - 'a' as int + 10
  }

  /** `hex.EncodeToString`: two lower-case digits per byte, high nibble first. */
  function HexEncode(b: seq<byte>): (s: string)
    ensures |s| == 2 * |b|
    ensures IsLowerHex(s)
  {
    if b == [] then ""
    else [HexDigit(b[0] as int / 16), HexDigit(b[0] as int % 16)] + HexEncode(b[1..])
  }

  /** `hex.DecodeString` on well-formed input. */
  function HexDecode(s: string): (b: seq<byte>)
    requires |s| % 2 == 0 && IsLowerHex(s)
    ensures |b| == |s| / 2
  {
    if s == [] then []
    else [(HexValue(s[0]) * 16 + HexValue(s[1])) as byte] + HexDecode(s[2..])
  }

  /** The two digits of a byte decode back to it. */
  lemma HexByte(x: byte)
    ensures (HexValue(HexDigit(x as int / 16)) * 16 + HexValue(HexDigit(x as int % 16))) as byte == x
  {
  }

  /** Decoding an encoding gives back the bytes. */
  lemma {:induction false} HexRoundTrip(b: seq<byte>)
    ensures HexDecode(HexEncode(b)) == b
  {
    if b != [] {
      var s := HexEncode(b);
      assert s[2..] == HexEncode(b[1..]);
      HexByte(b[0]);
      HexRoundTrip(b[1..]);
      assert HexDecode(s) == [b[0]] + b[1..];
    }
  }

  /** Distinct byte strings give distinct tokens. */
  lemma HexEncodeInjective(a: seq<byte>, b: seq<byte>)
    requires HexEncode(a) == HexEncode(b)
    ensures a == b
  {
    HexRoundTrip(a);
    HexRoundTrip(b);
  }

  /** `make([]byte, n)` filled by `rand.Read`, whose stream is `random`; the
      read never fails for the math/rand source, so its panic is unreachable. */
  function RandomBytes(n: nat, random: nat -> byte): (b: seq<byte>)
    ensures |b| == n
    ensures forall i :: 0 <= i < n ==> b[i] == random(i)
  {
    seq(n, i requires 0 <= i < n => random(i))
  }

  /** generateCSRFToken: 16 random bytes as 32 hex digits. */
  function GenerateCsrfToken(random: nat -> byte): (t: string)
    ensures |t| == 32 && IsLowerHex(t)
    ensures HexDecode(t) == RandomBytes(CsrfTokenBytes, random)
  {
    HexRoundTrip(RandomBytes(CsrfTokenBytes, random));
    HexEncode(RandomBytes(CsrfTokenBytes, random))
  }

  /** generateSignInToken: 32 random bytes as 64 hex digits. */
  function GenerateSignInToken(random: nat -> byte): (t: string)
    ensures |t| == 64 && IsLowerHex(t)
    ensures HexDecode(t) == RandomBytes(SignInTokenBytes, random)
  {
    HexRoundTrip(RandomBytes(SignInTokenBytes, random));
    HexEncode(RandomBytes(SignInTokenBytes, random))
  }

  // ---------------------------------------------------------------------
  // Handing out the CSRF token

  /** The cookies a handler has set on its response (`http.SetCookie`). */
  class ResponseWriter {
    var setCookies: seq<Cookie>

    constructor ()
      ensures setCookies == []
    {
      setCookies := [];
    }
  }

  /** The cookie that carries a fresh CSRF token. */
  function CsrfCookie(token: string, scheme: string): (c: Cookie)
    ensures c.name == CsrfCookieName && c.value == token
  {
    Cookie(CsrfCookieName, token, "/", scheme == "https", true, StrictMode)
  }

  /** getCSRFToken: reuse the token of a non-empty "csrf-token" cookie, or
      make a new one and set it as that cookie. */
  method GetCsrfToken(w: ResponseWriter, req: Request, random: nat -> byte) returns (token: string)
    modifies w
    ensures var c := FindCookie(req.cookies, CsrfCookieName);
      if c.Some? && c.value.value != "" then
        token == c.value.value && w.setCookies == old(w.setCookies)
      else
        token == GenerateCsrfToken(random) &&
        w.setCookies == old(w.setCookies) + [CsrfCookie(token, req.scheme)]
  {
    var cookie := FindCookie(req.cookies, CsrfCookieName);
    if cookie.Some? && cookie.value.value != "" {
      return cookie.value.value;
    }
    token := GenerateCsrfToken(random);
    var issued := Cookie(CsrfCookieName, token, "/", req.scheme == "https", true, StrictMode);
    w.setCookies := w.setCookies + [issued];
  }

  /** The token handed out, echoed in the form by a browser that sends the
      cookie back, passes the gate; this holds for a reused token and for a
      fresh one alike. */
  lemma HandedOutTokenPasses(token: string, cookie: Cookie, scheme: string, others: seq<Cookie>)
    requires cookie.name == CsrfCookieName && cookie.value == token
    ensures Csrf(Request("POST", token, [cookie] + others, scheme)).Passed?
  {
    var cookies := [cookie] + others;
    assert cookies[0].name == CsrfCookieName;
  }

  /** A token other than the cookie's is refused with 400, whatever else the
      request carries. */
  lemma ForgedTokenRefused(token: string, forged: string, cookie: Cookie, scheme: string, others: seq<Cookie>)
    requires cookie.name == CsrfCookieName && cookie.value == token && forged != token
    ensures Csrf(Request("POST", forged, [cookie] + others, scheme)) ==
            Refused(400, None, "invalid CSRF token or cookie")
  {
    var cookies := [cookie] + others;
    assert cookies[0].name == CsrfCookieName;
  }

  /** getSignInCookie: the sign-in cookie's value, or "" without one. */
  function GetSignInCookie(req: Request): (v: string)
    ensures FindCookie(req.cookies, SignInCookieName).None? ==> v == ""
    ensures FindCookie(req.cookies, SignInCookieName).Some? ==>
      v == FindCookie(req.cookies, SignInCookieName).value.value
  {
    match FindCookie(req.cookies, SignInCookieName)
    case None => ""
    case Some(c) => c.value
  }
}
