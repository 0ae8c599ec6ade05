/** The parsed request and its accessors. */
module Request {
  import opened Text
  import opened Wrappers

  datatype Method = GET | HEAD | POST | PUT | DELETE | OPTIONS | PATCH | UNKNOWN

  function MethodToString(m: Method): string {
    match m
    case GET => "GET"
    case HEAD => "HEAD"
    case POST => "POST"
    case PUT => "PUT"
    case DELETE => "DELETE"
    case OPTIONS => "OPTIONS"
    case PATCH => "PATCH"
    case UNKNOWN => "UNKNOWN"
  }

  function StringToMethod(s: string): Method {
    if s == "GET" then GET
    else if s == "HEAD" then HEAD
    else if s == "POST" then POST
    else if s == "PUT" then PUT
    else if s == "DELETE" then DELETE
    else if s == "OPTIONS" then OPTIONS
    else if s == "PATCH" then PATCH
    else UNKNOWN
  }

  lemma MethodRoundTrip(m: Method)
    ensures StringToMethod(MethodToString(m)) == m
    ensures SP !in MethodToString(m) && LF !in MethodToString(m)
  {
  }

  lemma KnownMethod(s: string)
    requires StringToMethod(s) != UNKNOWN
    ensures MethodToString(StringToMethod(s)) == s
  {
  }

  type HeaderMap = map<string, string>

  /** std::size_t is 64 bits wide. */
  const SIZE_LIMIT: nat := 0x1_0000_0000_0000_0000

  /** std::from_chars on a std::size_t, with its two failures (no digit, out of range) read as 0. */
  function SizeFromChars(s: string): (n: nat)
    ensures n < SIZE_LIMIT
  {
    var digits := s[..DigitPrefix(s)];
    if digits == "" then 0
    else if Value(digits) < SIZE_LIMIT then Value(digits)
    else 0
  }

  /** Every size survives being printed and read back, and every larger number reads as 0. */
  lemma SizeRoundTrip(n: nat)
    ensures SizeFromChars(Numeral(n)) == if n < SIZE_LIMIT then n else 0
  {
    ValueOfNumeral(n);
    DigitPrefixOfNumeral(Numeral(n));
    assert Numeral(n)[..|Numeral(n)|] == Numeral(n);
  }

  datatype HttpRequest = HttpRequest(verb: Method, path: string, version: string, headers: HeaderMap, body: string)
  {
    function Header(name: string): Option<string> {
      if Lower(name) in headers then Some(headers[Lower(name)]) else None
    }

    function ContentLength(): (n: nat)
      ensures n < SIZE_LIMIT
    {
      match Header("content-length")
      case None => 0
      case Some(value) => SizeFromChars(value)
    }

    predicate WantsKeepAlive() {
      if version == "HTTP/1.1" then Header("connection") != Some("close")
      else Header("connection") == Some("keep-alive")
    }
  }

  const EMPTY_REQUEST := HttpRequest(UNKNOWN, "", "", map[], "")
}
