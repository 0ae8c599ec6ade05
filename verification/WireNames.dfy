/**
 * The bytes, words and numbers of the wire, written out. What the functions of the other modules take and
 * give is stated here in literals, beside those functions and not in terms of them.
 */
module WireNames {
  import opened Text
  import opened Request
  import opened Parsing
  import opened Grammar
  import opened Responses

  /** The method tokens of section 9.3 of RFC 9110 (and PATCH) that the server knows. */
  const VERBS: map<string, Method> :=
    map["GET" := GET, "HEAD" := HEAD, "POST" := POST, "PUT" := PUT, "DELETE" := DELETE, "OPTIONS" := OPTIONS,
        "PATCH" := PATCH]

  /** Codes and reasons as section 15 of RFC 9110 and include/http/response.hpp:23-39 list them. */
  function StatusText(s: Status): string {
    match s
    case Ok => "200 " + "OK"
    case Created => "201 " + "Created"
    case NoContent => "204 " + "No Content"
    case MovedPermanently => "301 " + "Moved Permanently"
    case NotModified => "304 " + "Not Modified"
    case BadRequest => "400 " + "Bad Request"
    case Forbidden => "403 " + "Forbidden"
    case NotFound => "404 " + "Not Found"
    case MethodNotAllowed => "405 " + "Method Not Allowed"
    case RequestTimeout => "408 " + "Request Timeout"
    case PayloadTooLarge => "413 " + "Payload Too Large"
    case UriTooLong => "414 " + "URI Too Long"
    case InternalServerError => "500 " + "Internal Server Error"
    case NotImplemented => "501 " + "Not Implemented"
    case ServiceUnavailable => "503 " + "Service Unavailable"
  }

  // ---- Characters ---------------------------------------------------------

  /** Trimming removes spaces and tabs, and nothing else. */
  lemma BlanksAre(c: char)
    ensures Trimmed([c]) == "" <==> c == ' ' || c == '\t'
  {
    if c == ' ' || c == '\t' {
      assert [c][1..] == "";
      assert TrimLeft([c]) == "";
    } else {
      assert TrimRight([c]) == [c];
    }
  }

  /** The capitals (codes 65 to 90) become the small letters 32 codes further on; every other character stays. */
  lemma CaseFolding(s: string, i: nat)
    requires i < |s|
    ensures Lower(s)[i] as int == if 65 <= s[i] as int <= 90 then s[i] as int + 32 else s[i] as int
  {
  }

  /** The digits of a numeral are the decimal ones (codes 48 to 57), most significant first. */
  lemma Digits(n: nat)
    ensures n < 10 ==> Numeral(n) == [(48 + n) as char]
    ensures n >= 10 ==> Numeral(n) == Numeral(n / 10) + [(48 + n % 10) as char]
  {
  }

  lemma ThreeDigits(n: nat, a: nat, b: nat, c: nat)
    requires 0 < a < 10 && b < 10 && c < 10 && n == 100 * a + 10 * b + c
    ensures Numeral(n) == [(48 + a) as char, (48 + b) as char, (48 + c) as char]
  {
    hide Numeral;
    Digits(n);
    Digits(10 * a + b);
    Digits(a);
  }

  /** A line loses its line feed and one carriage return before it, and nothing else. */
  lemma LineEnds(x: string)
    requires '\n' !in x
    ensures StripEol(x + "\r\n") == x
    ensures x == "" || x[|x| - 1] != '\r' ==> StripEol(x + "\n") == x
  {
    OneLineEnd(x);
    var s := x + "\r\n";
    assert s == (x + "\r") + "\n";
    OneLineEnd(x + "\r");
    assert (x + "\r")[..|x|] == x;
  }

  lemma OneLineEnd(y: string)
    ensures StripEol(y + "\n") == if y != "" && y[|y| - 1] == '\r' then y[..|y| - 1] else y
  {
    var s := y + "\n";
    assert s[|s| - 1] == '\n' && s[..|s| - 1] == y;
  }

  /** A header line: the name in any case, blanks around the value in any number. */
  lemma HeaderLineMeans(start: HeaderMap, name: string, left: string, value: string, right: string)
    requires ':' !in name && AllBlank(left) && AllBlank(right) && IsTrim(value)
    ensures AddHeader(start, name + ":" + left + value + right) == start[Lower(name) := value]
  {
    hide Lower, Trimmed;
    var line := name + ":" + left + value + right;
    assert line == name + [':'] + (left + value + right);
    FindAfter(name, ':', left + value + right);
    assert line[..|name|] == name && line[|name| + 1..] == left + value + right;
    TrimmedPadded(left, value, right);
  }

  // ---- Methods ------------------------------------------------------------

  /** A token is a method exactly as the table says, and a method prints as its token. */
  lemma MethodNames(s: string)
    ensures StringToMethod(s) == if s in VERBS then VERBS[s] else UNKNOWN
    ensures s in VERBS ==> MethodToString(VERBS[s]) == s
    ensures MethodToString(UNKNOWN) == "UNKNOWN"
  {
  }

  lemma EveryMethodNamed(m: Method)
    requires m != UNKNOWN
    ensures MethodToString(m) in VERBS && VERBS[MethodToString(m)] == m
  {
    MethodNames(MethodToString(m));
  }

  // ---- Header lookups -----------------------------------------------------

  lemma SmallNames()
    ensures Lower("content-length") == "content-length" && Lower("connection") == "connection"
  {
    hide Lower;
    SmallName("content-length");
    SmallName("connection");
  }

  lemma SmallName(name: string)
    requires forall i :: 0 <= i < |name| ==> NameChar(name[i])
    ensures Lower(name) == name
  {
    LowerFixes(name);
  }

  /** Names are looked up in any case. */
  lemma LookupFoldsCase(req: HttpRequest, name: string)
    ensures req.Header(name) == req.Header(Lower(name))
  {
    forall i | 0 <= i < |name| ensures Lower(Lower(name))[i] == Lower(name)[i] { }
    assert Lower(Lower(name)) == Lower(name);
  }

  /** How a field value starting with digits reads as a size: the digits, if below 2^64, and 0 otherwise. */
  lemma SizeReads(digits: string, more: string)
    requires AllDigits(digits) && (more == "" || !('0' <= more[0] <= '9'))
    ensures SizeFromChars(digits + more) ==
              if digits == "" || Value(digits) >= 18446744073709551616 then 0 else Value(digits)
  {
    if more == "" {
      assert digits + more == digits;
      DigitPrefixOfNumeral(digits);
    } else {
      DigitPrefixStops(digits, more);
    }
    assert (digits + more)[..|digits|] == digits;
  }

  /** The announced length is what the content-length field spells. */
  lemma LengthIs(req: HttpRequest)
    ensures "content-length" !in req.headers ==> req.ContentLength() == 0
    ensures "content-length" in req.headers ==> req.ContentLength() == SizeFromChars(req.headers["content-length"])
  {
    hide Lower, SizeFromChars;
    SmallNames();
  }

  /** Kept alive: 1.1 unless the connection field says close, any other version only if it says keep-alive. */
  lemma KeepAliveIs(req: HttpRequest)
    ensures req.version == "HTTP/1.1" ==>
              (req.WantsKeepAlive() <==> !("connection" in req.headers && req.headers["connection"] == "close"))
    ensures req.version != "HTTP/1.1" ==>
              (req.WantsKeepAlive() <==> "connection" in req.headers && req.headers["connection"] == "keep-alive")
  {
    hide Lower;
    SmallNames();
  }

  // ---- Status lines -------------------------------------------------------

  /** Every status is printed with its code and reason. */
  lemma StatusLines(r: Response)
    ensures r.StatusLine() == "HTTP/1.1 " + StatusText(r.status)
    ensures '\n' !in StatusText(r.status)
  {
    hide Numeral, StatusText;
    CodeThenReason(r.status);
    var code, reason := Numeral(Code(r.status)), Reason(r.status);
    hide Code, Reason;
    assert "HTTP/1.1 " + code + [SP] + reason == "HTTP/1.1 " + (code + [SP] + reason);
    StatusLineIsOneLine(r);
    assert forall i :: 0 <= i < |StatusText(r.status)| ==> r.StatusLine()[i + 9] == StatusText(r.status)[i];
  }

  lemma CodeThenReason(s: Status)
    ensures Numeral(Code(s)) + [SP] + Reason(s) == StatusText(s)
  {
    hide Numeral, Reason, StatusText;
    if Code(s) < 400 {
      NoError(s);
    } else if Code(s) < 500 {
      ClientError(s);
    } else {
      ServerError(s);
    }
  }

  lemma NoError(s: Status)
    requires Code(s) < 400
    ensures Numeral(Code(s)) + [SP] + Reason(s) == StatusText(s)
  {
    hide Numeral;
    match s
    case Ok => ThreeDigits(200, 2, 0, 0);
    case Created => ThreeDigits(201, 2, 0, 1);
    case NoContent => ThreeDigits(204, 2, 0, 4);
    case MovedPermanently => ThreeDigits(301, 3, 0, 1);
    case NotModified => ThreeDigits(304, 3, 0, 4);
  }

  lemma ClientError(s: Status)
    requires 400 <= Code(s) < 500
    ensures Numeral(Code(s)) + [SP] + Reason(s) == StatusText(s)
  {
    hide Numeral;
    match s
    case BadRequest => ThreeDigits(400, 4, 0, 0);
    case Forbidden => ThreeDigits(403, 4, 0, 3);
    case NotFound => ThreeDigits(404, 4, 0, 4);
    case MethodNotAllowed => ThreeDigits(405, 4, 0, 5);
    case RequestTimeout => ThreeDigits(408, 4, 0, 8);
    case PayloadTooLarge => ThreeDigits(413, 4, 1, 3);
    case UriTooLong => ThreeDigits(414, 4, 1, 4);
  }

  lemma ServerError(s: Status)
    requires Code(s) >= 500
    ensures Numeral(Code(s)) + [SP] + Reason(s) == StatusText(s)
  {
    hide Numeral;
    match s
    case InternalServerError => ThreeDigits(500, 5, 0, 0);
    case NotImplemented => ThreeDigits(501, 5, 0, 1);
    case ServiceUnavailable => ThreeDigits(503, 5, 0, 3);
  }
}
