/** The response builder and its wire format, and that the format can be read back and frames the body. */
module Responses {
  import opened Wrappers
  import opened Text
  import opened Request
  import opened Parsing
  import opened Grammar

  datatype Status =
    | Ok | Created | NoContent | MovedPermanently | NotModified | BadRequest | Forbidden | NotFound
    | MethodNotAllowed | RequestTimeout | PayloadTooLarge | UriTooLong | InternalServerError
    | NotImplemented | ServiceUnavailable

  function Code(s: Status): nat {
    match s
    case Ok => 200
    case Created => 201
    case NoContent => 204
    case MovedPermanently => 301
    case NotModified => 304
    case BadRequest => 400
    case Forbidden => 403
    case NotFound => 404
    case MethodNotAllowed => 405
    case RequestTimeout => 408
    case PayloadTooLarge => 413
    case UriTooLong => 414
    case InternalServerError => 500
    case NotImplemented => 501
    case ServiceUnavailable => 503
  }

  function Reason(s: Status): (text: string)
    ensures LF !in text
  {
    match s
    case Ok => "OK"
    case Created => "Created"
    case NoContent => "No Content"
    case MovedPermanently => "Moved Permanently"
    case NotModified => "Not Modified"
    case BadRequest => "Bad Request"
    case Forbidden => "Forbidden"
    case NotFound => "Not Found"
    case MethodNotAllowed => "Method Not Allowed"
    case RequestTimeout => "Request Timeout"
    case PayloadTooLarge => "Payload Too Large"
    case UriTooLong => "URI Too Long"
    case InternalServerError => "Internal Server Error"
    case NotImplemented => "Not Implemented"
    case ServiceUnavailable => "Service Unavailable"
  }

  const LENGTH := "content-length"
  const VERSION_SP := "HTTP/1.1 "

  datatype Response = Response(status: Status, headers: HeaderMap, body: string, sendfileFd: int, sendfileSize: nat)
  {
    predicate HasSendfile() { sendfileFd >= 0 }

    /** serialize adds the length of a string body nobody announced. */
    predicate AddsLength() { body != "" && LENGTH !in headers && !HasSendfile() }

    function StatusLine(): string { VERSION_SP + Numeral(Code(status)) + [SP] + Reason(status) }

    /** The headers on the wire. */
    function Emitted(): HeaderMap {
      if AddsLength() then headers[LENGTH := Numeral(|body|)] else headers
    }

    function EmittedBody(): string { if HasSendfile() then "" else body }

    function Serialized(order: seq<string>): string
      requires OrderOf(order, headers)
    {
      StatusLine() + CRLF
      + Join(HeaderBlock(headers, order))
      + (if AddsLength() then HeaderText(LENGTH, Numeral(|body|)) + CRLF else "")
      + CRLF + EmittedBody()
    }
  }

  const EMPTY_RESPONSE := Response(Ok, map[], "", -1, 0)

  // ---- The builder --------------------------------------------------------

  class HttpResponse {
    var status: Status
    var headers: HeaderMap
    var body: string
    var sendfileFd: int
    var sendfileSize: nat

    function View(): Response
      reads this
    {
      Response(status, headers, body, sendfileFd, sendfileSize)
    }

    constructor ()
      ensures View() == EMPTY_RESPONSE
    {
      status, headers, body, sendfileFd, sendfileSize := Ok, map[], "", -1, 0;
    }

    method SetStatus(code: Status)
      modifies this
      ensures View() == old(View()).(status := code)
    {
      status := code;
    }

    method SetBody(text: string, contentType: string)
      modifies this
      ensures View() == old(View()).(body := text, headers := old(headers)["content-type" := contentType])
    {
      body := text;
      headers := headers["content-type" := contentType];
    }

    method SetHeader(name: string, value: string)
      modifies this
      ensures View() == old(View()).(headers := old(headers)[Lower(name) := value])
    {
      headers := headers[Lower(name) := value];
    }

    method SetSendfile(fileFd: int, fileSize: nat, contentType: string)
      modifies this
      ensures View() == old(View()).(sendfileFd := fileFd, sendfileSize := fileSize,
                headers := old(headers)["content-type" := contentType][LENGTH := Numeral(fileSize)])
    {
      sendfileFd, sendfileSize := fileFd, fileSize;
      headers := headers["content-type" := contentType];
      headers := headers[LENGTH := Numeral(fileSize)];
    }

    /** Hands the descriptor to the caller; the response no longer has one. */
    method TakeSendfileFd() returns (saved: int)
      modifies this`sendfileFd
      ensures saved == old(sendfileFd) && sendfileFd == -1
    {
      saved := sendfileFd;
      sendfileFd := -1;
    }

    /** The loop over the header map, in whatever order the map offers. */
    method AppendHeaders(prefix: string, order: seq<string>) returns (out: string)
      requires OrderOf(order, headers)
      ensures out == prefix + Join(HeaderBlock(headers, order))
    {
      hide Join, HeaderBlock;
      out := prefix;
      var i := 0;
      while i < |order|
        invariant 0 <= i <= |order|
        invariant out + Join(HeaderBlock(headers, order[i..])) == prefix + Join(HeaderBlock(headers, order))
      {
        assert order[i..][1..] == order[i + 1..];
        JoinFirst(headers, order[i..]);
        ghost var before := out;
        out := out + order[i];
        out := out + [':', SP];
        out := out + headers[order[i]];
        out := out + CRLF;
        assert out == before + (HeaderText(order[i], headers[order[i]]) + CRLF);
        i := i + 1;
      }
      assert order[i..] == [];
      JoinNothing(headers);
    }

    method Serialize(order: seq<string>) returns (out: string)
      requires OrderOf(order, headers)
      ensures out == View().Serialized(order)
    {
      hide Join, HeaderBlock, Numeral, Code, Reason;
      out := VERSION_SP;
      out := out + Numeral(Code(status));
      out := out + [SP];
      out := out + Reason(status);
      out := out + CRLF;
      assert out == View().StatusLine() + CRLF;

      var hasContentLength := LENGTH in headers;
      out := AppendHeaders(out, order);

      ghost var before := out;
      if body != "" && !hasContentLength && !View().HasSendfile() {
        out := out + LENGTH;
        out := out + [':', SP];
        out := out + Numeral(|body|);
        out := out + CRLF;
        assert out == before + (HeaderText(LENGTH, Numeral(|body|)) + CRLF);
      }
      out := out + CRLF;
      if !View().HasSendfile() {
        out := out + body;
      }
    }
  }

  lemma JoinNothing(headers: HeaderMap)
    ensures Join(HeaderBlock(headers, [])) == ""
  {
  }

  lemma JoinFirst(headers: HeaderMap, order: seq<string>)
    requires order != [] && forall i :: 0 <= i < |order| ==> order[i] in headers
    ensures Join(HeaderBlock(headers, order)) ==
              HeaderText(order[0], headers[order[0]]) + CRLF + Join(HeaderBlock(headers, order[1..]))
  {
    assert HeaderBlock(headers, order)[1..] == HeaderBlock(headers, order[1..]);
  }

  function ErrorResponse(code: Status, detail: string): Response {
    Response(code, map["content-type" := "text/plain"],
             Numeral(Code(code)) + [SP] + Reason(code) + (if detail == "" then "" else [LF] + detail), -1, 0)
  }

  // ---- Reading back -------------------------------------------------------

  datatype Head = Head(statusLine: string, headers: HeaderMap, rest: string)

  /** Reads header lines up to the empty one, with the line and header rules of the request parser. */
  function ReadHeaders(s: string, seen: HeaderMap): (HeaderMap, string)
    decreases |s|
  {
    var pos := Find(s, LF);
    if pos == |s| then (seen, s)
    else
      var line := StripEol(s[..pos + 1]);
      if line == "" then (seen, s[pos + 1..])
      else ReadHeaders(s[pos + 1..], AddHeader(seen, line))
  }

  function ReadHead(s: string): Head {
    var pos := Find(s, LF);
    if pos == |s| then Head(s, map[], "")
    else
      var (headers, rest) := ReadHeaders(s[pos + 1..], map[]);
      Head(StripEol(s[..pos + 1]), headers, rest)
  }

  predicate AllPrintable(headers: HeaderMap) {
    forall name :: name in headers ==> Printable(name, headers[name])
  }

  lemma LineInFront(line: string, more: string)
    requires LF !in line
    ensures var s := line + CRLF + more;
            && Find(s, LF) == |line| + 1
            && StripEol(s[..|line| + 2]) == line && s[|line| + 2..] == more
  {
    CrlfLine(line);
    assert line + CRLF + more == (line + [CR]) + [LF] + more;
    FindAfter(line + [CR], LF, more);
    assert (line + CRLF + more)[..|line| + 2] == line + CRLF;
  }

  lemma {:induction false} ReadBlock(headers: HeaderMap, order: seq<string>, seen: HeaderMap, more: string)
    requires forall i :: 0 <= i < |order| ==> order[i] in headers && order[i] !in seen
    requires forall i, j :: 0 <= i < j < |order| ==> order[i] != order[j]
    requires AllPrintable(headers) && Submap(seen, headers)
    ensures var (all, rest) := ReadHeaders(Join(HeaderBlock(headers, order)) + CRLF + more, seen);
            Submap(all, headers) && |all| == |seen| + |order| && rest == more
    decreases |order|
  {
    hide StripEol, AddHeader, Lower, IsTrim;
    if order == [] {
      LineInFront("", more);
      assert Join(HeaderBlock(headers, order)) + CRLF + more == "" + CRLF + more;
    } else {
      var name := order[0];
      var text := HeaderText(name, headers[name]);
      var tail := Join(HeaderBlock(headers, order[1..])) + CRLF + more;
      JoinFirst(headers, order);
      assert Join(HeaderBlock(headers, order)) + CRLF + more == text + CRLF + tail;
      assert LF !in text && text[|name|] == ':';
      LineInFront(text, tail);
      AddHeaderText(seen, name, headers[name]);
      ReadBlock(headers, order[1..], seen[name := headers[name]], more);
    }
  }

  /** The text of serialize is the printed block of the emitted headers. */
  lemma SerializedIsBlock(r: Response, order: seq<string>) returns (order': seq<string>)
    requires OrderOf(order, r.headers)
    ensures OrderOf(order', r.Emitted())
    ensures r.Serialized(order) ==
        r.StatusLine() + CRLF + (Join(HeaderBlock(r.Emitted(), order')) + CRLF + r.EmittedBody())
  {
    hide Join, HeaderBlock, HeaderText;
    if r.AddsLength() {
      order' := order + [LENGTH];
      BlockSnoc(r.headers, order, LENGTH, Numeral(|r.body|));
    } else {
      order' := order;
    }
  }

  lemma {:induction false} BlockSnoc(headers: HeaderMap, order: seq<string>, name: string, value: string)
    requires forall i :: 0 <= i < |order| ==> order[i] in headers
    requires name !in headers
    ensures Join(HeaderBlock(headers[name := value], order + [name])) ==
              Join(HeaderBlock(headers, order)) + (HeaderText(name, value) + CRLF)
    decreases |order|
  {
    if order == [] {
      assert order + [name] == [name];
      JoinFirst(headers[name := value], [name]);
    } else {
      JoinFirst(headers[name := value], order + [name]);
      assert (order + [name])[1..] == order[1..] + [name];
      BlockSnoc(headers, order[1..], name, value);
      JoinFirst(headers, order);
    }
  }

  lemma NumeralIsPrintable(n: nat)
    ensures Printable(LENGTH, Numeral(n))
  {
    hide Numeral, Lower;
    assert forall i :: 0 <= i < |LENGTH| ==> NameChar(LENGTH[i]);
    LowerFixes(LENGTH);
    NumeralIsPlain(n);
  }

  lemma NumeralIsPlain(n: nat)
    ensures IsTrim(Numeral(n)) && LF !in Numeral(n)
  {
    hide Numeral;
    var s := Numeral(n);
    assert Digit(s[0]) && Digit(s[|s| - 1]);
  }

  /**
   * Whatever order the header map is iterated in, the serialized text reads back as the status line,
   * the headers (with the length added exactly when the body is a non-empty string nobody announced)
   * and the body.
   */
  lemma ResponseRoundTrip(r: Response, order: seq<string>)
    requires OrderOf(order, r.headers) && AllPrintable(r.headers)
    ensures ReadHead(r.Serialized(order)) == Head(r.StatusLine(), r.Emitted(), r.EmittedBody())
  {
    hide Printable, StripEol, Numeral, Reason, Code;
    NumeralIsPrintable(|r.body|);
    assert AllPrintable(r.Emitted());
    var order' := SerializedIsBlock(r, order);
    var more := Join(HeaderBlock(r.Emitted(), order')) + CRLF + r.EmittedBody();
    StatusLineIsOneLine(r);
    LineInFront(r.StatusLine(), more);
    ReadBlock(r.Emitted(), order', map[], r.EmittedBody());
    SubmapOfSameSize(ReadHeaders(more, map[]).0, r.Emitted());
  }

  lemma StatusLineIsOneLine(r: Response)
    ensures LF !in r.StatusLine()
  {
    assert LF !in Numeral(Code(r.status));
    assert LF !in VERSION_SP;
  }

  /** The status code can be read off the status line, and codes tell statuses apart. */
  lemma StatusReadsBack(r: Response)
    ensures SizeFromChars(r.StatusLine()[|VERSION_SP|..]) == Code(r.status)
    ensures forall s :: Code(s) == Code(r.status) ==> s == r.status
  {
    hide Reason;
    var digits := Numeral(Code(r.status));
    var text := r.StatusLine()[|VERSION_SP|..];
    assert text == digits + ([SP] + Reason(r.status));
    DigitPrefixStops(digits, [SP] + Reason(r.status));
    assert text[..|digits|] == digits;
    ValueOfNumeral(Code(r.status));
  }

  lemma {:induction false} DigitPrefixStops(digits: string, more: string)
    requires AllDigits(digits) && more != "" && !Digit(more[0])
    ensures DigitPrefix(digits + more) == |digits|
    decreases |digits|
  {
    if digits == "" {
      assert digits + more == more;
    } else {
      assert (digits + more)[1..] == digits[1..] + more;
      DigitPrefixStops(digits[1..], more);
    }
  }

  // ---- Framing ------------------------------------------------------------

  /**
   * The body length a reader takes from the headers. Without one, section 6.3 of RFC 9112 has the body of a
   * response end with the connection.
   */
  function Announced(headers: HeaderMap): Option<nat> {
    if LENGTH in headers then Some(SizeFromChars(headers[LENGTH])) else None
  }

  /**
   * A string body with automatic length is announced, with the number of bytes after the head, exactly when it
   * is not empty.
   */
  lemma StringBodyFraming(r: Response, order: seq<string>)
    requires OrderOf(order, r.headers) && AllPrintable(r.headers)
    requires !r.HasSendfile() && LENGTH !in r.headers && |r.body| < SIZE_LIMIT
    ensures var head := ReadHead(r.Serialized(order));
            head.rest == r.body && Announced(head.headers) == if r.body == "" then None else Some(|head.rest|)
  {
    ResponseRoundTrip(r, order);
    SizeRoundTrip(|r.body|);
  }

  /** What a worker posts: the descriptor is taken first, then the rest is serialized. */
  function Posted(r: Response): Response { r.(sendfileFd := -1) }

  /**
   * A file response is serialized after its descriptor was taken. Its announced length is the number
   * of bytes that follow the head, serialized body and file together, exactly when its string body is
   * empty.
   */
  lemma FileFraming(r: Response, order: seq<string>)
    requires OrderOf(order, r.headers) && AllPrintable(r.headers)
    requires r.HasSendfile() && r.sendfileSize < SIZE_LIMIT
    requires LENGTH in r.headers && r.headers[LENGTH] == Numeral(r.sendfileSize)
    ensures var head := ReadHead(Posted(r).Serialized(order));
            Announced(head.headers) == Some(|head.rest| + r.sendfileSize) <==> r.body == ""
  {
    hide Numeral, SizeFromChars, Printable, ReadHead, Response.Serialized, OrderOf;
    ResponseRoundTrip(Posted(r), order);
    SizeRoundTrip(r.sendfileSize);
  }

  const BODY_AND_FILE := Response(Ok, map[LENGTH := Numeral(3)], "x", 7, 3)

  /** Witness: a handler that sets a body and then a file announces 3 bytes where 4 are sent. */
  lemma BodyAndFileMisframe(order: seq<string>)
    requires OrderOf(order, BODY_AND_FILE.headers)
    ensures var head := ReadHead(Posted(BODY_AND_FILE).Serialized(order));
            Announced(head.headers) == Some(3) && |head.rest| + BODY_AND_FILE.sendfileSize == 4
  {
    hide Numeral, SizeFromChars, Printable, ReadHead, Response.Serialized, OrderOf;
    NumeralIsPrintable(3);
    ResponseRoundTrip(Posted(BODY_AND_FILE), order);
    SizeRoundTrip(3);
  }

  lemma PlainTextIsPrintable()
    ensures Printable("content-type", "text/plain")
  {
    hide Lower;
    var name, value := "content-type", "text/plain";
    assert forall i :: 0 <= i < |name| ==> NameChar(name[i]);
    LowerFixes(name);
    assert value[0] == 't' && value[|value| - 1] == 'n';
  }

  /** Every error page reads back with its status, and is announced exactly whatever the detail text is. */
  lemma ErrorResponseFraming(code: Status, detail: string, order: seq<string>)
    requires OrderOf(order, ErrorResponse(code, detail).headers)
    requires |ErrorResponse(code, detail).body| < SIZE_LIMIT
    ensures var head := ReadHead(ErrorResponse(code, detail).Serialized(order));
            && head.statusLine == ErrorResponse(code, detail).StatusLine()
            && head.rest == ErrorResponse(code, detail).body
            && Announced(head.headers) == Some(|head.rest|)
  {
    hide Numeral, SizeFromChars, Code, Reason, Printable, ReadHead, Response.Serialized, OrderOf;
    var r := ErrorResponse(code, detail);
    PlainTextIsPrintable();
    ResponseRoundTrip(r, order);
    StringBodyFraming(r, order);
  }
}
