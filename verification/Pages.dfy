/** What a client reads, in literals: status lines, fields and bodies of responses, error pages and refusals. */
module Pages {
  import opened Wrappers
  import opened Text
  import opened Request
  import opened Parsing
  import ByteMachine
  import opened Grammar
  import opened Responses
  import opened Delivery
  import opened Sessions
  import opened WireNames

  /** The lines of the fields, in the given order. */
  function FieldLines(headers: HeaderMap, order: seq<string>): string
    requires forall i :: 0 <= i < |order| ==> order[i] in headers
  {
    if order == [] then "" else order[0] + ": " + headers[order[0]] + "\r\n" + FieldLines(headers, order[1..])
  }

  lemma {:induction false} BlockIsFieldLines(headers: HeaderMap, order: seq<string>)
    requires forall i :: 0 <= i < |order| ==> order[i] in headers
    ensures Join(HeaderBlock(headers, order)) == FieldLines(headers, order)
    decreases |order|
  {
    if order == [] {
      JoinNothing(headers);
    } else {
      JoinFirst(headers, order);
      BlockIsFieldLines(headers, order[1..]);
    }
  }

  /** The text of a response, for any order of its fields. */
  lemma ResponseText(r: Response, order: seq<string>)
    requires OrderOf(order, r.headers)
    ensures r.Serialized(order) ==
              "HTTP/1.1 " + StatusText(r.status) + "\r\n"
              + FieldLines(r.headers, order)
              + (if r.body != "" && "content-length" !in r.headers && r.sendfileFd < 0
                 then "content-length" + ": " + Numeral(|r.body|) + "\r\n" else "")
              + "\r\n" + (if r.sendfileFd < 0 then r.body else "")
  {
    hide Join, HeaderBlock, FieldLines, StatusText, Numeral, Response.StatusLine;
    BlockIsFieldLines(r.headers, order);
    StatusLines(r);
  }

  /** What is read back from it, with the line and field rules of the request parser. */
  lemma ResponseReads(r: Response, order: seq<string>)
    requires OrderOf(order, r.headers) && AllPrintable(r.headers)
    ensures var head := ReadHead(r.Serialized(order));
            && head.statusLine == "HTTP/1.1 " + StatusText(r.status)
            && head.headers == (if r.body != "" && "content-length" !in r.headers && r.sendfileFd < 0
                                then r.headers["content-length" := Numeral(|r.body|)] else r.headers)
            && head.rest == if r.sendfileFd < 0 then r.body else ""
  {
    hide StatusText, Numeral, Response.StatusLine, ReadHead, Response.Serialized, Printable, OrderOf;
    ResponseRoundTrip(r, order);
    StatusLines(r);
  }

  /** A response that was just made is an empty 200. */
  lemma EmptyResponseReads()
    ensures EMPTY_RESPONSE == Response(Ok, map[], "", -1, 0)
    ensures ReadHead(EMPTY_RESPONSE.Serialized([])) == Head("HTTP/1.1 " + StatusText(Ok), map[], "")
  {
    hide StatusText, ReadHead, Response.Serialized;
    ResponseReads(EMPTY_RESPONSE, []);
  }

  /** The text of an error page: code and reason, and the detail on a line of its own when there is one. */
  function PageText(code: Status, detail: string): string {
    StatusText(code) + if detail == "" then "" else "\n" + detail
  }

  lemma ErrorPageIs(code: Status, detail: string)
    ensures ErrorResponse(code, detail) ==
        Response(code, map["content-type" := "text/plain"], PageText(code, detail), -1, 0)
    ensures PageText(code, detail) != ""
  {
    hide StatusText, Code, Reason, Numeral;
    CodeThenReason(code);
  }

  /** Every error page reads back with the status line of its code, its text, and the length of its text. */
  lemma ErrorPage(code: Status, detail: string, order: seq<string>)
    requires OrderOf(order, ErrorResponse(code, detail).headers)
    ensures var head := ReadHead(ErrorResponse(code, detail).Serialized(order));
            && head.statusLine == "HTTP/1.1 " + StatusText(code)
            && head.rest == PageText(code, detail)
            && head.headers ==
                map["content-type" := "text/plain", "content-length" := Numeral(|PageText(code, detail)|)]
  {
    hide StatusText, PageText, Numeral, ReadHead, Response.Serialized, OrderOf, Printable, ErrorResponse;
    ErrorPageIs(code, detail);
    PlainTextIsPrintable();
    ResponseReads(ErrorResponse(code, detail), order);
  }

  /** What the callback posts for a malformed message, however it was cut: a 400 page with the parser's error text. */
  lemma RefusalPage(max: nat, bad: string, order: seq<string>)
    requires Malformed(max, bad) && OrderOf(order, ErrorResponse(BadRequest, RefusalOf(max, bad)).headers)
    ensures var head := ReadHead(ErrorResponse(BadRequest, RefusalOf(max, bad)).Serialized(order));
            && head.statusLine == "HTTP/1.1 " + ("400 " + "Bad Request")
            && head.rest == "400 " + "Bad Request" + ("\n" + RefusalOf(max, bad))
  {
    hide Numeral, ReadHead, Response.Serialized, OrderOf, ErrorResponse, RefusalOf, Malformed;
    FailedHasText(max, bad);
    ErrorPage(BadRequest, RefusalOf(max, bad), order);
  }

  lemma FailedHasText(max: nat, bad: string)
    requires Malformed(max, bad)
    ensures RefusalOf(max, bad) != ""
  {
    ByteMachine.FeedIsRun(Fresh(max), bad);
    hide Feed, ByteMachine.Run;
  }

  // ---- The end of a job ---------------------------------------------------

  function KeepAliveText(keepAlive: bool): string { if keepAlive then "keep-alive" else "close" }

  lemma TaskResponseIs(handled: Option<Response>, keepAlive: bool)
    ensures var r := TaskResponse(handled, keepAlive);
            && (handled.Some? ==>
                r == handled.value.(headers := handled.value.headers["connection" := KeepAliveText(keepAlive)]))
            && (handled.None? ==> r == Response(NotFound,
                  map["content-type" := "text/plain", "connection" := KeepAliveText(keepAlive)], "404 " + "Not Found",
                      -1, 0))
  {
    hide Numeral, ErrorResponse;
    ErrorPageIs(NotFound, "");
    assert "404 " + "Not Found" + "" == "404 " + "Not Found";
  }

  /** A request that matches no route is answered with the 404 page, and told whether the connection stays. */
  lemma NoRouteReads(keepAlive: bool, order: seq<string>)
    requires OrderOf(order, TaskResponse(None, keepAlive).headers)
    ensures var head := ReadHead(Posted(TaskResponse(None, keepAlive)).Serialized(order));
            && head.statusLine == "HTTP/1.1 " + ("404 " + "Not Found")
            && head.rest == "404 " + "Not Found"
            && head.headers == map["content-type" := "text/plain", "connection" := KeepAliveText(keepAlive),
                                   "content-length" := Numeral(13)]
  {
    hide Numeral, ReadHead, Response.Serialized, OrderOf, TaskResponse, KeepAliveText, Printable;
    TaskResponseIs(None, keepAlive);
    TaskIsPrintable(None, keepAlive);
    assert |"404 " + "Not Found"| == 13;
    ResponseReads(Posted(TaskResponse(None, keepAlive)), order);
  }

  /** A handler's response is read as it was made, with the connection field, and its descriptor taken out. */
  lemma HandledReads(handled: Response, keepAlive: bool, order: seq<string>)
    requires AllPrintable(handled.headers) && OrderOf(order, TaskResponse(Some(handled), keepAlive).headers)
    ensures var head := ReadHead(Posted(TaskResponse(Some(handled), keepAlive)).Serialized(order));
            var fields := handled.headers["connection" := KeepAliveText(keepAlive)];
            && head.statusLine == "HTTP/1.1 " + StatusText(handled.status)
            && head.rest == handled.body
            && head.headers == if handled.body != "" && "content-length" !in handled.headers
                               then fields["content-length" := Numeral(|handled.body|)] else fields
  {
    hide StatusText, Numeral, ReadHead, Response.Serialized, OrderOf, TaskResponse, KeepAliveText, Printable;
    TaskResponseIs(Some(handled), keepAlive);
    TaskIsPrintable(Some(handled), keepAlive);
    ResponseReads(Posted(TaskResponse(Some(handled), keepAlive)), order);
  }
}
