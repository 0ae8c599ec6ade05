/**
 * What the parser accepts, said without the parser: an input is a request line, header lines, an empty
 * line, a body of the announced length, and bytes that no longer matter. Acceptance is shown to be
 * exactly that, and printing a request and parsing the print gives the request back.
 */
module Grammar {
  import opened Text
  import opened Request
  import opened Parsing
  import opened ByteMachine
  import opened Segmentation

  /** One line with its line feed, within the limit. */
  predicate RawLine(raw: string) {
    0 < |raw| <= MAX_HEADER_SIZE && raw[|raw| - 1] == LF && LF !in raw[..|raw| - 1]
  }

  predicate RequestLineOf(line: string, req: HttpRequest) {
    && line == MethodToString(req.verb) + [SP] + req.path + [SP] + req.version
    && req.verb != UNKNOWN
    && SP !in req.path
    && (req.version == "HTTP/1.1" || req.version == "HTTP/1.0")
  }

  predicate HeaderLines(lines: seq<string>) {
    forall i :: 0 <= i < |lines| ==> RawLine(lines[i]) && ':' in StripEol(lines[i])
  }

  /** Later lines win over earlier ones with the same lower-cased name. */
  function HeadersOf(start: HeaderMap, lines: seq<string>): HeaderMap
    decreases |lines|
  {
    if lines == [] then start else HeadersOf(AddHeader(start, StripEol(lines[0])), lines[1..])
  }

  /** Before each line there is room for one more header. */
  predicate RoomForEach(start: HeaderMap, lines: seq<string>)
    decreases |lines|
  {
    lines == [] || (|start| < MAX_HEADER_COUNT && RoomForEach(AddHeader(start, StripEol(lines[0])), lines[1..]))
  }

  datatype Derivation = Derivation(first: string, lines: seq<string>, last: string, rest: string)

  /** The derivation spells out input as the request req under the given body limit. */
  predicate Derives(d: Derivation, input: string, req: HttpRequest, max: nat) {
    && input == d.first + Join(d.lines) + d.last + req.body + d.rest
    && RawLine(d.first) && RequestLineOf(StripEol(d.first), req)
    && HeaderLines(d.lines) && RoomForEach(map[], d.lines) && req.headers == HeadersOf(map[], d.lines)
    && RawLine(d.last) && StripEol(d.last) == ""
    && |req.body| == req.ContentLength()
    && (|req.body| == 0 || |req.body| <= max)
  }

  // ---- One line -----------------------------------------------------------

  lemma RequestLineSound(p: Parser, line: string)
    requires ParseRequestLine(p, line).1 == NeedMore
    ensures RequestLineOf(line, ParseRequestLine(p, line).0.request)
  {
    hide StringToMethod, MethodToString;
    var sp1 := Find(line, SP);
    var rest := line[sp1 + 1..];
    var sp2 := Find(rest, SP);
    SplitAtSpaces(line);
    KnownMethod(line[..sp1]);
    var req := ParseRequestLine(p, line).0.request;
    hide Find;
    assert req.verb == StringToMethod(line[..sp1]) && req.path == rest[..sp2] && req.version == rest[sp2 + 1..];
    hide ParseRequestLine;
  }

  lemma SplitAtSpaces(line: string)
    requires Find(line, SP) < |line|
    ensures var sp1 := Find(line, SP);
            var rest := line[sp1 + 1..];
            var sp2 := Find(rest, SP);
            && SP !in rest[..sp2]
            && (sp2 < |rest| ==> line == line[..sp1] + [SP] + rest[..sp2] + [SP] + rest[sp2 + 1..])
  {
  }

  lemma RequestLineComplete(p: Parser, line: string, req: HttpRequest)
    requires RequestLineOf(line, req) && |line| <= MAX_REQUEST_LINE
    ensures ParseRequestLine(p, line) ==
              (p.(request := p.request.(verb := req.verb, path := req.path, version := req.version), phase := Headers),
                  NeedMore)
  {
    var name, tail := MethodToString(req.verb), req.path + [SP] + req.version;
    MethodRoundTrip(req.verb);
    hide StringToMethod, MethodToString, Find;
    assert line == name + [SP] + tail;
    FindAfter(name, SP, tail);
    FindAfter(req.path, SP, req.version);
    assert line[|name| + 1..] == tail;
    assert line[..|name|] == name && tail[..|req.path|] == req.path && tail[|req.path| + 1..] == req.version;
  }

  lemma RawLineFound(raw: string, more: string)
    requires RawLine(raw)
    ensures Find(raw + more, LF) == |raw| - 1 && (raw + more)[..|raw|] == raw && (raw + more)[|raw|..] == more
  {
    var body := raw[..|raw| - 1];
    assert raw + more == body + [LF] + more;
    FindAfter(body, LF, more);
  }

  /** Feeding a terminated line and more is parsing the line, then feeding the rest. */
  lemma FeedRawLine(p: Parser, raw: string, more: string)
    requires Ok(p) && p.lineBuf == "" && (p.phase.RequestLine? || p.phase.Headers?) && RawLine(raw)
    ensures var (q, verdict) := ParseLine(p, StripEol(raw));
            && Feed(AsDocumented, p, raw + more) ==
                 (if verdict != NeedMore then (q.(lineBuf := ""), verdict)
                  else Feed(AsDocumented, q.(lineBuf := ""), more))
            && Ok(q.(lineBuf := "")) && (verdict == NeedMore ==> !q.phase.Complete?)
  {
    hide ParseLine, StripEol;
    RawLineFound(raw, more);
    TerminatedLine(p, raw + more, AsDocumented);
  }

  /** A parser that gets anywhere with its input found a terminated line at the front of it. */
  lemma FirstRawLine(p: Parser, data: string) returns (raw: string, more: string)
    requires Ok(p) && p.lineBuf == "" && (p.phase.RequestLine? || p.phase.Headers?)
    requires Feed(AsDocumented, p, data).1 == Done
    ensures data == raw + more && RawLine(raw)
  {
    hide ParseLine, StripEol;
    var pos := Find(data, LF);
    assert pos < |data|;
    raw, more := data[..pos + 1], data[pos + 1..];
    assert raw[..|raw| - 1] == data[..pos];
  }

  // ---- The header block ---------------------------------------------------

  predicate AtHeaders(p: Parser) {
    Ok(p) && p.phase.Headers? && p.lineBuf == "" && p.request.body == ""
  }

  /** The parser once the header lines have been read. */
  function AfterHeaders(p: Parser, lines: seq<string>): Parser {
    p.(request := p.request.(headers := HeadersOf(p.request.headers, lines)))
  }

  lemma {:induction false} FeedHeaderLines(p: Parser, lines: seq<string>, more: string)
    requires AtHeaders(p) && HeaderLines(lines) && RoomForEach(p.request.headers, lines)
    ensures Feed(AsDocumented, p, Join(lines) + more) == Feed(AsDocumented, AfterHeaders(p, lines), more)
    decreases |lines|
  {
    hide StripEol, Feed;
    if lines == [] {
      assert Join(lines) + more == more;
    } else {
      var line := StripEol(lines[0]);
      HeaderLine(p, line);
      assert Join(lines) + more == lines[0] + (Join(lines[1..]) + more);
      FeedRawLine(p, lines[0], Join(lines[1..]) + more);
      FeedHeaderLines(OneHeader(p, line), lines[1..], more);
    }
  }

  /** The empty line and what follows it, with the request complete except for its body. */
  lemma FeedEnd(p: Parser, last: string, body: string, rest: string)
    requires AtHeaders(p) && RawLine(last) && StripEol(last) == ""
    requires |body| == p.request.ContentLength() && (|body| == 0 || |body| <= p.maxBodySize)
    ensures Feed(AsDocumented, p, last + body + rest).1 == Done
    ensures Feed(AsDocumented, p, last + body + rest).0.request == p.request.(body := body)
  {
    hide StripEol, HttpRequest.ContentLength, Feed, ParseLine;
    assert last + body + rest == last + (body + rest);
    FeedRawLine(p, last, body + rest);
    EmptyLine(p);
    if body == "" {
      assert p.request.body == body;
    } else {
      var q := p.(bodyRemaining := |body|, phase := Body);
      assert ParseLine(p, StripEol(last)) == (q, NeedMore);
      assert q.(lineBuf := "") == q;
      FeedBody(q, body + rest);
      assert (body + rest)[..|body|] == body;
      assert "" + body == body;
    }
  }

  lemma EmptyLine(p: Parser)
    requires AtHeaders(p)
    ensures var length := p.request.ContentLength();
            ParseLine(p, "") ==
              if length == 0 then (p.(bodyRemaining := 0, phase := Complete), Done)
              else if length <= p.maxBodySize then (p.(bodyRemaining := length, phase := Body), NeedMore)
              else (SetError(p.(bodyRemaining := length), "body too large"), Failed)
  {
  }

  lemma FeedBody(p: Parser, data: string)
    requires Ok(p) && p.phase.Body?
    ensures Feed(AsDocumented, p, data).1 == Done <==> |data| >= p.bodyRemaining
    ensures Feed(AsDocumented, p, data).1 == Done ==>
              Feed(AsDocumented, p, data).0.request == p.request.(body := p.request.body + data[..p.bodyRemaining])
  {
  }

  /** Every accepted header block splits into header lines, an empty line, the body and the rest. */
  lemma {:induction false} HeaderBlockSound(p: Parser, data: string)
      returns (lines: seq<string>, last: string, rest: string)
    requires AtHeaders(p) && Feed(AsDocumented, p, data).1 == Done
    ensures var req := Feed(AsDocumented, p, data).0.request;
            && data == Join(lines) + last + req.body + rest
            && HeaderLines(lines) && RoomForEach(p.request.headers, lines)
            && RawLine(last) && StripEol(last) == ""
            && req == AfterHeaders(p, lines).request.(body := req.body)
            && |req.body| == req.ContentLength()
            && (|req.body| == 0 || |req.body| <= p.maxBodySize)
    decreases |data|
  {
    hide StripEol, Feed, HttpRequest.ContentLength, ParseLine;
    var raw, more := FirstRawLine(p, data);
    FeedRawLine(p, raw, more);
    var line := StripEol(raw);
    var req := Feed(AsDocumented, p, data).0.request;
    if line == "" {
      lines, last := [], raw;
      rest := EndSound(p, raw, more);
      assert raw + req.body + rest == Join(lines) + last + req.body + rest;
    } else {
      HeaderLine(p, line);
      var q := OneHeader(p, line);
      var tail;
      tail, last, rest := HeaderBlockSound(q, more);
      lines := [raw] + tail;
      assert lines[1..] == tail;
      assert raw + (Join(tail) + last + req.body + rest) == Join(lines) + last + req.body + rest;
    }
  }

  function OneHeader(p: Parser, line: string): Parser {
    p.(request := p.request.(headers := AddHeader(p.request.headers, line)))
  }

  lemma HeaderLine(p: Parser, line: string)
    requires AtHeaders(p) && line != ""
    ensures if |p.request.headers| < MAX_HEADER_COUNT && ':' in line
            then ParseLine(p, line) == (OneHeader(p, line), NeedMore)
            else ParseLine(p, line).1 == Failed
  {
    if ':' in line { FindPresent(line, ':'); } else { FindAbsent(line, ':'); }
  }

  lemma EndSound(p: Parser, raw: string, more: string) returns (rest: string)
    requires AtHeaders(p) && RawLine(raw) && StripEol(raw) == ""
    requires Feed(AsDocumented, p, raw + more).1 == Done
    ensures var req := Feed(AsDocumented, p, raw + more).0.request;
            && raw + more == raw + req.body + rest
            && req == p.request.(body := req.body)
            && |req.body| == req.ContentLength()
            && (|req.body| == 0 || |req.body| <= p.maxBodySize)
  {
    hide StripEol, Feed, HttpRequest.ContentLength, ParseLine;
    FeedRawLine(p, raw, more);
    EmptyLine(p);
    var length := p.request.ContentLength();
    if length == 0 {
      rest := more;
      assert raw + more == raw + "" + rest;
    } else {
      var q := p.(bodyRemaining := length, phase := Body);
      assert ParseLine(p, StripEol(raw)) == (q, NeedMore);
      assert q.(lineBuf := "") == q;
      FeedBody(q, more);
      rest := more[length..];
      assert "" + more[..length] == more[..length];
      assert raw + more == raw + more[..length] + rest;
      BodyIsNoHeader(p.request, more[..length]);
    }
  }

  lemma BodyIsNoHeader(req: HttpRequest, body: string)
    ensures req.(body := body).ContentLength() == req.ContentLength()
  {
  }

  // ---- Acceptance is derivability -----------------------------------------

  lemma DerivedIsAccepted(d: Derivation, input: string, req: HttpRequest, max: nat)
    requires Derives(d, input, req, max)
    ensures Feed(AsDocumented, Fresh(max), input).1 == Done
    ensures Feed(AsDocumented, Fresh(max), input).0.request == req
  {
    hide Feed, StripEol, ParseRequestLine, HttpRequest.ContentLength;
    var more := Join(d.lines) + (d.last + req.body + d.rest);
    assert input == d.first + more;
    FeedRawLine(Fresh(max), d.first, more);
    StripEolShrinks(d.first);
    RequestLineComplete(Fresh(max), StripEol(d.first), req);
    var start := EMPTY_REQUEST.(verb := req.verb, path := req.path, version := req.version);
    var p := Fresh(max).(request := start, phase := Headers);
    assert ParseLine(Fresh(max), StripEol(d.first)) == (p, NeedMore);
    FeedHeaderLines(p, d.lines, d.last + req.body + d.rest);
    var q := AfterHeaders(p, d.lines);
    assert q.request.(body := req.body) == req;
    BodyIsNoHeader(q.request, req.body);
    FeedEnd(q, d.last, req.body, d.rest);
  }

  lemma AcceptedIsDerived(input: string, max: nat) returns (d: Derivation)
    requires Feed(AsDocumented, Fresh(max), input).1 == Done
    ensures Derives(d, input, Feed(AsDocumented, Fresh(max), input).0.request, max)
  {
    hide Feed, StripEol, ParseRequestLine, HttpRequest.ContentLength;
    var first, more := FirstRawLine(Fresh(max), input);
    FeedRawLine(Fresh(max), first, more);
    var line := StripEol(first);
    RequestLineVerdict(Fresh(max), line);
    RequestLineSound(Fresh(max), line);
    var p := ParseRequestLine(Fresh(max), line).0.(lineBuf := "");
    var lines, last, rest := HeaderBlockSound(p, more);
    var req := Feed(AsDocumented, Fresh(max), input).0.request;
    d := Derivation(first, lines, last, rest);
    assert first + (Join(lines) + last + req.body + rest) == first + Join(lines) + last + req.body + rest;
  }

  lemma RequestLineVerdict(p: Parser, line: string)
    ensures ParseRequestLine(p, line).1 != Done
    ensures ParseRequestLine(p, line).1 == NeedMore ==>
              var req := ParseRequestLine(p, line).0.request;
              ParseRequestLine(p, line).0 ==
                p.(phase := Headers, request := p.request.(verb := req.verb, path := req.path, version := req.version))
  {
    hide StringToMethod, Find;
  }

  lemma StripEolShrinks(s: string)
    ensures |StripEol(s)| <= |s|
  {
  }

  /** The parser accepts exactly the inputs that spell a request, and returns the request they spell. */
  lemma AcceptsIffDerives(input: string, req: HttpRequest, max: nat)
    ensures (Feed(AsDocumented, Fresh(max), input).1 == Done && Feed(AsDocumented, Fresh(max), input).0.request == req)
            <==> exists d :: Derives(d, input, req, max)
  {
    if Feed(AsDocumented, Fresh(max), input).1 == Done && Feed(AsDocumented, Fresh(max), input).0.request == req {
      var d := AcceptedIsDerived(input, max);
      assert Derives(d, input, req, max);
    }
    if d :| Derives(d, input, req, max) {
      DerivedIsAccepted(d, input, req, max);
    }
  }

  /** Fed in one piece, the code as written also returns every request its contract accepts. */
  lemma {:induction false} AsWrittenAcceptsWholeRequests(p: Parser, data: string)
    requires Ok(p) && p.lineBuf == "" && !p.phase.Complete?
    requires Feed(AsDocumented, p, data).1 == Done
    ensures Feed(AsWritten, p, data) == Feed(AsDocumented, p, data)
    decreases |data|
  {
    if !p.phase.Body? {
      hide ParseRequestLine, ParseHeaderLine, StripEol;
      var raw, more := FirstRawLine(p, data);
      RawLineFound(raw, more);
      TerminatedLine(p, data, AsWritten);
      TerminatedLine(p, data, AsDocumented);
      var (next, verdict) := AfterLine(p, data);
      if verdict == NeedMore {
        AsWrittenAcceptsWholeRequests(next, more);
      }
    }
  }

  // ---- Printing and reading back ------------------------------------------

  const CRLF := [CR, LF]

  function HeaderText(name: string, value: string): string { name + [':', SP] + value }

  function HeaderBlock(headers: HeaderMap, order: seq<string>): (lines: seq<string>)
    requires forall i :: 0 <= i < |order| ==> order[i] in headers
    ensures |lines| == |order|
    ensures forall i :: 0 <= i < |lines| ==> lines[i] == HeaderText(order[i], headers[order[i]]) + CRLF
  {
    if order == [] then [] else [HeaderText(order[0], headers[order[0]]) + CRLF] + HeaderBlock(headers, order[1..])
  }

  /** An iteration order of the map: every key once. */
  predicate OrderOf(order: seq<string>, headers: HeaderMap) {
    && |order| == |headers|
    && (forall i :: 0 <= i < |order| ==> order[i] in headers)
    && (forall i, j :: 0 <= i < j < |order| ==> order[i] != order[j])
  }

  /** The request in wire format, with its headers in the given order. */
  function Print(req: HttpRequest, order: seq<string>): string
    requires OrderOf(order, req.headers)
  {
    MethodToString(req.verb) + [SP] + req.path + [SP] + req.version + CRLF
    + Join(HeaderBlock(req.headers, order)) + CRLF + req.body
  }

  /** A header the wire format can carry: lower-case name without colon, trimmed value, one line, within the limit. */
  predicate WireHeader(name: string, value: string) {
    Printable(name, value) && |name| + |value| + 4 <= MAX_HEADER_SIZE
  }

  predicate Printable(name: string, value: string) {
    && Lower(name) == name && ':' !in name && LF !in name
    && IsTrim(value) && LF !in value
  }

  predicate WireHeaders(headers: HeaderMap) {
    forall name :: name in headers ==> WireHeader(name, headers[name])
  }

  predicate WireRequest(req: HttpRequest, max: nat) {
    && req.verb != UNKNOWN && SP !in req.path && LF !in req.path
    && (req.version == "HTTP/1.1" || req.version == "HTTP/1.0")
    && |MethodToString(req.verb)| + |req.path| + |req.version| + 4 <= MAX_HEADER_SIZE
    && |req.headers| <= MAX_HEADER_COUNT && WireHeaders(req.headers)
    && |req.body| == req.ContentLength() && |req.body| <= max
  }

  lemma CrlfLine(line: string)
    requires LF !in line
    ensures LF !in (line + CRLF)[..|line| + 1] && StripEol(line + CRLF) == line
    ensures |line| + 2 <= MAX_HEADER_SIZE ==> RawLine(line + CRLF)
  {
    var raw := line + CRLF;
    assert raw[..|raw| - 1] == line + [CR];
    assert (line + [CR])[..|line|] == line;
  }

  lemma AddHeaderText(start: HeaderMap, name: string, value: string)
    requires Printable(name, value)
    ensures AddHeader(start, HeaderText(name, value)) == start[name := value]
  {
    var line := HeaderText(name, value);
    assert line == name + [':'] + ([SP] + value);
    FindAfter(name, ':', [SP] + value);
    assert line[..|name|] == name && line[|name| + 1..] == [SP] + value + "";
    TrimmedPadded([SP], value, "");
  }

  lemma PrintedHeaderLine(name: string, value: string)
    requires WireHeader(name, value)
    ensures RawLine(HeaderText(name, value) + CRLF) && ':' in StripEol(HeaderText(name, value) + CRLF)
    ensures StripEol(HeaderText(name, value) + CRLF) == HeaderText(name, value)
  {
    var text := HeaderText(name, value);
    assert text[|name|] == ':';
    assert LF !in text;
    CrlfLine(text);
  }

  lemma PrintedHeaderLines(headers: HeaderMap, order: seq<string>)
    requires forall i :: 0 <= i < |order| ==> order[i] in headers
    requires WireHeaders(headers)
    ensures HeaderLines(HeaderBlock(headers, order))
  {
    var lines := HeaderBlock(headers, order);
    forall i | 0 <= i < |lines| ensures RawLine(lines[i]) && ':' in StripEol(lines[i]) {
      PrintedHeaderLine(order[i], headers[order[i]]);
    }
  }

  predicate Submap(a: HeaderMap, b: HeaderMap) {
    forall name :: name in a ==> name in b && a[name] == b[name]
  }

  lemma SubmapOfSameSize(a: HeaderMap, b: HeaderMap)
    requires Submap(a, b) && |a| == |b|
    ensures a == b
  {
    assert a.Keys <= b.Keys;
    assert |b.Keys - a.Keys| == |b.Keys| - |a.Keys|;
    assert b.Keys == a.Keys + (b.Keys - a.Keys);
  }

  /** Reading printed headers adds exactly those headers, whatever their order. */
  lemma {:induction false} ReadHeaderBlock(start: HeaderMap, headers: HeaderMap, order: seq<string>)
    requires forall i :: 0 <= i < |order| ==> order[i] in headers && order[i] !in start
    requires forall i, j :: 0 <= i < j < |order| ==> order[i] != order[j]
    requires WireHeaders(headers) && |start| + |order| <= MAX_HEADER_COUNT && Submap(start, headers)
    ensures RoomForEach(start, HeaderBlock(headers, order))
    ensures var all := HeadersOf(start, HeaderBlock(headers, order));
            Submap(all, headers) && |all| == |start| + |order|
    decreases |order|
  {
    hide StripEol, AddHeader, RawLine, Printable, HeaderText;
    if order != [] {
      var name := order[0];
      PrintedHeaderLine(name, headers[name]);
      AddHeaderText(start, name, headers[name]);
      ReadHeaderBlock(start[name := headers[name]], headers, order[1..]);
    }
  }

  lemma PrintDerives(req: HttpRequest, order: seq<string>, max: nat, rest: string) returns (d: Derivation)
    requires WireRequest(req, max) && OrderOf(order, req.headers)
    ensures Derives(d, Print(req, order) + rest, req, max)
  {
    hide StripEol, WireHeaders, HeadersOf, RoomForEach, HttpRequest.ContentLength, RawLine, MethodToString, Join;
    var line := MethodToString(req.verb) + [SP] + req.path + [SP] + req.version;
    MethodRoundTrip(req.verb);
    assert LF !in line;
    CrlfLine(line);
    CrlfLine("");
    assert "" + CRLF == CRLF;
    PrintedHeaderLines(req.headers, order);
    var block := HeaderBlock(req.headers, order);
    ReadHeaderBlock(map[], req.headers, order);
    SubmapOfSameSize(HeadersOf(map[], block), req.headers);
    d := Derivation(line + CRLF, HeaderBlock(req.headers, order), CRLF, rest);
  }

  /** Any request the wire format can carry, printed with its headers in any order, is read back as itself. */
  lemma RequestRoundTrip(req: HttpRequest, order: seq<string>, max: nat, rest: string, reading: Reading)
    requires WireRequest(req, max) && OrderOf(order, req.headers)
    ensures Feed(reading, Fresh(max), Print(req, order) + rest).1 == Done
    ensures Feed(reading, Fresh(max), Print(req, order) + rest).0.request == req
  {
    hide Feed, Derives, Print, WireRequest, OrderOf;
    var d := PrintDerives(req, order, max, rest);
    DerivedIsAccepted(d, Print(req, order) + rest, req, max);
    AsWrittenAcceptsWholeRequests(Fresh(max), Print(req, order) + rest);
  }
}
