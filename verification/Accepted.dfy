/** What an accepted request looks like on the wire, why a refused one is refused, and the limits, in literals. */
module Accepted {
  import opened Text
  import opened Request
  import opened Parsing
  import opened ByteMachine
  import opened Segmentation
  import opened Grammar
  import opened Contracts
  import opened WireNames

  /** A parser at the start, and after a reset. */
  lemma FreshIs(max: nat)
    ensures Fresh(max) == Parser(RequestLine, HttpRequest(UNKNOWN, "", "", map[], ""), "", "", 0, max)
  {
  }

  // ---- Accepted -----------------------------------------------------------

  lemma RawLineEnds(raw: string)
    requires RawLine(raw)
    ensures raw == StripEol(raw) + "\n" || raw == StripEol(raw) + "\r\n"
  {
    var line := raw[..|raw| - 1];
    assert raw == line + "\n";
    if line != "" && line[|line| - 1] == CR { assert line == line[..|line| - 1] + "\r"; }
  }

  /** The size a field value announces: its leading digits, read as a decimal number below 2^64, and 0 otherwise. */
  ghost predicate Announces(value: string, n: nat) {
    exists digits, more ::
      && value == digits + more && AllDigits(digits) && (more == "" || !('0' <= more[0] <= '9'))
      && n == if digits == "" || Value(digits) >= 18446744073709551616 then 0 else Value(digits)
  }

  /** Every accepted request starts with a line of a known method, a target and a version, one space between each. */
  lemma AcceptedLine(input: string, max: nat) returns (token: string, end: string, tail: string)
    requires Feed(AsDocumented, Fresh(max), input).1 == Done
    ensures var req := Feed(AsDocumented, Fresh(max), input).0.request;
            && input == token + " " + req.path + " " + req.version + end + tail
            && token in VERBS && req.verb == VERBS[token] && ' ' !in req.path
            && (req.version == "HTTP/1.1" || req.version == "HTTP/1.0") && (end == "\n" || end == "\r\n")
  {
    hide Feed, StripEol, MethodToString, HttpRequest.ContentLength, HeadersOf, RoomForEach, Join, Fresh;
    var req := Feed(AsDocumented, Fresh(max), input).0.request;
    var d := AcceptedIsDerived(input, max);
    RawLineEnds(d.first);
    token, tail := MethodToString(req.verb), Join(d.lines) + d.last + req.body + d.rest;
    EveryMethodNamed(req.verb);
    end := if d.first == StripEol(d.first) + "\n" then "\n" else "\r\n";
    assert input == d.first + tail;
    assert input == token + " " + req.path + " " + req.version + end + tail;
  }

  /** The body of an accepted request has exactly the length its content-length field spells, and none without one. */
  lemma AcceptedBody(input: string, max: nat)
    requires Feed(AsDocumented, Fresh(max), input).1 == Done
    ensures var req := Feed(AsDocumented, Fresh(max), input).0.request;
            && ("content-length" !in req.headers ==> req.body == "")
            && ("content-length" in req.headers ==> Announces(req.headers["content-length"], |req.body|))
            && (req.body == "" || |req.body| <= max)
  {
    hide Feed, StripEol, MethodToString, HeadersOf, RoomForEach, SizeFromChars;
    var req := Feed(AsDocumented, Fresh(max), input).0.request;
    var d := AcceptedIsDerived(input, max);
    LengthIs(req);
    hide HttpRequest.ContentLength;
    if "content-length" in req.headers { ReadsWhatIsAnnounced(req.headers["content-length"]); }
  }

  lemma ReadsWhatIsAnnounced(value: string)
    ensures Announces(value, SizeFromChars(value))
  {
    var k := DigitPrefix(value);
    SizeReads(value[..k], value[k..]);
    assert value == value[..k] + value[k..];
  }

  /** A value announces one size only. */
  lemma AnnouncesOne(value: string, m: nat, n: nat)
    requires Announces(value, m) && Announces(value, n)
    ensures m == n == SizeFromChars(value)
  {
    forall digits: string, more: string | value == digits + more && AllDigits(digits) &&
        (more == "" || !('0' <= more[0] <= '9'))
      ensures SizeFromChars(value) == if digits == "" || Value(digits) >= 18446744073709551616 then 0 else Value(digits)
    {
      SizeReads(digits, more);
    }
  }

  /** A printed length announces itself. */
  lemma NumeralAnnounces(n: nat)
    ensures Announces(Numeral(n), if n < 18446744073709551616 then n else 0)
  {
    ValueOfNumeral(n);
    assert Numeral(n) == Numeral(n) + "";
  }

  // ---- Refused ------------------------------------------------------------

  /** The verdict of one feed, and the error text. */
  function Answer(p: Parser, data: string): (Verdict, string) {
    (Feed(AsDocumented, p, data).1, Feed(AsDocumented, p, data).0.error)
  }

  /** Feeding a terminated line and more, in terms of the line. */
  lemma FeedsLine(p: Parser, line: string, more: string)
    requires AtLine(p) && '\n' !in line && |line| + 2 <= 8192
    ensures var (q, verdict) := ParseLine(p, line);
            && (verdict != NeedMore ==> Feed(AsDocumented, p, line + "\r\n" + more) == (q.(lineBuf := ""), verdict))
            && (verdict == NeedMore ==>
                  Feed(AsDocumented, p, line + "\r\n" + more) == Feed(AsDocumented, q.(lineBuf := ""), more))
  {
    hide ParseLine, Feed, StripEol;
    LineEnds(line);
    CrlfLine(line);
    assert line + "\r\n" == line + CRLF;
    FeedRawLine(p, line + "\r\n", more);
  }

  /** The first check on a request line; feed never gets there, as it refuses such lines before. */
  lemma LineTooLong(p: Parser, line: string)
    requires |line| > 8192
    ensures ParseRequestLine(p, line).1 == Failed && ParseRequestLine(p, line).0.error == "request line too long"
  {
  }

  lemma NoSpace(p: Parser, line: string, more: string)
    requires AtLine(p) && p.phase.RequestLine? && '\n' !in line && |line| + 2 <= 8192 && ' ' !in line
    ensures Answer(p, line + "\r\n" + more) == (Failed, "malformed request line: missing first SP")
  {
    hide Feed;
    FeedsLine(p, line, more);
    FindAbsent(line, SP);
  }

  lemma OneSpace(p: Parser, a: string, b: string, more: string)
    requires AtLine(p) && p.phase.RequestLine? && '\n' !in a + b && |a| + |b| + 3 <= 8192 && ' ' !in a && ' ' !in b
    ensures Answer(p, a + " " + b + "\r\n" + more) == (Failed, "malformed request line: missing second SP")
  {
    hide Feed;
    var line := a + " " + b;
    FeedsLine(p, line, more);
    FindAfter(a, SP, b);
    assert line[|a| + 1..] == b;
    FindAbsent(b, SP);
  }

  /** What becomes of a line with two spaces, the version standing for all that follows the second. */
  lemma ParseThreeParts(p: Parser, a: string, b: string, c: string)
    requires |a| + |b| + |c| + 2 <= 8192 && ' ' !in a && ' ' !in b
    ensures var (q, verdict) := ParseRequestLine(p, a + " " + b + " " + c);
            if StringToMethod(a) == UNKNOWN then
              verdict == Failed && q.error == "unknown HTTP method"
            else if c != "HTTP/1.1" && c != "HTTP/1.0" then
              verdict == Failed && q.error == "unsupported HTTP version: " + c
            else
              && verdict == NeedMore
              && q == p.(request := p.request.(verb := StringToMethod(a), path := b, version := c), phase := Headers)
  {
    hide StringToMethod, Find;
    var line := a + " " + b + " " + c;
    assert line == a + [SP] + (b + " " + c);
    FindAfter(a, SP, b + " " + c);
    assert line[|a| + 1..] == b + [SP] + c && line[..|a|] == a;
    FindAfter(b, SP, c);
    assert (b + [SP] + c)[|b| + 1..] == c && (b + [SP] + c)[..|b|] == b;
  }

  /** Two spaces: the token and the version decide, the token first. */
  lemma TwoSpaces(p: Parser, a: string, b: string, c: string, more: string)
    requires AtLine(p) && p.phase.RequestLine? && '\n' !in a + b + c && |a| + |b| + |c| + 4 <= 8192
    requires ' ' !in a && ' ' !in b
    ensures var data := a + " " + b + " " + c + "\r\n" + more;
            && (a !in VERBS ==> Answer(p, data) == (Failed, "unknown HTTP method"))
            && (a in VERBS && c != "HTTP/1.1" && c != "HTTP/1.0" ==>
                  Answer(p, data) == (Failed, "unsupported HTTP version: " + c))
            && (a in VERBS && (c == "HTTP/1.1" || c == "HTTP/1.0") ==>
                  var req := p.request.(verb := VERBS[a], path := b, version := c);
                  Feed(AsDocumented, p, data) == Feed(AsDocumented, p.(request := req, phase := Headers), more))
  {
    hide Feed, StringToMethod, ParseRequestLine;
    FeedsLine(p, a + " " + b + " " + c, more);
    ParseThreeParts(p, a, b, c);
    MethodNames(a);
    KnownVerbs(a);
  }

  lemma KnownVerbs(s: string)
    ensures s in VERBS ==> VERBS[s] != UNKNOWN
  {
  }

  /** A header line is refused for being the 101st, or for having no colon; otherwise it is added. */
  lemma HeaderLineOrRefusal(p: Parser, line: string, more: string)
    requires AtLine(p) && p.phase.Headers? && '\n' !in line && 0 < |line| && |line| + 2 <= 8192
    ensures var data := line + "\r\n" + more;
            && (|p.request.headers| >= 100 ==> Answer(p, data) == (Failed, "too many headers"))
            && (|p.request.headers| < 100 && ':' !in line ==> Answer(p, data) == (Failed, "malformed header: no colon"))
            && (|p.request.headers| < 100 && ':' in line ==>
                  Feed(AsDocumented, p, data) == Feed(AsDocumented, OneHeader(p, line), more))
  {
    hide Feed, AddHeader;
    FeedsLine(p, line, more);
    if ':' in line { FindPresent(line, ':'); } else { FindAbsent(line, ':'); }
  }

  lemma AtEmptyLine(p: Parser, more: string)
    requires AtLine(p) && p.phase.Headers?
    ensures var n, data := p.request.ContentLength(), "\r\n" + more;
            && (n == 0 ==> Feed(AsDocumented, p, data).1 == Done)
            && (n > p.maxBodySize ==> n > 0 ==> Answer(p, data) == (Failed, "body too large"))
            && (0 < n <= p.maxBodySize ==>
                  Feed(AsDocumented, p, data) == Feed(AsDocumented, p.(bodyRemaining := n, phase := Body), more))
  {
    hide Feed, HttpRequest.ContentLength;
    FeedsLine(p, "", more);
    assert "" + "\r\n" + more == "\r\n" + more;
  }

  /** At the empty line a body over the limit is refused, a fresh parser's limit being 8 MiB. */
  lemma BodyLimit(p: Parser, n: nat, more: string)
    requires AtLine(p) && p.phase.Headers? && p.maxBodySize == Fresh(MAX_BODY_SIZE).maxBodySize
    requires "content-length" in p.request.headers && Announces(p.request.headers["content-length"], n)
    ensures n > 8388608 ==> Answer(p, "\r\n" + more) == (Failed, "body too large")
    ensures 0 < n <= 8388608 ==>
              Feed(AsDocumented, p, "\r\n" + more) == Feed(AsDocumented, p.(bodyRemaining := n, phase := Body), more)
    ensures n == 0 ==> Feed(AsDocumented, p, "\r\n" + more).1 == Done
  {
    hide Feed, SizeFromChars, Announces, HttpRequest.ContentLength, AtLine, Answer;
    AnnouncesOne(p.request.headers["content-length"], n, n);
    LengthIs(p.request);
    AtEmptyLine(p, more);
  }

  /** Lines of more than 8192 bytes, line end included, are refused, finished or not; shorter ones are waited for. */
  lemma LineLimit(p: Parser, line: string, more: string)
    requires AtLine(p) && '\n' !in line
    ensures |line| > 8192 ==> Answer(p, line) == (Failed, "header line too long")
    ensures |line| >= 8192 ==> Answer(p, line + "\n" + more) == (Failed, "header line too long")
    ensures |line| <= 8192 ==> Feed(AsDocumented, p, line).1 == NeedMore
    ensures |line| < 8192 && line != "" ==>
              Feed(AsDocumented, p, line + "\n" + more) ==
                var (q, verdict) := ParseLine(p, StripEol(line + "\n"));
                if verdict != NeedMore then (q.(lineBuf := ""), verdict)
                    else Feed(AsDocumented, q.(lineBuf := ""), more)
  {
    FindAbsent(line, LF);
    FindAfter(line, LF, more);
    assert p.lineBuf + line == line;
    hide ParseLine, StripEol;
    if 0 < |line| < 8192 {
      var raw := line + "\n";
      assert raw[..|raw| - 1] == line;
      FeedRawLine(p, raw, more);
    }
  }

  // ---- An example ---------------------------------------------------------

  lemma LowerConcat(a: string, b: string)
    ensures Lower(a + b) == Lower(a) + Lower(b)
  {
    assert |Lower(a + b)| == |Lower(a) + Lower(b)|;
    forall i | 0 <= i < |a + b| ensures Lower(a + b)[i] == (Lower(a) + Lower(b))[i] { }
  }

  lemma LowerOfLength(name: string)
    requires name == "C" + ("ontent-" + ("L" + "ength"))
    ensures Lower(name) == "content-length"
  {
    LowerConcat("C", "ontent-" + ("L" + "ength"));
    LowerConcat("ontent-", "L" + "ength");
    LowerConcat("L", "ength");
    LowerOfParts();
    hide Lower;
    assert "c" + ("ontent-" + ("l" + "ength")) == "content-length";
  }

  lemma LowerOfParts()
    ensures Lower("C") == "c" && Lower("L") == "l" && Lower("ontent-") == "ontent-" && Lower("ength") == "ength"
  {
    hide Lower;
    CaseFolding("C", 0);
    CaseFolding("L", 0);
    SmallName("ontent-");
    SmallName("ength");
  }

  /** A header line in mixed case that announces three bytes. */
  lemma LengthLine(p: Parser, name: string, more: string)
    requires AtLine(p) && p.phase.Headers? && p.request.headers == map[] && name == "C" + ("ontent-" + ("L" + "ength"))
    ensures Feed(AsDocumented, p, name + ":" + " " + "3" + "" + "\r\n" + more) ==
              Feed(AsDocumented, p.(request := p.request.(headers := map["content-length" := "3"])), more)
  {
    hide Feed, Lower, AddHeader;
    var line := name + ":" + " " + "3" + "";
    LowerOfLength(name);
    assert line[14] == ':';
    HeaderLineMeans(map[], name, " ", "3", "");
    HeaderLineOrRefusal(p, line, more);
  }

  /** The body of three bytes that "3" announces. */
  lemma ThreeBytes(p: Parser, more: string)
    requires AtLine(p) && p.phase.Headers? && p.request.headers == map["content-length" := "3"] && p.maxBodySize >= 3
    requires p.request.body == ""
    ensures var (q, verdict) := Feed(AsDocumented, p, "\r\n" + ("abc" + more));
            verdict == Done && q.request == p.request.(body := "abc")
  {
    hide Feed, SizeFromChars;
    LengthIs(p.request);
    ThreeIsThree();
    hide HttpRequest.ContentLength;
    var rest := "abc" + more;
    AtEmptyLine(p, rest);
    FeedBody(p.(bodyRemaining := 3, phase := Body), rest);
    assert rest[..3] == "abc" && "" + "abc" == "abc";
  }

  lemma ThreeIsThree()
    ensures SizeFromChars("3") == 3
  {
    assert "3"[..0] == "";
    assert Value("3") == 3;
    SizeReads("3", "");
    assert "3" + "" == "3";
  }

  /** A request with a body, byte by byte: the method, the target, the version, a header in mixed case, the body. */
  lemma PostOfThreeBytes(max: nat, name: string, more: string)
    requires max >= 3 && name == "C" + ("ontent-" + ("L" + "ength"))
    ensures var (p, verdict) := Feed(AsDocumented, Fresh(max), "POST" + " " + "/a" + " " + "HTTP/1.1" + "\r\n"
                                       + (name + ":" + " " + "3" + "" + "\r\n" + ("\r\n" + ("abc" + more))));
            verdict == Done && p.request == HttpRequest(POST, "/a", "HTTP/1.1", map["content-length" := "3"], "abc")
  {
    hide Feed;
    var p0 := Fresh(max);
    TwoSpaces(p0, "POST", "/a", "HTTP/1.1", name + ":" + " " + "3" + "" + "\r\n" + ("\r\n" + ("abc" + more)));
    var p1 := p0.(request := p0.request.(verb := POST, path := "/a", version := "HTTP/1.1"), phase := Headers);
    LengthLine(p1, name, "\r\n" + ("abc" + more));
    var p2 := p1.(request := p1.request.(headers := map["content-length" := "3"]));
    ThreeBytes(p2, more);
  }
}
