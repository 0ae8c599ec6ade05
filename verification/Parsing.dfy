/**
 * The request parser as functions on its fields.
 *
 * The code departs from its own interface comment in three places, so every operation the departures
 * touch takes a Reading: AsWritten follows the code line by line, AsDocumented follows the interface
 * comment (no complete line yet means 0 bytes consumed; an over-long line is an Error; a halted parser
 * keeps its verdict). All other operations are common to both.
 */
module Parsing {
  import opened Text
  import opened Request

  datatype Reading = AsWritten | AsDocumented

  datatype Phase = RequestLine | Headers | Body | Complete

  datatype Verdict = NeedMore | Done | Failed

  const MAX_REQUEST_LINE: nat := 8192
  const MAX_HEADER_SIZE: nat := 8192
  const MAX_HEADER_COUNT: nat := 100
  const MAX_BODY_SIZE: nat := 8388608

  const TOO_LONG := "header line too long"

  datatype Parser = Parser(
    phase: Phase,
    request: HttpRequest,
    lineBuf: string,
    error: string,
    bodyRemaining: nat,
    maxBodySize: nat)

  function Fresh(maxBodySize: nat): Parser {
    Parser(RequestLine, EMPTY_REQUEST, "", "", 0, maxBodySize)
  }

  function SetError(p: Parser, message: string): Parser {
    p.(error := message, phase := Complete)
  }

  // ---- One line -----------------------------------------------------------

  function ParseRequestLine(p: Parser, line: string): (Parser, Verdict) {
    if |line| > MAX_REQUEST_LINE then (SetError(p, "request line too long"), Failed)
    else
      var sp1 := Find(line, SP);
      if sp1 == |line| then (SetError(p, "malformed request line: missing first SP"), Failed)
      else
        var rest := line[sp1 + 1..];
        var sp2 := Find(rest, SP);
        if sp2 == |rest| then (SetError(p, "malformed request line: missing second SP"), Failed)
        else
          var q := p.(request := p.request.(
            verb := StringToMethod(line[..sp1]), path := rest[..sp2], version := rest[sp2 + 1..]));
          if q.request.verb == UNKNOWN then (SetError(q, "unknown HTTP method"), Failed)
          else if q.request.version != "HTTP/1.1" && q.request.version != "HTTP/1.0" then
            (SetError(q, "unsupported HTTP version: " + q.request.version), Failed)
          else (q.(phase := Headers), NeedMore)
  }

  function AddHeader(headers: HeaderMap, line: string): HeaderMap {
    var colon := Find(line, ':');
    if colon == |line| then headers
    else headers[Lower(line[..colon]) := Trimmed(line[colon + 1..])]
  }

  function ParseHeaderLine(p: Parser, line: string): (Parser, Verdict) {
    if line == "" then
      var length := p.request.ContentLength();
      var q := p.(bodyRemaining := length);
      if length == 0 then (q.(phase := Complete), Done)
      else if length > p.maxBodySize then (SetError(q, "body too large"), Failed)
      else (q.(phase := Body), NeedMore)
    else if |p.request.headers| >= MAX_HEADER_COUNT then (SetError(p, "too many headers"), Failed)
    else if Find(line, ':') == |line| then (SetError(p, "malformed header: no colon"), Failed)
    else (p.(request := p.request.(headers := AddHeader(p.request.headers, line))), NeedMore)
  }

  /** The phase decides who reads a line; a halted parser ignores it. */
  function ParseLine(p: Parser, line: string): (Parser, Verdict) {
    match p.phase
    case RequestLine => ParseRequestLine(p, line)
    case Headers => ParseHeaderLine(p, line)
    case _ => (p, NeedMore)
  }

  // ---- Body ---------------------------------------------------------------

  function ParseBody(p: Parser, data: string): (Parser, Verdict) {
    var take := if |data| < p.bodyRemaining then |data| else p.bodyRemaining;
    var q := p.(request := p.request.(body := p.request.body + data[..take]), bodyRemaining := p.bodyRemaining - take);
    if q.bodyRemaining == 0 then (q.(phase := Complete), Done) else (q, NeedMore)
  }

  // ---- Feeding ------------------------------------------------------------

  /** Drops one line feed, then one carriage return, from the end. */
  function StripEol(s: string): string {
    var t := if s != "" && s[|s| - 1] == LF then s[..|s| - 1] else s;
    if t != "" && t[|t| - 1] == CR then t[..|t| - 1] else t
  }

  /** Moves one line, or the start of one, into lineBuf; the second result is the bytes consumed. */
  function ConsumeLine(reading: Reading, p: Parser, data: string): (r: (Parser, nat))
    ensures r.1 <= |data|
  {
    var pos := Find(data, LF);
    if pos == |data| then
      if |p.lineBuf| + |data| > MAX_HEADER_SIZE then (SetError(p, TOO_LONG), 0)
      else (p.(lineBuf := p.lineBuf + data), if reading.AsWritten? then |data| else 0)
    else if |p.lineBuf| + pos + 1 > MAX_HEADER_SIZE then (SetError(p, TOO_LONG), 0)
    else (p.(lineBuf := StripEol(p.lineBuf + data[..pos + 1])), pos + 1)
  }

  /** What feed answers when it runs out of bytes. */
  function Settled(reading: Reading, p: Parser): Verdict {
    if !p.phase.Complete? then NeedMore
    else if reading.AsDocumented? && p.error != "" then Failed
    else Done
  }

  function Feed(reading: Reading, p: Parser, data: string): (Parser, Verdict)
    decreases |data|
  {
    if data == "" || (reading.AsDocumented? && p.phase.Complete?) then (p, Settled(reading, p))
    else if p.phase.Body? then
      var (q, verdict) := ParseBody(p, data);
      (q, if verdict == NeedMore then Settled(reading, q) else verdict)
    else
      var (q, consumed) := ConsumeLine(reading, p, data);
      if consumed == 0 then (q, Settled(reading, q))
      else
        var (r, verdict) := ParseLine(q, q.lineBuf);
        var next := r.(lineBuf := "");
        if verdict != NeedMore then (next, verdict) else Feed(reading, next, data[consumed..])
  }

  /** Feeds chunk after chunk until the parser settles, as a caller of feed does. */
  function FeedAll(reading: Reading, p: Parser, chunks: seq<string>): (Parser, Verdict)
    decreases |chunks|
  {
    if chunks == [] then (p, Settled(reading, p))
    else
      var (q, verdict) := Feed(reading, p, chunks[0]);
      if verdict != NeedMore then (q, verdict) else FeedAll(reading, q, chunks[1..])
  }

  function Join(chunks: seq<string>): string {
    if chunks == [] then "" else chunks[0] + Join(chunks[1..])
  }
}
