/** What every reachable parser state says about the bytes read so far. */
module ParserInvariant {
  import opened Text
  import opened Request
  import opened Parsing
  import opened ByteMachine
  import opened Grammar

  datatype Read = Read(first: string, lines: seq<string>, last: string)

  /** The lines read so far, and the request they spell. */
  predicate Spells(r: Read, req: HttpRequest) {
    && RawLine(r.first) && RequestLineOf(StripEol(r.first), req)
    && HeaderLines(r.lines) && req.headers == HeadersOf(map[], r.lines)
    && |req.headers| <= MAX_HEADER_COUNT
  }

  /** The state p accounts for every byte of s. */
  ghost predicate Accounts(p: Parser, s: string, max: nat) {
    && p.maxBodySize == max && |p.lineBuf| <= MAX_HEADER_SIZE
    && match p.phase
       case RequestLine => p == Fresh(max).(lineBuf := s)
       case Headers =>
         p.error == "" && p.request.body == "" && exists r ::
           Spells(r, p.request) && s == r.first + Join(r.lines) + p.lineBuf
       case Body =>
         p.error == "" && p.lineBuf == "" && exists r ::
           && Spells(r, p.request) && RawLine(r.last) && StripEol(r.last) == ""
           && s == r.first + Join(r.lines) + r.last + p.request.body
           && p.bodyRemaining > 0
           && |p.request.body| + p.bodyRemaining == p.request.ContentLength() <= max
       case Complete => p.error == "" ==>
           |p.request.body| == p.request.ContentLength() && |p.request.headers| <= MAX_HEADER_COUNT
  }

  lemma {:induction false} JoinSnoc(lines: seq<string>, line: string)
    ensures Join(lines + [line]) == Join(lines) + line
    decreases |lines|
  {
    if lines == [] {
      assert lines + [line] == [line];
      assert Join([line]) == line + Join([]);
    } else {
      assert (lines + [line])[1..] == lines[1..] + [line];
      JoinSnoc(lines[1..], line);
    }
  }

  lemma {:induction false} HeadersSnoc(start: HeaderMap, lines: seq<string>, line: string)
    ensures HeadersOf(start, lines + [line]) == AddHeader(HeadersOf(start, lines), StripEol(line))
    decreases |lines|
  {
    hide AddHeader, StripEol;
    if lines == [] {
      assert lines + [line] == [line];
    } else {
      assert (lines + [line])[1..] == lines[1..] + [line];
      HeadersSnoc(AddHeader(start, StripEol(lines[0])), lines[1..], line);
    }
  }

  lemma EndedLine(lineBuf: string)
    requires LF !in lineBuf && |lineBuf| + 1 <= MAX_HEADER_SIZE
    ensures RawLine(lineBuf + [LF])
  {
    assert (lineBuf + [LF])[..|lineBuf|] == lineBuf;
  }

  lemma FirstLineStep(p: Parser, s: string, max: nat)
    requires Ok(p) && Accounts(p, s, max) && p.phase.RequestLine? && |p.lineBuf| + 1 <= MAX_HEADER_SIZE
    ensures Accounts(Step(p, LF), s + [LF], max)
  {
    hide StripEol, ParseRequestLine;
    var raw := p.lineBuf + [LF];
    var line := StripEol(raw);
    EndedLine(p.lineBuf);
    RequestLineVerdict(p, line);
    RequestLineSettles(p, line);
    var (q, verdict) := ParseRequestLine(p, line);
    LimitKept(p, LF);
    if verdict == NeedMore {
      RequestLineSound(p, line);
      var r := Read(raw, [], "");
      assert Spells(r, q.request);
      assert s + [LF] == r.first + Join(r.lines) + "";
    }
  }

  lemma LimitKept(p: Parser, c: char)
    ensures Step(p, c).maxBodySize == p.maxBodySize
  {
    hide StringToMethod, Find, AddHeader, HttpRequest.ContentLength, StripEol;
  }

  lemma HeaderLineStep(p: Parser, s: string, max: nat, r: Read)
    requires Ok(p) && p.phase.Headers? && p.maxBodySize == max && |p.lineBuf| + 1 <= MAX_HEADER_SIZE
    requires p.request.body == "" && Spells(r, p.request) && s == r.first + Join(r.lines) + p.lineBuf
    ensures Accounts(Step(p, LF), s + [LF], max)
  {
    hide StripEol, Spells, Accounts;
    var raw := p.lineBuf + [LF];
    EndedLine(p.lineBuf);
    assert s + [LF] == r.first + Join(r.lines) + raw;
    if StripEol(raw) == "" {
      SpellsIgnoresLast(r, raw, p.request);
      EndStep(p, s + [LF], max, Read(r.first, r.lines, raw));
    } else {
      FieldStep(p, s, max, r);
    }
  }

  lemma SpellsIgnoresLast(r: Read, last: string, req: HttpRequest)
    ensures Spells(r, req) ==> Spells(Read(r.first, r.lines, last), req)
  {
  }

  /** The line feed hands the finished line to the phase that reads it. */
  lemma StepOnLf(p: Parser)
    requires (p.phase.RequestLine? || p.phase.Headers?) && |p.lineBuf| + 1 <= MAX_HEADER_SIZE
    ensures var (q, verdict) := ParseLine(p.(lineBuf := ""), StripEol(p.lineBuf + [LF]));
            Step(p, LF) == q.(lineBuf := "")
  {
    ParseLineIgnoresLineBuf(p, "", StripEol(p.lineBuf + [LF]));
    hide ParseLine, StripEol;
  }

  lemma FieldStep(p: Parser, s: string, max: nat, r: Read)
    requires Ok(p) && p.phase.Headers? && p.maxBodySize == max && |p.lineBuf| + 1 <= MAX_HEADER_SIZE
    requires p.request.body == "" && Spells(r, p.request) && s == r.first + Join(r.lines) + p.lineBuf
    requires StripEol(p.lineBuf + [LF]) != "" && RawLine(p.lineBuf + [LF])
    ensures Accounts(Step(p, LF), s + [LF], max)
  {
    hide StripEol, HttpRequest.ContentLength, ParseLine, Step, Spells, RawLine;
    var raw := p.lineBuf + [LF];
    var line := StripEol(raw);
    var p0 := p.(lineBuf := "");
    StepOnLf(p);
    HeaderLine(p0, line);
    ParseLineVerdict(p0, line);
    LimitKept(p, LF);
    if |p.request.headers| < MAX_HEADER_COUNT && ':' in line {
      SpellsOneMore(r, p.request, raw);
      var next := Read(r.first, r.lines + [raw], "");
      JoinSnoc(r.lines, raw);
      assert s + [LF] == next.first + Join(next.lines) + "";
    } else {
      assert Step(p, LF).error != "";
    }
  }

  lemma SpellsOneMore(r: Read, req: HttpRequest, raw: string)
    requires Spells(r, req) && RawLine(raw) && ':' in StripEol(raw) && |req.headers| < MAX_HEADER_COUNT
    ensures Spells(Read(r.first, r.lines + [raw], ""), req.(headers := AddHeader(req.headers, StripEol(raw))))
  {
    hide StripEol, AddHeader, RawLine, MethodToString;
    HeadersSnoc(map[], r.lines, raw);
    AddHeaderSize(req.headers, StripEol(raw));
  }

  lemma AddHeaderSize(headers: HeaderMap, line: string)
    ensures |AddHeader(headers, line)| <= |headers| + 1
  {
    hide Lower, Trimmed, Find;
  }

  lemma EndStep(p: Parser, s: string, max: nat, r: Read)
    requires Ok(p) && p.phase.Headers? && p.maxBodySize == max && |p.lineBuf| + 1 <= MAX_HEADER_SIZE
    requires p.request.body == "" && Spells(r, p.request) && StripEol(p.lineBuf + [LF]) == ""
    requires RawLine(r.last) && StripEol(r.last) == "" && s == r.first + Join(r.lines) + r.last
    ensures Accounts(Step(p, LF), s, max)
  {
    hide StripEol, HttpRequest.ContentLength, Spells;
    var p0 := p.(lineBuf := "");
    EmptyLine(p0);
    ParseLineIgnoresLineBuf(p, "", "");
    var q := Step(p, LF);
    hide ParseLine;
    assert s == r.first + Join(r.lines) + r.last + q.request.body;
    SpellsSize(r, p.request);
  }

  lemma SpellsSize(r: Read, req: HttpRequest)
    requires Spells(r, req)
    ensures |req.headers| <= MAX_HEADER_COUNT
  {
  }

  lemma BodyStep(p: Parser, s: string, max: nat, c: char)
    requires Ok(p) && Accounts(p, s, max) && p.phase.Body?
    ensures Accounts(Step(p, c), s + [c], max)
  {
    hide StripEol, HttpRequest.ContentLength, RawLine, Spells;
    var r :| Spells(r, p.request) && RawLine(r.last) && StripEol(r.last) == ""
             && s == r.first + Join(r.lines) + r.last + p.request.body;
    var q := Step(p, c);
    assert [c][..1] == [c];
    BodyIsNoHeader(p.request, q.request.body);
    SpellsIgnoresBody(r, p.request, q.request.body);
    SpellsSize(r, p.request);
    assert s + [c] == r.first + Join(r.lines) + r.last + q.request.body;
  }

  lemma SpellsIgnoresBody(r: Read, req: HttpRequest, body: string)
    ensures Spells(r, req) ==> Spells(r, req.(body := body))
  {
    hide HeadersOf, StripEol, MethodToString;
  }

  lemma StepAccounts(p: Parser, s: string, max: nat, c: char)
    requires Ok(p) && Accounts(p, s, max)
    ensures Accounts(Step(p, c), s + [c], max)
  {
    hide ParseLine, Spells, RawLine, StripEol, HttpRequest.ContentLength;
    LimitKept(p, c);
    if p.phase.Body? {
      BodyStep(p, s, max, c);
    } else if p.phase.RequestLine? {
      if c == LF && |p.lineBuf| + 1 <= MAX_HEADER_SIZE { FirstLineStep(p, s, max); }
    } else if p.phase.Headers? {
      var r :| Spells(r, p.request) && s == r.first + Join(r.lines) + p.lineBuf;
      if c == LF && |p.lineBuf| + 1 <= MAX_HEADER_SIZE {
        HeaderLineStep(p, s, max, r);
      } else {
        assert s + [c] == r.first + Join(r.lines) + (p.lineBuf + [c]);
      }
    }
  }

  // ---- Halted parsers -----------------------------------------------------

  /** The headers are the last-wins fold of the header lines with which s goes on after its first line. */
  ghost predicate Folds(req: HttpRequest, s: string) {
    && |req.headers| <= MAX_HEADER_COUNT
    && exists r: Read :: && HeaderLines(r.lines) && req.headers == HeadersOf(map[], r.lines)
                         && (r.lines != [] ==> RawLine(r.first)) && r.first + Join(r.lines) <= s
  }

  /** The byte that completes a request, or fails it, adds no header. */
  lemma HaltingKeepsHeaders(p: Parser, c: char)
    requires !p.phase.Complete? && Step(p, c).phase.Complete?
    ensures Step(p, c).request.headers == p.request.headers
  {
    hide StripEol, Find, StringToMethod, HttpRequest.ContentLength, AddHeader;
  }

  lemma SpellsFolds(r: Read, req: HttpRequest, req': HttpRequest, s: string)
    requires Spells(r, req) && req'.headers == req.headers && r.first + Join(r.lines) <= s
    ensures Folds(req', s)
  {
    hide HeadersOf, Join, RawLine, StripEol;
  }

  lemma NoHeadersFold(req: HttpRequest, s: string)
    requires req.headers == map[]
    ensures Folds(req, s)
  {
    var r := Read("", [], "");
    assert HeadersOf(map[], r.lines) == map[] && "" + Join(r.lines) == "" && "" <= s;
  }

  lemma LinesRead(p: Parser, s: string, max: nat) returns (r: Read)
    requires Accounts(p, s, max) && (p.phase.Headers? || p.phase.Body?)
    ensures Spells(r, p.request) && r.first + Join(r.lines) <= s
  {
    hide Spells, StripEol, RawLine, HttpRequest.ContentLength, Join;
    if p.phase.Headers? {
      r :| Spells(r, p.request) && s == r.first + Join(r.lines) + p.lineBuf;
    } else {
      r :| Spells(r, p.request) && s == r.first + Join(r.lines) + r.last + p.request.body;
    }
  }

  lemma HaltingFolds(p: Parser, s: string, max: nat, c: char)
    requires Accounts(p, s, max) && !p.phase.Complete? && Step(p, c).phase.Complete?
    ensures Folds(Step(p, c).request, s + [c])
  {
    HaltingKeepsHeaders(p, c);
    hide Step, Spells, Folds, Join;
    var req := Step(p, c).request;
    if p.phase.RequestLine? {
      NoHeadersFold(req, s + [c]);
    } else {
      var r := LinesRead(p, s, max);
      hide Accounts;
      SpellsFolds(r, p.request, req, s + [c]);
    }
  }

  /**
   * After any bytes: the parser holds exactly the unfinished line; its headers, never more than 100, are
   * the last-wins fold of the header lines read, in a failed parser too; in the body, what has arrived and
   * what is missing add up to the announced length, which is within the limit; and a completed request
   * has a body of that length.
   */
  lemma {:induction false} EveryStateAccounts(s: string, max: nat)
    ensures Accounts(Run(Fresh(max), s), s, max)
    ensures Run(Fresh(max), s).phase.Complete? ==> Folds(Run(Fresh(max), s).request, s)
    decreases |s|
  {
    hide Step, Accounts, Folds;
    if s == "" {
      FreshAccounts(max);
    } else {
      var t, c := s[..|s| - 1], s[|s| - 1];
      var p := Run(Fresh(max), t);
      assert s == t + [c];
      EveryStateAccounts(t, max);
      RunKeepsOk(Fresh(max), t);
      StepAccounts(p, t, max, c);
      RunConcat(Fresh(max), t, [c]);
      RunOne(p, c);
      hide Run;
      if p.phase.Complete? {
        HaltedStays(p, c);
        FoldsGrow(p.request, t, c);
      } else if Step(p, c).phase.Complete? {
        HaltingFolds(p, t, max, c);
      }
    }
  }

  lemma HaltedStays(p: Parser, c: char)
    requires p.phase.Complete?
    ensures Step(p, c) == p
  {
  }

  lemma FoldsGrow(req: HttpRequest, s: string, c: char)
    requires Folds(req, s)
    ensures Folds(req, s + [c])
  {
    hide HeadersOf, Join, RawLine, HeaderLines;
  }

  lemma FreshAccounts(max: nat)
    ensures Accounts(Run(Fresh(max), ""), "", max) && !Run(Fresh(max), "").phase.Complete?
  {
  }
}
