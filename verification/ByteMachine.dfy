/**
 * The reference for feed: a machine that takes one byte at a time and stops for good once it has
 * completed or failed. Feeding is shown to compute the same result as running this machine, and the
 * independence from how the bytes were cut follows.
 */
module ByteMachine {
  import opened Text
  import opened Request
  import opened Parsing

  function Step(p: Parser, c: char): Parser {
    match p.phase
    case Complete => p
    case Body => ParseBody(p, [c]).0
    case _ =>
      if |p.lineBuf| + 1 > MAX_HEADER_SIZE then SetError(p, TOO_LONG)
      else if c == LF then ParseLine(p, StripEol(p.lineBuf + [LF])).0.(lineBuf := "")
      else p.(lineBuf := p.lineBuf + [c])
  }

  function Run(p: Parser, s: string): Parser
    decreases |s|
  {
    if s == "" then p else Run(Step(p, s[0]), s[1..])
  }

  function Outcome(p: Parser): Verdict { Settled(AsDocumented, p) }

  /** Holds of the fresh parser and of every parser that feeding leads to. */
  predicate Ok(p: Parser) {
    && |p.lineBuf| <= MAX_HEADER_SIZE
    && LF !in p.lineBuf
    && (!p.phase.Complete? ==> p.error == "")
    && (p.phase.Body? ==> p.bodyRemaining > 0 && p.lineBuf == "")
  }

  lemma RunOne(p: Parser, c: char)
    ensures Run(p, [c]) == Step(p, c)
  {
    hide Step;
    assert [c][1..] == "";
  }

  lemma {:induction false} RunConcat(p: Parser, s: string, t: string)
    ensures Run(p, s + t) == Run(Run(p, s), t)
    decreases |s|
  {
    if s == "" {
      assert s + t == t;
    } else {
      assert (s + t)[1..] == s[1..] + t;
      RunConcat(Step(p, s[0]), s[1..], t);
    }
  }

  lemma {:induction false} RunHalted(p: Parser, s: string)
    requires p.phase.Complete?
    ensures Run(p, s) == p
  {
    if s != "" { RunHalted(p, s[1..]); }
  }

  // ---- Feed computes Run --------------------------------------------------

  /** The parts of a parser a caller can see: everything but the half-read line of a failed parse. */
  predicate SameResult(p: Parser, q: Parser) {
    p.(lineBuf := q.lineBuf) == q && (p.error == "" ==> p == q)
  }

  /** Bytes without a line feed pile up in lineBuf, or overflow it. */
  lemma {:induction false} RunFragment(p: Parser, s: string)
    requires Ok(p) && (p.phase.RequestLine? || p.phase.Headers?) && LF !in s
    ensures |p.lineBuf| + |s| <= MAX_HEADER_SIZE ==> Run(p, s) == p.(lineBuf := p.lineBuf + s)
    ensures |p.lineBuf| + |s| > MAX_HEADER_SIZE ==> SameResult(SetError(p, TOO_LONG), Run(p, s))
    decreases |s|
  {
    if s == "" {
      assert p.lineBuf + s == p.lineBuf;
    } else if |p.lineBuf| == MAX_HEADER_SIZE {
      RunHalted(SetError(p, TOO_LONG), s[1..]);
    } else {
      var q := Step(p, s[0]);
      RunFragment(q, s[1..]);
      assert p.lineBuf + s == q.lineBuf + s[1..];
    }
  }

  /** ParseLine does not look at lineBuf. */
  lemma ParseLineIgnoresLineBuf(p: Parser, b: string, line: string)
    ensures ParseLine(p.(lineBuf := b), line) == (ParseLine(p, line).0.(lineBuf := b), ParseLine(p, line).1)
  {
    hide StringToMethod, Find, Lower, Trimmed, HttpRequest.ContentLength;
  }

  /** A terminated line is parsed once its line feed arrives, or overflows lineBuf. */
  lemma RunTerminated(p: Parser, s: string)
    requires Ok(p) && (p.phase.RequestLine? || p.phase.Headers?) && LF !in s
    ensures |p.lineBuf| + |s| + 1 <= MAX_HEADER_SIZE ==>
              Run(p, s + [LF]) == ParseLine(p, StripEol(p.lineBuf + s + [LF])).0.(lineBuf := "")
    ensures |p.lineBuf| + |s| + 1 > MAX_HEADER_SIZE ==> SameResult(SetError(p, TOO_LONG), Run(p, s + [LF]))
  {
    hide ParseLine, StripEol, Run;
    RunConcat(p, s, [LF]);
    RunFragment(p, s);
    RunOne(Run(p, s), LF);
    if |p.lineBuf| + |s| + 1 <= MAX_HEADER_SIZE {
      var q := p.(lineBuf := p.lineBuf + s);
      assert Run(p, s) == q;
      assert Step(q, LF) == ParseLine(q, StripEol(q.lineBuf + [LF])).0.(lineBuf := "");
      ParseLineIgnoresLineBuf(p, q.lineBuf, StripEol(q.lineBuf + [LF]));
    }
  }

  lemma {:induction false} RunBody(p: Parser, s: string)
    requires Ok(p) && p.phase.Body?
    ensures Run(p, s) == ParseBody(p, s).0
    decreases |s|
  {
    if s == "" {
      assert p.request.body + s[..0] == p.request.body;
    } else {
      var q := Step(p, s[0]);
      var take := if |s| < p.bodyRemaining then |s| else p.bodyRemaining;
      assert p.request.body + s[..take] == (p.request.body + [s[0]]) + s[1..][..take - 1];
      assert [s[0]][..1] == [s[0]];
      if q.phase.Body? {
        RunBody(q, s[1..]);
      } else {
        RunHalted(q, s[1..]);
      }
    }
  }

  /** The verdict of a line is the one its parser state settles to. */
  lemma ParseLineVerdict(p: Parser, line: string)
    requires Ok(p) && (p.phase.RequestLine? || p.phase.Headers?)
    ensures ParseLine(p, line).1 == Outcome(ParseLine(p, line).0)
    ensures Ok(ParseLine(p, line).0.(lineBuf := ""))
  {
    hide ParseRequestLine, ParseHeaderLine;
    if p.phase.RequestLine? { RequestLineSettles(p, line); } else { HeaderLineSettles(p, line); }
  }

  lemma RequestLineSettles(p: Parser, line: string)
    requires p.phase.RequestLine? && p.error == ""
    ensures var (q, verdict) := ParseRequestLine(p, line);
            verdict == Outcome(q) && !q.phase.Body? && (!q.phase.Complete? ==> q.error == "")
  {
    hide StringToMethod, Find;
  }

  lemma HeaderLineSettles(p: Parser, line: string)
    requires p.phase.Headers? && p.error == ""
    ensures var (q, verdict) := ParseHeaderLine(p, line);
            && verdict == Outcome(q) && (!q.phase.Complete? ==> q.error == "")
            && (q.phase.Body? ==> q.bodyRemaining > 0)
  {
    hide AddHeader, Find, HttpRequest.ContentLength;
  }

  lemma StepKeepsOk(p: Parser, c: char)
    requires Ok(p)
    ensures Ok(Step(p, c))
  {
    if c == LF && (p.phase.RequestLine? || p.phase.Headers?) { ParseLineVerdict(p, StripEol(p.lineBuf + [LF])); }
    hide ParseLine, StripEol;
  }

  lemma {:induction false} RunKeepsOk(p: Parser, s: string)
    requires Ok(p)
    ensures Ok(Run(p, s))
    decreases |s|
  {
    if s != "" {
      StepKeepsOk(p, s[0]);
      RunKeepsOk(Step(p, s[0]), s[1..]);
    }
  }

  /** The documented feed, with its line searches and block copies, computes what the byte machine computes. */
  lemma {:induction false} FeedIsRun(p: Parser, data: string)
    requires Ok(p)
    ensures SameResult(Feed(AsDocumented, p, data).0, Run(p, data))
    ensures Feed(AsDocumented, p, data).1 == Outcome(Run(p, data))
    decreases |data|
  {
    if data == "" {
    } else if p.phase.Complete? {
      RunHalted(p, data);
    } else if p.phase.Body? {
      RunBody(p, data);
    } else {
      var pos := Find(data, LF);
      if pos == |data| {
        assert data == data[..pos];
        RunFragment(p, data);
      } else {
        var line, rest := data[..pos], data[pos + 1..];
        assert data[..pos + 1] == line + [LF];
        assert data == line + [LF] + rest;
        RunTerminated(p, line);
        RunConcat(p, line + [LF], rest);
        if |p.lineBuf| + pos + 1 > MAX_HEADER_SIZE {
          RunHalted(Run(p, line + [LF]), rest);
        } else {
          FeedLine(p, data);
        }
      }
    }
  }

  /** The case of a terminated line within the limit. */
  lemma {:induction false} FeedLine(p: Parser, data: string)
    requires Ok(p) && (p.phase.RequestLine? || p.phase.Headers?)
    requires Find(data, LF) < |data| && |p.lineBuf| + Find(data, LF) + 1 <= MAX_HEADER_SIZE
    ensures SameResult(Feed(AsDocumented, p, data).0, Run(p, data))
    ensures Feed(AsDocumented, p, data).1 == Outcome(Run(p, data))
    decreases |data|, 0
  {
    hide ParseRequestLine, ParseHeaderLine, StripEol;
    var pos := Find(data, LF);
    var line, rest := data[..pos], data[pos + 1..];
    assert data[..pos + 1] == line + [LF];
    assert data == line + [LF] + rest;
    RunTerminated(p, line);
    RunConcat(p, line + [LF], rest);
    assert p.lineBuf + (line + [LF]) == p.lineBuf + line + [LF];
    var stripped := StripEol(p.lineBuf + line + [LF]);
    var next := ParseLine(p, stripped).0.(lineBuf := "");
    ParseLineIgnoresLineBuf(p, stripped, stripped);
    ParseLineVerdict(p, stripped);
    if next.phase.Complete? {
      RunHalted(next, rest);
    } else {
      FeedIsRun(next, rest);
    }
  }
}
