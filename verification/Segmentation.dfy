/** The result of parsing does not depend on how the bytes arrived, and where a request ends is unique. */
module Segmentation {
  import opened Text
  import opened Request
  import opened Parsing
  import opened ByteMachine

  // ---- Chunk independence -------------------------------------------------

  /** A parser that still needs more is determined entirely. */
  lemma FeedNeedsMore(p: Parser, data: string)
    requires Ok(p) && Feed(AsDocumented, p, data).1 == NeedMore
    ensures Feed(AsDocumented, p, data).0 == Run(p, data)
  {
    FeedIsRun(p, data);
    RunKeepsOk(p, data);
  }

  lemma {:induction false} FeedAllIsRun(p: Parser, chunks: seq<string>)
    requires Ok(p)
    ensures SameResult(FeedAll(AsDocumented, p, chunks).0, Run(p, Join(chunks)))
    ensures FeedAll(AsDocumented, p, chunks).1 == Outcome(Run(p, Join(chunks)))
    decreases |chunks|
  {
    if chunks != [] {
      var rest := Join(chunks[1..]);
      FeedIsRun(p, chunks[0]);
      RunConcat(p, chunks[0], rest);
      RunKeepsOk(p, chunks[0]);
      if Feed(AsDocumented, p, chunks[0]).1 == NeedMore {
        FeedNeedsMore(p, chunks[0]);
        FeedAllIsRun(Run(p, chunks[0]), chunks[1..]);
      } else {
        RunHalted(Run(p, chunks[0]), rest);
      }
    }
  }

  /** Cutting the input anywhere, any number of times, changes neither verdict, nor error text, nor request. */
  lemma ChunkIndependence(p: Parser, chunks: seq<string>)
    requires Ok(p)
    ensures var (many, verdict) := FeedAll(AsDocumented, p, chunks);
            var (one, verdict') := Feed(AsDocumented, p, Join(chunks));
            && verdict == verdict'
            && many.error == one.error
            && many.request == one.request
            && many.phase == one.phase
            && (verdict == NeedMore ==> many == one)
  {
    FeedAllIsRun(p, chunks);
    FeedIsRun(p, Join(chunks));
    RunKeepsOk(p, Join(chunks));
  }

  /** Once failed, always failed, with the same error, until reset. */
  lemma ErrorsStayErrors(p: Parser, data: string, more: string)
    requires Ok(p) && Feed(AsDocumented, p, data).1 == Failed
    ensures Feed(AsDocumented, Feed(AsDocumented, p, data).0, more) == Feed(AsDocumented, p, data)
  {
    FeedIsRun(p, data);
  }

  // ---- Self-delimitation --------------------------------------------------

  /** The number of bytes after which the parser first settles; |s| when it does not. */
  function Extent(p: Parser, s: string): (k: nat)
    ensures k <= |s|
    decreases |s|
  {
    if s == "" || p.phase.Complete? then 0 else 1 + Extent(Step(p, s[0]), s[1..])
  }

  lemma {:induction false} ExtentSettles(p: Parser, s: string)
    ensures Run(p, s[..Extent(p, s)]) == Run(p, s)
    ensures forall j :: 0 <= j < Extent(p, s) ==> !Run(p, s[..j]).phase.Complete?
    decreases |s|
  {
    var k := Extent(p, s);
    if s == "" || p.phase.Complete? {
      RunHalted'(p, s);
    } else {
      var q := Step(p, s[0]);
      ExtentSettles(q, s[1..]);
      assert s[..k][1..] == s[1..][..k - 1];
      forall j | 0 <= j < k ensures !Run(p, s[..j]).phase.Complete? {
        if j > 0 { assert s[..j][1..] == s[1..][..j - 1]; }
      }
    }
  }

  lemma RunHalted'(p: Parser, s: string)
    requires s == "" || p.phase.Complete?
    ensures Run(p, s[..0]) == Run(p, s)
  {
    if s != "" { RunHalted(p, s); }
  }

  /**
   * If feeding s settles, one point of s settles it: before that point every prefix needs more, and
   * from that point on nothing that follows changes verdict, error or request.
   */
  lemma SelfDelimiting(p: Parser, s: string, more: string)
    requires Ok(p) && Feed(AsDocumented, p, s).1 != NeedMore
    ensures var k := Extent(p, s);
            && (forall j :: 0 <= j < k ==> Feed(AsDocumented, p, s[..j]).1 == NeedMore)
            && var (q, verdict) := Feed(AsDocumented, p, s[..k]);
               var (r, verdict') := Feed(AsDocumented, p, s[..k] + more);
               && verdict == verdict' == Feed(AsDocumented, p, s).1
               && q.request == r.request == Feed(AsDocumented, p, s).0.request
               && q.error == r.error
  {
    var k := Extent(p, s);
    ExtentSettles(p, s);
    forall j | 0 <= j < k ensures Feed(AsDocumented, p, s[..j]).1 == NeedMore {
      FeedIsRun(p, s[..j]);
    }
    FeedIsRun(p, s);
    FeedIsRun(p, s[..k]);
    FeedIsRun(p, s[..k] + more);
    RunConcat(p, s[..k], more);
    RunHalted(Run(p, s[..k]), more);
  }

  /** s settles the parser and none of its proper prefixes does: s is one whole message. */
  predicate WholeMessage(p: Parser, s: string) {
    Run(p, s).phase.Complete? && Extent(p, s) == |s|
  }

  /** Whole messages form a prefix code, so a byte stream can be read as a message in one way at most. */
  lemma MessageEndIsUnique(p: Parser, s: string, t: string)
    requires WholeMessage(p, s) && WholeMessage(p, t) && s <= t
    ensures s == t
  {
    ExtentSettles(p, t);
    assert t[..|s|] == s;
  }

  // ---- The code as written ------------------------------------------------

  /**
   * The bytes the code as written gets right: every line the parser takes from data ends in a line
   * feed and fits the limit. What follows the settling line does not matter.
   */
  predicate WholeLines(p: Parser, data: string)
    decreases |data|
  {
    data == "" || !(p.phase.RequestLine? || p.phase.Headers?) ||
    var pos := Find(data, LF);
    && pos < |data|
    && pos + 1 <= MAX_HEADER_SIZE
    && var (q, verdict) := ParseLine(p, StripEol(data[..pos + 1]));
       (verdict == NeedMore ==> WholeLines(q.(lineBuf := ""), data[pos + 1..]))
  }

  /** Exactly when the code as written does what its interface comment says, state and verdict alike. */
  lemma {:induction false} AsWrittenIffWholeLines(p: Parser, data: string)
    requires Ok(p) && p.lineBuf == "" && !p.phase.Complete?
    ensures Feed(AsWritten, p, data) == Feed(AsDocumented, p, data) <==> WholeLines(p, data)
    decreases |data|
  {
    hide ParseRequestLine, ParseHeaderLine, StripEol;
    if data != "" && !p.phase.Body? {
      var pos := Find(data, LF);
      if pos == |data| {
        Fragment(p, data);
      } else if pos + 1 <= MAX_HEADER_SIZE {
        TerminatedLine(p, data, AsWritten);
        TerminatedLine(p, data, AsDocumented);
        var (next, verdict) := AfterLine(p, data);
        if verdict == NeedMore {
          AsWrittenIffWholeLines(next, data[pos + 1..]);
        }
      }
    }
  }

  /** The parser and verdict once the first line of data has been read. */
  function AfterLine(p: Parser, data: string): (Parser, Verdict)
    requires Find(data, LF) < |data|
  {
    var (q, verdict) := ParseLine(p, StripEol(data[..Find(data, LF) + 1]));
    (q.(lineBuf := ""), verdict)
  }

  lemma TerminatedLine(p: Parser, data: string, reading: Reading)
    requires Ok(p) && p.lineBuf == "" && (p.phase.RequestLine? || p.phase.Headers?)
    requires Find(data, LF) < |data| && Find(data, LF) + 1 <= MAX_HEADER_SIZE
    ensures var (next, verdict) := AfterLine(p, data);
            && Ok(next) && next.lineBuf == "" && (verdict == NeedMore ==> !next.phase.Complete?)
            && Feed(reading, p, data) ==
                 if verdict != NeedMore then (next, verdict) else Feed(reading, next, data[Find(data, LF) + 1..])
  {
    hide ParseRequestLine, ParseHeaderLine, StripEol;
    var pos := Find(data, LF);
    assert p.lineBuf + data[..pos + 1] == data[..pos + 1];
    var line := StripEol(data[..pos + 1]);
    ParseLineVerdict(p, line);
    ParseLineIgnoresLineBuf(p, line, line);
  }

  /** An unterminated fragment is taken for a whole line by the code as written, and kept by its contract. */
  lemma Fragment(p: Parser, data: string)
    requires Ok(p) && p.lineBuf == "" && (p.phase.RequestLine? || p.phase.Headers?)
    requires data != "" && LF !in data
    ensures Feed(AsWritten, p, data) != Feed(AsDocumented, p, data)
  {
    assert Find(data, LF) == |data|;
    if |data| <= MAX_HEADER_SIZE {
      assert p.lineBuf + data == data;
      assert Feed(AsDocumented, p, data).0.lineBuf == data;
      assert data[|data|..] == "";
      assert Feed(AsWritten, p, data).0.lineBuf == "";
    }
  }

  /** The code as written never carries a line over: that is what breaks it. */
  lemma {:induction false} AsWrittenKeepsNothing(p: Parser, data: string)
    requires p.lineBuf == ""
    ensures Feed(AsWritten, p, data).0.lineBuf == ""
    decreases |data|
  {
    hide ParseRequestLine, ParseHeaderLine;
    if data != "" && !p.phase.Body? {
      var (q, consumed) := ConsumeLine(AsWritten, p, data);
      if consumed > 0 {
        AsWrittenKeepsNothing(ParseLine(q, q.lineBuf).0.(lineBuf := ""), data[consumed..]);
      }
    }
  }

  predicate AllWholeLines(p: Parser, chunks: seq<string>)
    decreases |chunks|
  {
    chunks == [] ||
    (WholeLines(p, chunks[0]) &&
     var (q, verdict) := Feed(AsDocumented, p, chunks[0]);
     (verdict == NeedMore ==> AllWholeLines(q, chunks[1..])))
  }

  /** Both readings give the same parser and verdict after every chunk up to the one that settles. */
  predicate Agree(p: Parser, chunks: seq<string>)
    decreases |chunks|
  {
    chunks == [] ||
    (Feed(AsWritten, p, chunks[0]) == Feed(AsDocumented, p, chunks[0]) &&
     var (q, verdict) := Feed(AsDocumented, p, chunks[0]);
     (verdict == NeedMore ==> Agree(q, chunks[1..])))
  }

  /**
   * Over a whole sequence of chunks the code as written follows its contract exactly when every chunk
   * is cut at line ends, and then its result is that of one documented feed of everything.
   */
  lemma AsWrittenChunks(p: Parser, chunks: seq<string>)
    requires Ok(p) && p.lineBuf == "" && !p.phase.Complete?
    ensures Agree(p, chunks) <==> AllWholeLines(p, chunks)
    ensures AllWholeLines(p, chunks) ==>
              var (many, verdict) := FeedAll(AsWritten, p, chunks);
              var (one, verdict') := Feed(AsDocumented, p, Join(chunks));
              verdict == verdict' && many.request == one.request && many.error == one.error
  {
    AgreeIffAllWholeLines(p, chunks);
    ChunkIndependence(p, chunks);
  }

  lemma {:induction false} AgreeIffAllWholeLines(p: Parser, chunks: seq<string>)
    requires Ok(p) && p.lineBuf == "" && !p.phase.Complete?
    ensures Agree(p, chunks) <==> AllWholeLines(p, chunks)
    ensures Agree(p, chunks) ==> FeedAll(AsWritten, p, chunks) == FeedAll(AsDocumented, p, chunks)
    decreases |chunks|
  {
    hide Feed, WholeLines;
    if chunks != [] {
      AsWrittenIffWholeLines(p, chunks[0]);
      AsWrittenKeepsNothing(p, chunks[0]);
      var (q, verdict) := Feed(AsDocumented, p, chunks[0]);
      if WholeLines(p, chunks[0]) && verdict == NeedMore {
        FeedIsRun(p, chunks[0]);
        FeedNeedsMore(p, chunks[0]);
        RunKeepsOk(p, chunks[0]);
        AgreeIffAllWholeLines(q, chunks[1..]);
      }
    } else {
      assert FeedAll(AsWritten, p, chunks) == FeedAll(AsDocumented, p, chunks);
    }
  }

  /** Witness: the first bytes of a request are accepted by the contract and refused by the code. */
  lemma AsWrittenRefusesAFragment(max: nat)
    ensures Feed(AsWritten, Fresh(max), "GET").1 == Failed
    ensures Feed(AsDocumented, Fresh(max), "GET").1 == NeedMore
  {
    hide StringToMethod;
    var data := "GET";
    FindAbsent(data, LF);
    FindAbsent(data, SP);
    assert "" + data == data;
  }

  /** A line over the limit, finished or not, is answered Done by the code as written, with the error text set. */
  lemma AsWrittenAcceptsOverlongLine(p: Parser, data: string)
    requires p.lineBuf == "" && (p.phase.RequestLine? || p.phase.Headers?)
    requires Find(data, LF) >= MAX_HEADER_SIZE && (Find(data, LF) == |data| ==> |data| > MAX_HEADER_SIZE)
    ensures Feed(AsWritten, p, data) == (SetError(p, TOO_LONG), Done)
    ensures Feed(AsDocumented, p, data) == (SetError(p, TOO_LONG), Failed)
  {
  }

  /** After any error the code as written answers Done to whatever comes next, where its contract says Failed. */
  lemma {:induction false} AsWrittenForgetsErrors(p: Parser, data: string)
    requires p.phase.Complete? && p.error != ""
    ensures Feed(AsWritten, p, data).1 == Done && Feed(AsWritten, p, data).0.phase.Complete?
    ensures Feed(AsDocumented, p, data) == (p, Failed)
    decreases |data|
  {
    if data != "" {
      var (q, consumed) := ConsumeLine(AsWritten, p, data);
      if consumed > 0 {
        AsWrittenForgetsErrors(q.(lineBuf := ""), data[consumed..]);
      }
    }
  }
}
