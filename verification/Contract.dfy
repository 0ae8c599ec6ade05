/**
 * When the code as written keeps its contract, said by what a caller can see: the verdict on the bytes so
 * far, and the verdict, error text and request that any further bytes would lead to.
 */
module Contracts {
  import opened Text
  import opened Request
  import opened Parsing
  import opened ByteMachine
  import opened Segmentation
  import opened Grammar

  /** Two outcomes of feed that look the same to a caller. */
  predicate SameAnswer(a: (Parser, Verdict), b: (Parser, Verdict)) {
    a.1 == b.1 && a.0.error == b.0.error && a.0.request == b.0.request
  }

  /**
   * The code as written answers data as its contract does, and leaves a parser from which whatever comes
   * next leads to the answer due for all the bytes together.
   */
  ghost predicate KeepsContract(p: Parser, data: string) {
    && Feed(AsWritten, p, data).1 == Feed(AsDocumented, p, data).1
    && forall more :: Continues(p, data, more)
  }

  predicate Continues(p: Parser, data: string, more: string) {
    SameAnswer(Feed(AsDocumented, Feed(AsWritten, p, data).0, more), Feed(AsDocumented, p, data + more))
  }

  // ---- Documented feeds one after the other -------------------------------

  lemma FeedTwice(p: Parser, data: string, more: string)
    requires Ok(p)
    ensures SameAnswer(Feed(AsDocumented, Feed(AsDocumented, p, data).0, more), Feed(AsDocumented, p, data + more))
  {
    hide Feed, Run;
    FeedIsRun(p, data);
    FeedIsRun(p, data + more);
    RunConcat(p, data, more);
    RunKeepsOk(p, data);
    var q := Feed(AsDocumented, p, data).0;
    if q.phase.Complete? {
      FeedHalted(q, more);
      RunHalted(Run(p, data), more);
    } else {
      FeedIsRun(q, more);
    }
  }

  lemma FeedHalted(p: Parser, more: string)
    requires p.phase.Complete?
    ensures Feed(AsDocumented, p, more) == (p, Outcome(p))
  {
  }

  lemma FeedNothing(p: Parser)
    ensures Feed(AsDocumented, p, "") == (p, Outcome(p))
  {
  }

  // ---- One line -----------------------------------------------------------

  predicate AtLine(p: Parser) {
    Ok(p) && p.lineBuf == "" && (p.phase.RequestLine? || p.phase.Headers?)
  }

  /** A whole line within the limit is read alike; what matters is what follows it. */
  lemma WholeLineContinues(p: Parser, data: string, more: string)
    requires AtLine(p) && Find(data, LF) < |data| && Find(data, LF) + 1 <= MAX_HEADER_SIZE
    ensures var (next, verdict) := AfterLine(p, data);
            var rest := data[Find(data, LF) + 1..];
            && Ok(next) && next.lineBuf == "" && (verdict == NeedMore ==> !next.phase.Complete?)
            && (verdict != NeedMore ==> Continues(p, data, more))
            && (verdict == NeedMore ==> (Continues(p, data, more) <==> Continues(next, rest, more)))
            && (Feed(AsWritten, p, data).1 == Feed(AsDocumented, p, data).1 <==>
                verdict != NeedMore || Feed(AsWritten, next, rest).1 == Feed(AsDocumented, next, rest).1)
  {
    hide Feed, ParseLine, StripEol;
    var pos := Find(data, LF);
    FindInFront(data, more);
    TerminatedLine(p, data, AsWritten);
    TerminatedLine(p, data, AsDocumented);
    assert (data + more)[..pos + 1] == data[..pos + 1];
    TerminatedLine(p, data + more, AsDocumented);
    assert (data + more)[pos + 1..] == data[pos + 1..] + more;
    var (next, verdict) := AfterLine(p, data);
    if verdict != NeedMore {
      LineSettles(p, data);
      FeedHalted(next, more);
    }
  }

  lemma FindInFront(data: string, more: string)
    requires Find(data, LF) < |data|
    ensures Find(data + more, LF) == Find(data, LF)
  {
    var pos := Find(data, LF);
    assert data + more == data[..pos] + [LF] + (data[pos + 1..] + more);
    FindAfter(data[..pos], LF, data[pos + 1..] + more);
  }

  lemma LineSettles(p: Parser, data: string)
    requires AtLine(p) && Find(data, LF) < |data| && AfterLine(p, data).1 != NeedMore
    ensures AfterLine(p, data).0.phase.Complete? && Outcome(AfterLine(p, data).0) == AfterLine(p, data).1
  {
    hide ParseLine, StripEol;
    ParseLineVerdict(p, StripEol(data[..Find(data, LF) + 1]));
  }

  // ---- A fragment ---------------------------------------------------------

  /** What the code as written makes of a fragment: it reads it, carriage return included, as a whole line. */
  lemma FragmentAsWritten(p: Parser, data: string)
    requires AtLine(p) && data != "" && LF !in data && |data| <= MAX_HEADER_SIZE
    ensures var (w, verdict) := ParseLine(p, data);
            && Feed(AsWritten, p, data).0 == w.(lineBuf := "")
            && (Feed(AsWritten, p, data).1 == NeedMore <==> verdict == NeedMore)
            && Ok(w.(lineBuf := ""))
  {
    hide ParseLine;
    FindAbsent(data, LF);
    assert p.lineBuf + data == data;
    ParseLineIgnoresLineBuf(p, data, data);
    ParseLineVerdict(p, data);
    assert data[|data|..] == "";
  }

  const NL := [LF]

  lemma StripOneEol(data: string)
    requires LF !in data
    ensures StripEol(data + NL) == StripEol(data)
  {
    assert (data + NL)[..|data|] == data;
  }

  /** Its contract keeps the fragment, and reads it once it is finished. */
  lemma FragmentAsDocumented(p: Parser, data: string, more: string)
    requires AtLine(p) && data != "" && LF !in data && |data| <= MAX_HEADER_SIZE
    ensures Feed(AsDocumented, p, data).1 == NeedMore
    ensures |data| + 1 > MAX_HEADER_SIZE ==>
              Feed(AsDocumented, p, data + NL + more).1 == Failed &&
                  Feed(AsDocumented, p, data + NL + more).0.error == TOO_LONG
    ensures |data| + 1 <= MAX_HEADER_SIZE && ParseLine(p, StripEol(data)).1 == NeedMore ==>
              Feed(AsDocumented, p, data + NL + more) ==
                  Feed(AsDocumented, ParseLine(p, StripEol(data)).0.(lineBuf := ""), more)
  {
    hide ParseLine, StripEol;
    FindAbsent(data, LF);
    assert p.lineBuf + data == data;
    var all := data + NL + more;
    FindAfter(data, LF, more);
    if |data| + 1 <= MAX_HEADER_SIZE {
      TerminatedLine(p, all, AsDocumented);
      StripOneEol(data);
      assert all[..|data| + 1] == data + NL;
      assert all[|data| + 1..] == more;
    }
  }

  /** Feeding an empty line to a parser at a header line. */
  lemma FeedEmptyLine(p: Parser, more: string)
    requires AtLine(p) && p.phase.Headers?
    ensures var length := p.request.ContentLength();
            Feed(AsDocumented, p, NL + more) ==
              if length == 0 then (p.(bodyRemaining := 0, phase := Complete), Done)
              else if length > p.maxBodySize then (SetError(p.(bodyRemaining := length), "body too large"), Failed)
              else Feed(AsDocumented, p.(bodyRemaining := length, phase := Body), more)
  {
    hide HttpRequest.ContentLength, Feed;
    FindAfter("", LF, more);
    assert "" + [LF] + more == NL + more;
    TerminatedLine(p, NL + more, AsDocumented);
    assert (NL + more)[..1] == NL && (NL + more)[1..] == more;
    StripOneEol("");
    assert "" + NL == NL;
  }

  lemma BodyTakesOne(p: Parser)
    requires Ok(p) && p.phase.Body?
    ensures Feed(AsDocumented, p, NL).0.request.body == p.request.body + NL
  {
    assert NL[..1] == NL;
  }

  lemma {:induction false} TrimLeftBeforeCr(y: string)
    ensures TrimLeft(y + [CR]) == TrimLeft(y) + [CR]
    decreases |y|
  {
    if y != "" {
      assert (y + [CR])[1..] == y[1..] + [CR];
      TrimLeftBeforeCr(y[1..]);
    } else {
      assert y + [CR] == [CR];
    }
  }

  /** A carriage return is no blank, so it shows in a value. */
  lemma CrShows(y: string)
    ensures Trimmed(y + [CR]) != Trimmed(y)
  {
    TrimLeftBeforeCr(y);
    TrimRightSplits(TrimLeft(y));
    hide TrimLeft;
    assert TrimRight(TrimLeft(y) + [CR]) == TrimLeft(y) + [CR];
    hide TrimRight;
  }

  lemma CrChangesHeader(headers: HeaderMap, data: string)
    requires data != "" && data[|data| - 1] == CR && ':' in data
    ensures AddHeader(headers, data) != AddHeader(headers, StripEol(data)) && ':' in StripEol(data)
  {
    var line := data[..|data| - 1];
    assert StripEol(data) == line;
    var k := Find(data, ':');
    FindPresent(data, ':');
    assert line == data[..k] + [':'] + data[k + 1..|data| - 1];
    FindAfter(data[..k], ':', data[k + 1..|data| - 1]);
    hide Find;
    assert line[..k] == data[..k] && data[k + 1..] == line[k + 1..] + [CR];
    CrShows(line[k + 1..]);
    hide Trimmed;
    assert AddHeader(headers, data)[Lower(data[..k])] != AddHeader(headers, line)[Lower(line[..k])];
  }

  /** A fragment read as a line leads to a header line. */
  lemma FragmentLeadsOn(p: Parser, data: string)
    requires AtLine(p) && data != "" && LF !in data && ParseLine(p, data).1 == NeedMore
    ensures ParseLine(p, data).0.phase.Headers?
    ensures data[|data| - 1] != CR ==> StripEol(data) == data
    ensures data[|data| - 1] == CR ==>
              p.phase.Headers? && ':' in data && |p.request.headers| < MAX_HEADER_COUNT
              && ParseLine(p, data).0 == p.(request := p.request.(headers := AddHeader(p.request.headers, data)))
  {
    if p.phase.RequestLine? {
      VersionAtEnd(p, data);
    } else {
      hide AddHeader;
      if ':' !in data { FindAbsent(data, ':'); }
    }
  }

  lemma VersionAtEnd(p: Parser, line: string)
    requires ParseRequestLine(p, line).1 == NeedMore && line != ""
    ensures line[|line| - 1] != CR && ParseRequestLine(p, line).0.phase.Headers?
  {
    hide StringToMethod;
    var rest := line[Find(line, SP) + 1..];
    var version := rest[Find(rest, SP) + 1..];
    hide Find;
    assert version == "HTTP/1.1" || version == "HTTP/1.0";
    assert version[|version| - 1] == line[|line| - 1];
  }

  lemma HeaderVerdict(p: Parser, line: string)
    requires p.phase.Headers? && ':' in line && |p.request.headers| < MAX_HEADER_COUNT
    ensures ParseLine(p, line) == (p.(request := p.request.(headers := AddHeader(p.request.headers, line))), NeedMore)
  {
    hide AddHeader;
    FindPresent(line, ':');
  }

  /** One or two more line feeds tell that the code as written has read the fragment as a line. */
  lemma FragmentIsTold(p: Parser, data: string)
    requires AtLine(p) && data != "" && LF !in data && |data| <= MAX_HEADER_SIZE
    requires ParseLine(p, data).1 == NeedMore
    ensures !Continues(p, data, NL) || !Continues(p, data, NL + NL)
  {
    hide Feed, ParseLine, AddHeader, StripEol, HttpRequest.ContentLength;
    var w := ParseLine(p, data).0.(lineBuf := "");
    FragmentAsWritten(p, data);
    FragmentAsDocumented(p, data, "");
    FragmentAsDocumented(p, data, NL);
    assert data + NL + "" == data + NL && data + NL + NL == data + (NL + NL) && NL + "" == NL;
    FragmentLeadsOn(p, data);
    FeedEmptyLine(w, "");
    var b := w.(bodyRemaining := w.request.ContentLength(), phase := Body);
    FeedNothing(b);
    if data[|data| - 1] == CR {
      CrChangesHeader(p.request.headers, data);
      HeaderVerdict(p, StripEol(data));
      FeedNothing(ParseLine(p, StripEol(data)).0.(lineBuf := ""));
    } else {
      FeedNothing(w);
      FeedEmptyLine(w, NL);
      if Ok(b) { BodyTakesOne(b); }
    }
  }

  lemma FragmentBreaksContract(p: Parser, data: string)
    requires AtLine(p) && data != "" && LF !in data
    ensures !KeepsContract(p, data)
  {
    hide ParseLine, StripEol, Continues;
    FindAbsent(data, LF);
    if |data| <= MAX_HEADER_SIZE {
      FragmentAsWritten(p, data);
      FragmentAsDocumented(p, data, "");
      if ParseLine(p, data).1 == NeedMore { FragmentIsTold(p, data); }
    } else {
      AsWrittenAcceptsOverlongLine(p, data);
    }
  }

  // ---- Exactly when -------------------------------------------------------

  /** The code as written keeps its contract on data exactly when all lines it takes from data are whole and fit. */
  lemma {:induction false} KeepsContractIff(p: Parser, data: string)
    requires Ok(p) && p.lineBuf == "" && !p.phase.Complete?
    ensures KeepsContract(p, data) <==> WholeLines(p, data)
    decreases |data|
  {
    hide Feed, ParseLine, StripEol, Continues;
    if WholeLines(p, data) {
      AsWrittenIffWholeLines(p, data);
      forall more ensures Continues(p, data, more) { AgreeingContinues(p, data, more); }
    } else {
      var pos := Find(data, LF);
      if pos == |data| {
        FragmentBreaksContract(p, data);
      } else if pos + 1 > MAX_HEADER_SIZE {
        AsWrittenAcceptsOverlongLine(p, data);
      } else {
        BreaksLater(p, data);
      }
    }
  }

  lemma AgreeingContinues(p: Parser, data: string, more: string)
    requires Ok(p) && Feed(AsWritten, p, data) == Feed(AsDocumented, p, data)
    ensures Continues(p, data, more)
  {
    hide Feed;
    FeedTwice(p, data, more);
  }

  lemma {:induction false} BreaksLater(p: Parser, data: string)
    requires AtLine(p) && Find(data, LF) < |data| && Find(data, LF) + 1 <= MAX_HEADER_SIZE && !WholeLines(p, data)
    ensures !KeepsContract(p, data)
    decreases |data|, 0
  {
    hide Feed, ParseLine, StripEol, Continues;
    var (next, verdict) := AfterLine(p, data);
    var rest := data[Find(data, LF) + 1..];
    assert verdict == NeedMore && !WholeLines(next, rest);
    WholeLineContinues(p, data, "");
    KeepsContractIff(next, rest);
    if Feed(AsWritten, next, rest).1 == Feed(AsDocumented, next, rest).1 {
      var more :| !Continues(next, rest, more);
      WholeLineContinues(p, data, more);
    }
  }

  // ---- Over chunks --------------------------------------------------------

  /** The contract kept after the given chunks: the answer so far, and the one any further bytes lead to. */
  ghost predicate KeptAfter(p: Parser, chunks: seq<string>) {
    && FeedAll(AsWritten, p, chunks).1 == Feed(AsDocumented, p, Join(chunks)).1
    && forall more :: ContinuesAfter(p, chunks, more)
  }

  predicate ContinuesAfter(p: Parser, chunks: seq<string>, more: string) {
    SameAnswer(Feed(AsDocumented, FeedAll(AsWritten, p, chunks).0, more), Feed(AsDocumented, p, Join(chunks) + more))
  }

  /** The contract kept after each of the chunks, up to the one that settles the parser and beyond. */
  ghost predicate KeepsContractOver(p: Parser, chunks: seq<string>) {
    forall k :: 0 <= k <= |chunks| ==> KeptAfter(p, chunks[..k])
  }

  lemma NeedMoreGoesOn(p: Parser, data: string)
    requires Ok(p) && !p.phase.Complete? && Feed(AsDocumented, p, data).1 == NeedMore
    ensures !Feed(AsDocumented, p, data).0.phase.Complete? && Ok(Feed(AsDocumented, p, data).0)
  {
    hide Feed, Run;
    FeedNeedsMore(p, data);
    FeedIsRun(p, data);
    RunKeepsOk(p, data);
  }

  lemma {:induction false} AsWrittenVerdict(p: Parser, data: string)
    ensures Feed(AsWritten, p, data).1 == NeedMore ==> Settled(AsWritten, Feed(AsWritten, p, data).0) == NeedMore
    decreases |data|
  {
    hide ParseLine, StripEol;
    if data != "" && !p.phase.Body? {
      var (q, consumed) := ConsumeLine(AsWritten, p, data);
      if consumed > 0 {
        AsWrittenVerdict(ParseLine(q, q.lineBuf).0.(lineBuf := ""), data[consumed..]);
      }
    }
  }

  lemma OneChunk(p: Parser, chunk: string)
    ensures FeedAll(AsWritten, p, [chunk]) == Feed(AsWritten, p, chunk) && Join([chunk]) == chunk
  {
    AsWrittenVerdict(p, chunk);
    hide Feed;
    var q := Feed(AsWritten, p, chunk).0;
    assert [chunk][1..] == [];
    assert FeedAll(AsWritten, q, []) == (q, Settled(AsWritten, q));
    assert Join([chunk]) == chunk + Join([]);
  }

  lemma OneChunkKept(p: Parser, chunk: string)
    ensures KeptAfter(p, [chunk]) <==> KeepsContract(p, chunk)
  {
    hide Feed, FeedAll, Join;
    OneChunk(p, chunk);
    forall more ensures ContinuesAfter(p, [chunk], more) <==> Continues(p, chunk, more) {
    }
    hide Continues, ContinuesAfter;
  }

  /**
   * Behind a first chunk on which both readings agree, the contract is kept for p exactly when it is for what
   * follows.
   */
  lemma KeptBehind(p: Parser, chunk: string, rest: seq<string>)
    requires Ok(p) && !p.phase.Complete?
    requires Feed(AsWritten, p, chunk) == Feed(AsDocumented, p, chunk)
    ensures var (q, verdict) := Feed(AsDocumented, p, chunk);
            if verdict == NeedMore then KeptAfter(p, [chunk] + rest) <==> KeptAfter(q, rest)
            else KeptAfter(p, [chunk] + rest)
  {
    hide Feed;
    var (q, verdict) := Feed(AsDocumented, p, chunk);
    var all := [chunk] + rest;
    assert all[1..] == rest && Join(all) == chunk + Join(rest);
    hide Join;
    FeedTwice(p, chunk, Join(rest));
    forall more ensures var behind := if verdict == NeedMore then ContinuesAfter(q, rest, more) else true;
                        ContinuesAfter(p, all, more) <==> behind
    {
      FeedTwice(p, chunk, Join(rest) + more);
      assert Join(all) + more == chunk + (Join(rest) + more);
      if verdict != NeedMore {
        SettledStays(p, chunk, more);
        SettledStays(p, chunk, Join(rest) + more);
      }
    }
    if verdict != NeedMore { SettledStays(p, chunk, Join(rest)); }
    hide ContinuesAfter;
  }

  lemma SettledStays(p: Parser, data: string, more: string)
    requires Ok(p) && Feed(AsDocumented, p, data).1 != NeedMore
    ensures Feed(AsDocumented, Feed(AsDocumented, p, data).0, more) == Feed(AsDocumented, p, data)
  {
    hide Feed, Run;
    FeedIsRun(p, data);
    FeedHalted(Feed(AsDocumented, p, data).0, more);
  }

  lemma KeptAfterNothing(p: Parser)
    requires !p.phase.Complete?
    ensures KeptAfter(p, [])
  {
    FeedNothing(p);
    hide Feed;
    forall more ensures ContinuesAfter(p, [], more) { assert Join([]) + more == more; }
    hide ContinuesAfter;
  }

  /**
   * Over a sequence of chunks the code as written keeps its contract, after every one of them, exactly when
   * every chunk up to the one that settles the parser is cut at line ends.
   */
  lemma {:induction false} KeepsContractOverIff(p: Parser, chunks: seq<string>)
    requires Ok(p) && p.lineBuf == "" && !p.phase.Complete?
    ensures KeepsContractOver(p, chunks) <==> AllWholeLines(p, chunks)
    decreases |chunks|
  {
    hide Feed, WholeLines, KeptAfter, KeepsContract;
    KeptAfterNothing(p);
    if chunks == [] {
      forall k | 0 <= k <= |chunks| ensures KeptAfter(p, chunks[..k]) { assert chunks[..k] == []; }
    } else {
      var chunk, rest := chunks[0], chunks[1..];
      KeepsContractIff(p, chunk);
      OneChunkKept(p, chunk);
      if !WholeLines(p, chunk) {
        assert chunks[..1] == [chunk];
        assert !KeptAfter(p, chunks[..1]);
      } else {
        AsWrittenIffWholeLines(p, chunk);
        ChunksBehind(p, chunks);
        var (q, verdict) := Feed(AsDocumented, p, chunk);
        if verdict == NeedMore {
          NeedMoreGoesOn(p, chunk);
          AsWrittenKeepsNothing(p, chunk);
          KeepsContractOverIff(q, rest);
        }
      }
    }
  }

  lemma ChunksBehind(p: Parser, chunks: seq<string>)
    requires Ok(p) && !p.phase.Complete? && chunks != []
    requires Feed(AsWritten, p, chunks[0]) == Feed(AsDocumented, p, chunks[0])
    ensures var (q, verdict) := Feed(AsDocumented, p, chunks[0]);
            KeepsContractOver(p, chunks) <==> (verdict == NeedMore ==> KeepsContractOver(q, chunks[1..]))
  {
    hide Feed, KeptAfter;
    KeptAfterNothing(p);
    var (q, verdict) := Feed(AsDocumented, p, chunks[0]);
    var rest := chunks[1..];
    assert chunks[..0] == [];
    forall k | 0 <= k <= |rest|
      ensures if verdict == NeedMore then KeptAfter(p, chunks[..k + 1]) <==> KeptAfter(q, rest[..k])
              else KeptAfter(p, chunks[..k + 1])
    {
      KeptBehind(p, chunks[0], rest[..k]);
      assert chunks[..k + 1] == [chunks[0]] + rest[..k];
    }
    if KeepsContractOver(p, chunks) && verdict == NeedMore {
      forall k | 0 <= k <= |rest| ensures KeptAfter(q, rest[..k]) { assert KeptAfter(p, chunks[..k + 1]); }
    }
    if verdict == NeedMore ==> KeepsContractOver(q, rest) {
      forall k | 0 <= k <= |chunks| ensures KeptAfter(p, chunks[..k]) {
        if k == 0 {
          assert chunks[..k] == [];
        } else {
          assert verdict == NeedMore ==> KeptAfter(q, rest[..k - 1]);
          KeptBehind(p, chunks[0], rest[..k - 1]);
          assert chunks[..k] == [chunks[0]] + rest[..k - 1];
        }
      }
    }
  }

  // ---- Right by luck ------------------------------------------------------

  /** An empty line that announces no body completes the request in either reading. */
  lemma EmptyLineCompletes(reading: Reading, p: Parser, more: string)
    requires AtLine(p) && p.phase.Headers? && p.request.ContentLength() == 0
    ensures Feed(reading, p, CRLF + more) == (p.(bodyRemaining := 0, phase := Complete), Done)
  {
    hide HttpRequest.ContentLength, Feed;
    FindAfter([CR], LF, more);
    assert [CR] + [LF] + more == CRLF + more;
    TerminatedLine(p, CRLF + more, reading);
    assert (CRLF + more)[..2] == CRLF && StripEol(CRLF) == "";
  }

  lemma HeaderThenMore(p: Parser, line: string, more: string)
    requires AtLine(p) && p.phase.Headers? && |p.request.headers| < MAX_HEADER_COUNT
    requires ':' in line && LF !in line && |line| + 2 <= MAX_HEADER_SIZE
    ensures Feed(AsDocumented, p, line + CRLF + more) == Feed(AsDocumented, OneHeader(p, line), more)
  {
    hide Feed, ParseLine, AddHeader;
    var all := line + CRLF + more;
    assert all == (line + [CR]) + [LF] + more;
    FindAfter(line + [CR], LF, more);
    TerminatedLine(p, all, AsDocumented);
    assert all[..|line| + 2] == line + CRLF && all[|line| + 2..] == more;
    assert (line + CRLF)[..|line| + 1] == line + [CR] && (line + [CR])[..|line|] == line;
    assert StripEol(line + CRLF) == line;
    HeaderVerdict(p, line);
  }

  /**
   * A single result can still come out right although a chunk is not cut at a line end: a header without
   * its line end is read as a line, and the line end that follows then passes for the empty line.
   */
  lemma RightByLuck(p: Parser, line: string)
    requires AtLine(p) && p.phase.Headers? && |p.request.headers| < MAX_HEADER_COUNT
    requires ':' in line && LF !in line && |line| + 2 <= MAX_HEADER_SIZE && line[|line| - 1] != CR
    requires p.request.(headers := AddHeader(p.request.headers, line)).ContentLength() == 0
    ensures !AllWholeLines(p, [line, CRLF + CRLF])
    ensures SameAnswer(FeedAll(AsWritten, p, [line, CRLF + CRLF]), Feed(AsDocumented, p, line + (CRLF + CRLF)))
    ensures Feed(AsDocumented, p, line + (CRLF + CRLF)).1 == Done
  {
    hide Feed, FeedAll, AddHeader, HttpRequest.ContentLength, WholeLines, Continues;
    var w := OneHeader(p, line);
    FragmentAsWritten(p, line);
    HeaderVerdict(p, line);
    EmptyLineCompletes(AsWritten, w, CRLF);
    EmptyLineCompletes(AsDocumented, w, "");
    assert CRLF + "" == CRLF && line + (CRLF + CRLF) == line + CRLF + CRLF;
    HeaderThenMore(p, line, CRLF);
    FragmentBreaksContract(p, line);
    KeepsContractIff(p, line);
    TwoChunks(p, line, CRLF + CRLF);
  }

  lemma TwoChunks(p: Parser, first: string, second: string)
    requires Feed(AsWritten, p, first).1 == NeedMore
    ensures FeedAll(AsWritten, p, [first, second]) == Feed(AsWritten, Feed(AsWritten, p, first).0, second)
  {
    hide Feed;
    OneChunk(Feed(AsWritten, p, first).0, second);
    assert [first, second][1..] == [second];
  }
}
