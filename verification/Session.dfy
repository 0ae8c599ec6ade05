/**
 * What the read callback does with received bytes: feed the parser, answer a failed parse with an error
 * page, hand a completed request to the workers and start over.
 */
module Sessions {
  import opened Text
  import opened Request
  import opened Parsing
  import opened ByteMachine
  import opened Segmentation

  datatype Session = Session(parser: Parser, submitted: seq<HttpRequest>, rejected: seq<string>, keepAlive: bool)

  function OnRead(reading: Reading, s: Session, bytes: string): Session {
    var (q, verdict) := Feed(reading, s.parser, bytes);
    match verdict
    case NeedMore => s.(parser := q)
    case Failed => s.(parser := q, rejected := s.rejected + [q.error], keepAlive := false)
    case Done => s.(parser := Fresh(q.maxBodySize), submitted := s.submitted + [q.request],
                    keepAlive := q.request.WantsKeepAlive())
  }

  function OnReads(reading: Reading, s: Session, pieces: seq<string>): Session
    decreases |pieces|
  {
    if pieces == [] then s else OnReads(reading, OnRead(reading, s, pieces[0]), pieces[1..])
  }

  lemma {:induction false} OnReadsConcat(reading: Reading, s: Session, a: seq<string>, b: seq<string>)
    ensures OnReads(reading, s, a + b) == OnReads(reading, OnReads(reading, s, a), b)
    decreases |a|
  {
    if a == [] {
      assert a + b == b;
    } else {
      assert (a + b)[1..] == a[1..] + b;
      OnReadsConcat(reading, OnRead(reading, s, a[0]), a[1..], b);
    }
  }

  // ---- A client that waits for each response ------------------------------

  /** A complete, accepted message with nothing after it. */
  predicate Message(max: nat, m: string) {
    WholeMessage(Fresh(max), m) && Feed(AsDocumented, Fresh(max), m).1 == Done
  }

  function RequestOf(max: nat, m: string): HttpRequest { Feed(AsDocumented, Fresh(max), m).0.request }

  predicate NoEmpty(pieces: seq<string>) { forall i :: 0 <= i < |pieces| ==> pieces[i] != "" }

  /** Every cut of one message submits its request once, on the last piece, and leaves a fresh parser. */
  lemma {:induction false} OneMessage(max: nat, s: Session, p: Parser, pieces: seq<string>)
    requires Ok(p) && !p.phase.Complete? && s.parser == p && p.maxBodySize == max
    requires NoEmpty(pieces)
    requires Run(p, Join(pieces)).phase.Complete? && Outcome(Run(p, Join(pieces))) == Done
    requires Extent(p, Join(pieces)) == |Join(pieces)|
    ensures var req := Run(p, Join(pieces)).request;
            OnReads(AsDocumented, s, pieces) ==
              Session(Fresh(max), s.submitted + [req], s.rejected, req.WantsKeepAlive())
    decreases |pieces|
  {
    hide Feed, HttpRequest.WantsKeepAlive;
    assert pieces != [];
    var first, rest := pieces[0], Join(pieces[1..]);
    FeedIsRun(p, first);
    RunConcat(p, first, rest);
    RunKeepsOk(p, first);
    RunKeepsLimit(p, first);
    var q := Run(p, first);
    if |pieces| > 1 { JoinNonEmpty(pieces[1..]); }
    ExtentSettles(p, Join(pieces));
    if rest == "" {
      assert Run(q, rest) == q;
    } else {
      forall j | 0 <= j <= |first| ensures !Run(p, first[..j]).phase.Complete? {
        assert Join(pieces)[..j] == first[..j];
      }
      assert first[..|first|] == first;
      FeedNeedsMore(p, first);
      ExtentAdds(p, first, rest);
      OneMessage(max, s.(parser := q), q, pieces[1..]);
    }
  }

  lemma RunKeepsLimit(p: Parser, s: string)
    ensures Run(p, s).maxBodySize == p.maxBodySize
    decreases |s|
  {
    hide ParseRequestLine, ParseHeaderLine, StripEol;
    if s != "" {
      StepKeepsLimit(p, s[0]);
      RunKeepsLimit(Step(p, s[0]), s[1..]);
    }
  }

  lemma StepKeepsLimit(p: Parser, c: char)
    ensures Step(p, c).maxBodySize == p.maxBodySize
  {
    hide StringToMethod, Find, AddHeader, HttpRequest.ContentLength, StripEol;
  }

  lemma JoinNonEmpty(pieces: seq<string>)
    requires pieces != [] && NoEmpty(pieces)
    ensures Join(pieces) != ""
  {
    assert |Join(pieces)| >= |pieces[0]|;
  }

  lemma {:induction false} ExtentAdds(p: Parser, s: string, t: string)
    requires forall j :: 0 <= j <= |s| ==> !Run(p, s[..j]).phase.Complete?
    ensures Extent(p, s + t) == |s| + Extent(Run(p, s), t)
    decreases |s|
  {
    if s == "" {
      assert s + t == t;
    } else {
      assert !Run(p, s[..0]).phase.Complete?;
      assert (s + t)[1..] == s[1..] + t;
      forall j | 0 <= j <= |s[1..]| ensures !Run(Step(p, s[0]), s[1..][..j]).phase.Complete? {
        assert s[..j + 1][1..] == s[1..][..j];
        assert !Run(p, s[..j + 1]).phase.Complete?;
      }
      ExtentAdds(Step(p, s[0]), s[1..], t);
    }
  }

  function Concat(cuts: seq<seq<string>>): seq<string> {
    if cuts == [] then [] else cuts[0] + Concat(cuts[1..])
  }

  function RequestsOf(max: nat, messages: seq<string>): seq<HttpRequest> {
    if messages == [] then [] else [RequestOf(max, messages[0])] + RequestsOf(max, messages[1..])
  }

  lemma NothingRead(s: Session)
    ensures OnReads(AsDocumented, s, Concat([])) == s
  {
  }

  /**
   * For a client that sends its next message only after the previous one was answered, the requests
   * handed to the workers are the messages' requests in order, however each message was cut up.
   */
  lemma {:induction false} AwaitingClient(max: nat, s: Session, messages: seq<string>, cuts: seq<seq<string>>)
    requires s.parser == Fresh(max) && |cuts| == |messages|
    requires forall i :: 0 <= i < |messages| ==>
        Message(max, messages[i]) && Join(cuts[i]) == messages[i] && NoEmpty(cuts[i])
    ensures var t := OnReads(AsDocumented, s, Concat(cuts));
            t.submitted == s.submitted + RequestsOf(max, messages) && t.rejected == s.rejected && t.parser == Fresh(max)
    decreases |messages|
  {
    hide Feed, HttpRequest.WantsKeepAlive, OnReads, Join, Run, Extent, NoEmpty;
    if messages == [] {
      NothingRead(s);
    } else {
      assert Message(max, messages[0]);
      FeedIsRun(Fresh(max), messages[0]);
      OneMessage(max, s, Fresh(max), cuts[0]);
      OnReadsConcat(AsDocumented, s, cuts[0], Concat(cuts[1..]));
      AwaitingClient(max, OnReads(AsDocumented, s, cuts[0]), messages[1..], cuts[1..]);
    }
  }

  /** As long as the code as written agrees with its contract, so does the callback built on it. */
  lemma {:induction false} OneMessageAsWritten(s: Session, pieces: seq<string>)
    requires Agree(s.parser, pieces)
    requires forall k :: 1 <= k < |pieces| ==> FeedAll(AsDocumented, s.parser, pieces[..k]).1 == NeedMore
    ensures OnReads(AsWritten, s, pieces) == OnReads(AsDocumented, s, pieces)
    decreases |pieces|
  {
    hide Feed, HttpRequest.WantsKeepAlive;
    if |pieces| > 1 {
      var q := Feed(AsDocumented, s.parser, pieces[0]).0;
      assert pieces[..1] == [pieces[0]];
      forall k | 1 <= k < |pieces[1..]| ensures FeedAll(AsDocumented, q, pieces[1..][..k]).1 == NeedMore {
        assert FeedAll(AsDocumented, s.parser, pieces[..k + 1]).1 == NeedMore;
        assert pieces[..k + 1][1..] == pieces[1..][..k];
      }
      OneMessageAsWritten(s.(parser := q), pieces[1..]);
    }
  }

  /** Before the last piece of a message has arrived the parser needs more. */
  lemma NeedsMoreBeforeLast(max: nat, pieces: seq<string>, k: nat)
    requires Message(max, Join(pieces)) && NoEmpty(pieces) && 1 <= k < |pieces|
    ensures FeedAll(AsDocumented, Fresh(max), pieces[..k]).1 == NeedMore
  {
    hide FeedAll, Message, Outcome, Run;
    var front, back := pieces[..k], pieces[k..];
    assert pieces == front + back;
    JoinConcat(front, back);
    JoinNonEmpty(back);
    FeedAllIsRun(Fresh(max), front);
    PrefixNeedsMore(max, Join(pieces), |Join(front)|);
    assert Join(pieces)[..|Join(front)|] == Join(front);
  }

  lemma PrefixNeedsMore(max: nat, m: string, j: nat)
    requires Message(max, m) && j < |m|
    ensures Outcome(Run(Fresh(max), m[..j])) == NeedMore
  {
    hide Feed, Run;
    ExtentSettles(Fresh(max), m);
  }

  lemma {:induction false} JoinConcat(a: seq<string>, b: seq<string>)
    ensures Join(a + b) == Join(a) + Join(b)
    decreases |a|
  {
    if a == [] {
      assert a + b == b;
    } else {
      assert (a + b)[1..] == a[1..] + b;
      JoinConcat(a[1..], b);
    }
  }

  /** The same client under the code as written, when every piece of every message ends at a line end. */
  lemma {:induction false} AwaitingClientAsWritten(max: nat, s: Session, messages: seq<string>, cuts: seq<seq<string>>)
    requires s.parser == Fresh(max) && |cuts| == |messages|
    requires forall i :: 0 <= i < |messages| ==>
        Message(max, messages[i]) && Join(cuts[i]) == messages[i] && NoEmpty(cuts[i])
    requires forall i :: 0 <= i < |messages| ==> AllWholeLines(Fresh(max), cuts[i])
    ensures OnReads(AsWritten, s, Concat(cuts)) == OnReads(AsDocumented, s, Concat(cuts))
    decreases |messages|
  {
    hide Feed, FeedAll, HttpRequest.WantsKeepAlive, AllWholeLines, Message;
    if messages != [] {
      assert Message(max, messages[0]);
      AgreeIffAllWholeLines(Fresh(max), cuts[0]);
      forall k | 1 <= k < |cuts[0]| ensures FeedAll(AsDocumented, Fresh(max), cuts[0][..k]).1 == NeedMore {
        NeedsMoreBeforeLast(max, cuts[0], k);
      }
      OneMessageAsWritten(s, cuts[0]);
      OnReadsConcat(AsWritten, s, cuts[0], Concat(cuts[1..]));
      OnReadsConcat(AsDocumented, s, cuts[0], Concat(cuts[1..]));
      AwaitingClient(max, s, messages[..1], cuts[..1]);
      assert Concat(cuts[..1]) == cuts[0] + Concat([]);
      assert cuts[0] + Concat([]) == cuts[0];
      AwaitingClientAsWritten(max, OnReads(AsDocumented, s, cuts[0]), messages[1..], cuts[1..]);
    }
  }

  // ---- Malformed messages -------------------------------------------------

  /** Pieces that do not complete a request submit nothing. */
  lemma {:induction false} Unfinished(s: Session, pieces: seq<string>)
    requires Ok(s.parser) && !Run(s.parser, Join(pieces)).phase.Complete?
    ensures OnReads(AsDocumented, s, pieces) == s.(parser := Run(s.parser, Join(pieces)))
    decreases |pieces|
  {
    hide Feed, HttpRequest.WantsKeepAlive;
    if pieces != [] {
      var first, rest := pieces[0], Join(pieces[1..]);
      RunConcat(s.parser, first, rest);
      var q := Run(s.parser, first);
      if q.phase.Complete? { RunHalted(q, rest); }
      FeedIsRun(s.parser, first);
      RunKeepsOk(s.parser, first);
      FeedNeedsMore(s.parser, first);
      Unfinished(s.(parser := q), pieces[1..]);
    }
  }

  /** One piece that fails the parse. */
  lemma OneRejected(s: Session, bytes: string)
    requires Ok(s.parser) && Outcome(Run(s.parser, bytes)) == Failed
    ensures Rejects(s, OnRead(AsDocumented, s, bytes), Run(s.parser, bytes).error)
    ensures OnReads(AsDocumented, s, [bytes]) == OnRead(AsDocumented, s, bytes)
  {
    hide Feed, Run, HttpRequest.WantsKeepAlive;
    FeedIsRun(s.parser, bytes);
    assert [bytes][1..] == [];
  }

  /** One more rejection with the given text, and nothing else but a parser that has halted with it. */
  predicate Rejects(s: Session, t: Session, error: string) {
    && t.rejected == s.rejected + [error] && t.submitted == s.submitted && !t.keepAlive
    && t.parser.phase.Complete? && t.parser.error == error != ""
  }

  lemma JoinLast(pieces: seq<string>)
    requires pieces != []
    ensures Join(pieces) == Join(pieces[..|pieces| - 1]) + pieces[|pieces| - 1]
  {
    var front, last := pieces[..|pieces| - 1], pieces[|pieces| - 1];
    assert pieces == front + [last];
    JoinConcat(front, [last]);
    assert Join([last]) == last + Join([]);
  }

  /** Pieces of which only the last fails the parse: one rejection, and the connection is not to be kept alive. */
  lemma RejectedAtLast(s: Session, pieces: seq<string>)
    requires Ok(s.parser) && pieces != [] && !Run(s.parser, Join(pieces[..|pieces| - 1])).phase.Complete?
    requires Outcome(Run(s.parser, Join(pieces))) == Failed
    ensures Rejects(s, OnReads(AsDocumented, s, pieces), Run(s.parser, Join(pieces)).error)
  {
    hide Run, Outcome, OnRead, OnReads;
    var front, last := pieces[..|pieces| - 1], pieces[|pieces| - 1];
    JoinLast(pieces);
    hide Join;
    Unfinished(s, front);
    RunConcat(s.parser, Join(front), last);
    RunKeepsOk(s.parser, Join(front));
    OneRejected(s.(parser := Run(s.parser, Join(front))), last);
    OnReadsConcat(AsDocumented, s, front, [last]);
    assert pieces == front + [last];
  }

  /** A malformed message, up to the byte at which it fails. */
  predicate Malformed(max: nat, m: string) {
    WholeMessage(Fresh(max), m) && Feed(AsDocumented, Fresh(max), m).1 == Failed
  }

  /** The error text of one feed of the whole message. */
  function RefusalOf(max: nat, m: string): string { Feed(AsDocumented, Fresh(max), m).0.error }

  /**
   * However a malformed message is cut up, it is rejected once, with the error text of one feed of the whole,
   * nothing is submitted, and the connection is not to be kept alive.
   */
  lemma MalformedMessage(max: nat, s: Session, m: string, pieces: seq<string>)
    requires s.parser == Fresh(max) && Malformed(max, m) && Join(pieces) == m && NoEmpty(pieces)
    ensures var t := OnReads(AsDocumented, s, pieces);
            && t.rejected == s.rejected + [RefusalOf(max, m)] && t.submitted == s.submitted && !t.keepAlive
            && t.parser.phase.Complete? && t.parser.error == RefusalOf(max, m) != ""
  {
    hide Feed, OnReads, Join;
    FeedIsRun(Fresh(max), m);
    EmptyCut(max, m, pieces);
    JoinLast(pieces);
    ExtentSettles(Fresh(max), m);
    var front := Join(pieces[..|pieces| - 1]);
    assert m[..|front|] == front && |front| < |m|;
    hide Run;
    RejectedAtLast(s, pieces);
  }

  lemma EmptyCut(max: nat, m: string, pieces: seq<string>)
    requires WholeMessage(Fresh(max), m) && Join(pieces) == m
    ensures pieces != []
  {
  }

  /** After that every further piece is rejected again, with the same text. */
  lemma {:induction false} RejectedAgain(s: Session, pieces: seq<string>)
    requires s.parser.phase.Complete? && s.parser.error != "" && !s.keepAlive
    ensures OnReads(AsDocumented, s, pieces) ==
              s.(rejected := s.rejected + seq(|pieces|, i requires 0 <= i < |pieces| => s.parser.error))
    decreases |pieces|
  {
    hide Feed, HttpRequest.WantsKeepAlive;
    if pieces == [] {
      assert s.rejected + [] == s.rejected;
    } else {
      AfterRejection(s, pieces[0]);
      RejectedAgain(OnRead(AsDocumented, s, pieces[0]), pieces[1..]);
    }
  }

  /**
   * The callback does not reset the parser after a failed parse. Under the code as written the next
   * bytes, whatever they are, are therefore submitted as a request; under the documented parser they
   * are rejected again.
   */
  lemma AfterRejection(s: Session, bytes: string)
    requires s.parser.phase.Complete? && s.parser.error != ""
    ensures |OnRead(AsWritten, s, bytes).submitted| == |s.submitted| + 1
    ensures OnRead(AsDocumented, s, bytes) == s.(rejected := s.rejected + [s.parser.error], keepAlive := false)
  {
    hide Feed;
    AsWrittenForgetsErrors(s.parser, bytes);
  }
}
