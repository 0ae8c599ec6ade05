/**
 * A connection's wakeups as the event loop takes them: a hangup closes it before anything is read, and
 * EPOLLRDHUP, the client's end of stream, counts as one. What a client gets answered therefore depends on
 * whether its bytes were read in a wakeup before that.
 */
module Hangups {
  import opened Request
  import Parsing
  import opened ByteMachine
  import opened Segmentation
  import opened Sessions
  import opened Connections
  import WritePath

  /** The flags of one event, and what recv would deliver. */
  datatype Wake = Wake(hangup: bool, readable: bool, script: seq<Received>)

  /** The wakeup closes the connection: hung up, or reading comes to an end. */
  predicate EndsConnection(w: Wake) { w.hangup || (w.readable && ReadEndsClosed(w.script)) }

  /** The wakeups up to the first that closes the connection. */
  predicate EndsIn(wakes: seq<Wake>) { exists i :: 0 <= i < |wakes| && EndsConnection(wakes[i]) }

  /** The recv answers that are read: those of readable wakeups, up to the end of the connection. */
  function Heard(wakes: seq<Wake>): seq<seq<Received>> {
    if wakes == [] || wakes[0].hangup then []
    else if !wakes[0].readable then Heard(wakes[1..])
    else [wakes[0].script] + if ReadEndsClosed(wakes[0].script) then [] else Heard(wakes[1..])
  }

  /** The bytes that arrived, read or not. */
  function Arrived(wakes: seq<Wake>): string {
    if wakes == [] then ""
    else (if wakes[0].hangup || wakes[0].readable then Delivered(wakes[0].script) else "") + Arrived(wakes[1..])
  }

  /** The bytes that were read. */
  function HeardBytes(wakes: seq<Wake>): string { AllDelivered(Heard(wakes)) }

  // ---- The object ---------------------------------------------------------

  /** The part of handle_event that reads. */
  method HandleWakeup(c: Connection, w: Wake) returns (stillOpen: bool)
    requires c.Valid() && c.Clean() && c.open && c.state != WritePath.Closed
    modifies c, c.parser, c.readBuf, c.readBuf.data
    ensures c.Valid() && c.Clean() && c.readBuf.data == old(c.readBuf.data)
    ensures stillOpen == !EndsConnection(w) && (stillOpen ==> c.open)
    ensures c.state == if stillOpen then old(c.state) else WritePath.Closed
    ensures c.SessionView() ==
        OnReads(c.parser.reading, old(c.SessionView()), AllPieces(Heard([w]), c.readBuf.Capacity()))
  {
    hide Sessions.OnRead, OnReads, Pieces, ReadEndsClosed;
    ghost var s, room, reading := c.SessionView(), c.readBuf.Capacity(), c.parser.reading;
    HeardOne(w, room);
    NoReads(reading, s);
    if w.hangup {
      c.OnClosed();
      return false;
    }
    if w.readable {
      stillOpen := c.OnReadable(w.script);
      return;
    }
    return true;
  }

  lemma HeardOne(w: Wake, room: nat)
    requires room > 0
    ensures AllPieces(Heard([w]), room) == if w.hangup || !w.readable then [] else Pieces(w.script, room)
  {
    hide Pieces;
    assert [w][1..] == [];
    assert AllPieces([w.script], room) == Pieces(w.script, room) + AllPieces([], room);
  }

  method HandleWakeups(c: Connection, wakes: seq<Wake>) returns (stillOpen: bool)
    requires c.Valid() && c.Clean() && c.open && c.state != WritePath.Closed
    modifies c, c.parser, c.readBuf, c.readBuf.data
    ensures c.Valid() && c.Clean() && c.readBuf.data == old(c.readBuf.data)
    ensures stillOpen == !EndsIn(wakes)
    ensures c.state == if stillOpen then old(c.state) else WritePath.Closed
    ensures c.SessionView() ==
        OnReads(c.parser.reading, old(c.SessionView()), AllPieces(Heard(wakes), c.readBuf.Capacity()))
  {
    hide Sessions.OnRead, OnReads, Pieces, EndsConnection, Heard, AllPieces;
    ghost var s, room, reading := c.SessionView(), c.readBuf.Capacity(), c.parser.reading;
    NoReads(reading, s);
    NoneHeard(room);
    stillOpen := true;
    var i := 0;
    while i < |wakes|
      invariant i <= |wakes| && c.Valid() && c.Clean() && c.readBuf.data == old(c.readBuf.data)
      invariant stillOpen && c.open && !EndsIn(wakes[..i]) && c.state == old(c.state)
      invariant c.SessionView() == OnReads(reading, s, AllPieces(Heard(wakes[..i]), room))
    {
      assert wakes[..i + 1] == wakes[..i] + [wakes[i]];
      HeardConcat(wakes[..i], [wakes[i]], room);
      OnReadsConcat(reading, s, AllPieces(Heard(wakes[..i]), room), AllPieces(Heard([wakes[i]]), room));
      stillOpen := HandleWakeup(c, wakes[i]);
      if !stillOpen {
        EndsAt(wakes, i, room);
        return;
      }
      i := i + 1;
    }
    assert wakes[..i] == wakes;
  }

  lemma NoneHeard(room: nat)
    requires room > 0
    ensures AllPieces(Heard([]), room) == []
  {
  }

  lemma {:induction false} HeardSplits(a: seq<Wake>, b: seq<Wake>)
    ensures Heard(a + b) == if EndsIn(a) then Heard(a) else Heard(a) + Heard(b)
    decreases |a|
  {
    hide ReadEndsClosed;
    if a == [] {
      assert a + b == b;
    } else {
      assert (a + b)[1..] == a[1..] + b;
      HeardSplits(a[1..], b);
      if i :| 0 <= i < |a[1..]| && EndsConnection(a[1..][i]) { assert a[i + 1] == a[1..][i]; }
      if i :| 0 <= i < |a| && EndsConnection(a[i]) { assert i > 0 ==> a[1..][i - 1] == a[i]; }
    }
  }

  lemma HeardConcat(a: seq<Wake>, b: seq<Wake>, room: nat)
    requires room > 0 && !EndsIn(a)
    ensures AllPieces(Heard(a + b), room) == AllPieces(Heard(a), room) + AllPieces(Heard(b), room)
  {
    HeardSplits(a, b);
    AllPiecesConcat(Heard(a), Heard(b), room);
  }

  lemma EndsAt(wakes: seq<Wake>, i: nat, room: nat)
    requires room > 0 && i < |wakes| && EndsConnection(wakes[i])
    ensures EndsIn(wakes) && Heard(wakes) == Heard(wakes[..i + 1])
  {
    assert wakes == wakes[..i + 1] + wakes[i + 1..];
    assert EndsConnection(wakes[..i + 1][i]);
    HeardSplits(wakes[..i + 1], wakes[i + 1..]);
  }

  /** The bytes of one wakeup that are read. */
  function ReadIn(w: Wake): string { if w.readable && !w.hangup then Delivered(w.script) else "" }

  function ReadInAll(wakes: seq<Wake>): string {
    if wakes == [] then "" else ReadIn(wakes[0]) + ReadInAll(wakes[1..])
  }

  /**
   * What is read: everything in readable wakeups, up to and in the one that closes the connection, unless that
   * is a hangup.
   */
  lemma {:induction false} HeardIs(wakes: seq<Wake>, k: nat)
    requires k <= |wakes| && (forall i :: 0 <= i < k ==> !EndsConnection(wakes[i]))
    requires k < |wakes| ==> EndsConnection(wakes[k])
    ensures HeardBytes(wakes) == ReadInAll(wakes[..k]) + if k < |wakes| then ReadIn(wakes[k]) else ""
    decreases k
  {
    hide HeardBytes, EndsConnection, ReadIn;
    if wakes != [] { HeardFirst(wakes); }
    if k > 0 {
      HeardIs(wakes[1..], k - 1);
      assert wakes[..k][1..] == wakes[1..][..k - 1];
    } else if wakes == [] {
      NothingHeard();
    }
  }

  lemma HeardFirst(wakes: seq<Wake>)
    requires wakes != []
    ensures HeardBytes(wakes) ==
        ReadIn(wakes[0]) + if EndsConnection(wakes[0]) then "" else HeardBytes(wakes[1..])
  {
    hide Delivered, ReadEndsClosed;
    var script := wakes[0].script;
    if EndsConnection(wakes[0]) && !wakes[0].hangup {
      assert Heard(wakes) == [script] && [script][1..] == [];
      assert AllDelivered([script]) == Delivered(script) + AllDelivered([]);
    } else if !EndsConnection(wakes[0]) && wakes[0].readable {
      assert Heard(wakes)[1..] == Heard(wakes[1..]);
    }
  }

  lemma NothingHeard()
    ensures HeardBytes([]) == ""
  {
  }

  // ---- Which requests are submitted ---------------------------------------

  /** While the connection lasts everything that arrives is read; what is read is a prefix of it. */
  lemma {:induction false} HeardIsPrefix(wakes: seq<Wake>)
    ensures HeardBytes(wakes) <= Arrived(wakes)
    ensures !EndsIn(wakes) ==> HeardBytes(wakes) == Arrived(wakes)
    decreases |wakes|
  {
    hide ReadEndsClosed, Delivered, HeardBytes;
    if wakes == [] {
      NothingHeard();
    } else {
      var rest := wakes[1..];
      HeardIsPrefix(rest);
      HeardFirst(wakes);
      if i :| 0 <= i < |rest| && EndsConnection(rest[i]) { assert wakes[i + 1] == rest[i]; }
    }
  }

  /** How many messages of a client that awaits its responses are read to the end before its connection ends. */
  function HeardMessages(deliveries: seq<seq<Wake>>): nat {
    if deliveries == [] || HeardBytes(deliveries[0]) != Arrived(deliveries[0]) then 0
    else if EndsIn(deliveries[0]) then 1
    else 1 + HeardMessages(deliveries[1..])
  }

  function Flat(deliveries: seq<seq<Wake>>): seq<Wake> {
    if deliveries == [] then [] else deliveries[0] + Flat(deliveries[1..])
  }

  lemma {:induction false} HeardAtMost(deliveries: seq<seq<Wake>>)
    ensures HeardMessages(deliveries) <= |deliveries|
    decreases |deliveries|
  {
    if deliveries != [] { HeardAtMost(deliveries[1..]); }
  }

  /** One message, of which the bytes of a prefix are read. */
  lemma OneHeard(max: nat, s: Session, wakes: seq<Wake>, room: nat)
    requires room > 0 && s.parser == Parsing.Fresh(max) && Message(max, Arrived(wakes))
    ensures var t := OnReads(Parsing.AsDocumented, s, AllPieces(Heard(wakes), room));
            && t.rejected == s.rejected
            && (HeardBytes(wakes) == Arrived(wakes) ==>
                  t.submitted == s.submitted + [RequestOf(max, Arrived(wakes))] && t.parser == s.parser)
            && (HeardBytes(wakes) != Arrived(wakes) ==> t.submitted == s.submitted)
  {
    hide Parsing.Feed, HttpRequest.WantsKeepAlive, OnReads, Heard, AllPieces, Arrived;
    var m, pieces := Arrived(wakes), AllPieces(Heard(wakes), room);
    HeardIsPrefix(wakes);
    AllPiecesDeliver(Heard(wakes), room);
    if HeardBytes(wakes) == m {
      FeedIsRun(Parsing.Fresh(max), m);
      OneMessage(max, s, Parsing.Fresh(max), pieces);
    } else {
      var heard := HeardBytes(wakes);
      PrefixNeedsMore(max, m, |heard|);
      assert m[..|heard|] == heard;
      Unfinished(s, pieces);
    }
  }

  /**
   * End to end, for a client that waits for each response: submitted are the requests of exactly the
   * messages that were read to their last byte before a hangup was seen or reading ended.
   */
  lemma {:induction false} SubmittedIsHeard(max: nat, s: Session, messages: seq<string>, deliveries: seq<seq<Wake>>,
      room: nat)
    requires room > 0 && s.parser == Parsing.Fresh(max) && |deliveries| == |messages|
    requires forall i :: 0 <= i < |messages| ==> Message(max, messages[i]) && Arrived(deliveries[i]) == messages[i]
    ensures var t := OnReads(Parsing.AsDocumented, s, AllPieces(Heard(Flat(deliveries)), room));
            && HeardMessages(deliveries) <= |messages|
            && t.submitted == s.submitted + RequestsOf(max, messages[..HeardMessages(deliveries)])
            && t.rejected == s.rejected
    decreases |deliveries|
  {
    hide Parsing.Feed, HttpRequest.WantsKeepAlive, OnReads, Heard, AllPieces, Arrived, Message, EndsIn, HeardBytes,
        RequestOf, Parsing.Fresh;
    HeardAtMost(deliveries);
    if deliveries == [] {
      NoneHeard(room);
      NoReads(Parsing.AsDocumented, s);
    } else {
      var wakes, rest := deliveries[0], Flat(deliveries[1..]);
      assert Message(max, messages[0]);
      OneHeard(max, s, wakes, room);
      HeardSplits(wakes, rest);
      if EndsIn(wakes) {
        assert RequestsOf(max, messages[..1]) == [RequestOf(max, messages[0])] + RequestsOf(max, messages[..1][1..]);
      } else {
        HeardIsPrefix(wakes);
        HeardConcat(wakes, rest, room);
        OnReadsConcat(Parsing.AsDocumented, s, AllPieces(Heard(wakes), room), AllPieces(Heard(rest), room));
        var t := OnReads(Parsing.AsDocumented, s, AllPieces(Heard(wakes), room));
        SubmittedIsHeard(max, t, messages[1..], deliveries[1..], room);
        var k := HeardMessages(deliveries);
        assert messages[..k][1..] == messages[1..][..k - 1];
      }
    }
  }

  /** The same on the object, from its construction on. */
  method ServeUntilHangup(deliveries: seq<seq<Wake>>, ghost messages: seq<string>)
      returns (c: Connection, stillOpen: bool)
    requires |deliveries| == |messages|
    requires forall i :: 0 <= i < |messages| ==>
               Message(Parsing.MAX_BODY_SIZE, messages[i]) && Arrived(deliveries[i]) == messages[i]
    ensures HeardMessages(deliveries) <= |messages|
    ensures fresh(c) && c.submitted == RequestsOf(Parsing.MAX_BODY_SIZE, messages[..HeardMessages(deliveries)])
    ensures c.rejected == []
    ensures stillOpen == !EndsIn(Flat(deliveries))
    ensures c.state == if stillOpen then WritePath.State.Reading else WritePath.Closed
  {
    hide *;
    c := new Connection(Parsing.AsDocumented);
    ghost var s, room := c.SessionView(), c.readBuf.Capacity();
    c.NewIsOpen();
    c.Fields();
    stillOpen := HandleWakeups(c, Flat(deliveries));
    c.Fields();
    SubmittedIsHeard(Parsing.MAX_BODY_SIZE, s, messages, deliveries, room);
    ghost var requests := RequestsOf(Parsing.MAX_BODY_SIZE, messages[..HeardMessages(deliveries)]);
    assert [] + requests == requests;
  }

  /** A request whose last bytes arrive together with the client's end of stream is never submitted. */
  lemma FinWithRequestIsLost(max: nat, m: string)
    requires Message(max, m)
    ensures HeardMessages([[Wake(true, true, [Data(m)])]]) == 0 && Arrived([Wake(true, true, [Data(m)])]) == m
  {
    var w := Wake(true, true, [Data(m)]);
    assert Delivered([Data(m)]) == m + Delivered([Data(m)][1..]);
    assert Arrived([w]) == m + Arrived([w][1..]);
    assert Run(Parsing.Fresh(max), "") == Parsing.Fresh(max);
  }
}
