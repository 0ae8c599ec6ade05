/** The connection object: two buffers, an optional file transfer, and the parser its read callback feeds. */
module Connections {
  import opened Wrappers
  import opened Buffers
  import opened Request
  import opened HttpParsing
  import Parsing
  import opened Sessions
  import opened WritePath

  /** Answers of recv: some bytes, end of stream, or an errno. An empty Data stands for no answer at all. */
  datatype Received = Data(bytes: string) | Eof | RecvWouldBlock | RecvInterrupted | RecvError

  /** The pieces the read callback sees: what recv offers, cut to the room in the read buffer. */
  function Pieces(script: seq<Received>, room: nat): seq<string>
    requires room > 0
    decreases |script|, if script != [] && script[0].Data? then |script[0].bytes| else 0
  {
    if script == [] then []
    else match script[0]
      case Data(bytes) =>
        if bytes == "" then Pieces(script[1..], room)
        else if |bytes| <= room then [bytes] + Pieces(script[1..], room)
        else [bytes[..room]] + Pieces([Data(bytes[room..])] + script[1..], room)
      case RecvInterrupted => Pieces(script[1..], room)
      case _ => []
  }

  /** Whether the reading loop ends with the connection closed. */
  function ReadEndsClosed(script: seq<Received>): bool
    decreases |script|
  {
    if script == [] then false
    else match script[0]
      case Data(_) => ReadEndsClosed(script[1..])
      case RecvInterrupted => ReadEndsClosed(script[1..])
      case RecvWouldBlock => false
      case _ => true
  }

  /** Every byte recv delivers before the loop ends. */
  function Delivered(script: seq<Received>): string
    decreases |script|
  {
    if script == [] then ""
    else match script[0]
      case Data(bytes) => bytes + Delivered(script[1..])
      case RecvInterrupted => Delivered(script[1..])
      case _ => ""
  }

  /** An answer of recv after which the loop goes on. */
  predicate GoesOn(r: Received) { r.Data? || r.RecvInterrupted? }

  /**
   * Reading ends with the connection closed exactly when the first answer that ends it is end of stream or an
   * error.
   */
  lemma {:induction false} ReadEndsClosedIff(script: seq<Received>)
    ensures ReadEndsClosed(script) <==> exists k :: ClosesAt(script, k)
    decreases |script|
  {
    if script != [] {
      ReadEndsClosedIff(script[1..]);
      if k :| ClosesAt(script[1..], k) && GoesOn(script[0]) { assert ClosesAt(script, k + 1); }
      if k :| ClosesAt(script, k) {
        if k > 0 { assert GoesOn(script[0]) && ClosesAt(script[1..], k - 1); }
      }
      if script[0].Eof? || script[0].RecvError? { assert ClosesAt(script, 0); }
    }
  }

  predicate ClosesAt(script: seq<Received>, k: int) {
    && 0 <= k < |script| && (script[k].Eof? || script[k].RecvError?)
    && forall j :: 0 <= j < k ==> GoesOn(script[j])
  }

  /** Delivered are the bytes of all answers before the first that ends the loop. */
  lemma {:induction false} DeliveredIs(script: seq<Received>, k: nat)
    requires k <= |script| && (forall j :: 0 <= j < k ==> GoesOn(script[j])) && (k < |script| ==> !GoesOn(script[k]))
    ensures Delivered(script) ==
        Parsing.Join(seq(k, j requires 0 <= j < k => if script[j].Data? then script[j].bytes else ""))
    decreases k
  {
    var bytes := seq(k, j requires 0 <= j < k => if script[j].Data? then script[j].bytes else "");
    if k > 0 {
      DeliveredIs(script[1..], k - 1);
      assert bytes[1..] ==
        seq(k - 1, j requires 0 <= j < k - 1 => if script[1..][j].Data? then script[1..][j].bytes else "");
    }
  }

  /** The buffer may cut the stream further, but the callback sees every byte once and in order. */
  lemma {:induction false} PiecesDeliver(script: seq<Received>, room: nat)
    requires room > 0
    ensures Parsing.Join(Pieces(script, room)) == Delivered(script) && NoEmpty(Pieces(script, room))
    decreases |script|, if script != [] && script[0].Data? then |script[0].bytes| else 0
  {
    if script != [] {
      match script[0] {
        case Data(bytes) =>
          if bytes == "" {
            PiecesDeliver(script[1..], room);
          } else if |bytes| <= room {
            PiecesDeliver(script[1..], room);
          } else {
            var script' := [Data(bytes[room..])] + script[1..];
            assert script'[1..] == script[1..];
            PiecesDeliver(script', room);
            assert bytes[..room] + (bytes[room..] + Delivered(script[1..])) == bytes + Delivered(script[1..]);
          }
        case RecvInterrupted => PiecesDeliver(script[1..], room);
        case _ =>
      }
    }
  }

  /** No piece is larger than the room. */
  lemma {:induction false} PiecesFit(script: seq<Received>, room: nat)
    requires room > 0
    ensures forall i :: 0 <= i < |Pieces(script, room)| ==> |Pieces(script, room)[i]| <= room
    decreases |script|, if script != [] && script[0].Data? then |script[0].bytes| else 0
  {
    if script != [] {
      match script[0] {
        case Data(bytes) =>
          if bytes == "" || |bytes| <= room {
            PiecesFit(script[1..], room);
          } else {
            var script' := [Data(bytes[room..])] + script[1..];
            PiecesFit(script', room);
          }
        case RecvInterrupted => PiecesFit(script[1..], room);
        case _ =>
      }
    }
  }

  class Connection {
    const readBuf: Buffer
    const writeBuf: Buffer
    const parser: HttpParser
    var state: State
    var open: bool
    var sendfileOp: Option<SendfileOp>
    var keepAlive: bool
    var submitted: seq<HttpRequest>
    var rejected: seq<string>

    /** Kernel side: bytes accepted from this connection, and file descriptors it closed. */
    ghost var wire: string
    ghost var closedFds: seq<int>

    ghost predicate Valid()
      reads this, readBuf, writeBuf
    {
      && readBuf != writeBuf && readBuf.data != writeBuf.data
      && readBuf.Valid() && writeBuf.Valid()
      && readBuf.Capacity() >= 1 && writeBuf.Capacity() >= 1
    }

    ghost function SenderView(): Sender
      requires Valid()
      reads this, readBuf, writeBuf, writeBuf.data
    {
      Sender(state, open, writeBuf.Readable(), sendfileOp, keepAlive, wire, closedFds)
    }

    function SessionView(): Session
      reads this, parser
    {
      Session(parser.View(), submitted, rejected, keepAlive)
    }

    /** The read buffer as the callback leaves it: empty, with all its room. */
    ghost predicate Clean()
      requires Valid()
      reads this, readBuf, writeBuf, readBuf.data
    {
      readBuf.Readable() == "" && readBuf.WritableBytes() == readBuf.Capacity()
    }

    constructor (reading: Parsing.Reading)
      ensures Valid() && fresh(readBuf) && fresh(writeBuf) && fresh(readBuf.data) && fresh(writeBuf.data)
      ensures fresh(parser)
      ensures SenderView() == NEW_SENDER && Clean()
      ensures SessionView() == Session(Parsing.Fresh(Parsing.MAX_BODY_SIZE), [], [], true)
      ensures parser.reading == reading && readBuf.Capacity() == 16384 == writeBuf.Capacity()
    {
      readBuf := new Buffer(DEFAULT_CAPACITY);
      writeBuf := new Buffer(DEFAULT_CAPACITY);
      parser := new HttpParser(reading);
      state, open, sendfileOp, keepAlive, submitted, rejected := State.Reading, true, None, true, [], [];
      wire, closedFds := "", [];
    }

    lemma NewIsOpen()
      requires Valid() && SenderView() == NEW_SENDER
      ensures open && state == State.Reading && readBuf.Capacity() > 0
    {
    }

    lemma Fields()
      ensures SessionView() == Session(parser.View(), submitted, rejected, keepAlive)
      ensures readBuf.Capacity() == readBuf.data.Length
    {
    }

    // ---- Closing ----------------------------------------------------------

    /** Resetting the optional transfer runs its destructor. */
    method ResetSendfile()
      requires Valid()
      modifies this`sendfileOp, this`closedFds
      ensures Valid() && SenderView() == DropOp(old(SenderView()))
    {
      if sendfileOp.Some? && sendfileOp.value.fd >= 0 {
        closedFds := closedFds + [sendfileOp.value.fd];
      }
      sendfileOp := None;
    }

    method OnClosed()
      requires Valid()
      modifies this`state, this`open, this`sendfileOp, this`closedFds
      ensures Valid() && SenderView() == WritePath.OnClosed(old(SenderView()))
    {
      if state == Closed { return; }
      state := Closed;
      ResetSendfile();
      open := false;
    }

    // ---- Write path -------------------------------------------------------

    method EnqueueWrite(data: string)
      requires Valid()
      modifies this`state, writeBuf, writeBuf.data
      ensures Valid() && SenderView() == WritePath.EnqueueWrite(old(SenderView()), data)
      ensures writeBuf.data == old(writeBuf.data) || fresh(writeBuf.data)
    {
      writeBuf.Append(data);
      state := Writing;
    }

    method BeginSendfile(fd: int, size: nat)
      requires Valid()
      modifies this`state, this`sendfileOp, this`closedFds
      ensures Valid() && SenderView() == WritePath.BeginSendfile(old(SenderView()), fd, size)
    {
      ResetSendfile();
      sendfileOp := Some(SendfileOp(fd, 0, size));
      state := Writing;
    }

    /** Phase 1 of the flush: the write buffer. */
    method SendHead(answers: seq<Answer>) returns (rest: seq<Answer>, progress: Progress)
      requires Valid()
      modifies this`state, this`open, this`sendfileOp, this`closedFds, this`wire, writeBuf`readPos
      ensures Valid()
      ensures (SenderView(), rest, progress) == SendLoop(old(SenderView()), answers)
    {
      rest := answers;
      while writeBuf.Readable() != ""
        invariant Valid()
        invariant SendLoop(SenderView(), rest) == SendLoop(old(SenderView()), answers)
        decreases |rest|, |writeBuf.Readable()|
      {
        var s := writeBuf.Readable();
        if !open || (rest != [] && rest[0] == Fatal) {
          rest := Rest(rest);
          OnClosed();
          return rest, Dead;
        } else if rest == [] || rest[0] == WouldBlock {
          return Rest(rest), Blocked;
        } else if rest[0].Sent? {
          var n := Min(rest[0].n, |s|);
          wire := wire + s[..n];
          writeBuf.Consume(n);
        }
        rest := Rest(rest);
      }
      return rest, Going;
    }

    /** One sendfile call that takes up to n bytes. */
    method SendChunk(n: nat, files: Files) returns (taken: nat)
      requires Valid() && sendfileOp.Some?
      modifies this`sendfileOp, this`wire
      ensures Valid() && SenderView() == FileChunk(old(SenderView()), n, files)
      ensures taken == 0 <==> SenderView() == old(SenderView())
      ensures sendfileOp.Some? && sendfileOp.value.remaining + taken == old(sendfileOp.value.remaining)
    {
      var op := sendfileOp.value;
      taken := Min(n, |Unsent(op, files)|);
      if taken > 0 {
        wire := wire + Unsent(op, files)[..taken];
        sendfileOp := Some(SendfileOp(op.fd, op.offset + taken, op.remaining - taken));
      }
    }

    /** Phase 2 of the flush: the file. */
    method SendFile(answers: seq<Answer>, files: Files) returns (rest: seq<Answer>, progress: Progress)
      requires Valid()
      modifies this`state, this`open, this`sendfileOp, this`closedFds, this`wire
      ensures Valid()
      ensures (SenderView(), rest, progress) == FileLoop(old(SenderView()), answers, files)
    {
      hide FileChunk, Unsent;
      rest := answers;
      while sendfileOp.Some? && sendfileOp.value.Active()
        invariant Valid()
        invariant FileLoop(SenderView(), rest, files) == FileLoop(old(SenderView()), answers, files)
        decreases |rest|, if sendfileOp.Some? then 1 + sendfileOp.value.remaining else 0
      {
        if !open || (rest != [] && rest[0] == Fatal) {
          rest := Rest(rest);
          OnClosed();
          return rest, Dead;
        } else if rest == [] || rest[0] == WouldBlock {
          return Rest(rest), Blocked;
        } else if rest[0].Sent? {
          var taken := SendChunk(rest[0].n, files);
          if taken == 0 { return Rest(rest), Going; }
        }
        rest := Rest(rest);
      }
      return rest, Going;
    }

    /** Sends what the kernel takes; the result is what is still owed. */
    method FlushWrite(answers: seq<Answer>, files: Files) returns (owed: nat)
      requires Valid()
      modifies this`state, this`open, this`sendfileOp, this`closedFds, this`wire, writeBuf`readPos
      ensures Valid() && (SenderView(), owed) == Flush(old(SenderView()), answers, files)
    {
      hide SendLoop, FileLoop, Decide;
      var rest, progress := SendHead(answers);
      if progress == Dead { return 0; }
      if progress == Going {
        rest, progress := SendFile(rest, files);
        if progress == Dead { return 0; }
      }
      owed := Settle();
    }

    /** The end of the flush: with nothing left to send, the transfer goes and the connection reads or winds down. */
    method Settle() returns (owed: nat)
      requires Valid()
      modifies this`state, this`sendfileOp, this`closedFds
      ensures Valid() && (SenderView(), owed) == Decide(old(SenderView()))
    {
      if writeBuf.Readable() == "" && (sendfileOp.None? || !sendfileOp.value.Active()) {
        ResetSendfile();
        state := if keepAlive then State.Reading else Closing;
      }
      return |writeBuf.Readable()| + if sendfileOp.Some? then sendfileOp.value.remaining else 0;
    }

    // ---- Read path --------------------------------------------------------

    /** The read callback. */
    method OnRead()
      requires Valid()
      modifies this`keepAlive, this`submitted, this`rejected, parser, readBuf`readPos, readBuf`writePos
      ensures Valid() && readBuf.Readable() == "" && readBuf.WritableBytes() == readBuf.Capacity()
      ensures SessionView() == Sessions.OnRead(parser.reading, old(SessionView()), old(readBuf.Readable()))
    {
      hide Parsing.Feed, HttpRequest.WantsKeepAlive;
      var bytes := readBuf.Readable();
      var result := parser.Feed(bytes);
      readBuf.ConsumeAll();
      if result == Parsing.Failed {
        rejected := rejected + [parser.error];
        keepAlive := false;
        return;
      }
      if result == Parsing.Done {
        var req := parser.request;
        parser.Reset();
        keepAlive := req.WantsKeepAlive();
        submitted := submitted + [req];
      }
    }

    /** One successful recv: the bytes land behind what is unread, and the callback runs. */
    method Receive(bytes: string)
      requires Valid() && |bytes| <= readBuf.WritableBytes()
      modifies this`keepAlive, this`submitted, this`rejected, parser, readBuf`readPos, readBuf`writePos, readBuf.data
      ensures Valid() && readBuf.Readable() == "" && readBuf.WritableBytes() == readBuf.Capacity()
      ensures SessionView() == Sessions.OnRead(parser.reading, old(SessionView()), old(readBuf.Readable()) + bytes)
    {
      hide Sessions.OnRead, Parsing.Feed;
      ghost var before, session := readBuf.Readable(), SessionView();
      readBuf.CopyIn(bytes);
      assert readBuf.Readable() == before;
      readBuf.CommitWrite(|bytes|);
      assert readBuf.Readable() == before + bytes;
      assert SessionView() == session;
      OnRead();
    }

    /** A full read buffer is compacted; when that recovers nothing the connection is closed. */
    method MakeRoom() returns (ok: bool)
      requires Valid()
      modifies this`state, this`open, this`sendfileOp, this`closedFds, readBuf`readPos, readBuf`writePos, readBuf.data
      ensures Valid() && ok == !old(readBuf.WritableBytes() == 0 && readBuf.readPos == 0)
      ensures ok ==> state == old(state) && open == old(open) && readBuf.WritableBytes() > 0
      ensures !ok ==> state == Closed
      ensures old(Clean()) ==> Clean()
    {
      if readBuf.WritableBytes() == 0 {
        var recovered := readBuf.Compact();
        if recovered == 0 {
          OnClosed();
          return false;
        }
      }
      return true;
    }

    /** One turn of the reading loop. On a closed socket recv fails. */
    method ReadOnce(script: seq<Received>) returns (rest: seq<Received>, turn: Turn)
      requires Valid()
      modifies this, parser, readBuf, readBuf.data
      ensures Valid() && readBuf.data == old(readBuf.data)
      ensures state == (if turn == Closes then Closed else old(state))
      ensures turn == Again ==> |rest| < |script| || (|rest| == |script| && FirstLength(rest) < FirstLength(script))
      ensures old(readBuf.WritableBytes() == 0 && readBuf.readPos == 0) ==> turn == Closes
      ensures turn != Closes ==> open == old(open)
      ensures !old(open) ==> turn == Closes && SessionView() == old(SessionView()) && (old(Clean()) ==> Clean())
      ensures old(Clean() && open) ==>
                && Clean() && TurnOf(script, readBuf.Capacity()) == (rest, turn)
                && SessionView() == (if turn == Again && FirstLength(script) > 0
                     then Sessions.OnRead(parser.reading, old(SessionView()), FirstPiece(script, readBuf.Capacity()))
                     else old(SessionView()))
    {
      hide Sessions.OnRead, OnReads, Pieces, ReadEndsClosed, Parsing.Feed;
      var ok := MakeRoom();
      if !ok { return script, Closes; }
      if !open || (script != [] && (script[0] == Eof || script[0] == RecvError)) {
        OnClosed();
        return script, Closes;
      }
      if script == [] || script[0] == RecvWouldBlock { return script, Stops; }
      if FirstLength(script) == 0 { return script[1..], Again; }
      ghost var piece := FirstPiece(script, readBuf.WritableBytes());
      assert readBuf.Readable() == "" ==> readBuf.Readable() + piece == piece;
      rest := ReceiveFirst(script);
      return rest, Again;
    }

    /** recv takes as much of its next answer as the read buffer has room for. */
    method ReceiveFirst(script: seq<Received>) returns (rest: seq<Received>)
      requires Valid() && FirstLength(script) > 0 && readBuf.WritableBytes() > 0
      modifies this`keepAlive, this`submitted, this`rejected, parser, readBuf`readPos, readBuf`writePos, readBuf.data
      ensures Valid() && Clean()
      ensures rest == Remaining(script, Min(FirstLength(script), old(readBuf.WritableBytes())))
      ensures SessionView() == Sessions.OnRead(parser.reading, old(SessionView()),
                                 old(readBuf.Readable()) + FirstPiece(script, old(readBuf.WritableBytes())))
    {
      hide Sessions.OnRead, Parsing.Feed;
      var n := Min(FirstLength(script), readBuf.WritableBytes());
      Receive(script[0].bytes[..n]);
      return Remaining(script, n);
    }

    /**
     * Reads until the kernel has nothing more. Started with a clean buffer, as the constructor and every
     * earlier call leave it, the buffer never fills up: the callback sees every delivered byte, and only
     * end of stream or an error closes the connection. A closed connection reads nothing.
     */
    method OnReadable(script: seq<Received>) returns (stillOpen: bool)
      requires Valid()
      modifies this, parser, readBuf, readBuf.data
      ensures Valid() && readBuf.data == old(readBuf.data)
      ensures state == (if stillOpen then old(state) else Closed)
      ensures old(readBuf.WritableBytes() == 0 && readBuf.readPos == 0) ==> !stillOpen
      ensures stillOpen ==> open && old(open)
      ensures old(Clean()) ==> Clean()
      ensures !old(open) ==> SessionView() == old(SessionView())
      ensures old(Clean() && open) ==>
                && stillOpen == !ReadEndsClosed(script)
                && SessionView() == OnReads(parser.reading, old(SessionView()), Pieces(script, readBuf.Capacity()))
    {
      hide Sessions.OnRead, OnReads, Pieces, ReadEndsClosed, TurnOf;
      ghost var clean, room := Clean(), readBuf.Capacity();
      ghost var full := readBuf.WritableBytes() == 0 && readBuf.readPos == 0;
      var rest := script;
      while true
        invariant Valid() && readBuf.data == old(readBuf.data) && state == old(state) && open == old(open)
        invariant full ==> readBuf.WritableBytes() == 0 && readBuf.readPos == 0
        invariant clean ==> Clean()
        invariant !open ==> SessionView() == old(SessionView())
        invariant clean && open ==>
                    && ReadEndsClosed(rest) == ReadEndsClosed(script)
                    && OnReads(parser.reading, SessionView(), Pieces(rest, room)) ==
                         OnReads(parser.reading, old(SessionView()), Pieces(script, room))
        decreases |rest|, FirstLength(rest)
      {
        if clean && open { TurnReads(parser.reading, SessionView(), rest, room); }
        var turn;
        rest, turn := ReadOnce(rest);
        if turn != Again { return turn == Stops; }
      }
    }

    /** One call of on_readable for each wakeup, as long as the stream stays open up to the last. */
    method ReadAll(calls: seq<seq<Received>>) returns (stillOpen: bool)
      requires Valid() && Clean() && open
      requires forall k :: 0 <= k < |calls| - 1 ==> !ReadEndsClosed(calls[k])
      modifies this, parser, readBuf, readBuf.data
      ensures Valid() && Clean() && readBuf.data == old(readBuf.data)
      ensures stillOpen == (calls == [] || !ReadEndsClosed(calls[|calls| - 1]))
      ensures state == (if stillOpen then old(state) else Closed)
      ensures SessionView() == OnReads(parser.reading, old(SessionView()), AllPieces(calls, readBuf.Capacity()))
    {
      hide Sessions.OnRead, OnReads, Pieces, ReadEndsClosed;
      stillOpen := true;
      ghost var room := readBuf.Capacity();
      NoReads(parser.reading, SessionView());
      var k := 0;
      while k < |calls|
        invariant k <= |calls| && Valid() && Clean() && readBuf.data == old(readBuf.data)
        invariant stillOpen == (k == 0 || !ReadEndsClosed(calls[k - 1])) && (stillOpen ==> open)
        invariant state == (if stillOpen then old(state) else Closed)
        invariant SessionView() == OnReads(parser.reading, old(SessionView()), AllPieces(calls[..k], room))
      {
        assert stillOpen;
        AllPiecesSnoc(calls[..k], calls[k], room);
        OnReadsConcat(parser.reading, old(SessionView()), AllPieces(calls[..k], room), Pieces(calls[k], room));
        assert calls[..k + 1] == calls[..k] + [calls[k]];
        stillOpen := OnReadable(calls[k]);
        k := k + 1;
      }
      assert calls[..k] == calls;
    }
  }

  lemma NoReads(reading: Parsing.Reading, s: Session)
    ensures OnReads(reading, s, []) == s
  {
  }

  /** How one turn of the reading loop ends. */
  datatype Turn = Again | Stops | Closes

  function FirstLength(script: seq<Received>): nat {
    if script != [] && script[0].Data? then |script[0].bytes| else 0
  }

  function FirstPiece(script: seq<Received>, room: nat): string
    requires FirstLength(script) > 0
  {
    script[0].bytes[..Min(|script[0].bytes|, room)]
  }

  function TurnOf(script: seq<Received>, room: nat): (seq<Received>, Turn)
    requires room > 0
  {
    if script == [] || script[0] == RecvWouldBlock then (script, Stops)
    else if script[0] == Eof || script[0] == RecvError then (script, Closes)
    else if FirstLength(script) > 0 then (Remaining(script, Min(|script[0].bytes|, room)), Again)
    else (script[1..], Again)
  }

  /** The script after recv took n bytes of its first answer. */
  function Remaining(script: seq<Received>, n: nat): (rest: seq<Received>)
    requires script != [] && script[0].Data? && 0 < n <= |script[0].bytes|
    ensures |rest| < |script| || (|rest| == |script| && rest[0].Data? && |rest[0].bytes| < |script[0].bytes|)
    ensures ReadEndsClosed(rest) == ReadEndsClosed(script)
  {
    if n < |script[0].bytes| then [Data(script[0].bytes[n..])] + script[1..] else script[1..]
  }

  lemma PiecesStep(script: seq<Received>, room: nat)
    requires room > 0 && script != [] && script[0].Data? && script[0].bytes != ""
    ensures var n := Min(|script[0].bytes|, room);
            Pieces(script, room) == [script[0].bytes[..n]] + Pieces(Remaining(script, n), room)
  {
    var bytes := script[0].bytes;
    if |bytes| <= room {
      assert bytes[..|bytes|] == bytes;
    }
  }

  /** One turn takes one piece off the front of what is still to be read. */
  lemma TurnReads(reading: Parsing.Reading, s: Session, script: seq<Received>, room: nat)
    requires room > 0
    ensures var (rest, turn) := TurnOf(script, room);
            var t := if turn == Again && FirstLength(script) > 0
                     then Sessions.OnRead(reading, s, FirstPiece(script, room)) else s;
            && (turn == Again ==> ReadEndsClosed(rest) == ReadEndsClosed(script))
            && (turn != Again ==> ReadEndsClosed(script) == (turn == Closes) && OnReads(reading, t, []) == t)
            && OnReads(reading, t, if turn == Again then Pieces(rest, room) else []) ==
                OnReads(reading, s, Pieces(script, room))
  {
    hide Sessions.OnRead;
    if FirstLength(script) > 0 {
      PiecesStep(script, room);
      hide Pieces;
      var pieces := Pieces(script, room);
      assert pieces[1..] == Pieces(TurnOf(script, room).0, room);
    }
  }

  // ---- End to end ---------------------------------------------------------

  /** The pieces the callback sees over several calls of on_readable. */
  function AllPieces(calls: seq<seq<Received>>, room: nat): seq<string>
    requires room > 0
  {
    if calls == [] then [] else Pieces(calls[0], room) + AllPieces(calls[1..], room)
  }

  lemma {:induction false} AllPiecesConcat(a: seq<seq<Received>>, b: seq<seq<Received>>, room: nat)
    requires room > 0
    ensures AllPieces(a + b, room) == AllPieces(a, room) + AllPieces(b, room)
    decreases |a|
  {
    hide Pieces;
    if a == [] {
      assert a + b == b;
    } else {
      assert (a + b)[1..] == a[1..] + b;
      AllPiecesConcat(a[1..], b, room);
    }
  }

  lemma AllPiecesSnoc(calls: seq<seq<Received>>, call: seq<Received>, room: nat)
    requires room > 0
    ensures AllPieces(calls + [call], room) == AllPieces(calls, room) + Pieces(call, room)
  {
    hide Pieces;
    AllPiecesConcat(calls, [call], room);
    assert AllPieces([call], room) == Pieces(call, room) + AllPieces([], room);
  }

  function AllDelivered(calls: seq<seq<Received>>): string {
    if calls == [] then "" else Delivered(calls[0]) + AllDelivered(calls[1..])
  }

  lemma {:induction false} AllPiecesDeliver(calls: seq<seq<Received>>, room: nat)
    requires room > 0
    ensures Parsing.Join(AllPieces(calls, room)) == AllDelivered(calls) && NoEmpty(AllPieces(calls, room))
    decreases |calls|
  {
    if calls != [] {
      PiecesDeliver(calls[0], room);
      AllPiecesDeliver(calls[1..], room);
      JoinConcat(Pieces(calls[0], room), AllPieces(calls[1..], room));
    }
  }

  function EachPieces(deliveries: seq<seq<seq<Received>>>, room: nat): (cuts: seq<seq<string>>)
    requires room > 0
    ensures |cuts| == |deliveries|
    ensures forall i :: 0 <= i < |cuts| ==> cuts[i] == AllPieces(deliveries[i], room)
  {
    if deliveries == [] then [] else [AllPieces(deliveries[0], room)] + EachPieces(deliveries[1..], room)
  }

  /**
   * From the socket to the workers: each message of a client that waits for its responses may arrive over
   * any number of wakeups, split by the network and by the read buffer in any way; what is submitted is
   * the requests of the messages, in order, and nothing is rejected.
   */
  lemma SegmentationIndependence(max: nat, room: nat, s: Session, messages: seq<string>,
      deliveries: seq<seq<seq<Received>>>)
    requires room > 0 && s.parser == Parsing.Fresh(max) && |deliveries| == |messages|
    requires forall i :: 0 <= i < |messages| ==> Message(max, messages[i]) && AllDelivered(deliveries[i]) == messages[i]
    ensures var t := OnReads(Parsing.AsDocumented, s, Concat(EachPieces(deliveries, room)));
            t.submitted == s.submitted + RequestsOf(max, messages) && t.rejected == s.rejected && t.parser == s.parser
  {
    hide Message, OnReads, Concat, RequestsOf, AllPieces, AllDelivered;
    var cuts := EachPieces(deliveries, room);
    forall i | 0 <= i < |messages| ensures Parsing.Join(cuts[i]) == messages[i] && NoEmpty(cuts[i]) {
      assert Message(max, messages[i]);
      AllPiecesDeliver(deliveries[i], room);
    }
    AwaitingClient(max, s, messages, cuts);
  }

  /** The wakeups of all messages, one after the other. */
  function Flatten(deliveries: seq<seq<seq<Received>>>): seq<seq<Received>> {
    if deliveries == [] then [] else deliveries[0] + Flatten(deliveries[1..])
  }

  lemma {:induction false} FlattenPieces(deliveries: seq<seq<seq<Received>>>, room: nat)
    requires room > 0
    ensures AllPieces(Flatten(deliveries), room) == Concat(EachPieces(deliveries, room))
    decreases |deliveries|
  {
    hide AllPieces;
    if deliveries == [] {
      NoPieces(room);
    } else {
      AllPiecesConcat(deliveries[0], Flatten(deliveries[1..]), room);
      FlattenPieces(deliveries[1..], room);
    }
  }

  lemma NoPieces(room: nat)
    requires room > 0
    ensures AllPieces([], room) == []
  {
  }

  /**
   * The object, from its construction on: a client that waits for its responses sends its messages over any
   * number of wakeups, cut up in any way, perhaps ending the stream after the last byte. The connection
   * has then submitted the requests of the messages, in order, and rejected nothing.
   */
  method ServeClient(deliveries: seq<seq<seq<Received>>>, ghost messages: seq<string>)
    returns (c: Connection, stillOpen: bool)
    requires |deliveries| == |messages|
    requires forall i :: 0 <= i < |messages| ==>
               Message(Parsing.MAX_BODY_SIZE, messages[i]) && AllDelivered(deliveries[i]) == messages[i]
    requires forall k :: 0 <= k < |Flatten(deliveries)| - 1 ==> !ReadEndsClosed(Flatten(deliveries)[k])
    ensures fresh(c) && c.Valid() && c.Clean()
    ensures c.submitted == RequestsOf(Parsing.MAX_BODY_SIZE, messages) && c.rejected == []
    ensures stillOpen == (Flatten(deliveries) == [] || !ReadEndsClosed(Flatten(deliveries)[|Flatten(deliveries)| - 1]))
    ensures c.state == if stillOpen then State.Reading else Closed
  {
    hide *;
    c := new Connection(Parsing.AsDocumented);
    ghost var s, room := c.SessionView(), c.readBuf.Capacity();
    c.NewIsOpen();
    c.Fields();
    stillOpen := c.ReadAll(Flatten(deliveries));
    c.Fields();
    FlattenPieces(deliveries, room);
    SegmentationIndependence(Parsing.MAX_BODY_SIZE, room, s, messages, deliveries);
    assert [] + RequestsOf(Parsing.MAX_BODY_SIZE, messages) == RequestsOf(Parsing.MAX_BODY_SIZE, messages);
  }

  /**
   * The same for a client whose last message is malformed: after the requests before it, exactly one rejection,
   * with the error text of one feed of that message, and the connection is not to be kept alive.
   */
  lemma RejectionIndependence(max: nat, room: nat, s: Session, messages: seq<string>,
                              deliveries: seq<seq<seq<Received>>>, bad: string, last: seq<seq<Received>>)
    requires room > 0 && s.parser == Parsing.Fresh(max) && |deliveries| == |messages|
    requires forall i :: 0 <= i < |messages| ==> Message(max, messages[i]) && AllDelivered(deliveries[i]) == messages[i]
    requires Malformed(max, bad) && AllDelivered(last) == bad
    ensures var t := OnReads(Parsing.AsDocumented, s, Concat(EachPieces(deliveries, room)) + AllPieces(last, room));
            && t.submitted == s.submitted + RequestsOf(max, messages)
            && t.rejected == s.rejected + [RefusalOf(max, bad)] && !t.keepAlive
  {
    hide Message, OnReads, Concat, RequestsOf, AllPieces, AllDelivered, EachPieces, Malformed;
    SegmentationIndependence(max, room, s, messages, deliveries);
    AllPiecesDeliver(last, room);
    var front := Concat(EachPieces(deliveries, room));
    OnReadsConcat(Parsing.AsDocumented, s, front, AllPieces(last, room));
    MalformedMessage(max, OnReads(Parsing.AsDocumented, s, front), bad, AllPieces(last, room));
  }

  /** On the object, from its construction on. */
  method RefuseClient(deliveries: seq<seq<seq<Received>>>, last: seq<seq<Received>>,
                      ghost messages: seq<string>, ghost bad: string)
    returns (c: Connection, stillOpen: bool)
    requires |deliveries| == |messages|
    requires forall i :: 0 <= i < |messages| ==>
               Message(Parsing.MAX_BODY_SIZE, messages[i]) && AllDelivered(deliveries[i]) == messages[i]
    requires Malformed(Parsing.MAX_BODY_SIZE, bad) && AllDelivered(last) == bad
    requires forall k :: 0 <= k < |Flatten(deliveries) + last| - 1 ==> !ReadEndsClosed((Flatten(deliveries) + last)[k])
    ensures fresh(c) && c.submitted == RequestsOf(Parsing.MAX_BODY_SIZE, messages)
    ensures c.rejected == [RefusalOf(Parsing.MAX_BODY_SIZE, bad)] && !c.keepAlive
  {
    hide *;
    c := new Connection(Parsing.AsDocumented);
    ghost var s, room := c.SessionView(), c.readBuf.Capacity();
    c.NewIsOpen();
    c.Fields();
    stillOpen := c.ReadAll(Flatten(deliveries) + last);
    c.Fields();
    FlattenPieces(deliveries, room);
    AllPiecesConcat(Flatten(deliveries), last, room);
    RejectionIndependence(Parsing.MAX_BODY_SIZE, room, s, messages, deliveries, bad, last);
    ghost var requests := RequestsOf(Parsing.MAX_BODY_SIZE, messages);
    ghost var refusal := [RefusalOf(Parsing.MAX_BODY_SIZE, bad)];
    assert [] + requests == requests && [] + refusal == refusal;
  }
}
