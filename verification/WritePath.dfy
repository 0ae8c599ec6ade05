/**
 * The sending side of a connection as a value: unsent head bytes, an unfinished file transfer, and
 * what the kernel has accepted so far. The kernel answers every system call as it likes.
 */
module WritePath {
  import opened Wrappers

  datatype State = Reading | Writing | Closing | Closed

  /** Answers of send and sendfile; Sent(n) is cut to what was offered. */
  datatype Answer = Sent(n: nat) | WouldBlock | Interrupted | Fatal

  datatype SendfileOp = SendfileOp(fd: int, offset: nat, remaining: nat)
  {
    predicate Active() { fd >= 0 && remaining > 0 }
  }

  /** What each open file descriptor reads as. */
  type Files = int -> string

  datatype Sender = Sender(
    state: State,
    open: bool,
    out: string,
    op: Option<SendfileOp>,
    keepAlive: bool,
    wire: string,
    closedFds: seq<int>)
  {
    predicate Alive() { state != Closed }
  }

  /** A connection that was just accepted. */
  const NEW_SENDER := Sender(State.Reading, true, "", None, true, "", [])

  function Min(a: nat, b: nat): nat { if a < b then a else b }

  // ---- Operations ---------------------------------------------------------

  /** Destroying the transfer closes its descriptor. */
  function DropOp(s: Sender): Sender {
    match s.op
    case None => s
    case Some(op) => s.(op := None, closedFds := if op.fd >= 0 then s.closedFds + [op.fd] else s.closedFds)
  }

  function OnClosed(s: Sender): Sender {
    if s.state == Closed then s else DropOp(s).(state := Closed, open := false)
  }

  function EnqueueWrite(s: Sender, data: string): Sender {
    s.(out := s.out + data, state := Writing)
  }

  function BeginSendfile(s: Sender, fd: int, size: nat): Sender {
    DropOp(s).(op := Some(SendfileOp(fd, 0, size)), state := Writing)
  }

  /** How a phase of flush_write ended. */
  datatype Progress = Going | Blocked | Dead

  /** The next answer; a closed socket answers EBADF, and a kernel out of answers blocks. */
  function Next(s: Sender, script: seq<Answer>): Answer {
    if !s.open then Fatal else if script == [] then WouldBlock else script[0]
  }

  function Rest(script: seq<Answer>): seq<Answer> {
    if script == [] then [] else script[1..]
  }

  function SendLoop(s: Sender, script: seq<Answer>): (Sender, seq<Answer>, Progress)
    decreases |script|
  {
    if s.out == "" then (s, script, Going)
    else match Next(s, script)
      case Sent(n) =>
        var k := Min(n, |s.out|);
        SendLoop(s.(out := s.out[k..], wire := s.wire + s.out[..k]), Rest(script))
      case WouldBlock => (s, Rest(script), Blocked)
      case Interrupted => SendLoop(s, Rest(script))
      case Fatal => (OnClosed(s), Rest(script), Dead)
  }

  /** The bytes of the file the transfer has yet to send. */
  function Unsent(op: SendfileOp, files: Files): string {
    var content := files(op.fd);
    if op.offset >= |content| then "" else content[op.offset..Min(op.offset + op.remaining, |content|)]
  }

  /** sendfile takes up to n bytes of the file and moves the offset. */
  function FileChunk(s: Sender, n: nat, files: Files): Sender
    requires s.op.Some?
  {
    var op := s.op.value;
    var chunk := Unsent(op, files)[..Min(n, |Unsent(op, files)|)];
    if chunk == "" then s
    else s.(op := Some(SendfileOp(op.fd, op.offset + |chunk|, op.remaining - |chunk|)), wire := s.wire + chunk)
  }

  function FileLoop(s: Sender, script: seq<Answer>, files: Files): (Sender, seq<Answer>, Progress)
    decreases |script|
  {
    if s.op.None? || !s.op.value.Active() then (s, script, Going)
    else match Next(s, script)
      case Sent(n) =>
        var t := FileChunk(s, n, files);
        if t == s then (s, Rest(script), Going) else FileLoop(t, Rest(script), files)
      case WouldBlock => (s, Rest(script), Blocked)
      case Interrupted => FileLoop(s, Rest(script), files)
      case Fatal => (OnClosed(s), Rest(script), Dead)
  }

  /** The decision at the end of flush_write and its return value. */
  function Decide(s: Sender): (Sender, nat) {
    var t := if s.out == "" && (s.op.None? || !s.op.value.Active())
             then DropOp(s).(state := if s.keepAlive then Reading else Closing)
             else s;
    (t, |t.out| + if t.op.Some? then t.op.value.remaining else 0)
  }

  function Flush(s: Sender, script: seq<Answer>, files: Files): (Sender, nat) {
    var (t, rest, progress) := SendLoop(s, script);
    match progress
    case Dead => (t, 0)
    case Blocked => Decide(t)
    case Going =>
      var (u, _, progress') := FileLoop(t, rest, files);
      if progress' == Dead then (u, 0) else Decide(u)
  }

  // ---- Wire order ---------------------------------------------------------

  function FileTail(s: Sender, files: Files): string {
    if s.op.Some? && s.op.value.fd >= 0 then Unsent(s.op.value, files) else ""
  }

  /** What the peer has received or will receive: wire, head, file. */
  function Total(s: Sender, files: Files): string { s.wire + s.out + FileTail(s, files) }

  /** The file still holds all the bytes the transfer promises. */
  predicate FileComplete(s: Sender, files: Files) {
    s.op.Some? && s.op.value.fd >= 0 ==> s.op.value.offset + s.op.value.remaining <= |files(s.op.value.fd)|
  }

  function Owed(s: Sender): nat { |s.out| + if s.op.Some? then s.op.value.remaining else 0 }

  /** An open sender: alive, with a transfer (if any) that owns a descriptor. */
  predicate Ok(s: Sender) {
    s.Alive() && s.open && (s.op.Some? ==> s.op.value.fd >= 0)
  }

  /** The same file, with the same number of bytes sent and to send together. */
  predicate SameFile(a: SendfileOp, b: SendfileOp) {
    a.fd == b.fd && a.offset + a.remaining == b.offset + b.remaining
  }

  /** What a phase of the flush may do to an open sender. */
  ghost predicate Sends(s: Sender, t: Sender, files: Files) {
    && s.wire <= t.wire <= Total(s, files)
    && t.keepAlive == s.keepAlive
    && (t.Alive() ==>
          && Ok(t) && Total(t, files) == Total(s, files) && t.closedFds == s.closedFds && t.state == s.state
          && t.op.Some? == s.op.Some?
          && (s.op.Some? ==> SameFile(s.op.value, t.op.value)))
    && (!t.Alive() ==> !t.open && t.op.None? && t.closedFds == DropOp(s).closedFds)
  }

  lemma SendsTrans(s: Sender, t: Sender, u: Sender, files: Files)
    requires Ok(s) && Sends(s, t, files) && t.Alive() && Sends(t, u, files)
    ensures Sends(s, u, files)
  {
  }

  lemma SendsSelf(s: Sender, files: Files)
    requires Ok(s)
    ensures Sends(s, s, files)
  {
  }

  lemma SendsDead(s: Sender, files: Files)
    requires Ok(s)
    ensures Sends(s, OnClosed(s), files)
  {
  }

  lemma {:induction false} SendLoopSends(s: Sender, script: seq<Answer>, files: Files)
    requires Ok(s)
    ensures var (t, rest, progress) := SendLoop(s, script);
            && Sends(s, t, files)
            && (progress == Dead <==> !t.Alive())
            && (progress == Going ==> t.out == "")
            && (t.Alive() ==> t.op == s.op)
    decreases |script|
  {
    if s.out == "" {
      SendsSelf(s, files);
    } else {
      match Next(s, script) {
        case Sent(n) =>
          var k := Min(n, |s.out|);
          var t := s.(out := s.out[k..], wire := s.wire + s.out[..k]);
          assert t.wire + t.out == s.wire + s.out;
          SendLoopSends(t, Rest(script), files);
          SendsTrans(s, t, SendLoop(t, Rest(script)).0, files);
        case WouldBlock => SendsSelf(s, files);
        case Interrupted => SendLoopSends(s, Rest(script), files);
        case Fatal => SendsDead(s, files);
      }
    }
  }

  lemma ChunkSplits(op: SendfileOp, k: nat, files: Files)
    requires k <= |Unsent(op, files)|
    ensures k <= op.remaining
    ensures Unsent(op, files)[..k] + Unsent(SendfileOp(op.fd, op.offset + k, op.remaining - k), files) ==
        Unsent(op, files)
  {
  }

  lemma FileChunkSends(s: Sender, n: nat, files: Files)
    requires Ok(s) && s.out == "" && s.op.Some? && s.op.value.Active()
    ensures Sends(s, FileChunk(s, n, files), files) && Ok(FileChunk(s, n, files)) && FileChunk(s, n, files).out == s.out
  {
    hide Sends, Total, FileTail, Unsent;
    var t := FileChunk(s, n, files);
    if t == s {
      SendsSelf(s, files);
    } else {
      var all := Unsent(s.op.value, files);
      var k := Min(n, |all|);
      ChunkSplits(s.op.value, k, files);
      ChunkMoves(s, t, all[..k], files);
    }
  }

  /** Bytes go from the front of the file to the end of the wire. */
  lemma ChunkMoves(s: Sender, t: Sender, chunk: string, files: Files)
    requires Ok(s) && s.out == "" && s.op.Some? && |chunk| <= s.op.value.remaining
    requires t == s.(op := t.op, wire := s.wire + chunk)
    requires t.op == Some(SendfileOp(s.op.value.fd, s.op.value.offset + |chunk|, s.op.value.remaining - |chunk|))
    requires chunk + Unsent(t.op.value, files) == Unsent(s.op.value, files)
    ensures Sends(s, t, files) && Ok(t) && t.out == s.out
  {
    hide Unsent, DropOp;
    var rest := Unsent(t.op.value, files);
    assert s.wire + s.out == s.wire && t.wire + t.out == t.wire;
    assert (s.wire + chunk) + rest == s.wire + (chunk + rest);
  }

  lemma {:induction false} FileLoopSends(s: Sender, script: seq<Answer>, files: Files)
    requires Ok(s) && s.out == ""
    ensures var (t, rest, progress) := FileLoop(s, script, files);
            && Sends(s, t, files)
            && (progress == Dead <==> !t.Alive())
            && t.out == ""
    decreases |script|
  {
    hide FileChunk, Sends;
    if s.op.None? || !s.op.value.Active() {
      SendsSelf(s, files);
    } else {
      match Next(s, script) {
        case Sent(n) =>
          var t := FileChunk(s, n, files);
          FileChunkSends(s, n, files);
          if t == s {
            SendsSelf(s, files);
          } else {
            FileLoopSends(t, Rest(script), files);
            SendsTrans(s, t, FileLoop(t, Rest(script), files).0, files);
          }
        case WouldBlock => SendsSelf(s, files);
        case Interrupted => FileLoopSends(s, Rest(script), files);
        case Fatal => SendsDead(s, files);
      }
    }
  }

  /** What every flush leaves of what was promised: nothing lost, the same file, and the descriptor still held. */
  ghost predicate StillSending(s: Sender, t: Sender, owed: nat, files: Files) {
    && Ok(t) && Total(t, files) == Total(s, files) && owed == Owed(t)
    && (FileComplete(s, files) ==> FileComplete(t, files) && |t.wire| + owed == |Total(s, files)|)
    && (t.op.Some? ==> s.op.Some? && SameFile(s.op.value, t.op.value))
    && (owed > 0 ==> t.op.Some? == s.op.Some? && t.state == s.state && t.closedFds == s.closedFds)
  }

  /** All of it was sent, and the transfer is gone with its descriptor closed. */
  ghost predicate AllSent(s: Sender, t: Sender, files: Files) {
    && t.wire == Total(s, files) && t.out == "" && t.op.None? && t.closedFds == DropOp(s).closedFds
    && t.state == if s.keepAlive then Reading else Closing
  }

  /**
   * One flush, whatever the kernel answers: the wire grows along head then file and never past them.
   * While the connection lives nothing is lost and the return value is what is still owed; a return of 0
   * then means all of it was sent, the transfer is gone and its descriptor closed. A fatal answer
   * closes the connection and the descriptor.
   */
  lemma FlushKeepsOrder(s: Sender, script: seq<Answer>, files: Files)
    requires Ok(s)
    ensures var (t, owed) := Flush(s, script, files);
            && s.wire <= t.wire <= Total(s, files) && t.keepAlive == s.keepAlive
            && (t.Alive() ==> StillSending(s, t, owed, files) && (owed == 0 ==> AllSent(s, t, files)))
            && (!t.Alive() ==> owed == 0 && !t.open && t.op.None? && t.closedFds == DropOp(s).closedFds)
  {
    SendLoopSends(s, script, files);
    var (t, rest, progress) := SendLoop(s, script);
    if progress == Going {
      FileLoopSends(t, rest, files);
      var u := FileLoop(t, rest, files).0;
      SendsTrans(s, t, u, files);
      if u.Alive() { DecideKeeps(u, files); }
    } else if progress == Blocked {
      DecideKeeps(t, files);
    }
  }

  lemma DecideKeeps(s: Sender, files: Files)
    requires Ok(s)
    ensures var (t, owed) := Decide(s);
            && Ok(t) && Total(t, files) == Total(s, files) && t.wire == s.wire && owed == Owed(t)
            && (owed == 0 ==> t.op.None? && t.out == "" && t.closedFds == DropOp(s).closedFds
                              && t.state == if s.keepAlive then Reading else Closing)
            && (owed > 0 ==> t == s)
            && (FileComplete(s, files) ==> |t.wire| + owed == |Total(s, files)|)
  {
  }

  // ---- Whole runs ---------------------------------------------------------

  /** Flush after flush, each with its own answers, as write events come in; with what the last one returned. */
  function FlushAll(s: Sender, scripts: seq<seq<Answer>>, files: Files): (Sender, nat)
    decreases |scripts|
  {
    if !s.Alive() then (s, 0)
    else if scripts == [] then (s, Owed(s))
    else FlushAll(Flush(s, scripts[0], files).0, scripts[1..], files)
  }

  /**
   * Flush after flush, whatever the kernel answers: the wire grows along head then file. While the
   * connection lives, sent and owed add up to the whole and the file's offset and remainder to its size;
   * a last return of 0 means all was sent and the descriptor closed. Otherwise the connection is dead and
   * the descriptor closed.
   */
  lemma {:induction false} FlushAllKeepsOrder(s: Sender, scripts: seq<seq<Answer>>, files: Files)
    requires Ok(s)
    ensures var (t, owed) := FlushAll(s, scripts, files);
            && s.wire <= t.wire <= Total(s, files) && t.keepAlive == s.keepAlive
            && (t.Alive() ==> StillSending(s, t, owed, files) && (owed == 0 && scripts != [] ==> AllSent(s, t, files)))
            && (!t.Alive() ==> owed == 0 && !t.open && t.op.None? && t.closedFds == DropOp(s).closedFds)
    decreases |scripts|
  {
    if scripts != [] {
      FlushKeepsOrder(s, scripts[0], files);
      hide Flush, FileTail;
      var t := Flush(s, scripts[0], files).0;
      if t.Alive() {
        FlushAllKeepsOrder(t, scripts[1..], files);
        hide FlushAll;
      }
    }
  }

  /** What drain_pending_writes does with one response before its first flush; fd < 0 stands for no file. */
  function Respond(s: Sender, head: string, fd: int, size: nat): Sender {
    var t := EnqueueWrite(s, head);
    if fd >= 0 then BeginSendfile(t, fd, size) else t
  }

  /** The descriptors closed by the time a response with this one is done with. */
  function ClosedWith(s: Sender, fd: int): seq<int> { if fd >= 0 then s.closedFds + [fd] else s.closedFds }

  /**
   * One response on an idle connection: over any number of flushes and any answers the peer sees a prefix
   * of what was on the wire before, then the head, then the file. While the connection lives, what was sent
   * and what is owed add up to that; a return of 0 means all of it was sent. Then, and when the connection
   * dies, the file's descriptor has been closed, once.
   */
  lemma OneResponseInFlight(s: Sender, head: string, fd: int, size: nat, scripts: seq<seq<Answer>>, files: Files)
    requires Ok(s) && s.out == "" && s.op.None?
    ensures var body := if fd >= 0 then files(fd)[..Min(size, |files(fd)|)] else "";
            var whole := s.wire + head + body;
            var (t, owed) := FlushAll(Respond(s, head, fd, size), scripts, files);
            && s.wire <= t.wire <= whole
            && (t.Alive() && t.out == "" && t.op.None? ==> t.wire == whole)
            && (t.Alive() && owed == 0 && scripts != [] ==>
                  t.wire == whole && t.out == "" && t.op.None? && t.closedFds == ClosedWith(s, fd)
                  && t.state == (if s.keepAlive then Reading else Closing))
            && (t.Alive() && (fd >= 0 ==> size <= |files(fd)|) ==> |t.wire| + owed == |whole|)
            && (t.Alive() && t.op.Some? ==> t.op.value.fd == fd && t.op.value.offset + t.op.value.remaining == size)
            && (t.Alive() && owed > 0 ==> t.closedFds == s.closedFds && t.state == Writing)
            && (!t.Alive() ==> t.op.None? && t.closedFds == ClosedWith(s, fd))
  {
    var r := Respond(s, head, fd, size);
    assert s.out + head == head;
    FlushAllKeepsOrder(r, scripts, files);
    assert Total(r, files) == s.wire + head + (if fd >= 0 then files(fd)[..Min(size, |files(fd)|)] else "");
    hide FlushAll;
  }

  // ---- Why one response in flight -----------------------------------------

  /** Queued bytes go where they belong, for every choice of bytes, exactly when no file bytes are outstanding. */
  lemma EnqueueAppendsIff(s: Sender, files: Files)
    requires Ok(s)
    ensures (forall data :: Total(EnqueueWrite(s, data), files) == Total(s, files) + data) <==> FileTail(s, files) == ""
  {
    var tail := FileTail(s, files);
    if tail == "" {
      forall data ensures Total(EnqueueWrite(s, data), files) == Total(s, files) + data {
        assert s.wire + (s.out + data) + "" == s.wire + s.out + "" + data;
      }
    } else {
      var c := if tail[0] == 'a' then 'b' else 'a';
      var front := s.wire + s.out;
      assert Total(EnqueueWrite(s, [c]), files) == front + [c] + tail;
      assert (front + [c] + tail)[|front|] == c;
      assert (front + tail + [c])[|front|] == tail[0];
    }
  }

  /** A new transfer keeps everything promised before exactly when the old one has nothing left. */
  lemma BeginSendfileKeepsIff(s: Sender, fd: int, size: nat, files: Files)
    requires Ok(s) && fd >= 0
    ensures Total(BeginSendfile(s, fd, size), files) == Total(s, files) + Unsent(SendfileOp(fd, 0, size), files)
            <==> FileTail(s, files) == ""
    ensures BeginSendfile(s, fd, size).state == Writing
  {
    var tail, body := FileTail(s, files), Unsent(SendfileOp(fd, 0, size), files);
    assert |Total(BeginSendfile(s, fd, size), files)| == |s.wire + s.out| + |body|;
    if tail == "" { assert s.wire + s.out + "" == s.wire + s.out; }
  }

  /** A flush of a connection that is already closed, with nothing buffered, brings it back from Closed. */
  lemma FlushRevivesClosed(s: Sender, script: seq<Answer>, files: Files)
    requires !s.Alive() && !s.open && s.op.None?
    ensures Flush(s, script, files).1 == 0
    ensures Flush(s, script, files).0.Alive() <==> s.out == ""
  {
  }
}
