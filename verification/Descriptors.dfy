/**
 * Who owns each file descriptor opened for a response, from the handler that opens it to the transfer
 * that closes it. Descriptors are numbered in the order they are opened, so a number stands for one
 * opening; the operating system's reuse of small numbers plays no part.
 */
module Descriptors {
  import opened Bags
  import opened Wrappers
  import opened WritePath
  import opened FlushFates

  type Bag = multiset<int>

  /** -1 stands for no descriptor. */
  function FdBag(fd: int): Bag { if fd >= 0 then multiset{fd} else multiset{} }

  datatype PendingWrite = PendingWrite(conn: nat, data: string, fd: int, size: nat)

  datatype World = World(
    issued: nat,
    workers: seq<int>,          // the descriptor of the response each worker is building
    pending: seq<PendingWrite>,
    conns: seq<Sender>,
    closedByDrain: Bag,         // closed because the connection was gone
    dropped: Bag,               // forgotten without being closed
    stopped: bool)

  function OpBag(s: Sender): Bag { if s.op.Some? then FdBag(s.op.value.fd) else multiset{} }

  /** The descriptors a connection holds or has closed. */
  function SenderBag(s: Sender): Bag { OpBag(s) + multiset(s.closedFds) }

  function ClosedBag(s: Sender): Bag { multiset(s.closedFds) }

  function PendingBag(p: PendingWrite): Bag { FdBag(p.fd) }

  /** In how many places a descriptor is: with workers, pending writes and transfers, closed, or dropped. */
  function Places(w: World, fd: nat): nat {
    Gather(w.workers, FdBag)[fd] + Gather(w.pending, PendingBag)[fd] + Gather(w.conns, SenderBag)[fd]
    + w.closedByDrain[fd] + w.dropped[fd]
  }

  // ---- A connection gains and loses nothing -------------------------------

  lemma DropOpKeeps(s: Sender)
    ensures SenderBag(DropOp(s)) == SenderBag(s)
  {
    if s.op.Some? && s.op.value.fd >= 0 {
      assert multiset(s.closedFds + [s.op.value.fd]) == multiset(s.closedFds) + multiset{s.op.value.fd};
    }
  }

  lemma OnClosedKeeps(s: Sender)
    ensures SenderBag(OnClosed(s)) == SenderBag(s)
  {
    DropOpKeeps(s);
  }

  lemma RespondAdds(s: Sender, head: string, fd: int, size: nat)
    ensures SenderBag(Respond(s, head, fd, size)) == SenderBag(s) + FdBag(fd)
  {
    var t := EnqueueWrite(s, head);
    if fd >= 0 {
      DropOpKeeps(t);
      var u := BeginSendfile(t, fd, size);
      assert SenderBag(u) == multiset(u.closedFds) + FdBag(fd);
    }
  }

  lemma FlushKeeps(s: Sender, script: seq<Answer>, files: Files)
    requires Ok(s)
    ensures SenderBag(Flush(s, script, files).0) == SenderBag(s)
  {
    hide Flush;
    DropOpKeeps(s);
    FlushKeepsOrder(s, script, files);
    FlushKeepsOp(s, script, files);
  }

  /** A flush that leaves bytes unsent leaves the transfer in place. */
  lemma FlushKeepsOp(s: Sender, script: seq<Answer>, files: Files)
    requires Ok(s)
    ensures var (t, owed) := Flush(s, script, files);
            t.Alive() && owed > 0 ==> OpBag(t) == OpBag(s)
  {
    SendLoopSends(s, script, files);
    var (t, rest, progress) := SendLoop(s, script);
    hide SendLoop;
    if progress == Going {
      FileLoopSends(t, rest, files);
      hide FileLoop, Total;
    }
  }

  // ---- Steps --------------------------------------------------------------

  datatype Step =
    | OpenFile(w: nat)                            // the handler opens a file and calls set_sendfile
    | Overwrite(w: nat)                           // the handler assigns a response without a file over it
    | TaskThrows(w: nat)                          // the response dies without a destructor
    | Post(w: nat, conn: nat, data: string, size: nat)
    | Drain(script: seq<Answer>)                  // one round of drain_pending_writes
    | WriteEvent(conn: nat, script: seq<Answer>)
    | HangUp(conn: nat)
    | Accept
    | StopLoop                                    // the workers are joined, the map of connections cleared

  predicate Enabled(w: World, step: Step) {
    match step
    case OpenFile(i) => !w.stopped && i < |w.workers|
    case Overwrite(i) => !w.stopped && i < |w.workers|
    case TaskThrows(i) => !w.stopped && i < |w.workers|
    case Post(i, conn, _, _) => !w.stopped && i < |w.workers| && conn < |w.conns|
    case Drain(_) => !w.stopped && w.pending != [] && w.pending[0].conn < |w.conns|
    case WriteEvent(conn, _) => !w.stopped && conn < |w.conns| && w.conns[conn].Alive()
    case HangUp(conn) => !w.stopped && conn < |w.conns|
    case Accept => !w.stopped
    case StopLoop => !w.stopped && NoneInHand(w.workers)
  }

  /** No worker is building a response with a file. */
  predicate NoneInHand(workers: seq<int>) { forall i :: 0 <= i < |workers| ==> workers[i] < 0 }

  /** A queued response shares ownership of its connection. */
  predicate Held(pending: seq<PendingWrite>, conn: nat) { exists k :: 0 <= k < |pending| && pending[k].conn == conn }

  /** Clearing the map destroys the connections that no queued response holds. */
  function Release(conns: seq<Sender>, pending: seq<PendingWrite>): seq<Sender> {
    seq(|conns|, i requires 0 <= i < |conns| => if Held(pending, i) then conns[i] else OnClosed(conns[i]))
  }

  function Apply(w: World, step: Step, files: Files): World
    requires Enabled(w, step)
  {
    match step
    case OpenFile(i) =>
      w.(issued := w.issued + 1, workers := w.workers[i := w.issued], dropped := w.dropped + FdBag(w.workers[i]))
    case Overwrite(i) => w.(workers := w.workers[i := -1], dropped := w.dropped + FdBag(w.workers[i]))
    case TaskThrows(i) => w.(workers := w.workers[i := -1], dropped := w.dropped + FdBag(w.workers[i]))
    case Post(i, conn, data, size) =>
      w.(workers := w.workers[i := -1], pending := w.pending + [PendingWrite(conn, data, w.workers[i], size)])
    case Drain(script) =>
      var p := w.pending[0];
      var s := w.conns[p.conn];
      if s.Alive() then
        w.(pending := w.pending[1..],
           conns := w.conns[p.conn := Flush(Respond(s, p.data, p.fd, p.size), script, files).0])
      else w.(pending := w.pending[1..], closedByDrain := w.closedByDrain + FdBag(p.fd))
    case WriteEvent(conn, script) => w.(conns := w.conns[conn := Flush(w.conns[conn], script, files).0])
    case HangUp(conn) => w.(conns := w.conns[conn := OnClosed(w.conns[conn])])
    case Accept => w.(conns := w.conns + [NEW_SENDER])
    case StopLoop => w.(conns := Release(w.conns, w.pending), stopped := true)
  }

  // ---- Invariant ----------------------------------------------------------

  predicate Sound(w: World) {
    && (forall i :: 0 <= i < |w.pending| ==> w.pending[i].conn < |w.conns|)
    && (forall i :: 0 <= i < |w.conns| ==> if w.conns[i].Alive() then Ok(w.conns[i]) else w.conns[i].op.None?)
    && (w.stopped ==> NoneInHand(w.workers))
    && (w.stopped ==> forall i :: 0 <= i < |w.conns| && !Held(w.pending, i) ==> w.conns[i].op.None?)
  }

  ghost predicate Inv(w: World) {
    Sound(w) && forall fd: nat :: Places(w, fd) == if fd < w.issued then 1 else 0
  }

  lemma RespondOk(s: Sender, head: string, fd: int, size: nat)
    requires Ok(s)
    ensures Ok(Respond(s, head, fd, size))
  {
  }

  lemma StepKeepsSound(w: World, step: Step, files: Files)
    requires Inv(w) && Enabled(w, step)
    ensures Sound(Apply(w, step, files))
  {
    hide Flush, Respond, Places;
    match step
    case Drain(script) =>
      var p := w.pending[0];
      var s := w.conns[p.conn];
      if s.Alive() {
        RespondOk(s, p.data, p.fd, p.size);
        FlushKeepsOrder(Respond(s, p.data, p.fd, p.size), script, files);
      }
    case WriteEvent(conn, script) => FlushKeepsOrder(w.conns[conn], script, files);
    case _ =>
  }

  /** Replacing one connection by one with x more descriptors adds x. */
  lemma ReplaceConn(conns: seq<Sender>, i: nat, s: Sender, x: Bag, fd: nat)
    requires i < |conns| && SenderBag(s) == SenderBag(conns[i]) + x
    ensures Gather(conns[i := s], SenderBag)[fd] == Gather(conns, SenderBag)[fd] + x[fd]
  {
    GatherUpdate(conns, SenderBag, i, s);
    hide Gather, SenderBag;
    assert (Gather(conns[i := s], SenderBag) + SenderBag(conns[i]))[fd] ==
        (Gather(conns, SenderBag) + SenderBag(s))[fd];
  }

  lemma WorkerSlot(workers: seq<int>, i: nat, new': int, fd: nat)
    requires i < |workers|
    ensures Gather(workers[i := new'], FdBag)[fd] + FdBag(workers[i])[fd] ==
        Gather(workers, FdBag)[fd] + FdBag(new')[fd]
  {
    GatherUpdate(workers, FdBag, i, new');
    hide Gather, FdBag;
    assert (Gather(workers[i := new'], FdBag) + FdBag(workers[i]))[fd] == (Gather(workers, FdBag) + FdBag(new'))[fd];
  }

  lemma ReleaseKeeps(conns: seq<Sender>, pending: seq<PendingWrite>)
    ensures Gather(Release(conns, pending), SenderBag) == Gather(conns, SenderBag)
  {
    forall i | 0 <= i < |conns|
        ensures SenderBag(Release(conns, pending)[i]) == SenderBag(conns[i]) { OnClosedKeeps(conns[i]); }
    GatherAgree(Release(conns, pending), conns, SenderBag, SenderBag);
  }

  lemma DrainKeeps(w: World, script: seq<Answer>, files: Files, fd: nat)
    requires Inv(w) && Enabled(w, Drain(script))
    ensures Places(Apply(w, Drain(script), files), fd) == Places(w, fd)
  {
    hide Flush, Respond, SenderBag;
    var p := w.pending[0];
    var s := w.conns[p.conn];
    assert Gather(w.pending, PendingBag) == FdBag(p.fd) + Gather(w.pending[1..], PendingBag);
    if s.Alive() {
      var r := Respond(s, p.data, p.fd, p.size);
      RespondOk(s, p.data, p.fd, p.size);
      RespondAdds(s, p.data, p.fd, p.size);
      FlushKeeps(r, script, files);
      ReplaceConn(w.conns, p.conn, Flush(r, script, files).0, FdBag(p.fd), fd);
    }
    hide Gather, FdBag;
  }

  /** Every step moves descriptors from one place to exactly one other; opening a file adds the new one. */
  lemma StepMoves(w: World, step: Step, files: Files, fd: nat)
    requires Inv(w) && Enabled(w, step)
    ensures Places(Apply(w, step, files), fd) == Places(w, fd) + if step.OpenFile? && fd == w.issued then 1 else 0
  {
    hide Flush, Respond, SenderBag, Gather, Sound, OnClosed;
    match step
    case OpenFile(i) => WorkerSlot(w.workers, i, w.issued, fd);
    case Overwrite(i) => WorkerSlot(w.workers, i, -1, fd);
    case TaskThrows(i) => WorkerSlot(w.workers, i, -1, fd);
    case Post(i, conn, data, size) =>
      WorkerSlot(w.workers, i, -1, fd);
      GatherSnoc(w.pending, PendingBag, PendingWrite(conn, data, w.workers[i], size));
    case Drain(script) => DrainKeeps(w, script, files, fd);
    case WriteEvent(conn, script) =>
      AliveIsOk(w, conn);
      FlushKeeps(w.conns[conn], script, files);
      ReplaceConn(w.conns, conn, Flush(w.conns[conn], script, files).0, multiset{}, fd);
    case HangUp(conn) =>
      OnClosedKeeps(w.conns[conn]);
      ReplaceConn(w.conns, conn, OnClosed(w.conns[conn]), multiset{}, fd);
    case Accept =>
      GatherSnoc(w.conns, SenderBag, NEW_SENDER);
      NewSenderIsEmpty();
    case StopLoop => ReleaseKeeps(w.conns, w.pending);
  }

  lemma AliveIsOk(w: World, conn: nat)
    requires Sound(w) && conn < |w.conns| && w.conns[conn].Alive()
    ensures Ok(w.conns[conn])
  {
  }

  lemma NewSenderIsEmpty()
    ensures SenderBag(NEW_SENDER) == multiset{}
  {
  }

  /** What each place held before, and the new descriptor, make up what each holds after. */
  lemma PlacesAfter(w: World, step: Step, files: Files, fd: nat)
    requires Inv(w) && Enabled(w, step)
    ensures Places(Apply(w, step, files), fd) == if fd < Apply(w, step, files).issued then 1 else 0
  {
    StepMoves(w, step, files, fd);
    StepIssues(w, step, files);
    hide Apply, Enabled, Places, Sound;
    assert Places(w, fd) == if fd < w.issued then 1 else 0;
  }

  lemma StepIssues(w: World, step: Step, files: Files)
    requires Enabled(w, step)
    ensures Apply(w, step, files).issued == w.issued + if step.OpenFile? then 1 else 0
  {
    hide Flush, Respond, FdBag, Release;
  }

  lemma StepKeepsInv(w: World, step: Step, files: Files)
    requires Inv(w) && Enabled(w, step)
    ensures Inv(Apply(w, step, files))
  {
    StepKeepsSound(w, step, files);
    hide Apply, Enabled, Places, Sound;
    forall fd: nat ensures Places(Apply(w, step, files), fd) == if fd < Apply(w, step, files).issued then 1 else 0 {
      PlacesAfter(w, step, files, fd);
    }
  }

  // ---- Runs ---------------------------------------------------------------

  function Begin(workers: nat): World { World(0, seq(workers, i => -1), [], [], multiset{}, multiset{}, false) }

  predicate Possible(w: World, steps: seq<Step>, files: Files)
    decreases |steps|
  {
    steps == [] || (Enabled(w, steps[0]) && Possible(Apply(w, steps[0], files), steps[1..], files))
  }

  function After(w: World, steps: seq<Step>, files: Files): World
    requires Possible(w, steps, files)
    decreases |steps|
  {
    if steps == [] then w else After(Apply(w, steps[0], files), steps[1..], files)
  }

  lemma {:induction false} RunsKeepInv(w: World, steps: seq<Step>, files: Files)
    requires Inv(w) && Possible(w, steps, files)
    ensures Inv(After(w, steps, files))
    decreases |steps|
  {
    hide Apply, Enabled, Inv;
    if steps != [] {
      StepKeepsInv(w, steps[0], files);
      RunsKeepInv(Apply(w, steps[0], files), steps[1..], files);
    }
  }

  lemma BeginInv(workers: nat)
    ensures Inv(Begin(workers))
  {
    GatherNothing(Begin(workers).workers, FdBag);
  }

  /**
   * On every run, with every answer the kernel may give, each descriptor opened so far is in exactly one
   * place: with one worker, one pending write or one transfer, or closed exactly once, or dropped.
   */
  lemma ExactlyOneOwner(workers: nat, steps: seq<Step>, files: Files, fd: nat)
    requires Possible(Begin(workers), steps, files)
    ensures var w := After(Begin(workers), steps, files); Places(w, fd) == if fd < w.issued then 1 else 0
  {
    BeginInv(workers);
    RunsKeepInv(Begin(workers), steps, files);
  }

  function Closed(w: World): Bag { Gather(w.conns, ClosedBag) + w.closedByDrain }

  /** Descriptors in unfinished transfers. */
  function InTransfer(w: World): Bag { Gather(w.conns, OpBag) }

  lemma PlacesSplit(w: World, fd: nat)
    ensures Places(w, fd) == Gather(w.workers, FdBag)[fd] + Gather(w.pending, PendingBag)[fd] + InTransfer(w)[fd]
                             + Closed(w)[fd] + w.dropped[fd]
  {
    hide OpBag;
    GatherSplit(w.conns, OpBag, ClosedBag, SenderBag);
  }

  /**
   * When the loop has stopped, what was neither closed nor dropped is in the pending writes, or is the
   * unfinished transfer of a connection that a pending write still holds.
   */
  lemma LeftAtStop(workers: nat, steps: seq<Step>, files: Files, fd: nat)
    requires Possible(Begin(workers), steps, files)
    requires var w := After(Begin(workers), steps, files); w.stopped && fd < w.issued
    ensures var w := After(Begin(workers), steps, files);
            && Closed(w)[fd] + w.dropped[fd] + Gather(w.pending, PendingBag)[fd] + InTransfer(w)[fd] == 1
            && (fd in InTransfer(w) ==> exists k :: && 0 <= k < |w.pending| && w.pending[k].conn < |w.conns|
                                                    && fd in OpBag(w.conns[w.pending[k].conn]))
  {
    BeginInv(workers);
    RunsKeepInv(Begin(workers), steps, files);
    StoppedInv(After(Begin(workers), steps, files), fd);
  }

  lemma StoppedInv(w: World, fd: nat)
    requires Inv(w) && w.stopped && fd < w.issued
    ensures Closed(w)[fd] + w.dropped[fd] + Gather(w.pending, PendingBag)[fd] + InTransfer(w)[fd] == 1
    ensures fd in InTransfer(w) ==> exists k :: && 0 <= k < |w.pending| && w.pending[k].conn < |w.conns|
                                                && fd in OpBag(w.conns[w.pending[k].conn])
  {
    hide Places, Closed, Gather, OpBag;
    GatherNothing(w.workers, FdBag);
    PlacesSplit(w, fd);
    assert Places(w, fd) == 1;
    if fd in InTransfer(w) { HeldTransfer(w, fd); }
  }

  lemma HeldTransfer(w: World, fd: nat)
    requires Sound(w) && w.stopped && fd in InTransfer(w)
    ensures exists k :: && 0 <= k < |w.pending| && w.pending[k].conn < |w.conns|
                        && fd in OpBag(w.conns[w.pending[k].conn])
  {
    hide Gather;
    GatherHolds(w.conns, OpBag, fd);
    var i :| 0 <= i < |w.conns| && fd in OpBag(w.conns[i]);
    assert Held(w.pending, i);
  }

  /** Hanging up ends the transfer and closes its descriptor. */
  lemma HangUpCloses(w: World, conn: nat, files: Files, fd: nat)
    requires Inv(w) && Enabled(w, HangUp(conn)) && w.conns[conn].Alive() && fd in OpBag(w.conns[conn])
    ensures var t := Apply(w, HangUp(conn), files).conns[conn];
            !t.Alive() && fd !in OpBag(t) && fd in ClosedBag(t)
  {
  }

  /**
   * A write event ends the transfer exactly so: fatal answers kill the connection, and some answers finish the
   * file.
   */
  lemma WriteEventEnds(w: World, conn: nat, files: Files)
    requires Inv(w) && conn < |w.conns| && !w.stopped && w.conns[conn].Alive()
    ensures forall script :: !Apply(w, WriteEvent(conn, script), files).conns[conn].Alive() <==>
                               Kills(w.conns[conn], script, files)
    ensures !Short(w.conns[conn], files) ==>
              exists script :: var t := Apply(w, WriteEvent(conn, script), files).conns[conn];
                               t.Alive() && t.op.None? && t.wire == Total(w.conns[conn], files)
  {
    var s := w.conns[conn];
    AliveIsOk(w, conn);
    hide Flush, Kills, Short, Total, Done;
    forall script ensures !Apply(w, WriteEvent(conn, script), files).conns[conn].Alive() <==> Kills(s, script, files) {
      FlushKillsIff(s, script, files);
    }
    if !Short(s, files) {
      TakeAllDone(s, files);
      var script :| Done(s, [script], files);
      DoneMeans(s, script, files);
      var t := Apply(w, WriteEvent(conn, script), files).conns[conn];
      assert t.Alive() && t.op.None? && t.wire == Total(s, files);
    }
  }

  lemma DoneMeans(s: Sender, script: seq<Answer>, files: Files)
    requires Ok(s) && Done(s, [script], files)
    ensures var t := Flush(s, script, files).0; t.Alive() && t.op.None? && t.wire == Total(s, files)
  {
    hide Flush;
    FlushAllKeepsOrder(s, [script], files);
    assert [script][1..] == [];
    var t := Flush(s, script, files).0;
    assert FlushAll(t, [], files).0 == t;
  }

  /** The steps that leave a half-sent file open at the end, held by the response to a second request. */
  const TWO_FILES :=
      [Accept, OpenFile(0), Post(0, 0, "", 2), Drain([Sent(1)]), OpenFile(0), Post(0, 0, "", 2), StopLoop]

  lemma HalfSent(files: Files)
    requires |files(0)| == 2
    ensures Flush(Respond(NEW_SENDER, "", 0, 2), [Sent(1)], files).0 ==
              Sender(Writing, true, "", Some(SendfileOp(0, 1, 1)), true, files(0)[..1], [])
  {
    var s := Respond(NEW_SENDER, "", 0, 2);
    assert s.out == "";
    var t := s.(op := Some(SendfileOp(0, 1, 1)), wire := files(0)[..1]);
    assert FileChunk(s, 1, files) == t;
    assert FileLoop(s, [Sent(1)], files) == FileLoop(t, [], files) == (t, [], Blocked);
  }

  lemma FirstStep(w: World, steps: seq<Step>, files: Files)
    requires steps != [] && Enabled(w, steps[0]) && Possible(Apply(w, steps[0], files), steps[1..], files)
    ensures Possible(w, steps, files) && After(w, steps, files) == After(Apply(w, steps[0], files), steps[1..], files)
  {
  }

  /** One connection; the first file is half sent. */
  function HalfWay(files: Files): World
    requires |files(0)| == 2
  {
    var half := Sender(Writing, true, "", Some(SendfileOp(0, 1, 1)), true, files(0)[..1], []);
    World(1, [-1], [], [half], multiset{}, multiset{}, false)
  }

  const ASKED := World(1, [-1], [PendingWrite(0, "", 0, 2)], [NEW_SENDER], multiset{}, multiset{}, false)

  lemma AskedReached(files: Files)
    requires Possible(ASKED, TWO_FILES[3..], files)
    ensures Possible(Begin(1), TWO_FILES, files)
    ensures After(Begin(1), TWO_FILES, files) == After(ASKED, TWO_FILES[3..], files)
  {
    hide Flush, Respond, Possible, After, Release;
    var w1 := World(0, [-1], [], [NEW_SENDER], multiset{}, multiset{}, false);
    var w2 := w1.(issued := 1, workers := [0]);
    assert Enabled(Begin(1), Accept) && Apply(Begin(1), Accept, files) == w1;
    assert Enabled(w1, OpenFile(0)) && Apply(w1, OpenFile(0), files) == w2;
    assert Enabled(w2, Post(0, 0, "", 2)) && Apply(w2, Post(0, 0, "", 2), files) == ASKED;
    hide Apply, Enabled;
    assert TWO_FILES[1..][1..] == TWO_FILES[2..] && TWO_FILES[2..][1..] == TWO_FILES[3..];
    FirstStep(w2, TWO_FILES[2..], files);
    FirstStep(w1, TWO_FILES[1..], files);
    FirstStep(Begin(1), TWO_FILES, files);
  }

  lemma HalfWayReached(files: Files)
    requires |files(0)| == 2 && Possible(HalfWay(files), TWO_FILES[4..], files)
    ensures Possible(Begin(1), TWO_FILES, files)
    ensures After(Begin(1), TWO_FILES, files) == After(HalfWay(files), TWO_FILES[4..], files)
  {
    HalfSent(files);
    hide Flush, Respond, Possible, After, Release;
    assert Enabled(ASKED, Drain([Sent(1)])) && Apply(ASKED, Drain([Sent(1)]), files) == HalfWay(files);
    hide Apply, Enabled;
    assert TWO_FILES[3..][1..] == TWO_FILES[4..];
    FirstStep(ASKED, TWO_FILES[3..], files);
    AskedReached(files);
  }

  lemma FromHalfWay(files: Files)
    requires |files(0)| == 2
    ensures Possible(HalfWay(files), TWO_FILES[4..], files)
    ensures After(HalfWay(files), TWO_FILES[4..], files) ==
              HalfWay(files).(issued := 2, pending := [PendingWrite(0, "", 1, 2)], stopped := true)
  {
    hide Flush, Respond;
    var w4 := HalfWay(files);
    var w5, w6 := w4.(issued := 2, workers := [1]), w4.(issued := 2, pending := [PendingWrite(0, "", 1, 2)]);
    var w7 := w6.(stopped := true);
    assert Enabled(w4, OpenFile(0)) && Apply(w4, OpenFile(0), files) == w5;
    assert Enabled(w5, Post(0, 0, "", 2)) && Apply(w5, Post(0, 0, "", 2), files) == w6;
    assert w6.pending[0].conn == 0;
    assert Held(w6.pending, 0);
    assert Enabled(w6, StopLoop) && Apply(w6, StopLoop, files) == w7;
    assert Possible(w7, [], files) && After(w7, [], files) == w7;
    hide Apply, Enabled, Possible, After;
    assert TWO_FILES[4..][1..] == TWO_FILES[5..] && TWO_FILES[5..][1..] == TWO_FILES[6..] && TWO_FILES[6..][1..] == [];
    FirstStep(w6, TWO_FILES[6..], files);
    FirstStep(w5, TWO_FILES[5..], files);
    FirstStep(w4, TWO_FILES[4..], files);
  }

  /** Such a stop can come up: the first file of the connection is half sent, the second waits. */
  lemma TransferLeftAtStop(files: Files)
    requires |files(0)| == 2
    ensures Possible(Begin(1), TWO_FILES, files)
    ensures var w := After(Begin(1), TWO_FILES, files);
            w.stopped && InTransfer(w) == multiset{0} && Gather(w.pending, PendingBag) == multiset{1} &&
                Closed(w) == multiset{}
  {
    hide Possible, After;
    FromHalfWay(files);
    HalfWayReached(files);
    var half, late := HalfWay(files).conns[0], PendingWrite(0, "", 1, 2);
    GatherFirst([half], OpBag);
    GatherFirst([half], ClosedBag);
    GatherFirst([late], PendingBag);
  }

  // ---- Dropped descriptors ------------------------------------------------

  /** The worker's response is handed over, or replaced by one without a file, or lost. */
  predicate GivesUp(step: Step, worker: nat) {
    (step.Post? || step.Overwrite? || step.TaskThrows?) && step.w == worker
  }

  /** Steps that forget what is in the worker's response. */
  predicate Forgets(step: Step) { step.OpenFile? || step.Overwrite? || step.TaskThrows? }

  /** The response of the worker's current job holds a file. */
  predicate HasFile(steps: seq<Step>, worker: nat) {
    exists i :: 0 <= i < |steps| && steps[i] == OpenFile(worker) && forall k :: i < k < |steps| ==>
        !GivesUp(steps[k], worker)
  }

  /** A job whose response holds a file opens another, assigns the response anew, or throws. */
  predicate Leaks(steps: seq<Step>) {
    exists j :: 0 <= j < |steps| && Forgets(steps[j]) && HasFile(steps[..j], steps[j].w)
  }

  lemma {:induction false} AfterSnoc(w: World, steps: seq<Step>, step: Step, files: Files)
    requires Possible(w, steps + [step], files)
    ensures Possible(w, steps, files) && Enabled(After(w, steps, files), step)
    ensures After(w, steps + [step], files) == Apply(After(w, steps, files), step, files)
    decreases |steps|
  {
    hide Enabled, Apply;
    if steps == [] {
      assert steps + [step] == [step];
    } else {
      assert (steps + [step])[1..] == steps[1..] + [step];
      AfterSnoc(Apply(w, steps[0], files), steps[1..], step, files);
    }
  }

  lemma HasFileSnoc(steps: seq<Step>, step: Step, worker: nat)
    ensures HasFile(steps + [step], worker) <==>
        step == OpenFile(worker) || (HasFile(steps, worker) && !GivesUp(step, worker))
  {
    var all := steps + [step];
    if step == OpenFile(worker) {
      assert all[|steps|] == OpenFile(worker);
    } else if HasFile(steps, worker) && !GivesUp(step, worker) {
      var i :| 0 <= i < |steps| && steps[i] == OpenFile(worker) && forall k :: i < k < |steps| ==>
          !GivesUp(steps[k], worker);
      assert all[i] == OpenFile(worker);
    } else if HasFile(all, worker) {
      var i :| 0 <= i < |all| && all[i] == OpenFile(worker) && forall k :: i < k < |all| ==> !GivesUp(all[k], worker);
      assert steps[i] == OpenFile(worker) && !GivesUp(all[|steps|], worker);
      forall k | i < k < |steps| ensures !GivesUp(steps[k], worker) { assert all[k] == steps[k]; }
    }
  }

  lemma LeaksSnoc(steps: seq<Step>, step: Step)
    ensures Leaks(steps + [step]) <==> Leaks(steps) || (Forgets(step) && HasFile(steps, step.w))
  {
    hide HasFile;
    var all := steps + [step];
    assert all[..|steps|] == steps;
    if j :| 0 <= j < |all| && Forgets(all[j]) && HasFile(all[..j], all[j].w) {
      assert all[..j] == steps[..j];
    }
    if j :| 0 <= j < |steps| && Forgets(steps[j]) && HasFile(steps[..j], steps[j].w) {
      assert all[j] == steps[j] && all[..j] == steps[..j];
    }
  }

  lemma HandStep(w: World, step: Step, files: Files, worker: nat)
    requires Enabled(w, step) && worker < |w.workers|
    ensures var t := Apply(w, step, files);
            |t.workers| == |w.workers| &&
                (t.workers[worker] >= 0 <==>
                step == OpenFile(worker) || (w.workers[worker] >= 0 && !GivesUp(step, worker)))
  {
    hide Flush, Respond, FdBag, Release;
  }

  /** A worker has a descriptor in hand exactly when its current job has opened a file and not given it up. */
  lemma {:induction false} InHandIff(workers: nat, steps: seq<Step>, files: Files, worker: nat)
    requires Possible(Begin(workers), steps, files) && worker < workers
    ensures var w := After(Begin(workers), steps, files);
            |w.workers| == workers && (w.workers[worker] >= 0 <==> HasFile(steps, worker))
    decreases |steps|
  {
    if steps != [] {
      hide Enabled, Apply, Possible, After, HasFile;
      var front, step := steps[..|steps| - 1], steps[|steps| - 1];
      assert steps == front + [step];
      AfterSnoc(Begin(workers), front, step, files);
      InHandIff(workers, front, files, worker);
      HasFileSnoc(front, step, worker);
      HandStep(After(Begin(workers), front, files), step, files, worker);
    }
  }

  lemma StepKeepsWorkers(w: World, step: Step, files: Files)
    requires Enabled(w, step)
    ensures |Apply(w, step, files).workers| == |w.workers|
  {
    hide Flush, Respond, FdBag, Release;
  }

  lemma {:induction false} WorkerCount(workers: nat, steps: seq<Step>, files: Files)
    requires Possible(Begin(workers), steps, files)
    ensures |After(Begin(workers), steps, files).workers| == workers
    decreases |steps|
  {
    if steps != [] {
      hide Enabled, Apply, Possible, After;
      var front, step := steps[..|steps| - 1], steps[|steps| - 1];
      assert steps == front + [step];
      AfterSnoc(Begin(workers), front, step, files);
      WorkerCount(workers, front, files);
      StepKeepsWorkers(After(Begin(workers), front, files), step, files);
    }
  }

  lemma DropStep(w: World, step: Step, files: Files)
    requires Enabled(w, step)
    ensures Forgets(step) ==> step.w < |w.workers|
    ensures Apply(w, step, files).dropped == multiset{} <==>
              w.dropped == multiset{} && !(Forgets(step) && w.workers[step.w] >= 0)
  {
    hide Flush, Respond, Release;
    if Forgets(step) {
      var fd := w.workers[step.w];
      if fd >= 0 { assert fd in w.dropped + multiset{fd}; }
    }
  }

  /** On a run nothing was dropped exactly when no job forgot a file that its response held. */
  lemma {:induction false} DroppedIff(workers: nat, steps: seq<Step>, files: Files)
    requires Possible(Begin(workers), steps, files)
    ensures After(Begin(workers), steps, files).dropped == multiset{} <==> !Leaks(steps)
    decreases |steps|
  {
    if steps != [] {
      hide Enabled, Apply, Possible, After, Leaks, HasFile;
      var front, step := steps[..|steps| - 1], steps[|steps| - 1];
      assert steps == front + [step];
      AfterSnoc(Begin(workers), front, step, files);
      DroppedIff(workers, front, files);
      LeaksSnoc(front, step);
      var w := After(Begin(workers), front, files);
      DropStep(w, step, files);
      if Forgets(step) {
        WorkerCount(workers, front, files);
        InHandIff(workers, front, files, step.w);
      }
    }
  }

  /** On a run without such a job every descriptor is owned, by one owner, or was closed, once. */
  lemma OwnedOrClosed(workers: nat, steps: seq<Step>, files: Files, fd: nat)
    requires Possible(Begin(workers), steps, files) && !Leaks(steps)
    ensures var w := After(Begin(workers), steps, files);
            Gather(w.workers, FdBag)[fd] + Gather(w.pending, PendingBag)[fd] + InTransfer(w)[fd] + Closed(w)[fd]
            == if fd < w.issued then 1 else 0
  {
    ExactlyOneOwner(workers, steps, files, fd);
    DroppedIff(workers, steps, files);
    hide Leaks, Possible, After;
    PlacesSplit(After(Begin(workers), steps, files), fd);
  }

  // ---- Which connection gets a descriptor ---------------------------------

  function Opens(steps: seq<Step>): nat {
    if steps == [] then 0 else Opens(steps[..|steps| - 1]) + if steps[|steps| - 1].OpenFile? then 1 else 0
  }

  /** The worker's response holds the descriptor that was opened as the fd-th. */
  predicate HoldsFd(steps: seq<Step>, fd: nat, worker: nat) {
    exists i :: && 0 <= i < |steps| && steps[i] == OpenFile(worker) && Opens(steps[..i]) == fd
                && forall k :: i < k < |steps| ==> !GivesUp(steps[k], worker) && steps[k] != OpenFile(worker)
  }

  /** A worker posted a response for this connection while it held this descriptor. */
  predicate PostedFor(steps: seq<Step>, fd: nat, conn: nat) {
    exists j :: 0 <= j < |steps| && steps[j].Post? && steps[j].conn == conn && HoldsFd(steps[..j], fd, steps[j].w)
  }

  /** Everything in the world is where the steps so far have sent it. */
  ghost predicate Addressed(w: World, steps: seq<Step>) {
    && w.issued == Opens(steps)
    && (forall i :: 0 <= i < |w.workers| && w.workers[i] >= 0 ==> HoldsFd(steps, w.workers[i], i))
    && (forall k :: 0 <= k < |w.pending| && w.pending[k].fd >= 0 ==>
        PostedFor(steps, w.pending[k].fd, w.pending[k].conn))
    && (forall c: nat, fd: nat :: c < |w.conns| && fd in SenderBag(w.conns[c]) ==> PostedFor(steps, fd, c))
  }

  lemma OpensSnoc(steps: seq<Step>, step: Step)
    ensures Opens(steps + [step]) == Opens(steps) + if step.OpenFile? then 1 else 0
  {
    assert (steps + [step])[..|steps|] == steps;
  }

  lemma HoldsFdSnoc(steps: seq<Step>, step: Step, fd: nat, worker: nat)
    ensures HoldsFd(steps, fd, worker) && !GivesUp(step, worker) && step != OpenFile(worker) ==>
              HoldsFd(steps + [step], fd, worker)
    ensures step == OpenFile(worker) && Opens(steps) == fd ==> HoldsFd(steps + [step], fd, worker)
  {
    hide Opens;
    var all := steps + [step];
    if HoldsFd(steps, fd, worker) && !GivesUp(step, worker) && step != OpenFile(worker) {
      var i :| && 0 <= i < |steps| && steps[i] == OpenFile(worker) && Opens(steps[..i]) == fd
               && forall k :: i < k < |steps| ==> !GivesUp(steps[k], worker) && steps[k] != OpenFile(worker);
      assert all[i] == OpenFile(worker) && all[..i] == steps[..i];
    }
    if step == OpenFile(worker) && Opens(steps) == fd {
      assert all[|steps|] == OpenFile(worker) && all[..|steps|] == steps;
    }
  }

  lemma PostedForSnoc(steps: seq<Step>, step: Step, fd: nat, conn: nat)
    ensures PostedFor(steps, fd, conn) ==> PostedFor(steps + [step], fd, conn)
    ensures step.Post? && step.conn == conn && HoldsFd(steps, fd, step.w) ==> PostedFor(steps + [step], fd, conn)
  {
    hide HoldsFd;
    var all := steps + [step];
    if j :| 0 <= j < |steps| && steps[j].Post? && steps[j].conn == conn && HoldsFd(steps[..j], fd, steps[j].w) {
      assert all[j] == steps[j] && all[..j] == steps[..j];
    }
    if step.Post? && step.conn == conn && HoldsFd(steps, fd, step.w) { assert all[..|steps|] == steps; }
  }

  lemma HandAddressed(w: World, steps: seq<Step>, step: Step, files: Files, i: nat)
    requires Addressed(w, steps) && Enabled(w, step) && i < |w.workers|
    ensures var t := Apply(w, step, files);
            i < |t.workers| && (t.workers[i] >= 0 ==> HoldsFd(steps + [step], t.workers[i], i))
  {
    hide Flush, Respond, Release, HoldsFd, PostedFor, Opens, FdBag, SenderBag;
    if w.workers[i] >= 0 { HoldsFdSnoc(steps, step, w.workers[i], i); }
    HoldsFdSnoc(steps, step, w.issued, i);
  }

  lemma PendingAddressed(w: World, steps: seq<Step>, step: Step, files: Files, k: nat)
    requires Addressed(w, steps) && Enabled(w, step) && k < |Apply(w, step, files).pending|
    ensures var p := Apply(w, step, files).pending[k]; p.fd >= 0 ==> PostedFor(steps + [step], p.fd, p.conn)
  {
    hide Flush, Respond, Release, HoldsFd, PostedFor, Opens, FdBag, SenderBag;
    var p := Apply(w, step, files).pending[k];
    if p.fd >= 0 { PostedForSnoc(steps, step, p.fd, p.conn); }
  }

  /** What a connection holds or has closed after a step it held or had closed before, or was drained for it. */
  lemma ConnGains(w: World, step: Step, files: Files, c: nat, fd: nat)
    requires Inv(w) && Enabled(w, step) && c < |Apply(w, step, files).conns|
    requires fd in SenderBag(Apply(w, step, files).conns[c])
    ensures || (c < |w.conns| && fd in SenderBag(w.conns[c]))
            || (step.Drain? && w.pending[0].conn == c && w.pending[0].fd == fd)
  {
    hide Flush, Respond, SenderBag, Places, Gather;
    match step
    case Drain(script) =>
      var p := w.pending[0];
      var s := w.conns[p.conn];
      if s.Alive() {
        AliveIsOk(w, p.conn);
        RespondOk(s, p.data, p.fd, p.size);
        RespondAdds(s, p.data, p.fd, p.size);
        FlushKeeps(Respond(s, p.data, p.fd, p.size), script, files);
      }
    case WriteEvent(conn, script) =>
      AliveIsOk(w, conn);
      FlushKeeps(w.conns[conn], script, files);
    case HangUp(conn) => OnClosedKeeps(w.conns[conn]);
    case Accept => NewSenderIsEmpty();
    case StopLoop => if c < |w.conns| { OnClosedKeeps(w.conns[c]); }
    case _ =>
  }

  lemma StepAddressed(w: World, steps: seq<Step>, step: Step, files: Files)
    requires Inv(w) && Addressed(w, steps) && Enabled(w, step)
    ensures Addressed(Apply(w, step, files), steps + [step])
  {
    var t := Apply(w, step, files);
    StepIssues(w, step, files);
    StepKeepsWorkers(w, step, files);
    OpensSnoc(steps, step);
    hide Apply, Enabled, Opens, HoldsFd, PostedFor, SenderBag, Inv;
    forall i | 0 <= i < |t.workers| && t.workers[i] >= 0 ensures HoldsFd(steps + [step], t.workers[i], i) {
      HandAddressed(w, steps, step, files, i);
    }
    forall k | 0 <= k < |t.pending| && t.pending[k].fd >= 0
      ensures PostedFor(steps + [step], t.pending[k].fd, t.pending[k].conn)
    {
      PendingAddressed(w, steps, step, files, k);
    }
    forall c: nat, fd: nat | c < |t.conns| && fd in SenderBag(t.conns[c]) ensures PostedFor(steps + [step], fd, c) {
      ConnGains(w, step, files, c, fd);
      DrainHasPending(w, step);
      PostedForSnoc(steps, step, fd, c);
    }
  }

  lemma DrainHasPending(w: World, step: Step)
    requires Enabled(w, step)
    ensures step.Drain? ==> w.pending != []
  {
  }

  lemma {:induction false} RunAddressed(workers: nat, steps: seq<Step>, files: Files)
    requires Possible(Begin(workers), steps, files)
    ensures Inv(After(Begin(workers), steps, files)) && Addressed(After(Begin(workers), steps, files), steps)
    decreases |steps|
  {
    if steps == [] {
      BeginInv(workers);
    } else {
      hide Enabled, Apply, Possible, After, Addressed, Inv;
      var front, step := steps[..|steps| - 1], steps[|steps| - 1];
      assert steps == front + [step];
      AfterSnoc(Begin(workers), front, step, files);
      RunAddressed(workers, front, files);
      StepKeepsInv(After(Begin(workers), front, files), step, files);
      StepAddressed(After(Begin(workers), front, files), front, step, files);
    }
  }

  /** On every run a connection holds, and closes, only descriptors of responses that were posted for it. */
  lemma RightConnection(workers: nat, steps: seq<Step>, files: Files, conn: nat, fd: nat)
    requires Possible(Begin(workers), steps, files) && conn < |After(Begin(workers), steps, files).conns|
    requires fd in SenderBag(After(Begin(workers), steps, files).conns[conn])
    ensures PostedFor(steps, fd, conn)
  {
    RunAddressed(workers, steps, files);
    hide Inv, Possible, After, PostedFor, SenderBag;
  }

  // ---- Moves of the transfer object ---------------------------------------

  /** The operating system's record of close calls. */
  class Closings {
    var closed: seq<int>
    constructor () ensures closed == [] { closed := []; }

    method Close(fd: int)
      modifies this
      ensures closed == old(closed) + [fd]
    {
      closed := closed + [fd];
    }
  }

  class SendfileHandle {
    var fd: int
    var offset: nat
    var remaining: nat

    function View(): SendfileOp
      reads this
    {
      SendfileOp(fd, offset, remaining)
    }

    constructor (fd: int, size: nat)
      ensures View() == SendfileOp(fd, 0, size)
    {
      this.fd, offset, remaining := fd, 0, size;
    }

    /** Move construction: the source gives up its descriptor. */
    constructor Moved(other: SendfileHandle)
      modifies other
      ensures View() == old(other.View()) && other.fd == -1
      ensures FdBag(fd) + FdBag(other.fd) == old(FdBag(other.fd))
    {
      fd, offset, remaining := other.fd, other.offset, other.remaining;
      new;
      other.fd := -1;
    }

    /** Move assignment: closes what it replaces, except when assigned to itself. */
    method Assign(other: SendfileHandle, os: Closings)
      modifies this, other, os
      ensures View() == old(other.View()) && (other != this ==> other.fd == -1)
      ensures other != this ==>
                FdBag(fd) + FdBag(other.fd) + multiset(os.closed) ==
                    old(FdBag(fd) + FdBag(other.fd) + multiset(os.closed))
      ensures other == this ==> os.closed == old(os.closed)
    {
      if this != other {
        if fd >= 0 { os.Close(fd); }
        fd, offset, remaining := other.fd, other.offset, other.remaining;
        other.fd := -1;
      }
    }

    method Destroy(os: Closings)
      modifies this`fd, os
      ensures fd < 0 && os.closed == old(if fd >= 0 then os.closed + [fd] else os.closed)
      ensures FdBag(fd) + multiset(os.closed) == old(FdBag(fd) + multiset(os.closed))
    {
      if fd >= 0 {
        os.Close(fd);
        fd := -1;
      }
    }
  }
}
