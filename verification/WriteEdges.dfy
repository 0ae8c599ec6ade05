/**
 * Connections are watched edge-triggered, so EPOLLOUT in the mask is not enough: a write event only comes
 * after a flush that ended because the socket was full. Beside the books of the guarded loop, this keeps
 * the set of descriptors whose last flush ended that way.
 */
module WriteEdges {
  import opened WritePath
  import opened FlushFates
  import opened Listening
  import opened EventLoops

  function Flushed(edges: set<Fd>, fd: Fd, s: Sender, answers: seq<Answer>, files: Files): set<Fd> {
    if FlushEnd(s, answers, files) == Blocked then edges + {fd} else edges - {fd}
  }

  function DrainOneEdges(b: Books, r: Response, edges: set<Fd>, files: Files): set<Fd> {
    if Serves(b, r.fd, r.id)
    then Flushed(edges, r.fd, Respond(b.connections[r.fd].sender, r.data, r.fileFd, r.fileSize), r.answers, files)
    else edges
  }

  function DrainEdges(b: Books, responses: seq<Response>, edges: set<Fd>, files: Files): set<Fd>
    decreases |responses|
  {
    if responses == [] then edges
    else
      var next := DrainOneEdges(b, responses[0], edges, files);
      DrainEdges(DrainOne(b, responses[0], files).0, responses[1..], next, files)
  }

  function EventEdges(b: Books, ev: Event, edges: set<Fd>, files: Files): set<Fd> {
    if Flushes(b, ev) then Flushed(edges, ev.fd, b.connections[ev.fd].sender, ev.answers, files) else edges
  }

  function ItemEdges(b: Books, item: Item, edges: set<Fd>, files: Files): set<Fd> {
    match item
    case Listen(_) => edges
    case Wakeup(responses) => DrainEdges(b, responses, edges, files)
    case Ready(event) => EventEdges(b, event, edges, files)
  }

  function BatchEdges(b: Books, items: seq<Item>, edges: set<Fd>, files: Files): set<Fd>
    decreases |items|
  {
    if items == [] then edges
    else BatchEdges(Handle(b, items[0], true, files).0, items[1..], ItemEdges(b, items[0], edges, files), files)
  }

  function RunEdges(b: Books, batches: seq<seq<Item>>, edges: set<Fd>, files: Files): set<Fd>
    decreases |batches|
  {
    if batches == [] then edges
    else
      var next := BatchEdges(b, batches[0], edges, files);
      RunEdges(Reap(HandleAll(b, batches[0], true, files).0), batches[1..], next, files)
  }

  /** A live connection that owes bytes has a write event due, or a file that has run out. */
  predicate NoStall(b: Books, edges: set<Fd>, files: Files) {
    forall fd :: fd in b.connections && b.connections[fd].sender.Alive() && Owed(b.connections[fd].sender) > 0 ==>
      fd in edges || RunOut(b.connections[fd].sender, files)
  }

  /** Every answer that takes bytes takes at least one. */
  predicate ItemTakes(item: Item) {
    match item
    case Listen(_) => true
    case Wakeup(responses) => forall i :: 0 <= i < |responses| ==> Takes(responses[i].answers)
    case Ready(event) => Takes(event.answers)
  }

  /** There is something to send, and it is there. */
  predicate CanSend(s: Sender, files: Files) { s.Alive() && Owed(s) > 0 && !Short(s, files) }

  predicate EventsDue(b: Books, edges: set<Fd>, files: Files) {
    forall fd :: fd in b.connections && CanSend(b.connections[fd].sender, files) ==> fd in edges
  }

  // ---- Each handler -------------------------------------------------------

  lemma {:induction false} AcceptRoundNoStall(b: Books, answers: seq<Accepted>, edges: set<Fd>, files: Files)
    requires NoStall(b, edges, files)
    ensures NoStall(AcceptRound(b, answers).0, edges, files)
    decreases |answers|
  {
    if answers != [] && answers[0].Client? { AcceptRoundNoStall(Accept(b, answers[0].fd), answers[1..], edges, files); }
  }

  lemma DrainOneNoStall(b: Books, r: Response, edges: set<Fd>, files: Files)
    requires Inv(b) && NoStall(b, edges, files) && Takes(r.answers)
    ensures NoStall(DrainOne(b, r, files).0, DrainOneEdges(b, r, edges, files), files)
  {
    hide Owed, RunOut, Takes;
    if Serves(b, r.fd, r.id) {
      var s := Respond(b.connections[r.fd].sender, r.data, r.fileFd, r.fileSize);
      assert Ok(s);
      hide Respond;
      FlushBlocksOrRunsOut(s, r.answers, files);
      FlushIsSound(s, r.answers, files);
      hide Flush, FlushEnd;
    }
  }

  lemma {:induction false} DrainNoStall(b: Books, responses: seq<Response>, edges: set<Fd>, files: Files)
    requires Inv(b) && NoStall(b, edges, files) && forall i :: 0 <= i < |responses| ==> Takes(responses[i].answers)
    ensures NoStall(DrainAll(b, responses, files).0, DrainEdges(b, responses, edges, files), files)
    decreases |responses|
  {
    hide Inv, DrainOne, DrainOneEdges, NoStall, Takes;
    if responses != [] {
      DrainKeepsInv(b, responses[0], files);
      DrainOneNoStall(b, responses[0], edges, files);
      DrainNoStall(DrainOne(b, responses[0], files).0, responses[1..], DrainOneEdges(b, responses[0], edges, files),
          files);
    }
  }

  lemma EventNoStall(b: Books, ev: Event, edges: set<Fd>, files: Files)
    requires Inv(b) && NoStall(b, edges, files) && Takes(ev.answers)
    ensures NoStall(HandleEvent(b, ev, true, files).0, EventEdges(b, ev, edges, files), files)
  {
    hide Owed, RunOut, Takes, Flush, FlushEnd;
    if ev.fd in b.connections && b.connections[ev.fd].sender.Alive() {
      var s := b.connections[ev.fd].sender;
      var s' := if ev.readable then s.(keepAlive := ev.keepAlive) else s;
      KeepAliveAside(s, ev.keepAlive, ev.answers, files);
      OwedIgnoresKeepAlive(s, ev.keepAlive);
      if Flushes(b, ev) {
        FlushBlocksOrRunsOut(s', ev.answers, files);
        FlushIsSound(s', ev.answers, files);
      }
    }
  }

  lemma KeepAliveAside(s: Sender, k: bool, answers: seq<Answer>, files: Files)
    ensures FlushEnd(s.(keepAlive := k), answers, files) == FlushEnd(s, answers, files)
    ensures RunOut(s.(keepAlive := k), files) <==> RunOut(s, files)
  {
    var t := s.(keepAlive := k);
    SendLoopAside(s, k, answers);
    var (u, rest, progress) := SendLoop(s, answers);
    FileLoopAside(u, k, rest, files);
  }

  lemma {:induction false} SendLoopAside(s: Sender, k: bool, script: seq<Answer>)
    ensures var (t, rest, progress) := SendLoop(s, script);
            SendLoop(s.(keepAlive := k), script) == (t.(keepAlive := k), rest, progress)
    decreases |script|
  {
    if s.out != "" && script != [] && s.open {
      match script[0] {
        case Sent(n) =>
          var m := Min(n, |s.out|);
          SendLoopAside(s.(out := s.out[m..], wire := s.wire + s.out[..m]), k, script[1..]);
        case Interrupted => SendLoopAside(s, k, script[1..]);
        case _ =>
      }
    }
  }

  lemma {:induction false} FileLoopAside(s: Sender, k: bool, script: seq<Answer>, files: Files)
    ensures var (t, rest, progress) := FileLoop(s, script, files);
            FileLoop(s.(keepAlive := k), script, files) == (t.(keepAlive := k), rest, progress)
    decreases |script|
  {
    hide Unsent;
    if s.op.Some? && s.op.value.Active() && script != [] && s.open {
      if script[0].Sent? {
        var t := FileChunk(s, script[0].n, files);
        if t != s { FileLoopAside(t, k, script[1..], files); }
      } else if script[0].Interrupted? {
        FileLoopAside(s, k, script[1..], files);
      }
    }
  }

  lemma ItemNoStall(b: Books, item: Item, edges: set<Fd>, files: Files)
    requires Inv(b) && NoStall(b, edges, files) && ItemTakes(item)
    ensures NoStall(Handle(b, item, true, files).0, ItemEdges(b, item, edges, files), files)
  {
    hide Inv, NoStall, AcceptRound, DrainAll, DrainEdges, HandleEvent, EventEdges, Takes;
    match item
    case Listen(answers) => AcceptRoundNoStall(b, answers, edges, files);
    case Wakeup(responses) => DrainNoStall(b, responses, edges, files);
    case Ready(event) => EventNoStall(b, event, edges, files);
  }

  // ---- Batches and runs ---------------------------------------------------

  lemma {:induction false} BatchNoStall(b: Books, items: seq<Item>, edges: set<Fd>, files: Files)
    requires Inv(b) && NoStall(b, edges, files) && !AcceptFails(items)
    requires forall i :: 0 <= i < |items| ==> ItemTakes(items[i])
    ensures NoStall(HandleAll(b, items, true, files).0, BatchEdges(b, items, edges, files), files)
    decreases |items|
  {
    hide Inv, NoStall, Handle, ItemEdges, ItemTakes, ListenThrows;
    if items != [] {
      AcceptFailsFirst(items);
      hide AcceptFails;
      ItemThrowsIff(b, items[0], files);
      HandleKeepsInv(b, items[0], true, files);
      ItemNoStall(b, items[0], edges, files);
      BatchNoStall(Handle(b, items[0], true, files).0, items[1..], ItemEdges(b, items[0], edges, files), files);
    }
  }

  lemma ReapNoStall(b: Books, edges: set<Fd>, files: Files)
    requires NoStall(b, edges, files)
    ensures NoStall(Reap(b), edges, files)
  {
    hide Owed, RunOut;
  }

  /** A run on which every accept round succeeds and every answer that takes bytes takes at least one. */
  predicate Regular(batches: seq<seq<Item>>) {
    && (forall i :: 0 <= i < |batches| ==> !AcceptFails(batches[i]))
    && forall i :: 0 <= i < |batches| ==> forall j :: 0 <= j < |batches[i]| ==> ItemTakes(batches[i][j])
  }

  /**
   * After every iteration of the guarded loop each live connection that owes bytes has a write event due, as
   * long as its file still holds what was promised.
   */
  lemma {:induction false} OwingMeansEventDue(b: Books, batches: seq<seq<Item>>, edges: set<Fd>, files: Files)
    requires Inv(b) && NoStall(b, edges, files) && Regular(batches)
    ensures var (c, due) := (RunBatches(b, batches, files).0, RunEdges(b, batches, edges, files));
            NoStall(c, due, files) && EventsDue(c, due, files)
    decreases |batches|
  {
    hide Inv, NoStall, HandleAll, Reap, BatchEdges, AcceptFails, ItemTakes;
    if batches == [] {
      NoStallMeans(b, edges, files);
    } else {
      GuardedBatch(b, batches[0], files);
      HandleAllKeepsInv(b, batches[0], true, files);
      BatchNoStall(b, batches[0], edges, files);
      var c := HandleAll(b, batches[0], true, files).0;
      ReapKeepsInv(c);
      ReapNoStall(c, BatchEdges(b, batches[0], edges, files), files);
      OwingMeansEventDue(Reap(c), batches[1..], BatchEdges(b, batches[0], edges, files), files);
    }
  }

  lemma NoStallMeans(b: Books, edges: set<Fd>, files: Files)
    requires NoStall(b, edges, files)
    ensures EventsDue(b, edges, files)
  {
  }

  /**
   * Where nothing is due the response is lost: an alive connection whose flush did not block, and that still
   * owes bytes, has a file that became shorter, and no answers of the kernel would ever let it finish.
   */
  lemma StalledForGood(s: Sender, answers: seq<Answer>, files: Files)
    requires Ok(s) && Takes(answers)
    requires var (t, owed) := Flush(s, answers, files); t.Alive() && owed > 0 && FlushEnd(s, answers, files) != Blocked
    ensures var t := Flush(s, answers, files).0;
            RunOut(t, files) && Short(s, files) && forall scripts :: !Done(t, scripts, files)
  {
    FlushBlocksOrRunsOut(s, answers, files);
    FlushKeepsShort(s, answers, files);
    FlushKeepsOrder(s, answers, files);
    var t := Flush(s, answers, files).0;
    hide Flush, FlushEnd;
    assert Short(t, files);
    CanBeDoneIff(t, files);
  }
}
