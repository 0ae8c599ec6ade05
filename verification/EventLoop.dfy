/**
 * The event loop's bookkeeping: which connections it holds, which descriptors epoll watches, and for
 * which of them it asks for write events.
 *
 * handle_event flushes and changes the mask without asking whether the connection is still alive, and
 * epoll refuses to change the mask of a descriptor it does not watch by throwing. The handler is
 * modelled as written and, with guarded set, with an is_alive check around the flush and the change.
 */
module EventLoops {
  import opened WritePath
  import opened FlushFates
  import opened Listening

  /** The id stands for the identity of the connection object. */
  datatype Conn = Conn(id: nat, sender: Sender)

  /** masks: watched connection descriptors, and whether their mask has EPOLLOUT. */
  datatype Books = Books(connections: map<Fd, Conn>, masks: map<Fd, bool>, nextConnId: nat)

  datatype Outcome = Returned | Threw

  /** One entry of the batch: the kernel's flags and the answers the handlers will get. */
  datatype Event = Event(
    fd: Fd, hangup: bool, readable: bool, writable: bool,
    staysOpen: bool, keepAlive: bool, answers: seq<Answer>)

  datatype Response = Response(fd: Fd, id: nat, data: string, fileFd: int, fileSize: nat, answers: seq<Answer>)

  /** A live connection with this id under this number. */
  predicate Serves(b: Books, fd: Fd, id: nat) {
    fd in b.connections && b.connections[fd].id == id && b.connections[fd].sender.Alive()
  }

  // ---- Handlers -----------------------------------------------------------

  /**
   * A client whose descriptor number belongs to a connection that died earlier in the batch and is
   * still in the map is not entered: emplace keeps the old entry and the new connection is destroyed.
   */
  function Accept(b: Books, fd: Fd): Books {
    var c := b.(nextConnId := b.nextConnId + 1);
    if fd in b.connections then c
    else c.(connections := b.connections[fd := Conn(b.nextConnId, NEW_SENDER)], masks := b.masks[fd := false])
  }

  /** on_closed and its callback, which unregisters the descriptor. */
  function Close(b: Books, fd: Fd): Books
    requires fd in b.connections
  {
    var c := b.connections[fd];
    if !c.sender.Alive() then b
    else Books(b.connections[fd := c.(sender := OnClosed(c.sender))], b.masks - {fd}, b.nextConnId)
  }

  /** Storing a sender after a flush; a flush that closes the connection unregisters it. */
  function Store(b: Books, fd: Fd, s: Sender): Books
    requires fd in b.connections
  {
    Books(b.connections[fd := b.connections[fd].(sender := s)],
          if b.connections[fd].sender.Alive() && !s.Alive() then b.masks - {fd} else b.masks,
          b.nextConnId)
  }

  /** epoll_ctl(MOD) with or without EPOLLOUT. */
  function Modify(b: Books, fd: Fd, out: bool): (Books, Outcome) {
    if fd in b.masks then (b.(masks := b.masks[fd := out]), Returned) else (b, Threw)
  }

  function HandleWritable(b: Books, ev: Event, guarded: bool, files: Files): (Books, Outcome)
    requires ev.fd in b.connections
  {
    if guarded && !b.connections[ev.fd].sender.Alive() then (b, Returned)
    else
      var (s, owed) := Flush(b.connections[ev.fd].sender, ev.answers, files);
      var c := Store(b, ev.fd, s);
      if owed == 0 && !(guarded && !s.Alive()) then Modify(c, ev.fd, false) else (c, Returned)
  }

  function HandleEvent(b: Books, ev: Event, guarded: bool, files: Files): (Books, Outcome) {
    if ev.fd !in b.connections then (b, Returned)
    else if ev.hangup then (Close(b, ev.fd), Returned)
    else
      var conn := b.connections[ev.fd];
      if ev.readable && !(conn.sender.Alive() && ev.staysOpen) then (Close(b, ev.fd), Returned)
      else
        var c := if ev.readable then Store(b, ev.fd, conn.sender.(keepAlive := ev.keepAlive)) else b;
        if ev.writable then HandleWritable(c, ev, guarded, files) else (c, Returned)
  }

  /** One response of drain_pending_writes. A dead connection is not found under its own descriptor and id. */
  function DrainOne(b: Books, r: Response, files: Files): (Books, Outcome) {
    if !Serves(b, r.fd, r.id) then (b, Returned)
    else
      var (s, owed) := Flush(Respond(b.connections[r.fd].sender, r.data, r.fileFd, r.fileSize), r.answers, files);
      var c := Store(b, r.fd, s);
      if owed > 0 then Modify(c, r.fd, true) else (c, Returned)
  }

  /** Drops the dead at the end of an iteration. */
  function Reap(b: Books): Books {
    var dead := set fd | fd in b.connections && !b.connections[fd].sender.Alive();
    Books(b.connections - dead, b.masks - dead, b.nextConnId)
  }

  // ---- Invariant ----------------------------------------------------------

  ghost predicate Watched(b: Books) {
    forall fd :: fd in b.masks <==> fd in b.connections && b.connections[fd].sender.Alive()
  }

  predicate Interested(b: Books) {
    forall fd :: fd in b.connections && fd in b.masks && Owed(b.connections[fd].sender) > 0 ==> b.masks[fd]
  }

  predicate IdsBelow(b: Books) { forall fd :: fd in b.connections ==> b.connections[fd].id < b.nextConnId }

  predicate Distinct(b: Books) {
    && IdsBelow(b)
    && forall fd, fd' :: fd in b.connections && fd' in b.connections ==>
         b.connections[fd].id == b.connections[fd'].id ==> fd == fd'
  }

  predicate Sound(s: Sender) { if s.Alive() then Ok(s) else !s.open && s.op.None? }

  ghost predicate Inv(b: Books) {
    && Watched(b) && Interested(b) && Distinct(b)
    && forall fd :: fd in b.connections ==> Sound(b.connections[fd].sender)
  }

  lemma AcceptKeepsInv(b: Books, fd: Fd)
    requires Inv(b)
    ensures Inv(Accept(b, fd))
  {
  }

  lemma CloseKeepsInv(b: Books, fd: Fd)
    requires Inv(b) && fd in b.connections
    ensures Inv(Close(b, fd)) && !Close(b, fd).connections[fd].sender.Alive()
  {
  }

  /** Storing a sender keeps the books in order provided its mask has EPOLLOUT whenever it still owes bytes. */
  lemma StoreKeepsInv(b: Books, fd: Fd, s: Sender)
    requires Inv(b) && fd in b.connections && Sound(s)
    requires b.connections[fd].sender.Alive() || !s.Alive()
    requires s.Alive() && Owed(s) > 0 ==> b.masks[fd]
    ensures Inv(Store(b, fd, s))
  {
    hide Owed;
  }

  lemma FlushIsSound(s: Sender, answers: seq<Answer>, files: Files)
    requires Ok(s)
    ensures var (t, owed) := Flush(s, answers, files);
            Sound(t) && (t.Alive() ==> owed == Owed(t)) && (!t.Alive() ==> owed == 0)
  {
    hide Flush;
    FlushKeepsOrder(s, answers, files);
  }

  lemma FlushOwesNoMore(s: Sender, answers: seq<Answer>, files: Files)
    requires Ok(s)
    ensures Flush(s, answers, files).0.Alive() && Owed(s) == 0 ==> Flush(s, answers, files).1 == 0
  {
  }

  lemma WritableThrowsIff(b: Books, ev: Event, files: Files)
    requires Inv(b) && ev.fd in b.connections
    ensures var s := b.connections[ev.fd].sender;
            HandleWritable(b, ev, false, files).1 == Threw <==> !s.Alive() || Kills(s, ev.answers, files)
    ensures HandleWritable(b, ev, true, files).1 == Returned
    ensures HandleWritable(b, ev, false, files).1 == Returned ==>
              HandleWritable(b, ev, false, files) == HandleWritable(b, ev, true, files)
  {
    hide Flush, Owed, Kills;
    var s := b.connections[ev.fd].sender;
    if s.Alive() {
      FlushIsSound(s, ev.answers, files);
      FlushKillsIff(s, ev.answers, files);
    } else {
      FlushRevivesClosed(s, ev.answers, files);
    }
  }

  /**
   * The event reaches the write branch of its handler, for a connection that is dead already or that meets
   * a fatal answer while it still owes bytes. A readable event of a dead connection does not get there.
   */
  ghost predicate Throws(b: Books, ev: Event, files: Files) {
    && ev.fd in b.connections && !ev.hangup && ev.writable
    && var s := b.connections[ev.fd].sender;
       && (ev.readable ==> s.Alive() && ev.staysOpen)
       && (!s.Alive() || Kills(s, ev.answers, files))
  }

  lemma KillsIgnoresKeepAlive(s: Sender, k: bool, answers: seq<Answer>, files: Files)
    ensures Kills(s.(keepAlive := k), answers, files) <==> Kills(s, answers, files)
  {
    hide KillsHead, KillsFile, HeadEnds;
  }

  /** Exactly when handle_event throws. Guarded it never does, and otherwise does the same. */
  lemma ThrowsIff(b: Books, ev: Event, files: Files)
    requires Inv(b)
    ensures HandleEvent(b, ev, false, files).1 == Threw <==> Throws(b, ev, files)
    ensures HandleEvent(b, ev, true, files).1 == Returned
    ensures HandleEvent(b, ev, false, files).1 == Returned ==>
        HandleEvent(b, ev, false, files) == HandleEvent(b, ev, true, files)
  {
    hide Flush, Owed, Kills;
    if ev.fd in b.connections && ev.writable && !ev.hangup {
      var s := b.connections[ev.fd].sender;
      if ev.readable && s.Alive() && ev.staysOpen {
        var s' := s.(keepAlive := ev.keepAlive);
        OwedIgnoresKeepAlive(s, ev.keepAlive);
        KillsIgnoresKeepAlive(s, ev.keepAlive, ev.answers, files);
        StoreKeepsInv(b, ev.fd, s');
        WritableThrowsIff(Store(b, ev.fd, s'), ev, files);
      } else if !ev.readable {
        WritableThrowsIff(b, ev, files);
      }
    }
  }

  lemma WritableKeepsInv(b: Books, ev: Event, guarded: bool, files: Files)
    requires Inv(b) && ev.fd in b.connections && HandleWritable(b, ev, guarded, files).1 == Returned
    ensures Inv(HandleWritable(b, ev, guarded, files).0)
  {
    WritableThrowsIff(b, ev, files);
    hide Kills;
    var s := b.connections[ev.fd].sender;
    if s.Alive() {
      FlushIsSound(s, ev.answers, files);
      FlushOwesNoMore(s, ev.answers, files);
      hide Flush;
      var (t, owed) := Flush(s, ev.answers, files);
      StoreKeepsInv(b, ev.fd, t);
      hide Owed;
      ModifyKeepsInv(Store(b, ev.fd, t), ev.fd, false, owed == 0 && t.Alive());
    }
  }

  lemma ModifyKeepsInv(b: Books, fd: Fd, out: bool, go: bool)
    requires Inv(b) && fd in b.connections
    requires go ==> fd in b.masks && (out || Owed(b.connections[fd].sender) == 0)
    ensures go ==> Inv(Modify(b, fd, out).0) && Modify(b, fd, out).1 == Returned
  {
    hide Owed;
  }

  lemma EventKeepsInv(b: Books, ev: Event, guarded: bool, files: Files)
    requires Inv(b) && HandleEvent(b, ev, guarded, files).1 == Returned
    ensures Inv(HandleEvent(b, ev, guarded, files).0)
  {
    hide Flush, Owed;
    if ev.fd in b.connections {
      var s := b.connections[ev.fd].sender;
      if ev.hangup || (ev.readable && !(s.Alive() && ev.staysOpen)) {
        CloseKeepsInv(b, ev.fd);
      } else {
        var s' := s.(keepAlive := ev.keepAlive);
        OwedIgnoresKeepAlive(s, ev.keepAlive);
        if ev.readable { StoreKeepsInv(b, ev.fd, s'); }
        var c := if ev.readable then Store(b, ev.fd, s') else b;
        if ev.writable { WritableKeepsInv(c, ev, guarded, files); }
      }
    }
  }

  lemma OwedIgnoresKeepAlive(s: Sender, k: bool)
    ensures Owed(s.(keepAlive := k)) == Owed(s) && (Sound(s) ==> Sound(s.(keepAlive := k)))
  {
  }

  /**
   * Draining one response never throws: the mask is only changed while bytes are owed, so while the connection
   * lives.
   */
  lemma DrainKeepsInv(b: Books, r: Response, files: Files)
    requires Inv(b)
    ensures Inv(DrainOne(b, r, files).0) && DrainOne(b, r, files).1 == Returned
  {
    if r.fd in b.connections && b.connections[r.fd].id == r.id && b.connections[r.fd].sender.Alive() {
      var s := Respond(b.connections[r.fd].sender, r.data, r.fileFd, r.fileSize);
      assert Ok(s);
      hide Respond;
      FlushIsSound(s, r.answers, files);
      hide Flush, Owed;
      var (t, owed) := Flush(s, r.answers, files);
      StoreThenModify(b, r.fd, t, owed);
    }
  }

  lemma StoreThenModify(b: Books, fd: Fd, t: Sender, owed: nat)
    requires Inv(b) && fd in b.connections && b.connections[fd].sender.Alive() && Sound(t)
    requires (t.Alive() ==> owed == Owed(t)) && (!t.Alive() ==> owed == 0)
    ensures var (c, outcome) := if owed > 0 then Modify(Store(b, fd, t), fd, true) else (Store(b, fd, t), Returned);
            Inv(c) && outcome == Returned
  {
    hide Owed;
    // The mask is changed to EPOLLOUT before the sender is stored, with the same result.
    var early := if owed > 0 then b.(masks := b.masks[fd := true]) else b;
    assert Inv(early);
    StoreKeepsInv(early, fd, t);
    hide Inv;
    assert Store(early, fd, t).masks == if owed > 0 then Store(b, fd, t).masks[fd := true] else Store(b, fd, t).masks;
  }

  /** After the sweep the map holds only live connections, all of them watched. */
  lemma ReapKeepsInv(b: Books)
    requires Inv(b)
    ensures Inv(Reap(b))
    ensures AllAliveAndWatched(Reap(b)) && Reap(b).masks == b.masks
  {
    hide Owed;
    forall fd | fd in b.masks ensures fd in Reap(b).masks && fd in Reap(b).connections {
    }
    assert Reap(b).masks == b.masks;
    forall fd | fd in Reap(b).connections ensures fd in b.masks && Reap(b).connections[fd].sender.Alive() {
    }
  }

  // ---- Batches ------------------------------------------------------------

  datatype Item = Listen(answers: seq<Accepted>) | Wakeup(responses: seq<Response>) | Ready(event: Event)

  function AcceptAll(b: Books, clients: seq<Fd>): Books
    decreases |clients|
  {
    if clients == [] then b else AcceptAll(Accept(b, clients[0]), clients[1..])
  }

  /** A client that epoll fails to watch has been entered all the same. */
  function AcceptUnwatched(b: Books, fd: Fd): Books { Accept(b, fd).(masks := b.masks) }

  /** accept_new_connections: clients are taken in until accept4 would block, or fails. */
  function AcceptRound(b: Books, answers: seq<Accepted>): (Books, Outcome)
    decreases |answers|
  {
    if answers == [] then (b, Returned)
    else match answers[0]
      case Client(fd) => AcceptRound(Accept(b, fd), answers[1..])
      case Unwatched(fd) => (AcceptUnwatched(b, fd), Threw)
      case Aborted => (b, Returned)
      case Refused => (b, Threw)
  }

  /**
   * A round that returns has taken in its clients; it throws exactly when accept4 fails, or epoll to watch a
   * client.
   */
  lemma {:induction false} AcceptRoundIs(b: Books, answers: seq<Accepted>)
    ensures AcceptRound(b, answers).1 == Threw <==> AcceptThrows(answers)
    ensures AcceptRound(b, answers).1 == Returned ==> AcceptRound(b, answers).0 == AcceptAll(b, Clients(answers))
    decreases |answers|
  {
    hide Accept;
    if answers != [] && answers[0].Client? { AcceptRoundIs(Accept(b, answers[0].fd), answers[1..]); }
  }

  /** A client that epoll refuses to watch is left in the map unwatched when the round throws. */
  lemma UnwatchedIsEntered(b: Books, fd: Fd)
    requires Inv(b) && fd !in b.connections
    ensures var (c, outcome) := AcceptRound(b, [Unwatched(fd)]);
            && outcome == Threw && fd in c.connections && c.connections[fd].sender.Alive() && fd !in c.masks
            && c.nextConnId == b.nextConnId + 1
  {
  }

  function DrainAll(b: Books, responses: seq<Response>, files: Files): (Books, Outcome)
    decreases |responses|
  {
    if responses == [] then (b, Returned)
    else
      var (c, outcome) := DrainOne(b, responses[0], files);
      if outcome == Threw then (c, Threw) else DrainAll(c, responses[1..], files)
  }

  function Handle(b: Books, item: Item, guarded: bool, files: Files): (Books, Outcome) {
    match item
    case Listen(answers) => AcceptRound(b, answers)
    case Wakeup(responses) => DrainAll(b, responses, files)
    case Ready(event) => HandleEvent(b, event, guarded, files)
  }

  function HandleAll(b: Books, items: seq<Item>, guarded: bool, files: Files): (Books, Outcome)
    decreases |items|
  {
    if items == [] then (b, Returned)
    else
      var (c, outcome) := Handle(b, items[0], guarded, files);
      if outcome == Threw then (c, Threw) else HandleAll(c, items[1..], guarded, files)
  }

  lemma {:induction false} AcceptAllKeepsInv(b: Books, clients: seq<Fd>)
    requires Inv(b)
    ensures Inv(AcceptAll(b, clients))
    decreases |clients|
  {
    hide Inv, Accept;
    if clients != [] { AcceptKeepsInv(b, clients[0]); AcceptAllKeepsInv(Accept(b, clients[0]), clients[1..]); }
  }

  lemma {:induction false} DrainAllKeepsInv(b: Books, responses: seq<Response>, files: Files)
    requires Inv(b)
    ensures Inv(DrainAll(b, responses, files).0) && DrainAll(b, responses, files).1 == Returned
    decreases |responses|
  {
    hide Inv, DrainOne;
    if responses != [] {
      DrainKeepsInv(b, responses[0], files);
      DrainAllKeepsInv(DrainOne(b, responses[0], files).0, responses[1..], files);
    }
  }

  /** Every handler that returns leaves the books in order. */
  lemma HandleKeepsInv(b: Books, item: Item, guarded: bool, files: Files)
    requires Inv(b) && Handle(b, item, guarded, files).1 == Returned
    ensures Inv(Handle(b, item, guarded, files).0)
  {
    hide Inv, HandleEvent, DrainAll, AcceptAll, AcceptRound;
    match item
    case Listen(answers) => AcceptRoundIs(b, answers); AcceptAllKeepsInv(b, Clients(answers));
    case Wakeup(responses) => DrainAllKeepsInv(b, responses, files);
    case Ready(event) => EventKeepsInv(b, event, guarded, files);
  }

  lemma {:induction false} HandleAllKeepsInv(b: Books, items: seq<Item>, guarded: bool, files: Files)
    requires Inv(b) && HandleAll(b, items, guarded, files).1 == Returned
    ensures Inv(HandleAll(b, items, guarded, files).0)
    decreases |items|
  {
    hide Inv, Handle;
    if items != [] {
      HandleKeepsInv(b, items[0], guarded, files);
      HandleAllKeepsInv(Handle(b, items[0], guarded, files).0, items[1..], guarded, files);
    }
  }

  /** When an item throws: an accept round that fails, or an event that gets to the write branch as described. */
  ghost predicate ItemThrows(b: Books, item: Item, files: Files) {
    match item
    case Listen(answers) => AcceptThrows(answers)
    case Wakeup(_) => false
    case Ready(event) => Throws(b, event, files)
  }

  predicate ListenThrows(item: Item) { item.Listen? && AcceptThrows(item.answers) }

  /** Exactly when handling an item throws, without the guard and with it. */
  lemma ItemThrowsIff(b: Books, item: Item, files: Files)
    requires Inv(b)
    ensures Handle(b, item, false, files).1 == Threw <==> ItemThrows(b, item, files)
    ensures Handle(b, item, true, files).1 == Threw <==> ListenThrows(item)
    ensures Handle(b, item, false, files).1 == Returned ==>
        Handle(b, item, false, files) == Handle(b, item, true, files)
  {
    hide Inv, HandleEvent, DrainAll, AcceptRound, Throws, AcceptThrows;
    match item
    case Listen(answers) => AcceptRoundIs(b, answers);
    case Wakeup(responses) => DrainAllKeepsInv(b, responses, files);
    case Ready(event) => ThrowsIff(b, event, files);
  }

  /** Some accept round of the batch fails. */
  predicate AcceptFails(items: seq<Item>) { exists i :: 0 <= i < |items| && ListenThrows(items[i]) }

  lemma AcceptFailsFirst(items: seq<Item>)
    requires items != []
    ensures AcceptFails(items) <==> ListenThrows(items[0]) || AcceptFails(items[1..])
  {
    hide ListenThrows;
    if i :| 0 <= i < |items[1..]| && ListenThrows(items[1..][i]) { assert items[i + 1] == items[1..][i]; }
    if i :| 0 <= i < |items| && ListenThrows(items[i]) {
      if i > 0 { assert items[1..][i - 1] == items[i]; }
    }
  }

  /**
   * With the guard a batch throws only from an accept round, and a batch that does not throw without it is
   * handled the same way.
   */
  lemma {:induction false} GuardedBatch(b: Books, items: seq<Item>, files: Files)
    requires Inv(b)
    ensures HandleAll(b, items, true, files).1 == Threw <==> AcceptFails(items)
    ensures HandleAll(b, items, false, files).1 == Returned ==>
        HandleAll(b, items, false, files) == HandleAll(b, items, true, files)
    decreases |items|
  {
    hide Inv, Handle, ItemThrows, ListenThrows;
    if items != [] {
      AcceptFailsFirst(items);
      hide AcceptFails;
      ItemThrowsIff(b, items[0], files);
      if !ListenThrows(items[0]) {
        HandleKeepsInv(b, items[0], true, files);
        GuardedBatch(Handle(b, items[0], true, files).0, items[1..], files);
      }
    }
  }

  /** The i-th item throws, after what the guarded loop would have made of the items before it. */
  ghost predicate ThrowsAt(b: Books, items: seq<Item>, i: nat, files: Files) {
    && i < |items| && !AcceptFails(items[..i])
    && ItemThrows(HandleAll(b, items[..i], true, files).0, items[i], files)
  }

  ghost predicate BatchThrows(b: Books, items: seq<Item>, files: Files) {
    exists i: nat :: ThrowsAt(b, items, i, files)
  }

  /** Exactly when a batch throws out of run. */
  lemma {:induction false} BatchThrowsIff(b: Books, items: seq<Item>, files: Files)
    requires Inv(b)
    ensures HandleAll(b, items, false, files).1 == Threw <==> BatchThrows(b, items, files)
    decreases |items|
  {
    hide Inv, HandleEvent, DrainAll, AcceptRound, ItemThrows, AcceptFails, ListenThrows;
    if items != [] {
      var first, rest := items[0], items[1..];
      ItemThrowsIff(b, first, files);
      FrontStep(b, items, 0, files);
      if ItemThrows(b, first, files) {
        assert ThrowsAt(b, items, 0, files);
      } else {
        ListenIsAnItem(b, first, files);
        var c := Handle(b, first, true, files).0;
        HandleKeepsInv(b, first, true, files);
        BatchThrowsIff(c, rest, files);
        hide Handle;
        BatchThrowsLater(b, items, files);
      }
    }
  }

  lemma ListenIsAnItem(b: Books, item: Item, files: Files)
    ensures ListenThrows(item) ==> ItemThrows(b, item, files)
  {
  }

  lemma BatchThrowsLater(b: Books, items: seq<Item>, files: Files)
    requires items != [] && !ItemThrows(b, items[0], files) && !ListenThrows(items[0])
    requires Handle(b, items[0], true, files).1 == Returned
    ensures BatchThrows(b, items, files) <==> BatchThrows(Handle(b, items[0], true, files).0, items[1..], files)
  {
    hide Handle, ItemThrows, ListenThrows, AcceptFails;
    var c, rest := Handle(b, items[0], true, files).0, items[1..];
    FrontStep(b, items, 0, files);
    if i: nat :| ThrowsAt(b, items, i, files) {
      assert i > 0;
      FrontStep(b, items, i, files);
      assert ThrowsAt(c, rest, i - 1, files);
    }
    if i: nat :| ThrowsAt(c, rest, i, files) {
      FrontStep(b, items, i + 1, files);
      assert ThrowsAt(b, items, i + 1, files);
    }
  }

  lemma FrontStep(b: Books, items: seq<Item>, i: nat, files: Files)
    requires items != [] && i <= |items|
    ensures i == 0 ==> HandleAll(b, items[..i], true, files) == (b, Returned) && !AcceptFails(items[..i])
    ensures i > 0 ==> (AcceptFails(items[..i]) <==> ListenThrows(items[0]) || AcceptFails(items[1..][..i - 1]))
    ensures i > 0 && Handle(b, items[0], true, files).1 == Returned ==>
              HandleAll(b, items[..i], true, files) ==
                  HandleAll(Handle(b, items[0], true, files).0, items[1..][..i - 1], true, files)
  {
    hide Handle, ListenThrows;
    if i > 0 {
      assert items[..i][1..] == items[1..][..i - 1];
      AcceptFailsFirst(items[..i]);
    }
  }

  // ---- Closed is final ----------------------------------------------------

  /** The same connection object, closed before and after. */
  predicate StaysClosed(b: Books, c: Books) {
    forall fd :: fd in b.connections && !b.connections[fd].sender.Alive() ==>
      fd in c.connections && c.connections[fd].id == b.connections[fd].id && !c.connections[fd].sender.Alive()
  }

  /** Within a batch no handler brings a closed connection back, provided the guard is there. */
  lemma ClosedIsFinal(b: Books, item: Item, files: Files)
    requires Inv(b)
    ensures StaysClosed(b, Handle(b, item, true, files).0)
  {
    hide Inv, StaysClosed, AcceptRound, DrainAll, HandleEvent;
    match item
    case Listen(answers) => AcceptRoundStaysClosed(b, answers);
    case Wakeup(responses) => DrainAllStaysClosed(b, responses, files);
    case Ready(event) => EventStaysClosed(b, event, files);
  }

  lemma EventStaysClosed(b: Books, ev: Event, files: Files)
    ensures StaysClosed(b, HandleEvent(b, ev, true, files).0)
  {
    hide Flush;
  }

  lemma {:induction false} AcceptRoundStaysClosed(b: Books, answers: seq<Accepted>)
    ensures StaysClosed(b, AcceptRound(b, answers).0)
    decreases |answers|
  {
    if answers != [] && answers[0].Client? { AcceptRoundStaysClosed(Accept(b, answers[0].fd), answers[1..]); }
  }

  lemma {:induction false} DrainAllStaysClosed(b: Books, responses: seq<Response>, files: Files)
    ensures StaysClosed(b, DrainAll(b, responses, files).0)
    decreases |responses|
  {
    hide Flush, Respond;
    if responses != [] { DrainAllStaysClosed(DrainOne(b, responses[0], files).0, responses[1..], files); }
  }

  /** No connection with this id is alive. */
  predicate NoneAlive(b: Books, id: nat) {
    forall fd :: fd in b.connections && b.connections[fd].id == id ==> !b.connections[fd].sender.Alive()
  }

  lemma {:induction false} AcceptAllKeepsDead(b: Books, clients: seq<Fd>, id: nat)
    requires id < b.nextConnId && NoneAlive(b, id)
    ensures b.nextConnId <= AcceptAll(b, clients).nextConnId && NoneAlive(AcceptAll(b, clients), id)
    decreases |clients|
  {
    if clients != [] { AcceptAllKeepsDead(Accept(b, clients[0]), clients[1..], id); }
  }

  lemma {:induction false} DrainAllKeepsDead(b: Books, responses: seq<Response>, files: Files, id: nat)
    requires NoneAlive(b, id)
    ensures DrainAll(b, responses, files).0.nextConnId == b.nextConnId && NoneAlive(DrainAll(b, responses, files).0, id)
    decreases |responses|
  {
    hide Flush, Respond;
    if responses != [] { DrainAllKeepsDead(DrainOne(b, responses[0], files).0, responses[1..], files, id); }
  }

  lemma {:induction false} AcceptRoundKeepsDead(b: Books, answers: seq<Accepted>, id: nat)
    requires id < b.nextConnId && NoneAlive(b, id)
    ensures b.nextConnId <= AcceptRound(b, answers).0.nextConnId && NoneAlive(AcceptRound(b, answers).0, id)
    decreases |answers|
  {
    if answers != [] && answers[0].Client? { AcceptRoundKeepsDead(Accept(b, answers[0].fd), answers[1..], id); }
  }

  lemma HandleKeepsDead(b: Books, item: Item, files: Files, id: nat)
    requires id < b.nextConnId && NoneAlive(b, id)
    ensures b.nextConnId <= Handle(b, item, true, files).0.nextConnId && NoneAlive(Handle(b, item, true, files).0, id)
  {
    hide Flush, Respond;
    match item
    case Listen(answers) => AcceptRoundKeepsDead(b, answers, id);
    case Wakeup(responses) => DrainAllKeepsDead(b, responses, files, id);
    case Ready(event) =>
  }

  lemma {:induction false} HandleAllKeepsDead(b: Books, items: seq<Item>, files: Files, id: nat)
    requires id < b.nextConnId && NoneAlive(b, id)
    ensures b.nextConnId <= HandleAll(b, items, true, files).0.nextConnId
    ensures NoneAlive(HandleAll(b, items, true, files).0, id)
    decreases |items|
  {
    hide Handle, NoneAlive;
    if items != [] {
      HandleKeepsDead(b, items[0], files, id);
      HandleAllKeepsDead(Handle(b, items[0], true, files).0, items[1..], files, id);
    }
  }

  /** Without the guard a write event for an idle connection that died earlier in the batch revives it, and throws. */
  lemma UnguardedRevives(b: Books, ev: Event, files: Files)
    requires Inv(b) && ev.fd in b.connections && !ev.hangup && !ev.readable && ev.writable
    requires !b.connections[ev.fd].sender.Alive()
    ensures var (c, outcome) := HandleEvent(b, ev, false, files);
            outcome == Threw && (c.connections[ev.fd].sender.Alive() <==> b.connections[ev.fd].sender.out == "")
  {
    FlushRevivesClosed(b.connections[ev.fd].sender, ev.answers, files);
    hide Flush;
  }

  // ---- What a handler leaves ----------------------------------------------

  /** The event gets to the flush of a live connection. */
  predicate Flushes(b: Books, ev: Event) {
    && ev.fd in b.connections && b.connections[ev.fd].sender.Alive()
    && !ev.hangup && (ev.readable ==> ev.staysOpen) && ev.writable
  }

  /** After its write event a live connection is watched for writing exactly while it owes bytes. */
  lemma MaskAfterEvent(b: Books, ev: Event, files: Files)
    requires Inv(b) && Flushes(b, ev)
    ensures var c := HandleEvent(b, ev, true, files).0;
            ev.fd in c.connections && (c.connections[ev.fd].sender.Alive() ==>
              ev.fd in c.masks && (c.masks[ev.fd] <==> Owed(c.connections[ev.fd].sender) > 0))
  {
    hide Flush, Owed, Kills;
    var s := b.connections[ev.fd].sender;
    var s' := if ev.readable then s.(keepAlive := ev.keepAlive) else s;
    OwedIgnoresKeepAlive(s, ev.keepAlive);
    FlushIsSound(s', ev.answers, files);
    NothingComesToOwe(s', ev.answers, files);
  }

  lemma NothingComesToOwe(s: Sender, answers: seq<Answer>, files: Files)
    requires Ok(s)
    ensures var t := Flush(s, answers, files).0; t.Alive() && Owed(t) > 0 ==> Owed(s) > 0
  {
    FlushKeepsOrder(s, answers, files);
    FlushOwesNoMore(s, answers, files);
  }

  /** A drained response that leaves bytes owed sets EPOLLOUT; one that was sent at once leaves the mask as it was. */
  lemma MaskAfterDrain(b: Books, r: Response, files: Files)
    requires Inv(b) && Serves(b, r.fd, r.id)
    ensures var c := DrainOne(b, r, files).0;
            r.fd in c.connections && (c.connections[r.fd].sender.Alive() ==>
              r.fd in c.masks && c.masks[r.fd] == (Owed(c.connections[r.fd].sender) > 0 || b.masks[r.fd]))
  {
    hide Flush, Owed;
    var s := Respond(b.connections[r.fd].sender, r.data, r.fileFd, r.fileSize);
    assert Ok(s);
    hide Respond;
    FlushIsSound(s, r.answers, files);
  }

  /** A new client owes nothing and is not watched for writing. */
  lemma MaskAfterAccept(b: Books, fd: Fd)
    requires fd !in b.connections
    ensures var c := Accept(b, fd);
            && fd in c.masks && !c.masks[fd] && c.connections[fd].id == b.nextConnId
            && Owed(c.connections[fd].sender) == 0 && c.connections[fd].sender.keepAlive
  {
  }

  /** The entry and the mask under a number are the same. */
  predicate SameUnder(b: Books, c: Books, fd: Fd) {
    && (fd in c.connections <==> fd in b.connections)
    && (fd in c.connections ==> c.connections[fd] == b.connections[fd])
    && (fd in c.masks <==> fd in b.masks)
    && (fd in c.masks ==> c.masks[fd] == b.masks[fd])
  }

  /** Events touch no other connection. */
  lemma EventTouchesItsOwn(b: Books, ev: Event, fd: Fd, files: Files)
    requires fd != ev.fd
    ensures SameUnder(b, HandleEvent(b, ev, true, files).0, fd)
  {
    hide Flush;
  }

  /** Neither do responses. */
  lemma DrainTouchesItsOwn(b: Books, r: Response, fd: Fd, files: Files)
    requires fd != r.fd
    ensures SameUnder(b, DrainOne(b, r, files).0, fd)
  {
    hide Flush, Respond;
  }

  /** What an event does to a connection that survives it: it learns whether to be kept alive, and sends in order. */
  lemma EventSends(b: Books, ev: Event, files: Files)
    requires Inv(b) && ev.fd in b.connections && b.connections[ev.fd].sender.Alive()
    requires HandleEvent(b, ev, true, files).0.connections[ev.fd].sender.Alive()
    ensures var s, t := b.connections[ev.fd].sender, HandleEvent(b, ev, true, files).0.connections[ev.fd].sender;
            && t.keepAlive == (if ev.readable then ev.keepAlive else s.keepAlive)
            && s.wire <= t.wire <= Total(s, files)
            && (!ev.writable ==> t == s.(keepAlive := t.keepAlive))
            && (ev.writable ==>
                  && StillSending(s, t, Owed(t), files)
                  && (Owed(t) == 0 ==> AllSent(s.(keepAlive := t.keepAlive), t, files)))
  {
    hide Flush;
    var s := b.connections[ev.fd].sender;
    var s' := if ev.readable then s.(keepAlive := ev.keepAlive) else s;
    FlushKeepsOrder(s', ev.answers, files);
    PrefixOfTotal(s, files);
    hide Unsent;
  }

  lemma PrefixOfTotal(s: Sender, files: Files)
    ensures s.wire <= Total(s, files)
  {
    hide FileTail;
  }

  /**
   * What draining a response does to an idle connection: the peer sees its text, then its file, in full or as
   * a prefix.
   */
  lemma DrainSends(b: Books, r: Response, files: Files)
    requires Inv(b) && Serves(b, r.fd, r.id)
    requires b.connections[r.fd].sender.out == "" && b.connections[r.fd].sender.op.None?
    ensures var s, t := b.connections[r.fd].sender, DrainOne(b, r, files).0.connections[r.fd].sender;
            var body := if r.fileFd >= 0 then files(r.fileFd)[..Min(r.fileSize, |files(r.fileFd)|)] else "";
            && s.wire <= t.wire <= s.wire + r.data + body
            && (t.Alive() && Owed(t) == 0 ==> t.wire == s.wire + r.data + body)
            && (t.Alive() && Owed(t) > 0 ==> t.state == State.Writing)
  {
    var s := b.connections[r.fd].sender;
    OneResponseInFlight(s, r.data, r.fileFd, r.fileSize, [r.answers], files);
    var q := Respond(s, r.data, r.fileFd, r.fileSize);
    assert Ok(q) && q.state == State.Writing;
    hide Respond;
    FlushKeepsOrder(q, r.answers, files);
    OneFlush(q, r.answers, files);
    hide Flush, FlushAll;
  }

  lemma OneFlush(s: Sender, answers: seq<Answer>, files: Files)
    requires Ok(s)
    ensures var (t, owed) := Flush(s, answers, files);
            FlushAll(s, [answers], files) == (t, if t.Alive() then Owed(t) else 0)
  {
    hide Flush;
    assert [answers][1..] == [];
    var t := Flush(s, answers, files).0;
    assert FlushAll(t, [], files) == (t, if t.Alive() then Owed(t) else 0);
  }

  // ---- Who closes a connection --------------------------------------------

  lemma NothingOwedNothingKilled(s: Sender, answers: seq<Answer>, files: Files)
    requires Ok(s) && Owed(s) == 0
    ensures !Kills(s, answers, files)
  {
  }

  /** Exactly which events close a live connection. */
  lemma EventClosesIff(b: Books, ev: Event, fd: Fd, files: Files)
    requires Inv(b) && fd in b.connections && b.connections[fd].sender.Alive()
    ensures var s, c := b.connections[fd].sender, HandleEvent(b, ev, true, files).0;
            fd in c.connections && (!c.connections[fd].sender.Alive() <==>
              ev.fd == fd &&
                  (ev.hangup || (ev.readable && !ev.staysOpen) || (ev.writable && Kills(s, ev.answers, files))))
  {
    hide Flush, Owed, Kills;
    var s := b.connections[fd].sender;
    var s' := if ev.readable then s.(keepAlive := ev.keepAlive) else s;
    KillsIgnoresKeepAlive(s, ev.keepAlive, ev.answers, files);
    FlushKillsIff(s', ev.answers, files);
  }

  /**
   * The loop closes no connection of its own accord: one that owes nothing, be it because the response to
   * a failed parse is sent and it is not to be kept alive, stays open until the client hangs up or reading
   * ends.
   */
  lemma NotKeptAliveStaysOpen(b: Books, ev: Event, fd: Fd, files: Files)
    requires Inv(b) && fd in b.connections && b.connections[fd].sender.Alive() && Owed(b.connections[fd].sender) == 0
    requires ev.fd == fd ==> !ev.hangup && (ev.readable ==> ev.staysOpen)
    ensures var c := HandleEvent(b, ev, true, files).0; fd in c.connections && c.connections[fd].sender.Alive()
  {
    hide HandleEvent, Kills;
    EventClosesIff(b, ev, fd, files);
    NothingOwedNothingKilled(b.connections[fd].sender, ev.answers, files);
  }

  /** A drained response closes its connection exactly when its flush meets a fatal answer with bytes owed. */
  lemma DrainClosesIff(b: Books, r: Response, fd: Fd, files: Files)
    requires Inv(b) && fd in b.connections && b.connections[fd].sender.Alive()
    ensures var s, c := b.connections[fd].sender, DrainOne(b, r, files).0;
            fd in c.connections && (!c.connections[fd].sender.Alive() <==>
              r.fd == fd && r.id == b.connections[fd].id &&
                  Kills(Respond(s, r.data, r.fileFd, r.fileSize), r.answers, files))
  {
    hide Flush, Owed, Kills;
    if r.fd == fd && r.id == b.connections[fd].id {
      var s := Respond(b.connections[fd].sender, r.data, r.fileFd, r.fileSize);
      assert Ok(s);
      hide Respond;
      FlushKillsIff(s, r.answers, files);
    }
  }

  // ---- Whole runs and the object ------------------------------------------

  /** Iterations of run: a batch, then the sweep; an exception ends them. */
  function RunBatches(b: Books, batches: seq<seq<Item>>, files: Files): (Books, Outcome)
    decreases |batches|
  {
    if batches == [] then (b, Returned)
    else
      var (c, outcome) := HandleAll(b, batches[0], true, files);
      if outcome == Threw then (c, Threw) else RunBatches(Reap(c), batches[1..], files)
  }

  predicate AllAliveAndWatched(b: Books) {
    b.masks.Keys == b.connections.Keys && forall fd :: fd in b.connections ==> b.connections[fd].sender.Alive()
  }

  const NO_BOOKS := Books(map[], map[], 0)

  /**
   * On every run of the guarded loop, as long as no accept round fails: epoll watches exactly the live
   * connections, every one of them that owes bytes is watched for writing, and after an iteration the map
   * holds live connections only. The run throws exactly when an accept round fails.
   */
  lemma {:induction false} EveryRun(b: Books, batches: seq<seq<Item>>, files: Files)
    requires Inv(b)
    ensures var (c, outcome) := RunBatches(b, batches, files);
            && (outcome == Threw <==> exists i :: 0 <= i < |batches| && AcceptFails(batches[i]))
            && (outcome == Returned ==> Inv(c) && (batches != [] ==> AllAliveAndWatched(c)))
    decreases |batches|
  {
    hide Inv, Reap, HandleAll, AcceptFails;
    if batches != [] {
      var rest := batches[1..];
      GuardedBatch(b, batches[0], files);
      if !AcceptFails(batches[0]) {
        HandleAllKeepsInv(b, batches[0], true, files);
        ReapKeepsInv(HandleAll(b, batches[0], true, files).0);
        EveryRun(Reap(HandleAll(b, batches[0], true, files).0), rest, files);
        if i :| 0 <= i < |rest| && AcceptFails(rest[i]) { assert batches[i + 1] == rest[i]; }
        if i :| 0 <= i < |batches| && AcceptFails(batches[i]) { assert rest[i - 1] == batches[i]; }
      }
    }
  }

  lemma {:induction false} RunBatchesKeepDead(b: Books, batches: seq<seq<Item>>, files: Files, id: nat)
    requires id < b.nextConnId && NoneAlive(b, id)
    ensures NoneAlive(RunBatches(b, batches, files).0, id)
    decreases |batches|
  {
    hide HandleAll;
    if batches != [] {
      HandleAllKeepsDead(b, batches[0], files, id);
      RunBatchesKeepDead(Reap(HandleAll(b, batches[0], true, files).0), batches[1..], files, id);
    }
  }

  /**
   * Once no connection with a given id is alive, because it was closed or was never entered, none is for
   * the rest of the batch and of the run, provided the guard is there.
   */
  lemma ClosedForGood(b: Books, items: seq<Item>, batches: seq<seq<Item>>, files: Files, id: nat)
    requires id < b.nextConnId && NoneAlive(b, id)
    ensures NoneAlive(HandleAll(b, items, true, files).0, id)
    ensures NoneAlive(RunBatches(Reap(HandleAll(b, items, true, files).0), batches, files).0, id)
  {
    hide HandleAll, RunBatches;
    HandleAllKeepsDead(b, items, files, id);
    RunBatchesKeepDead(Reap(HandleAll(b, items, true, files).0), batches, files, id);
  }

  const WRITE_EVENT := Event(5, false, false, true, true, true, [])

  const FILE_RESPONSE := Response(5, 0, "a", 7, 1, [Sent(1), Fatal])

  /** The books once one client was accepted. */
  const ONE_CLIENT := Books(map[5 := Conn(0, NEW_SENDER)], map[5 := false], 1)

  lemma OneClientIsReached(files: Files)
    ensures RunBatches(NO_BOOKS, [[Listen([Client(5)])]], files) == (ONE_CLIENT, Returned) && Inv(ONE_CLIENT)
  {
    var b := AcceptAll(NO_BOOKS, [5]);
    assert b == ONE_CLIENT;
    AcceptRoundIs(NO_BOOKS, [Client(5)]);
    assert Clients([Client(5)]) == [5];
    assert HandleAll(NO_BOOKS, [Listen([Client(5)])], true, files) == (b, Returned);
    assert Reap(b) == b;
  }

  /** The head goes out, and the peer is found gone at the file. */
  lemma FileResponseDies(files: Files)
    ensures var s := Flush(Respond(NEW_SENDER, "a", 7, 1), [Sent(1), Fatal], files).0; !s.Alive() && s.out == ""
  {
    var s := Respond(NEW_SENDER, "a", 7, 1);
    assert s.out == "a";
    var t := s.(out := "", wire := "a");
    assert s.out[1..] == "" && s.wire + s.out[..1] == "a" && Rest([Sent(1), Fatal]) == [Fatal];
    assert SendLoop(s, [Sent(1), Fatal]) == SendLoop(t, [Fatal]) == (t, [Fatal], Going);
  }

  /**
   * Such a batch can come up: a client is accepted; in a later batch its response is drained, whose file
   * meets a reset peer, and the write event that epoll had already returned for it follows. The connection
   * was closed, and is alive again when the exception leaves the loop.
   */
  lemma ThrowsInPractice(files: Files)
    ensures RunBatches(NO_BOOKS, [[Listen([Client(5)])]], files) == (ONE_CLIENT, Returned)
    ensures var batch := [Wakeup([FILE_RESPONSE]), Ready(WRITE_EVENT)];
            && BatchThrows(ONE_CLIENT, batch, files)
            && !Serves(HandleAll(ONE_CLIENT, batch[..1], false, files).0, 5, 0)
            && HandleAll(ONE_CLIENT, batch, false, files).1 == Threw
            && Serves(HandleAll(ONE_CLIENT, batch, false, files).0, 5, 0)
  {
    OneClientIsReached(files);
    FileResponseDies(files);
    hide Flush, Respond;
    var batch := [Wakeup([FILE_RESPONSE]), Ready(WRITE_EVENT)];
    var b := DrainOne(ONE_CLIENT, FILE_RESPONSE, files).0;
    DrainKeepsInv(ONE_CLIENT, FILE_RESPONSE, files);
    hide Inv;
    assert b.connections[5].id == 0 && b.connections[5].sender.out == "";
    assert DrainAll(ONE_CLIENT, [FILE_RESPONSE], files) == (b, Returned);
    assert batch[..1] == [batch[0]] && batch[1..] == [batch[1]];
    assert HandleAll(ONE_CLIENT, batch[..1], false, files) == (b, Returned);
    UnguardedRevives(b, WRITE_EVENT, files);
    var c := HandleEvent(b, WRITE_EVENT, false, files);
    assert c.0.connections[5].id == 0;
    assert HandleAll(ONE_CLIENT, batch, false, files) == c;
    BatchThrowsIff(ONE_CLIENT, batch, files);
  }

  // ---- Clients that get lost ----------------------------------------------

  lemma {:induction false} AcceptAllEntries(b: Books, clients: seq<Fd>)
    ensures var c := AcceptAll(b, clients);
            && c.nextConnId == b.nextConnId + |clients|
            && (forall fd :: fd in c.connections <==> fd in b.connections || fd in clients)
            && (forall fd :: fd in b.connections ==> c.connections[fd] == b.connections[fd])
    decreases |clients|
  {
    if clients != [] { AcceptAllEntries(Accept(b, clients[0]), clients[1..]); }
  }

  /** Of several clients accepted together, the i-th is served exactly when its number is not taken. */
  lemma {:induction false} AcceptAllServesIff(b: Books, clients: seq<Fd>, i: nat)
    requires IdsBelow(b) && i < |clients|
    ensures Serves(AcceptAll(b, clients), clients[i], b.nextConnId + i) <==>
        clients[i] !in b.connections && clients[i] !in clients[..i]
    ensures !Serves(AcceptAll(b, clients), clients[i], b.nextConnId + i) ==>
        NoneAlive(AcceptAll(b, clients), b.nextConnId + i)
    decreases |clients|
  {
    var c, rest := Accept(b, clients[0]), clients[1..];
    assert AcceptAll(b, clients) == AcceptAll(c, rest);
    AcceptAllEntries(c, rest);
    if clients[0] in b.connections { AcceptAllKeepsDead(c, rest, b.nextConnId); }
    if i > 0 {
      AcceptAllServesIff(c, rest, i - 1);
      assert clients[..i] == [clients[0]] + rest[..i - 1];
    }
    hide AcceptAll;
  }

  /** The numbers under which clients were accepted in a batch. */
  function Listened(items: seq<Item>): seq<Fd> {
    if items == [] then [] else (if items[0].Listen? then Clients(items[0].answers) else []) + Listened(items[1..])
  }

  lemma HandleEntries(b: Books, item: Item, files: Files)
    requires Inv(b) && !ListenThrows(item)
    ensures var c := Handle(b, item, true, files).0;
            && c.nextConnId == b.nextConnId + |Listened([item])|
            && (forall fd :: fd in c.connections <==> fd in b.connections || fd in Listened([item]))
  {
    hide Flush, Respond, Inv, AcceptRound, AcceptThrows;
    match item
    case Listen(answers) =>
      AcceptRoundIs(b, answers);
      AcceptAllEntries(b, Clients(answers));
      assert Listened([item]) == Clients(answers) + Listened([]);
    case Wakeup(responses) => DrainAllEntries(b, responses, files);
    case Ready(event) =>
  }

  lemma {:induction false} DrainAllEntries(b: Books, responses: seq<Response>, files: Files)
    ensures var c := DrainAll(b, responses, files).0;
            c.nextConnId == b.nextConnId && c.connections.Keys == b.connections.Keys
    decreases |responses|
  {
    hide Flush, Respond;
    if responses != [] { DrainAllEntries(DrainOne(b, responses[0], files).0, responses[1..], files); }
  }

  /** Within a batch numbers are only ever added. */
  lemma {:induction false} HandleAllEntries(b: Books, items: seq<Item>, files: Files)
    requires Inv(b) && !AcceptFails(items)
    ensures var c := HandleAll(b, items, true, files).0;
            && c.nextConnId == b.nextConnId + |Listened(items)|
            && (forall fd :: fd in c.connections <==> fd in b.connections || fd in Listened(items))
    decreases |items|
  {
    hide Inv, Handle, ListenThrows;
    if items != [] {
      AcceptFailsFirst(items);
      hide AcceptFails;
      ItemThrowsIff(b, items[0], files);
      HandleEntries(b, items[0], files);
      HandleKeepsInv(b, items[0], true, files);
      HandleAllEntries(Handle(b, items[0], true, files).0, items[1..], files);
      assert Listened(items) == Listened([items[0]]) + Listened(items[1..]);
    }
  }

  lemma {:induction false} HandleAllSnoc(b: Books, items: seq<Item>, item: Item, files: Files)
    requires Inv(b) && !AcceptFails(items)
    ensures HandleAll(b, items + [item], true, files) == Handle(HandleAll(b, items, true, files).0, item, true, files)
    decreases |items|
  {
    hide Inv, Handle, ListenThrows;
    if items == [] {
      assert items + [item] == [item];
    } else {
      AcceptFailsFirst(items);
      hide AcceptFails;
      ItemThrowsIff(b, items[0], files);
      HandleKeepsInv(b, items[0], true, files);
      assert (items + [item])[1..] == items[1..] + [item];
      HandleAllSnoc(Handle(b, items[0], true, files).0, items[1..], item, files);
    }
  }

  lemma InvBelow(b: Books)
    requires Inv(b)
    ensures IdsBelow(b)
  {
  }

  lemma ListenAccepts(b: Books, answers: seq<Accepted>, files: Files)
    requires !AcceptThrows(answers)
    ensures Handle(b, Listen(answers), true, files) == (AcceptAll(b, Clients(answers)), Returned)
  {
    AcceptRoundIs(b, answers);
  }

  lemma ReapServes(b: Books, fd: Fd, id: nat)
    ensures Serves(Reap(b), fd, id) <==> Serves(b, fd, id)
  {
  }

  /**
   * A client accepted in the course of a batch, no accept round failing, is served exactly when its number
   * was not held by any connection, dead ones included, when the batch began, nor given to a client accepted
   * earlier in it. A client that is not served has no live connection, and by ClosedForGood never will.
   */
  lemma ServedIff(b: Books, items: seq<Item>, answers: seq<Accepted>, i: nat, files: Files)
    requires Inv(b) && !AcceptFails(items) && !AcceptThrows(answers) && i < |Clients(answers)|
    ensures var c := HandleAll(b, items + [Listen(answers)], true, files).0;
            var fd, id := Clients(answers)[i], b.nextConnId + |Listened(items)| + i;
            && (Serves(c, fd, id) <==> fd !in b.connections && fd !in Listened(items) && fd !in Clients(answers)[..i])
            && (Serves(c, fd, id) <==> Serves(Reap(c), fd, id))
            && (!Serves(c, fd, id) ==> id < c.nextConnId && NoneAlive(c, id))
  {
    hide *;
    var c, clients := HandleAll(b, items, true, files).0, Clients(answers);
    GuardedBatch(b, items, files);
    HandleAllKeepsInv(b, items, true, files);
    InvBelow(c);
    HandleAllEntries(b, items, files);
    HandleAllSnoc(b, items, Listen(answers), files);
    ListenAccepts(c, answers, files);
    AcceptAllServesIff(c, clients, i);
    AcceptAllEntries(c, clients);
    ReapServes(AcceptAll(c, clients), clients[i], c.nextConnId + i);
  }

  const HANG_UP := Event(5, true, false, false, false, true, [])

  /** Such a client can come up: number 5 is closed by a hangup and given out again within one batch. */
  lemma LostInPractice(files: Files)
    ensures RunBatches(NO_BOOKS, [[Listen([Client(5)])]], files) == (ONE_CLIENT, Returned)
    ensures RunBatches(ONE_CLIENT, [[Ready(HANG_UP), Listen([Client(5)])]], files) == (Books(map[], map[], 2), Returned)
  {
    OneClientIsReached(files);
    var b := Close(ONE_CLIENT, 5);
    var c := AcceptAll(b, [5]);
    assert c == b.(nextConnId := 2);
    AcceptRoundIs(b, [Client(5)]);
    assert Clients([Client(5)]) == [5];
    var items := [Ready(HANG_UP), Listen([Client(5)])];
    assert HandleAll(ONE_CLIENT, items, true, files) == HandleAll(b, [Listen([Client(5)])], true, files) ==
        (c, Returned);
    assert Reap(c) == Books(map[], map[], 2);
  }

  class EventLoop {
    const guarded: bool
    var connections: map<Fd, Conn>
    var masks: map<Fd, bool>
    var nextConnId: nat

    function View(): Books
      reads this
    {
      Books(connections, masks, nextConnId)
    }

    constructor (guarded: bool)
      ensures View() == NO_BOOKS && Inv(View()) && this.guarded == guarded
    {
      this.guarded := guarded;
      connections, masks, nextConnId := map[], map[], 0;
    }

    method AcceptNewConnections(answers: seq<Accepted>) returns (outcome: Outcome)
      modifies this
      ensures (View(), outcome) == AcceptRound(old(View()), answers)
    {
      var i := 0;
      while i < |answers| && !answers[i].Aborted?
        invariant i <= |answers|
        invariant AcceptRound(View(), answers[i..]) == AcceptRound(old(View()), answers)
      {
        assert answers[i..][1..] == answers[i + 1..];
        if answers[i].Refused? { return Threw; }
        var fd, id := answers[i].fd, nextConnId;
        nextConnId := nextConnId + 1;
        var entered := fd !in connections;
        if entered { connections := connections[fd := Conn(id, NEW_SENDER)]; }
        if answers[i].Unwatched? { return Threw; }
        if entered { masks := masks[fd := false]; }
        i := i + 1;
      }
      return Returned;
    }

    method DrainPendingWrites(responses: seq<Response>, files: Files) returns (outcome: Outcome)
      requires Inv(View())
      modifies this
      ensures (View(), outcome) == DrainAll(old(View()), responses, files) && Inv(View()) && outcome == Returned
    {
      hide Inv, DrainOne;
      DrainAllKeepsInv(View(), responses, files);
      var i := 0;
      while i < |responses|
        invariant i <= |responses| && Inv(View())
        invariant DrainAll(View(), responses[i..], files) == DrainAll(old(View()), responses, files)
      {
        assert responses[i..][1..] == responses[i + 1..];
        DrainKeepsInv(View(), responses[i], files);
        DrainResponse(responses[i], files);
        i := i + 1;
      }
      assert responses[i..] == [];
      return Returned;
    }

    method DrainResponse(r: Response, files: Files)
      requires Inv(View())
      modifies this
      ensures View() == DrainOne(old(View()), r, files).0 && Inv(View())
    {
      hide Inv, Flush, Respond;
      DrainKeepsInv(View(), r, files);
      if r.fd in connections && connections[r.fd].id == r.id && connections[r.fd].sender.Alive() {
        var (s, owed) := Flush(Respond(connections[r.fd].sender, r.data, r.fileFd, r.fileSize), r.answers, files);
        if !s.Alive() { masks := masks - {r.fd}; }
        connections := connections[r.fd := connections[r.fd].(sender := s)];
        if owed > 0 {
          masks := masks[r.fd := true];
        }
      }
    }

    method HandleReady(ev: Event, files: Files) returns (outcome: Outcome)
      modifies this
      ensures (View(), outcome) == HandleEvent(old(View()), ev, guarded, files)
    {
      hide Flush;
      if ev.fd !in connections { return Returned; }
      if ev.hangup {
        CloseConnection(ev.fd);
        return Returned;
      }
      if ev.readable {
        if !connections[ev.fd].sender.Alive() || !ev.staysOpen {
          CloseConnection(ev.fd);
          return Returned;
        }
        var c := connections[ev.fd];
        connections := connections[ev.fd := c.(sender := c.sender.(keepAlive := ev.keepAlive))];
      }
      if ev.writable && !(guarded && !connections[ev.fd].sender.Alive()) {
        var before := connections[ev.fd].sender;
        var (s, owed) := Flush(before, ev.answers, files);
        connections := connections[ev.fd := connections[ev.fd].(sender := s)];
        if before.Alive() && !s.Alive() { masks := masks - {ev.fd}; }
        if owed == 0 && !(guarded && !s.Alive()) {
          if ev.fd !in masks { return Threw; }
          masks := masks[ev.fd := false];
        }
      }
      return Returned;
    }

    method CloseConnection(fd: Fd)
      requires fd in connections
      modifies this
      ensures View() == Close(old(View()), fd)
    {
      var c := connections[fd];
      if c.sender.Alive() {
        connections := connections[fd := c.(sender := OnClosed(c.sender))];
        masks := masks - {fd};
      }
    }

    /** One iteration of run. */
    method RunOnce(items: seq<Item>, files: Files) returns (outcome: Outcome)
      requires Inv(View())
      modifies this
      ensures outcome == HandleAll(old(View()), items, guarded, files).1
      ensures outcome == Returned ==>
                && View() == Reap(HandleAll(old(View()), items, guarded, files).0)
                && Inv(View()) && AllAliveAndWatched(View())
      ensures guarded ==> (outcome == Threw <==> AcceptFails(items))
    {
      hide Inv, HandleEvent, DrainAll, AcceptRound, Reap, AcceptFails;
      GuardedBatch(View(), items, files);
      var i := 0;
      while i < |items|
        invariant i <= |items| && Inv(View())
        invariant HandleAll(View(), items[i..], guarded, files) == HandleAll(old(View()), items, guarded, files)
      {
        assert items[i..][1..] == items[i + 1..];
        ghost var before := View();
        match items[i] {
          case Listen(answers) => outcome := AcceptNewConnections(answers);
          case Wakeup(responses) => outcome := DrainPendingWrites(responses, files);
          case Ready(event) => outcome := HandleReady(event, files);
        }
        assert (View(), outcome) == Handle(before, items[i], guarded, files);
        if outcome == Threw { return; }
        HandleKeepsInv(before, items[i], guarded, files);
        i := i + 1;
      }
      assert items[i..] == [];
      ReapKeepsInv(View());
      SweepDead();
      return Returned;
    }

    method SweepDead()
      modifies this
      ensures View() == Reap(old(View()))
    {
      var dead := set fd | fd in connections && !connections[fd].sender.Alive();
      ghost var b := View();
      var left := dead;
      while left != {}
        invariant left <= dead
        invariant connections == b.connections - (dead - left) && masks == b.masks - (dead - left)
        invariant nextConnId == b.nextConnId
        decreases left
      {
        var fd :| fd in left;
        masks := masks - {fd};
        connections := connections - {fd};
        left := left - {fd};
      }
      assert dead - left == dead;
    }
  }
}
