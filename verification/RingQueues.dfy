/**
 * The ring over the real queues: each of its two queues a monitor with its sleeping and woken threads. In
 * the ring a blocking push or pop is one step; here it is shown that whenever the ring has such a step,
 * some thread that is at such a call, arriving or woken, can take it on the monitor, with the same effect.
 */
module RingQueues {
  import opened Ring
  import opened TaskQueues

  /** The threads: the workers by number, and the loop. */
  function LoopThread(s: Server): Thread { |s.workers| }

  predicate AtPop(s: Server, t: Thread) { t < |s.workers| && s.workers[t].Idle? }

  predicate AtSubmit(s: Server, t: Thread) { t == LoopThread(s) && s.loop.Submitting? }

  predicate AtPost(s: Server, t: Thread) {
    if t < |s.workers| then s.workers[t].Posting? else t == LoopThread(s) && s.loop.Rejecting?
  }

  /** What a thread at a push has in its hand. */
  function InHand(s: Server, t: Thread): Job
    requires AtSubmit(s, t) || AtPost(s, t)
  {
    if t < |s.workers| then s.workers[t].job else s.loop.job
  }

  predicate Waits(w: Waiters, t: Thread) { t in w.asleep + w.woken }

  /** The monitor holds the queue's jobs, and a thread waits on it only while it is at the call in question. */
  ghost predicate TasksAre(s: Server, m: Monitor<Job>) {
    && TaskQueues.Inv(m) && m.queue == s.tasks && m.capacity == s.capacity && m.closed == s.Closed()
    && (forall t :: Waits(m.poppers, t) ==> AtPop(s, t))
    && (forall t :: Waits(m.pushers, t) ==> AtSubmit(s, t) && m.items[t] == InHand(s, t))
  }

  /** The response queue is never closed. */
  ghost predicate PendingAre(s: Server, m: Monitor<Job>) {
    && TaskQueues.Inv(m) && m.queue == s.pending && m.capacity == s.capacity && !m.closed
    && (forall t :: Waits(m.pushers, t) ==> AtPost(s, t) && m.items[t] == InHand(s, t))
  }

  /** A turn of pop taken by thread t, on arrival or woken. */
  ghost predicate Pops(m: Monitor<Job>, t: Thread, r: PopResult<Job>, m': Monitor<Job>) {
    NextBy(m, PopArrives(t, r), m') || NextBy(m, PopWakes(t, r), m')
  }

  ghost predicate Pushes(m: Monitor<Job>, t: Thread, job: Job, m': Monitor<Job>) {
    NextBy(m, PushArrives(t, job, Accepted), m') || (NextBy(m, PushWakes(t, Accepted), m') && m.items[t] == job)
  }

  // ---- From the ring to the monitors --------------------------------------

  /** A thread arriving at pop on a queue with items takes the front one. */
  lemma PopOnArrival(m: Monitor<Job>, t: Thread) returns (r: PopResult<Job>, m': Monitor<Job>)
    requires !m.poppers.Has(t) && (m.queue != [] || m.closed)
    ensures NextBy(m, PopArrives(t, r), m') && r == if m.queue != [] then Popped(m.queue[0]) else Nothing
  {
    var here := m.(poppers := m.poppers.Leave(t));
    if m.queue != [] {
      var pushers := SomeoneNotified(m.pushers);
      r, m' :=
          Popped(m.queue[0]), here.(queue := m.queue[1..], removed := m.removed + [m.queue[0]], pushers := pushers);
    } else {
      r, m' := Nothing, here;
    }
  }

  lemma PushOnArrival(m: Monitor<Job>, t: Thread, job: Job) returns (m': Monitor<Job>)
    requires !m.pushers.Has(t) && !m.closed && |m.queue| < m.capacity
    ensures NextBy(m, PushArrives(t, job, Accepted), m')
  {
    var here := Without(m, t);
    var poppers := SomeoneNotified(m.poppers);
    m' := here.(queue := m.queue + [job], accepted := m.accepted + [job], poppers := poppers);
  }

  /** Whenever the ring can pop or a worker can leave, some worker at pop can do so on the monitor, and in the ring. */
  lemma SomePopHappens(s: Server, m: Monitor<Job>, w: nat, bound: nat)
    returns (t: Thread, r: PopResult<Job>, m': Monitor<Job>)
    requires TasksAre(s, m) && (Enabled(s, Pop(w), bound) || Enabled(s, Exit(w), bound))
    ensures Pops(m, t, r, m')
    ensures if s.tasks != [] then Enabled(s, Pop(t), bound) && r == Popped(s.tasks[0])
            else Enabled(s, Exit(t), bound) && r == Nothing
  {
    hide Ring.Outstanding, TaskQueues.Inv, PopTurn;
    if m.poppers.Has(w) {
      t, r, m' := BlockedPopProceeds(m);
      assert Waits(m.poppers, t);
    } else {
      t := w;
      r, m' := PopOnArrival(m, t);
    }
  }

  /** Whenever the loop can submit, it can push on the monitor. */
  lemma SubmitHappens(s: Server, m: Monitor<Job>, bound: nat) returns (m': Monitor<Job>)
    requires TasksAre(s, m) && Enabled(s, Submit, bound)
    ensures Pushes(m, LoopThread(s), s.loop.job, m')
  {
    hide Ring.Outstanding, TaskQueues.Inv, PushTurn;
    var t := LoopThread(s);
    if m.pushers.Has(t) {
      var u, r;
      u, r, m' := BlockedPushProceeds(m);
      assert Waits(m.pushers, u);
    } else {
      m' := PushOnArrival(m, t, s.loop.job);
    }
  }

  /** The ring's step for a push of a response by thread t. */
  function PostOf(s: Server, t: Thread): Ring.Step { if t < |s.workers| then Post(t) else Reject }

  /** Whenever some thread can post a response in the ring, some thread can on the monitor, and in the ring. */
  lemma SomePostHappens(s: Server, m: Monitor<Job>, u: Thread, bound: nat) returns (t: Thread, m': Monitor<Job>)
    requires PendingAre(s, m) && AtPost(s, u) && Enabled(s, PostOf(s, u), bound)
    ensures AtPost(s, t) && Enabled(s, PostOf(s, t), bound) && Pushes(m, t, InHand(s, t), m')
  {
    hide Ring.Outstanding, TaskQueues.Inv, PushTurn;
    if m.pushers.Has(u) {
      var r;
      t, r, m' := BlockedPushProceeds(m);
      assert Waits(m.pushers, t);
    } else {
      t := u;
      m' := PushOnArrival(m, t, InHand(s, t));
    }
  }

  // ---- From the monitors to the ring --------------------------------------

  /** A pop that gets out of the monitor is a step of the ring, and they agree on the queue again after it. */
  lemma PopIsAStep(s: Server, m: Monitor<Job>, t: Thread, r: PopResult<Job>, m': Monitor<Job>, bound: nat)
    requires TasksAre(s, m) && AtPop(s, t) && Pops(m, t, r, m') && !r.PopSleeps?
    ensures var step := if r.Popped? then Pop(t) else Exit(t);
            Enabled(s, step, bound) && TasksAre(Apply(s, step, bound), m')
  {
    hide Pops, TaskQueues.Inv, Apply, Ring.Outstanding, AtSubmit, InHand, Waits;
    PopKeepsInv(m, t, r, m');
    PopWaiters(m, t, r, m');
    var step := if r.Popped? then Pop(t) else Exit(t);
    PopInRing(s, step, bound);
    WaitingHaveItems(m');
    var s' := Apply(s, step, bound);
    forall u | Waits(m'.poppers, u) ensures AtPop(s', u) { assert Waits(m.poppers, u); }
    forall u | Waits(m'.pushers, u)
        ensures AtSubmit(s', u) && m'.items[u] == InHand(s', u) { assert Waits(m.pushers, u); }
  }

  lemma PopKeepsInv(m: Monitor<Job>, t: Thread, r: PopResult<Job>, m': Monitor<Job>)
    requires TaskQueues.Inv(m) && Pops(m, t, r, m')
    ensures TaskQueues.Inv(m')
  {
    hide PopTurn, TaskQueues.Inv;
    NextKeepsInv(m, if m.poppers.Has(t) then PopWakes(t, r) else PopArrives(t, r), m');
  }

  /** What a worker's pop or exit changes in the ring: its own place and the front of the queue. */
  lemma PopInRing(s: Server, step: Ring.Step, bound: nat)
    requires (step.Pop? || step.Exit?) && Enabled(s, step, bound)
    ensures var s' := Apply(s, step, bound);
            && s'.tasks == (if step.Pop? then s.tasks[1..] else s.tasks) && s'.capacity == s.capacity &&
                s'.Closed() == s.Closed()
            && (forall u :: AtPop(s, u) && u != step.w ==> AtPop(s', u))
            && (forall u :: AtSubmit(s, u) ==> AtSubmit(s', u) && InHand(s', u) == InHand(s, u))
  {
    hide Ring.Outstanding;
  }

  lemma WaitingHaveItems(m: Monitor<Job>)
    requires TaskQueues.Inv(m)
    ensures forall u :: Waits(m.pushers, u) <==> u in m.items
  {
    assert forall u :: u in m.items <==> u in m.items.Keys;
  }

  lemma NotifyOneKeepsWaiting(w: Waiters, w': Waiters)
    requires NotifyOne(w, w')
    ensures forall u :: Waits(w', u) <==> Waits(w, u)
  {
  }

  lemma PopWaiters(m: Monitor<Job>, t: Thread, r: PopResult<Job>, m': Monitor<Job>)
    requires TaskQueues.Inv(m) && Pops(m, t, r, m') && !r.PopSleeps?
    ensures r == (if m.queue != [] then Popped(m.queue[0]) else Nothing) && (r == Nothing ==> m.closed)
    ensures m'.queue == (if m.queue != [] then m.queue[1..] else []) && m'.capacity == m.capacity
    ensures m'.closed == m.closed
    ensures m'.items == m.items && forall u :: Waits(m'.pushers, u) <==> Waits(m.pushers, u)
    ensures forall u :: Waits(m'.poppers, u) <==> Waits(m.poppers, u) && u != t
  {
    if r.Popped? { NotifyOneKeepsWaiting(m.pushers, m'.pushers); }
    hide NotifyOne;
  }

  lemma PushWaiters(m: Monitor<Job>, t: Thread, job: Job, m': Monitor<Job>)
    requires TaskQueues.Inv(m) && Pushes(m, t, job, m')
    ensures !m.closed && |m.queue| < m.capacity
    ensures m'.queue == m.queue + [job] && m'.capacity == m.capacity && m'.closed == m.closed
    ensures m'.items == m.items - {t} && forall u :: Waits(m'.pushers, u) <==> Waits(m.pushers, u) && u != t
    ensures forall u :: Waits(m'.poppers, u) <==> Waits(m.poppers, u)
  {
    NotifyOneKeepsWaiting(m.poppers, m'.poppers);
    hide NotifyOne;
  }

  lemma PushKeepsInv(m: Monitor<Job>, t: Thread, job: Job, m': Monitor<Job>)
    requires TaskQueues.Inv(m) && Pushes(m, t, job, m')
    ensures TaskQueues.Inv(m')
  {
    hide PushTurn, TaskQueues.Inv;
    NextKeepsInv(m, if m.pushers.Has(t) then PushWakes(t, Accepted) else PushArrives(t, job, Accepted), m');
  }

  /** A push that the task queue accepts is the loop's submit. */
  lemma SubmitIsAStep(s: Server, m: Monitor<Job>, t: Thread, m': Monitor<Job>, bound: nat)
    requires TasksAre(s, m) && AtSubmit(s, t) && Pushes(m, t, InHand(s, t), m')
    ensures Enabled(s, Submit, bound) && TasksAre(Apply(s, Submit, bound), m')
  {
    hide Pushes, TaskQueues.Inv, Apply, Ring.Outstanding, AtPop, Waits, Server.Closed, Enabled;
    PushKeepsInv(m, t, InHand(s, t), m');
    PushWaiters(m, t, InHand(s, t), m');
    SubmitInRing(s, bound);
    var s' := Apply(s, Submit, bound);
    forall u | Waits(m'.poppers, u) ensures AtPop(s', u) { assert Waits(m.poppers, u); }
    forall u ensures !Waits(m'.pushers, u) { assert Waits(m.pushers, u) ==> AtSubmit(s, u); }
  }

  lemma SubmitInRing(s: Server, bound: nat)
    requires s.loop.Submitting? && |s.tasks| < s.capacity
    ensures Enabled(s, Submit, bound)
    ensures var s' := Apply(s, Submit, bound);
            && s'.tasks == s.tasks + [s.loop.job] && s'.capacity == s.capacity && s'.Closed() == s.Closed()
            && (forall u :: AtPop(s, u) ==> AtPop(s', u))
  {
    hide Ring.Outstanding;
  }

  /** A push that the response queue accepts is a worker's post or the loop's error page. */
  lemma PostIsAStep(s: Server, m: Monitor<Job>, t: Thread, m': Monitor<Job>, bound: nat)
    requires PendingAre(s, m) && AtPost(s, t) && Pushes(m, t, InHand(s, t), m')
    ensures Enabled(s, PostOf(s, t), bound) && PendingAre(Apply(s, PostOf(s, t), bound), m')
  {
    hide Pushes, TaskQueues.Inv, Apply, Ring.Outstanding, AtPost, InHand, Waits, Enabled;
    PushKeepsInv(m, t, InHand(s, t), m');
    PushWaiters(m, t, InHand(s, t), m');
    PostInRing(s, t, bound);
    WaitingHaveItems(m');
    var s' := Apply(s, PostOf(s, t), bound);
    forall u | Waits(m'.pushers, u) ensures AtPost(s', u) && m'.items[u] == InHand(s', u) {
      assert Waits(m.pushers, u) && u != t;
    }
  }

  lemma PostInRing(s: Server, t: Thread, bound: nat)
    requires AtPost(s, t) && |s.pending| < s.capacity
    ensures Enabled(s, PostOf(s, t), bound)
    ensures var s' := Apply(s, PostOf(s, t), bound);
            && s'.pending == s.pending + [InHand(s, t)] && s'.capacity == s.capacity
            && (forall u :: AtPost(s, u) && u != t ==> AtPost(s', u) && InHand(s', u) == InHand(s, u))
  {
    hide Ring.Outstanding;
  }
}
