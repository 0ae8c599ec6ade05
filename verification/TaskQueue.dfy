/**
 * The bounded blocking queue as a monitor. One step is what one thread does between taking and giving
 * up the mutex. A condition variable is the set of threads asleep on it and the set of threads it has
 * woken that have yet to take the mutex again; a thread may also wake without being notified.
 */
module TaskQueues {
  import opened Wrappers

  type Thread = nat

  datatype Waiters = Waiters(asleep: set<Thread>, woken: set<Thread>)
  {
    predicate Has(t: Thread) { t in asleep || t in woken }
    function Sleep(t: Thread): Waiters { Waiters(asleep + {t}, woken - {t}) }
    function Leave(t: Thread): Waiters { Waiters(asleep, woken - {t}) }
    function Wake(t: Thread): Waiters { Waiters(asleep - {t}, woken + {t}) }
    function WakeAll(): Waiters { Waiters({}, asleep + woken) }
  }

  /** notify_one wakes some sleeper if there is one. */
  ghost predicate NotifyOne(w: Waiters, w': Waiters) {
    if w.asleep == {} then w' == w else exists t :: t in w.asleep && w' == w.Wake(t)
  }

  datatype Monitor<T> = Monitor(
    capacity: nat,
    queue: seq<T>,
    closed: bool,
    poppers: Waiters,
    pushers: Waiters,
    items: map<Thread, T>,
    accepted: seq<T>,
    removed: seq<T>)

  datatype PushResult = Accepted | Refused | PushSleeps

  datatype PopResult<T> = Popped(item: T) | Nothing | PopSleeps

  ghost predicate Init<T>(m: Monitor<T>, capacity: nat) {
    m == Monitor(capacity, [], false, Waiters({}, {}), Waiters({}, {}), map[], [], [])
  }

  // ---- Steps --------------------------------------------------------------

  ghost predicate Appends<T>(m: Monitor<T>, item: T, m': Monitor<T>) {
    && NotifyOne(m.poppers, m'.poppers)
    && m' == m.(queue := m.queue + [item], accepted := m.accepted + [item], poppers := m'.poppers)
  }

  ghost predicate TakesFront<T>(m: Monitor<T>, m': Monitor<T>) {
    && m.queue != []
    && NotifyOne(m.pushers, m'.pushers)
    && m' == m.(queue := m.queue[1..], removed := m.removed + [m.queue[0]], pushers := m'.pushers)
  }

  /** The monitor without thread t among those that push. */
  function Without<T>(m: Monitor<T>, t: Thread): Monitor<T> {
    m.(pushers := m.pushers.Leave(t), items := m.items - {t})
  }

  /** Thread t evaluates the wait condition of push with its item in hand, on arrival or once woken. */
  ghost predicate PushTurn<T>(m: Monitor<T>, t: Thread, item: T, m': Monitor<T>, r: PushResult) {
    if m.closed then r == Refused && m' == Without(m, t)
    else if |m.queue| < m.capacity then r == Accepted && Appends(Without(m, t), item, m')
    else r == PushSleeps && m' == m.(pushers := m.pushers.Sleep(t), items := m.items[t := item])
  }

  /** Thread t evaluates the wait condition of pop, on arrival or once woken. */
  ghost predicate PopTurn<T>(m: Monitor<T>, t: Thread, m': Monitor<T>, r: PopResult<T>) {
    var here := m.(poppers := m.poppers.Leave(t));
    if m.queue != [] then r == Popped(m.queue[0]) && TakesFront(here, m')
    else if m.closed then r == Nothing && m' == here
    else r == PopSleeps && m' == m.(poppers := m.poppers.Sleep(t))
  }

  datatype Step<T> =
    | PushArrives(t: Thread, item: T, pushResult: PushResult)
    | PushWakes(t: Thread, pushResult: PushResult)
    | TryPush(item: T, ok: bool)
    | PopArrives(t: Thread, popResult: PopResult<T>)
    | PopWakes(t: Thread, popResult: PopResult<T>)
    | TryPop(front: Option<T>)
    | Close
    | SpuriousPush(t: Thread)
    | SpuriousPop(t: Thread)

  ghost predicate NextBy<T>(m: Monitor<T>, step: Step<T>, m': Monitor<T>) {
    match step
    case PushArrives(t, item, r) => !m.pushers.Has(t) && PushTurn(m, t, item, m', r)
    case PushWakes(t, r) => t in m.pushers.woken && t in m.items && PushTurn(m, t, m.items[t], m', r)
    case TryPush(item, ok) =>
      ok == (!m.closed && |m.queue| < m.capacity) && (if ok then Appends(m, item, m') else m' == m)
    case PopArrives(t, r) => !m.poppers.Has(t) && PopTurn(m, t, m', r)
    case PopWakes(t, r) => t in m.poppers.woken && PopTurn(m, t, m', r)
    case TryPop(front) =>
      if m.queue == [] then front == None && m' == m else front == Some(m.queue[0]) && TakesFront(m, m')
    case Close => m' == m.(closed := true, poppers := m.poppers.WakeAll(), pushers := m.pushers.WakeAll())
    case SpuriousPush(t) => t in m.pushers.asleep && m' == m.(pushers := m.pushers.Wake(t))
    case SpuriousPop(t) => t in m.poppers.asleep && m' == m.(poppers := m.poppers.Wake(t))
  }

  // ---- Invariant ----------------------------------------------------------

  predicate Apart(w: Waiters) { w.asleep !! w.woken }

  /** Order and bound of the queue. */
  predicate FifoInv<T(==)>(m: Monitor<T>) {
    m.accepted == m.removed + m.queue && |m.queue| <= m.capacity
  }

  /** A thread sleeps un-notified only while the notified ones can take all there is to take. */
  predicate NoLostWakeup<T>(m: Monitor<T>) {
    && (m.poppers.asleep != {} && !m.closed ==> |m.queue| <= |m.poppers.woken|)
    && (m.pushers.asleep != {} && !m.closed ==> m.capacity - |m.queue| <= |m.pushers.woken|)
  }

  predicate Inv<T(==)>(m: Monitor<T>) {
    && FifoInv(m) && NoLostWakeup(m)
    && Apart(m.poppers) && Apart(m.pushers)
    && m.items.Keys == m.pushers.asleep + m.pushers.woken
    && (m.closed ==> m.poppers.asleep == {} && m.pushers.asleep == {})
  }

  lemma NotifyOneCounts(w: Waiters, w': Waiters)
    requires NotifyOne(w, w') && Apart(w)
    ensures Apart(w') && w'.asleep + w'.woken == w.asleep + w.woken
    ensures w'.asleep != {} ==> |w'.woken| == |w.woken| + 1
    ensures w.asleep == {} ==> w' == w
    ensures |w'.woken| >= |w.woken|
  {
    if w.asleep != {} {
      var t :| t in w.asleep && w' == w.Wake(t);
      assert t !in w.woken;
    }
  }

  lemma LeaveCounts(w: Waiters, t: Thread)
    requires t !in w.asleep
    ensures |w.Leave(t).woken| >= |w.woken| - 1
    ensures t !in w.woken ==> w.Leave(t) == w
  {
    if t in w.woken { assert w.woken == w.Leave(t).woken + {t}; }
  }

  lemma AppendsKeepsFifo<T>(m: Monitor<T>, item: T, m': Monitor<T>)
    requires FifoInv(m) && Apart(m.poppers) && |m.queue| < m.capacity && Appends(m, item, m')
    ensures FifoInv(m') && Apart(m'.poppers)
    ensures m'.poppers.asleep != {} ==> |m'.poppers.woken| == |m.poppers.woken| + 1
    ensures m.poppers.asleep == {} ==> m'.poppers == m.poppers
  {
    NotifyOneCounts(m.poppers, m'.poppers);
    assert m.removed + m.queue + [item] == m.removed + (m.queue + [item]);
  }

  lemma PushTurnKeepsInv<T>(m: Monitor<T>, t: Thread, item: T, m': Monitor<T>, r: PushResult)
    requires Inv(m) && t !in m.pushers.asleep && PushTurn(m, t, item, m', r)
    ensures Inv(m')
  {
    match r
    case Refused => Departs(m, t);
    case Accepted => PushAccepted(m, t, item, m');
    case PushSleeps => PushSleeping(m, t, item);
  }

  lemma Departs<T>(m: Monitor<T>, t: Thread)
    requires Inv(m) && t !in m.pushers.asleep
    ensures var here := Without(m, t);
            && FifoInv(here) && Apart(here.pushers) && here.items.Keys == here.pushers.asleep + here.pushers.woken
            && |here.pushers.woken| >= |m.pushers.woken| - 1
            && (m.closed ==> Inv(here))
  {
    LeaveCounts(m.pushers, t);
  }

  lemma PushAccepted<T>(m: Monitor<T>, t: Thread, item: T, m': Monitor<T>)
    requires Inv(m) && t !in m.pushers.asleep && !m.closed && |m.queue| < m.capacity
    requires Appends(Without(m, t), item, m')
    ensures Inv(m')
  {
    Departs(m, t);
    AppendsKeepsFifo(Without(m, t), item, m');
    hide NotifyOne, Waiters.Leave;
  }

  lemma PushSleeping<T>(m: Monitor<T>, t: Thread, item: T)
    requires Inv(m) && t !in m.pushers.asleep && !m.closed && |m.queue| == m.capacity
    ensures Inv(m.(pushers := m.pushers.Sleep(t), items := m.items[t := item]))
  {
    SleepKeepsAll(m.pushers, t);
    var m' := m.(pushers := m.pushers.Sleep(t), items := m.items[t := item]);
    hide Waiters.Sleep, Apart;
    assert m'.items.Keys == m.items.Keys + {t};
    assert FifoInv(m') && m'.capacity - |m'.queue| == 0;
    hide FifoInv;
  }

  lemma SleepKeepsAll(w: Waiters, t: Thread)
    requires Apart(w)
    ensures Apart(w.Sleep(t)) && w.Sleep(t).asleep + w.Sleep(t).woken == w.asleep + w.woken + {t}
  {
  }

  lemma PopTurnKeepsInv<T>(m: Monitor<T>, t: Thread, m': Monitor<T>, r: PopResult<T>)
    requires Inv(m) && t !in m.poppers.asleep && PopTurn(m, t, m', r)
    ensures Inv(m')
  {
    LeaveCounts(m.poppers, t);
    if r.Popped? { TakesFrontKeepsFifo(m.(poppers := m.poppers.Leave(t)), m'); }
  }

  lemma TakesFrontKeepsFifo<T>(m: Monitor<T>, m': Monitor<T>)
    requires FifoInv(m) && Apart(m.pushers) && TakesFront(m, m')
    ensures FifoInv(m') && Apart(m'.pushers)
    ensures m'.pushers.asleep + m'.pushers.woken == m.pushers.asleep + m.pushers.woken
    ensures m'.pushers.asleep != {} ==> |m'.pushers.woken| == |m.pushers.woken| + 1
    ensures m.pushers.asleep == {} ==> m'.pushers == m.pushers
  {
    NotifyOneCounts(m.pushers, m'.pushers);
    assert m.removed + m.queue == m.removed + [m.queue[0]] + m.queue[1..];
  }

  /** Every step of every thread keeps the invariant, spurious wakeups and stealing included. */
  lemma NextKeepsInv<T>(m: Monitor<T>, step: Step<T>, m': Monitor<T>)
    requires Inv(m) && NextBy(m, step, m')
    ensures Inv(m')
  {
    match step
    case PushArrives(t, item, r) => PushTurnKeepsInv(m, t, item, m', r);
    case PushWakes(t, r) => PushTurnKeepsInv(m, t, m.items[t], m', r);
    case TryPush(item, ok) => if ok { AppendsKeepsInv(m, item, m'); }
    case PopArrives(t, r) => PopTurnKeepsInv(m, t, m', r);
    case PopWakes(t, r) => PopTurnKeepsInv(m, t, m', r);
    case TryPop(front) => if front.Some? { TakesFrontKeepsInv(m, m'); }
    case Close =>
    case SpuriousPush(t) => WakeKeepsInv(m, m', t);
    case SpuriousPop(t) => WakeKeepsInv(m, m', t);
  }

  lemma AppendsKeepsInv<T>(m: Monitor<T>, item: T, m': Monitor<T>)
    requires Inv(m) && !m.closed && |m.queue| < m.capacity && Appends(m, item, m')
    ensures Inv(m')
  {
    AppendsKeepsFifo(m, item, m');
    hide NotifyOne;
  }

  lemma TakesFrontKeepsInv<T>(m: Monitor<T>, m': Monitor<T>)
    requires Inv(m) && TakesFront(m, m')
    ensures Inv(m')
  {
    TakesFrontKeepsFifo(m, m');
    hide NotifyOne;
  }

  lemma WakeKeepsInv<T>(m: Monitor<T>, m': Monitor<T>, t: Thread)
    requires Inv(m)
    requires (t in m.pushers.asleep && m' == m.(pushers := m.pushers.Wake(t)))
          || (t in m.poppers.asleep && m' == m.(poppers := m.poppers.Wake(t)))
    ensures Inv(m')
  {
    if t in m.pushers.asleep && m' == m.(pushers := m.pushers.Wake(t)) {
      WakeCounts(m.pushers, t);
    } else {
      WakeCounts(m.poppers, t);
    }
    hide Waiters.Wake;
  }

  lemma WakeCounts(w: Waiters, t: Thread)
    requires Apart(w) && t in w.asleep
    ensures Apart(w.Wake(t)) && w.Wake(t).asleep + w.Wake(t).woken == w.asleep + w.woken
    ensures |w.Wake(t).woken| == |w.woken| + 1 && w.Wake(t).asleep <= w.asleep
  {
  }

  // ---- Runs ---------------------------------------------------------------

  ghost predicate IsRun<T>(run: seq<Monitor<T>>, steps: seq<Step<T>>, capacity: nat) {
    && |run| == |steps| + 1
    && Init(run[0], capacity)
    && forall i :: 0 <= i < |steps| ==> NextBy(run[i], steps[i], run[i + 1])
  }

  /** In every interleaving, always: accepted items leave in order, never too many wait, no wakeup is lost. */
  lemma {:induction false} RunsKeepInv<T>(run: seq<Monitor<T>>, steps: seq<Step<T>>, capacity: nat, k: nat)
    requires IsRun(run, steps, capacity) && k < |run|
    ensures Inv(run[k]) && run[k].capacity == capacity
    ensures run[k].removed <= run[k].accepted
  {
    if k == 0 {
      assert run[0].accepted == run[0].removed + run[0].queue;
    } else {
      RunsKeepInv(run, steps, capacity, k - 1);
      NextKeepsInv(run[k - 1], steps[k - 1], run[k]);
    }
  }

  /** Closing is final: nothing is accepted any more, and nobody goes back to sleep. */
  lemma {:induction false} ClosedIsFinal<T>(run: seq<Monitor<T>>, steps: seq<Step<T>>, capacity: nat, i: nat, j: nat)
    requires IsRun(run, steps, capacity) && i <= j < |run| && run[i].closed
    ensures run[j].closed && run[j].accepted == run[i].accepted
    ensures run[j].poppers.asleep == {} && run[j].pushers.asleep == {}
  {
    RunsKeepInv(run, steps, capacity, j);
    if i < j {
      ClosedIsFinal(run, steps, capacity, i, j - 1);
    }
  }

  lemma SomeoneNotified(w: Waiters) returns (w': Waiters)
    ensures NotifyOne(w, w')
  {
    w' := w;
    if w.asleep != {} {
      var t :| t in w.asleep;
      w' := w.Wake(t);
    }
  }

  /**
   * While any thread is blocked in pop, asleep or woken, and the wait condition holds, some woken thread
   * can take its turn and leaves pop by it: with the front item, or with nothing if the queue is closed
   * and empty. No consumer sleeps forever beside an item.
   */
  lemma BlockedPopProceeds<T>(m: Monitor<T>) returns (t: Thread, r: PopResult<T>, m': Monitor<T>)
    requires Inv(m) && m.poppers.asleep + m.poppers.woken != {} && (m.queue != [] || m.closed)
    ensures NextBy(m, PopWakes(t, r), m')
    ensures r == if m.queue != [] then Popped(m.queue[0]) else Nothing
  {
    assert m.poppers.woken == {} ==> |m.poppers.woken| == 0;
    t :| t in m.poppers.woken;
    var here := m.(poppers := m.poppers.Leave(t));
    if m.queue != [] {
      var pushers := SomeoneNotified(m.pushers);
      r := Popped(m.queue[0]);
      m' := here.(queue := m.queue[1..], removed := m.removed + [m.queue[0]], pushers := pushers);
    } else {
      r := Nothing;
      m' := here;
    }
  }

  /** The same for a thread blocked in push beside a free slot, or on a closed queue. */
  lemma BlockedPushProceeds<T>(m: Monitor<T>) returns (t: Thread, r: PushResult, m': Monitor<T>)
    requires Inv(m) && m.pushers.asleep + m.pushers.woken != {} && (|m.queue| < m.capacity || m.closed)
    ensures NextBy(m, PushWakes(t, r), m')
    ensures r == if m.closed then Refused else Accepted
  {
    assert m.pushers.woken == {} ==> |m.pushers.woken| == 0;
    t :| t in m.pushers.woken;
    assert t in m.items.Keys;
    var here := Without(m, t);
    if m.closed {
      r := Refused;
      m' := here;
    } else {
      var poppers := SomeoneNotified(m.poppers);
      r := Accepted;
      m' := here.(queue := m.queue + [m.items[t]], accepted := m.accepted + [m.items[t]], poppers := poppers);
    }
  }

  /** A blocking pop comes back without an item only from a closed and empty queue. */
  lemma NothingMeansClosedAndEmpty<T>(m: Monitor<T>, t: Thread, m': Monitor<T>, r: PopResult<T>)
    requires PopTurn(m, t, m', r)
    ensures r == Nothing <==> m.closed && m.queue == []
    ensures r == PopSleeps <==> !m.closed && m.queue == []
  {
  }

  /** What a turn of pop tells its thread, and where it leaves it. */
  lemma PopTurnMeans<T>(m: Monitor<T>, t: Thread, m': Monitor<T>, r: PopResult<T>)
    requires PopTurn(m, t, m', r)
    ensures r == if m.queue != [] then Popped(m.queue[0]) else if m.closed then Nothing else PopSleeps
    ensures r == PopSleeps ==> t in m'.poppers.asleep && t !in m'.poppers.woken && m'.queue == m.queue
    ensures r != PopSleeps ==> t !in m'.poppers.woken && m'.poppers.asleep == m.poppers.asleep
    ensures forall u :: u != t ==> (m'.poppers.Has(u) <==> m.poppers.Has(u))
  {
  }

  /** What a turn of push tells its thread, and where it leaves it: asleep with its item, or gone. */
  lemma PushTurnMeans<T>(m: Monitor<T>, t: Thread, item: T, m': Monitor<T>, r: PushResult)
    requires PushTurn(m, t, item, m', r)
    ensures r == if m.closed then Refused else if |m.queue| < m.capacity then Accepted else PushSleeps
    ensures r == Accepted ==> m'.queue == m.queue + [item] && m'.accepted == m.accepted + [item]
    ensures r != Accepted ==> m'.queue == m.queue && m'.accepted == m.accepted
    ensures r == PushSleeps ==> t in m'.pushers.asleep && t !in m'.pushers.woken && t in m'.items && m'.items[t] == item
    ensures r != PushSleeps ==> t !in m'.pushers.woken && t !in m'.items && m'.pushers.asleep == m.pushers.asleep
    ensures forall u :: u != t ==> (m'.pushers.Has(u) <==> m.pushers.Has(u)) && (u in m'.items <==> u in m.items)
  {
  }

  /** The calls that do not block, and close. */
  lemma OthersMean<T>(m: Monitor<T>, m': Monitor<T>)
    ensures forall item, ok :: NextBy(m, TryPush(item, ok), m') ==>
              && (ok <==> !m.closed && |m.queue| < m.capacity)
              && m'.queue == if ok then m.queue + [item] else m.queue
    ensures forall front :: NextBy(m, TryPop(front), m') ==>
              && (front == if m.queue == [] then None else Some(m.queue[0]))
              && m'.queue == if m.queue == [] then [] else m.queue[1..]
    ensures NextBy(m, Close, m') ==> m'.closed && m'.queue == m.queue && m'.poppers.asleep == {} == m'.pushers.asleep
  {
  }

  // ---- The object ---------------------------------------------------------

  class TaskQueue<T> {
    const capacity: nat
    var queue: seq<T>
    var closed: bool
    var notEmpty: Waiters
    var notFull: Waiters
    var items: map<Thread, T>
    ghost var accepted: seq<T>
    ghost var removed: seq<T>

    ghost function View(): Monitor<T>
      reads this
    {
      Monitor(capacity, queue, closed, notEmpty, notFull, items, accepted, removed)
    }

    constructor (capacity: nat)
      ensures Init(View(), capacity) && this.capacity == capacity
    {
      this.capacity := capacity;
      queue, closed, notEmpty, notFull, items := [], false, Waiters({}, {}), Waiters({}, {}), map[];
      accepted, removed := [], [];
    }

    static method Notify(w: Waiters) returns (w': Waiters)
      ensures NotifyOne(w, w')
    {
      w' := w;
      if w.asleep != {} {
        var t :| t in w.asleep;
        w' := w.Wake(t);
      }
    }

    method Append(item: T)
      modifies this`queue, this`accepted, this`notEmpty
      ensures Appends(old(View()), item, View())
    {
      queue := queue + [item];
      accepted := accepted + [item];
      notEmpty := Notify(notEmpty);
    }

    method TakeFront() returns (item: T)
      requires queue != []
      modifies this`queue, this`removed, this`notFull
      ensures item == old(queue[0]) && TakesFront(old(View()), View())
    {
      item := queue[0];
      queue := queue[1..];
      removed := removed + [item];
      notFull := Notify(notFull);
    }

    /** One turn of push for thread t: on arrival, or again after it was woken. */
    method Push(t: Thread, item: T) returns (r: PushResult)
      requires Inv(View()) && t !in notFull.asleep && (t in notFull.woken ==> item == items[t])
      modifies this
      ensures PushTurn(old(View()), t, item, View(), r) && Inv(View())
    {
      hide Inv, Appends, NotifyOne;
      PushTurnInv(t, item);
      if closed {
        notFull, items := notFull.Leave(t), items - {t};
        return Refused;
      }
      if |queue| < capacity {
        ghost var m := View();
        notFull, items := notFull.Leave(t), items - {t};
        assert View() == Without(m, t);
        Append(item);
        return Accepted;
      }
      notFull, items := notFull.Sleep(t), items[t := item];
      return PushSleeps;
    }

    /** One turn of pop for thread t. */
    method Pop(t: Thread) returns (r: PopResult<T>)
      requires Inv(View()) && t !in notEmpty.asleep
      modifies this
      ensures PopTurn(old(View()), t, View(), r) && Inv(View())
    {
      hide Inv, NotifyOne, TakesFront;
      PopTurnInv(t);
      if queue != [] {
        notEmpty := notEmpty.Leave(t);
        var item := TakeFront();
        return Popped(item);
      }
      if closed {
        notEmpty := notEmpty.Leave(t);
        return Nothing;
      }
      notEmpty := notEmpty.Sleep(t);
      return PopSleeps;
    }

    method TryPushItem(item: T) returns (ok: bool)
      requires Inv(View())
      modifies this
      ensures NextBy(old(View()), TryPush(item, ok), View()) && Inv(View())
    {
      ghost var m := View();
      ok := !closed && |queue| < capacity;
      if ok { Append(item); }
      NextKeepsInv(m, TryPush(item, ok), View());
    }

    method TryPopItem() returns (front: Option<T>)
      requires Inv(View())
      modifies this
      ensures NextBy(old(View()), TryPop(front), View()) && Inv(View())
    {
      ghost var m := View();
      front := None;
      if queue != [] {
        var item := TakeFront();
        front := Some(item);
      }
      NextKeepsInv(m, TryPop(front), View());
    }

    method CloseQueue()
      requires Inv(View())
      modifies this
      ensures NextBy(old(View()), Close, View()) && Inv(View())
    {
      ghost var m := View();
      closed := true;
      notEmpty := notEmpty.WakeAll();
      notFull := notFull.WakeAll();
      NextKeepsInv(m, Close, View());
    }

    lemma PushTurnInv(t: Thread, item: T)
      requires Inv(View()) && t !in notFull.asleep
      ensures forall m', r :: PushTurn(View(), t, item, m', r) ==> Inv(m')
    {
      forall m', r | PushTurn(View(), t, item, m', r) ensures Inv(m') { PushTurnKeepsInv(View(), t, item, m', r); }
    }

    lemma PopTurnInv(t: Thread)
      requires Inv(View()) && t !in notEmpty.asleep
      ensures forall m', r :: PopTurn(View(), t, m', r) ==> Inv(m')
    {
      forall m', r | PopTurn(View(), t, m', r) ensures Inv(m') { PopTurnKeepsInv(View(), t, m', r); }
    }
  }
}
