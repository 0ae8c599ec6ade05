/**
 * The server over its real queues: every move of every thread, with sleeping, notified and spurious
 * wakeups on both monitors. Its runs are runs of the ring, it can go on exactly when the ring can, and so
 * what is proved of the ring's wedges holds for the condition variables as well.
 */
module JointRings {
  import opened Wrappers
  import opened Ring
  import opened RingProgress
  import opened TaskQueues
  import opened RingQueues

  datatype Joint = Joint(server: Server, tasks: Monitor<Job>, pending: Monitor<Job>)

  datatype Move =
    | Inside(step: Ring.Step)                      // touches neither queue
    | Closes                                       // the last batch is over: the task queue is closed
    | TakesTask(t: Thread, popResult: PopResult<Job>)
    | GivesTask(t: Thread, pushResult: PushResult)
    | GivesResponse(t: Thread, pushResult: PushResult)
    | Drains                                       // try_pop of a response
    | StirsTasks(spurious: TaskQueues.Step<Job>)
    | StirsPending(spurious: TaskQueues.Step<Job>)

  /** The step is a turn at a queue, or closes one. */
  predicate AtQueue(s: Server, step: Ring.Step) {
    || step.Pop? || step.Exit? || step.Submit? || step.Post? || step.Reject? || step.DrainOne?
    || (step.EndBatch? && !s.running)
  }

  predicate Spurious(step: TaskQueues.Step<Job>) { step.SpuriousPush? || step.SpuriousPop? }

  ghost predicate PushTurnOf(m: Monitor<Job>, t: Thread, job: Job, r: PushResult, m': Monitor<Job>) {
    NextBy(m, PushArrives(t, job, r), m') || (NextBy(m, PushWakes(t, r), m') && m.items[t] == job)
  }

  /** The step of the ring that a move is; none for falling asleep and waking up. */
  function StepOf(s: Server, move: Move): Option<Ring.Step> {
    match move
    case Inside(step) => Some(step)
    case Closes => Some(EndBatch)
    case TakesTask(t, r) => if r.Popped? then Some(Pop(t)) else if r.Nothing? then Some(Exit(t)) else None
    case GivesTask(_, r) => if r.Accepted? then Some(Submit) else None
    case GivesResponse(t, r) => if r.Accepted? then Some(PostOf(s, t)) else None
    case Drains => Some(DrainOne)
    case _ => None
  }

  function Advance(s: Server, step: Option<Ring.Step>, bound: nat): Server {
    if step.Some? && Enabled(s, step.value, bound) then Apply(s, step.value, bound) else s
  }

  /** What each thread may do, by its place in the server and the monitor it is at. */
  ghost predicate Moves(j: Joint, move: Move, j': Joint, bound: nat) {
    && j'.server == Advance(j.server, StepOf(j.server, move), bound)
    && match move
       case Inside(step) =>
         Enabled(j.server, step, bound) && !AtQueue(j.server, step) && j'.tasks == j.tasks && j'.pending == j.pending
       case Closes =>
         && Enabled(j.server, EndBatch, bound) && !j.server.running
         && NextBy(j.tasks, Close, j'.tasks) && j'.pending == j.pending
       case TakesTask(t, r) => AtPop(j.server, t) && Pops(j.tasks, t, r, j'.tasks) && j'.pending == j.pending
       case GivesTask(t, r) =>
         AtSubmit(j.server, t) && PushTurnOf(j.tasks, t, InHand(j.server, t), r, j'.tasks) && j'.pending == j.pending
       case GivesResponse(t, r) =>
         AtPost(j.server, t) && PushTurnOf(j.pending, t, InHand(j.server, t), r, j'.pending) && j'.tasks == j.tasks
       case Drains =>
         && j.server.loop.DrainPop? && j.pending.queue != []
         && NextBy(j.pending, TryPop(Some(j.pending.queue[0])), j'.pending) && j'.tasks == j.tasks
       case StirsTasks(step) => Spurious(step) && NextBy(j.tasks, step, j'.tasks) && j'.pending == j.pending
       case StirsPending(step) => Spurious(step) && NextBy(j.pending, step, j'.pending) && j'.tasks == j.tasks
  }

  /** Each monitor holds its queue, and its threads are at the calls they wait in. */
  ghost predicate Agree(j: Joint) { TasksAre(j.server, j.tasks) && PendingAre(j.server, j.pending) }

  // ---- Moves keep the agreement -------------------------------------------

  lemma TasksKept(s: Server, step: Ring.Step, m: Monitor<Job>, bound: nat)
    requires TasksAre(s, m) && Enabled(s, step, bound)
    requires !step.Pop? && !step.Exit? && !step.Submit? && !(step.EndBatch? && !s.running)
    ensures TasksAre(Apply(s, step, bound), m)
  {
    hide Ring.Outstanding, TaskQueues.Inv, Waits;
    PlacesKept(s, step, bound);
    hide Apply, AtPop, AtSubmit, InHand, Server.Closed;
  }

  /** A step that is no turn at the task queue moves nobody away from it, nor closes it. */
  lemma PlacesKept(s: Server, step: Ring.Step, bound: nat)
    requires Enabled(s, step, bound)
    requires !step.Pop? && !step.Exit? && !step.Submit? && !(step.EndBatch? && !s.running)
    ensures var s' := Apply(s, step, bound);
            && s'.tasks == s.tasks && s'.capacity == s.capacity && s'.Closed() == s.Closed()
            && (forall t :: AtPop(s, t) ==> AtPop(s', t))
            && (forall t :: AtSubmit(s, t) ==> AtSubmit(s', t) && InHand(s', t) == InHand(s, t))
  {
    TasksUntouched(s, step, bound);
    if OfLoop(step) {
      LoopStepChanges(s, step, bound);
      LoopLeavesSubmit(s, step, bound);
      hide Apply, Enabled;
    } else {
      WorkerStepChanges(s, step, bound);
      assert !s.workers[step.w].Idle?;
      hide Apply, Enabled, NextWorker;
    }
  }

  lemma TasksUntouched(s: Server, step: Ring.Step, bound: nat)
    requires Enabled(s, step, bound) && !step.Pop? && !step.Submit?
    ensures Apply(s, step, bound).tasks == s.tasks
  {
    hide Ring.Outstanding;
  }

  /** The only loop step out of submit is the submit itself. */
  lemma LoopLeavesSubmit(s: Server, step: Ring.Step, bound: nat)
    requires Enabled(s, step, bound) && OfLoop(step) && !step.Submit? && !(step.EndBatch? && !s.running)
    ensures s.loop.Submitting? ==> Apply(s, step, bound).loop == s.loop
    ensures Apply(s, step, bound).Closed() == s.Closed()
  {
    hide Ring.Outstanding;
  }

  lemma PendingKept(s: Server, step: Ring.Step, m: Monitor<Job>, bound: nat)
    requires PendingAre(s, m) && Enabled(s, step, bound) && !step.Post? && !step.Reject? && !step.DrainOne?
    ensures PendingAre(Apply(s, step, bound), m)
  {
    hide Ring.Outstanding, TaskQueues.Inv, Waits;
    PostersKept(s, step, bound);
    hide Apply, AtPost, InHand;
  }

  lemma PostersKept(s: Server, step: Ring.Step, bound: nat)
    requires Enabled(s, step, bound) && !step.Post? && !step.Reject?
    ensures var s' := Apply(s, step, bound);
            && s'.pending == (if step.DrainOne? then s.pending[1..] else s.pending) && s'.capacity == s.capacity
            && (forall t :: AtPost(s, t) ==> AtPost(s', t) && InHand(s', t) == InHand(s, t))
  {
    hide Ring.Outstanding;
  }

  lemma CloseKeeps(s: Server, m: Monitor<Job>, m': Monitor<Job>, bound: nat)
    requires TasksAre(s, m) && Enabled(s, EndBatch, bound) && !s.running && NextBy(m, Close, m')
    ensures TasksAre(Apply(s, EndBatch, bound), m')
  {
    hide Ring.Outstanding, TaskQueues.Inv;
    NextKeepsInv(m, Close, m');
    var s' := Apply(s, EndBatch, bound);
    forall t | Waits(m'.poppers, t) ensures AtPop(s', t) { assert Waits(m.poppers, t); }
    forall t: Thread ensures !Waits(m'.pushers, t) { assert !Waits(m.pushers, t); }
  }

  lemma DrainKeeps(s: Server, m: Monitor<Job>, m': Monitor<Job>, bound: nat)
    requires PendingAre(s, m) && s.loop.DrainPop? && m.queue != [] && NextBy(m, TryPop(Some(m.queue[0])), m')
    ensures Enabled(s, DrainOne, bound) && PendingAre(Apply(s, DrainOne, bound), m')
  {
    hide Ring.Outstanding, TaskQueues.Inv, Waits;
    NextKeepsInv(m, TryPop(Some(m.queue[0])), m');
    NotifyOneKeepsWaiting(m.pushers, m'.pushers);
    WaitingHaveItems(m');
    PostersKept(s, DrainOne, bound);
    hide Apply, NotifyOne, AtPost, InHand;
  }

  lemma SleepingPop(s: Server, m: Monitor<Job>, t: Thread, m': Monitor<Job>)
    requires TasksAre(s, m) && AtPop(s, t) && Pops(m, t, PopSleeps, m')
    ensures TasksAre(s, m')
  {
    hide TaskQueues.Inv, AtPop, AtSubmit, InHand;
    PopKeepsInv(m, t, PopSleeps, m');
  }

  lemma SleepingPush(m: Monitor<Job>, t: Thread, job: Job, m': Monitor<Job>)
    requires TaskQueues.Inv(m) && PushTurnOf(m, t, job, PushSleeps, m')
    ensures TaskQueues.Inv(m') && m'.queue == m.queue && m'.capacity == m.capacity && m'.closed == m.closed
    ensures forall u :: Waits(m'.poppers, u) <==> Waits(m.poppers, u)
    ensures forall u :: Waits(m'.pushers, u) <==> Waits(m.pushers, u) || u == t
    ensures m'.items == m.items[t := job]
  {
    hide TaskQueues.Inv;
    NextKeepsInv(m, if m.pushers.Has(t) then PushWakes(t, PushSleeps) else PushArrives(t, job, PushSleeps), m');
  }

  lemma SpuriousKeeps(m: Monitor<Job>, step: TaskQueues.Step<Job>, m': Monitor<Job>)
    requires TaskQueues.Inv(m) && Spurious(step) && NextBy(m, step, m')
    ensures TaskQueues.Inv(m') && m'.queue == m.queue && m'.capacity == m.capacity && m'.closed == m.closed
    ensures m'.items == m.items
    ensures forall u :: Waits(m'.poppers, u) <==> Waits(m.poppers, u)
    ensures forall u :: Waits(m'.pushers, u) <==> Waits(m.pushers, u)
  {
    hide TaskQueues.Inv;
    NextKeepsInv(m, step, m');
  }

  /** A push at an open queue is accepted or sleeps; nobody is at a push of the closed one. */
  lemma PushOpen(m: Monitor<Job>, t: Thread, job: Job, r: PushResult, m': Monitor<Job>)
    requires PushTurnOf(m, t, job, r, m') && !m.closed
    ensures r == Accepted || r == PushSleeps
    ensures r == Accepted ==> Pushes(m, t, job, m')
  {
  }

  lemma GivesTaskKeeps(j: Joint, t: Thread, r: PushResult, j': Joint, bound: nat)
    requires Agree(j) && Moves(j, GivesTask(t, r), j', bound)
    ensures Agree(j') && (r.Accepted? ==> Enabled(j.server, Submit, bound))
  {
    hide TaskQueues.Inv, Pushes, PushTurnOf, Apply, Enabled;
    var s := j.server;
    PushOpen(j.tasks, t, InHand(s, t), r, j'.tasks);
    if r.Accepted? {
      SubmitIsAStep(s, j.tasks, t, j'.tasks, bound);
      PendingKept(s, Submit, j.pending, bound);
    } else {
      SleepingPush(j.tasks, t, InHand(s, t), j'.tasks);
    }
  }

  lemma GivesResponseKeeps(j: Joint, t: Thread, r: PushResult, j': Joint, bound: nat)
    requires Agree(j) && Moves(j, GivesResponse(t, r), j', bound)
    ensures Agree(j') && (r.Accepted? ==> Enabled(j.server, PostOf(j.server, t), bound))
  {
    hide TaskQueues.Inv, Pushes, PushTurnOf, Apply, Enabled;
    var s := j.server;
    PushOpen(j.pending, t, InHand(s, t), r, j'.pending);
    if r.Accepted? {
      PostIsAStep(s, j.pending, t, j'.pending, bound);
      TasksKept(s, PostOf(s, t), j.tasks, bound);
    } else {
      SleepingPush(j.pending, t, InHand(s, t), j'.pending);
    }
  }

  lemma TakesTaskKeeps(j: Joint, t: Thread, r: PopResult<Job>, j': Joint, bound: nat)
    requires Agree(j) && Moves(j, TakesTask(t, r), j', bound)
    ensures Agree(j')
    ensures !r.PopSleeps? ==> Enabled(j.server, if r.Popped? then Pop(t) else Exit(t), bound)
  {
    hide TaskQueues.Inv, Pops, Apply, Enabled;
    var s := j.server;
    if r.PopSleeps? {
      SleepingPop(s, j.tasks, t, j'.tasks);
    } else {
      PopIsAStep(s, j.tasks, t, r, j'.tasks, bound);
      PendingKept(s, if r.Popped? then Pop(t) else Exit(t), j.pending, bound);
    }
  }

  /** Every move keeps the agreement, and is the step of the ring it is said to be. */
  lemma MoveKeepsAgree(j: Joint, move: Move, j': Joint, bound: nat)
    requires Agree(j) && Moves(j, move, j', bound)
    ensures Agree(j')
    ensures match StepOf(j.server, move)
            case None => j'.server == j.server
            case Some(step) => Enabled(j.server, step, bound) && j'.server == Apply(j.server, step, bound)
  {
    hide Apply, Enabled, NextBy, Pops, PushTurnOf, TaskQueues.Inv;
    var s := j.server;
    match move
    case Inside(step) => InsideKeeps(j, step, bound);
    case Closes =>
      CloseKeeps(s, j.tasks, j'.tasks, bound);
      PendingKept(s, EndBatch, j.pending, bound);
    case TakesTask(t, r) => TakesTaskKeeps(j, t, r, j', bound);
    case GivesTask(t, r) => GivesTaskKeeps(j, t, r, j', bound);
    case GivesResponse(t, r) => GivesResponseKeeps(j, t, r, j', bound);
    case Drains =>
      DrainKeeps(s, j.pending, j'.pending, bound);
      TasksKept(s, DrainOne, j.tasks, bound);
    case StirsTasks(step) => SpuriousKeeps(j.tasks, step, j'.tasks);
    case StirsPending(step) => SpuriousKeeps(j.pending, step, j'.pending);
  }

  lemma InsideKeeps(j: Joint, step: Ring.Step, bound: nat)
    requires Agree(j) && Enabled(j.server, step, bound) && !AtQueue(j.server, step)
    ensures Agree(j.(server := Apply(j.server, step, bound)))
  {
    hide Apply, Enabled, TasksAre, PendingAre;
    TasksKept(j.server, step, j.tasks, bound);
    PendingKept(j.server, step, j.pending, bound);
  }

  // ---- The ring can go on exactly when the threads can --------------------

  /** Steps that stand for each other at the queues. */
  predicate Alike(a: Ring.Step, b: Ring.Step) {
    a == b || (a.Pop? && b.Pop?) || (a.Exit? && b.Exit?) || ((a.Post? || a.Reject?) && (b.Post? || b.Reject?))
  }

  /** Whatever step the ring can take, some thread can make a move that is such a step. */
  lemma SomeMove(j: Joint, step: Ring.Step, bound: nat) returns (move: Move, j': Joint)
    requires Agree(j) && Enabled(j.server, step, bound)
    ensures Moves(j, move, j', bound) && StepOf(j.server, move).Some? && Alike(step, StepOf(j.server, move).value)
  {
    hide Apply, Agree, Moves, Ring.Outstanding;
    match step
    case Pop(w) => move, j' := SomeTake(j, w, bound);
    case Exit(w) => move, j' := SomeTake(j, w, bound);
    case Submit => move, j' := SomeSubmit(j, bound);
    case Post(w) => move, j' := SomeGive(j, w, bound);
    case Reject => move, j' := SomeGive(j, LoopThread(j.server), bound);
    case DrainOne => move, j' := SomeDrain(j, bound);
    case EndBatch => move, j' := SomeEnd(j, bound);
    case _ => move, j' := SomeInside(j, step, bound);
  }

  lemma SomeInside(j: Joint, step: Ring.Step, bound: nat) returns (move: Move, j': Joint)
    requires Enabled(j.server, step, bound) && !AtQueue(j.server, step)
    ensures Moves(j, move, j', bound) && move == Inside(step)
  {
    hide Apply, Enabled;
    move, j' := Inside(step), j.(server := Advance(j.server, Some(step), bound));
  }

  lemma SomeEnd(j: Joint, bound: nat) returns (move: Move, j': Joint)
    requires Enabled(j.server, EndBatch, bound)
    ensures Moves(j, move, j', bound) && StepOf(j.server, move) == Some(EndBatch)
  {
    hide Apply, Enabled;
    if j.server.running {
      move, j' := SomeInside(j, EndBatch, bound);
    } else {
      var m := j.tasks.(closed := true, poppers := j.tasks.poppers.WakeAll(), pushers := j.tasks.pushers.WakeAll());
      move, j' := Closes, Joint(Advance(j.server, Some(EndBatch), bound), m, j.pending);
    }
  }

  lemma SomeSubmit(j: Joint, bound: nat) returns (move: Move, j': Joint)
    requires Agree(j) && Enabled(j.server, Submit, bound)
    ensures Moves(j, move, j', bound) && StepOf(j.server, move) == Some(Submit)
  {
    hide Apply, TaskQueues.Inv, Pushes, PendingAre, NextBy;
    var s := j.server;
    var m := SubmitHappens(s, j.tasks, bound);
    move := GivesTask(LoopThread(s), Accepted);
    PushesIsATurn(j.tasks, LoopThread(s), s.loop.job, m);
    j' := Joint(Advance(s, Some(Submit), bound), m, j.pending);
  }

  lemma SomeDrain(j: Joint, bound: nat) returns (move: Move, j': Joint)
    requires Agree(j) && Enabled(j.server, DrainOne, bound)
    ensures Moves(j, move, j', bound) && move == Drains
  {
    hide Apply, TaskQueues.Inv, TasksAre, NextBy;
    var m := Drained(j.pending);
    move, j' := Drains, Joint(Advance(j.server, Some(DrainOne), bound), j.tasks, m);
  }

  lemma PushesIsATurn(m: Monitor<Job>, t: Thread, job: Job, m': Monitor<Job>)
    requires Pushes(m, t, job, m')
    ensures PushTurnOf(m, t, job, Accepted, m')
  {
  }

  lemma Drained(m: Monitor<Job>) returns (m': Monitor<Job>)
    requires m.queue != []
    ensures NextBy(m, TryPop(Some(m.queue[0])), m')
  {
    var pushers := SomeoneNotified(m.pushers);
    m' := m.(queue := m.queue[1..], removed := m.removed + [m.queue[0]], pushers := pushers);
  }

  lemma SomeTake(j: Joint, w: nat, bound: nat) returns (move: Move, j': Joint)
    requires Agree(j) && (Enabled(j.server, Pop(w), bound) || Enabled(j.server, Exit(w), bound))
    ensures Moves(j, move, j', bound) && StepOf(j.server, move).Some?
    ensures if j.server.tasks != [] then StepOf(j.server, move).value.Pop? else StepOf(j.server, move).value.Exit?
  {
    hide TaskQueues.Inv, Pops, Ring.Outstanding, Apply;
    var t, r, m := SomePopHappens(j.server, j.tasks, w, bound);
    move := TakesTask(t, r);
    j' := Joint(Advance(j.server, StepOf(j.server, move), bound), m, j.pending);
  }

  lemma SomeGive(j: Joint, u: Thread, bound: nat) returns (move: Move, j': Joint)
    requires Agree(j) && AtPost(j.server, u) && Enabled(j.server, PostOf(j.server, u), bound)
    ensures Moves(j, move, j', bound) && StepOf(j.server, move).Some?
    ensures StepOf(j.server, move).value.Post? || StepOf(j.server, move).value.Reject?
  {
    hide TaskQueues.Inv, Pushes, Ring.Outstanding, Apply;
    var t, m := SomePostHappens(j.server, j.pending, u, bound);
    PushesIsATurn(j.pending, t, InHand(j.server, t), m);
    move := GivesResponse(t, Accepted);
    j' := Joint(Advance(j.server, StepOf(j.server, move), bound), j.tasks, m);
  }

  /** Some thread can make a move that is progress, not just fall asleep or wake up. */
  ghost predicate Advances(j: Joint, bound: nat) {
    exists move, j' :: Moves(j, move, j', bound) && IsProgress(j.server, move)
  }

  predicate IsProgress(s: Server, move: Move) { StepOf(s, move).Some? && Progress(s, StepOf(s, move).value) }

  lemma AdvancesIff(j: Joint, bound: nat)
    requires Agree(j)
    ensures Advances(j, bound) <==> !Quiet(j.server, bound)
  {
    hide Moves, Enabled, StepOf, Agree;
    if move, j' :| Moves(j, move, j', bound) && IsProgress(j.server, move) { MoveKeepsAgree(j, move, j', bound); }
    if step :| Enabled(j.server, step, bound) && Progress(j.server, step) {
      var move, j' := SomeMove(j, step, bound);
      assert IsProgress(j.server, move);
    }
  }

  // ---- Runs ---------------------------------------------------------------

  function Empty(capacity: nat): Monitor<Job> {
    Monitor(capacity, [], false, Waiters({}, {}), Waiters({}, {}), map[], [], [])
  }

  function StartJoint(workers: nat, capacity: nat): Joint {
    Joint(Start(workers, capacity), Empty(capacity), Empty(capacity))
  }

  ghost predicate Path(run: seq<Joint>, moves: seq<Move>, bound: nat) {
    |run| == |moves| + 1 && forall i :: 0 <= i < |moves| ==> Moves(run[i], moves[i], run[i + 1], bound)
  }

  ghost predicate Reachable(j: Joint, workers: nat, capacity: nat, bound: nat) {
    exists run, moves :: Path(run, moves, bound) && run[0] == StartJoint(workers, capacity) && run[|moves|] == j
  }

  lemma StartAgrees(workers: nat, capacity: nat)
    ensures Agree(StartJoint(workers, capacity))
  {
  }

  /** Every run over the real queues is a run of the ring, in agreement with its queues. */
  lemma {:induction false} PathIsRun(run: seq<Joint>, moves: seq<Move>, workers: nat, capacity: nat, bound: nat, k: nat)
    requires Path(run, moves, bound) && run[0] == StartJoint(workers, capacity) && k <= |moves|
    ensures Agree(run[k]) && Reaches(Start(workers, capacity), run[k].server, bound)
    decreases k
  {
    hide Moves, Agree, Reaches, Start;
    if k == 0 {
      StartAgrees(workers, capacity);
      ReachesSelf(Start(workers, capacity), bound);
    } else {
      PathIsRun(run, moves, workers, capacity, bound, k - 1);
      MoveKeepsAgree(run[k - 1], moves[k - 1], run[k], bound);
      var step := StepOf(run[k - 1].server, moves[k - 1]);
      hide StepOf;
      if step.Some? { var t := Do(Start(workers, capacity), run[k - 1].server, step.value, bound); }
    }
  }

  lemma ReachableAgrees(j: Joint, workers: nat, capacity: nat, bound: nat)
    requires Reachable(j, workers, capacity, bound)
    ensures Agree(j) && Reaches(Start(workers, capacity), j.server, bound)
  {
    hide Moves, Agree, Reaches;
    var run, moves :| Path(run, moves, bound) && run[0] == StartJoint(workers, capacity) && run[|moves|] == j;
    PathIsRun(run, moves, workers, capacity, bound, |moves|);
  }

  /** Nobody waits on either monitor. */
  predicate NobodyWaits(j: Joint) {
    && j.tasks.poppers == Waiters({}, {}) == j.tasks.pushers
    && j.pending.poppers == Waiters({}, {}) == j.pending.pushers
  }

  /** As long as nobody waits, every step of the ring is a move of the same thread. */
  lemma SameMove(j: Joint, step: Ring.Step, bound: nat) returns (move: Move, j': Joint)
    requires Agree(j) && NobodyWaits(j) && Enabled(j.server, step, bound)
    ensures Moves(j, move, j', bound) && j'.server == Apply(j.server, step, bound) && NobodyWaits(j')
  {
    hide Apply, Agree, NobodyWaits, Ring.Outstanding, Moves, StepOf;
    match step
    case Pop(w) => move, j' := SameTake(j, step, bound);
    case Exit(w) => move, j' := SameTake(j, step, bound);
    case Submit => move, j' := SameSubmit(j, bound);
    case Post(w) => move, j' := SamePost(j, w, bound);
    case Reject => move, j' := SamePost(j, LoopThread(j.server), bound);
    case DrainOne => move, j' := SameDrain(j, bound);
    case EndBatch => move, j' := SameEnd(j, bound);
    case _ => move, j' := SameInside(j, step, bound);
  }

  lemma SameInside(j: Joint, step: Ring.Step, bound: nat) returns (move: Move, j': Joint)
    requires NobodyWaits(j) && Enabled(j.server, step, bound) && !AtQueue(j.server, step)
    ensures Moves(j, move, j', bound) && j'.server == Apply(j.server, step, bound) && NobodyWaits(j')
  {
    hide Apply, Enabled;
    move, j' := Inside(step), j.(server := Apply(j.server, step, bound));
  }

  lemma SameEnd(j: Joint, bound: nat) returns (move: Move, j': Joint)
    requires NobodyWaits(j) && Enabled(j.server, EndBatch, bound)
    ensures Moves(j, move, j', bound) && j'.server == Apply(j.server, EndBatch, bound) && NobodyWaits(j')
  {
    hide Apply, Enabled;
    if j.server.running {
      move, j' := SameInside(j, EndBatch, bound);
    } else {
      move, j' := Closes, Joint(Apply(j.server, EndBatch, bound), j.tasks.(closed := true), j.pending);
      assert {} + {} == j.tasks.poppers.asleep;
    }
  }

  lemma SameTake(j: Joint, step: Ring.Step, bound: nat) returns (move: Move, j': Joint)
    requires Agree(j) && NobodyWaits(j) && Enabled(j.server, step, bound) && (step.Pop? || step.Exit?)
    ensures Moves(j, move, j', bound) && j'.server == Apply(j.server, step, bound) && NobodyWaits(j')
  {
    hide Apply, TaskQueues.Inv, Ring.Outstanding, PendingAre;
    var next := Apply(j.server, step, bound);
    if step.Pop? {
      var m := Taken(j.tasks);
      move, j' := TakesTask(step.w, Popped(j.tasks.queue[0])), Joint(next, m, j.pending);
    } else {
      assert {} - {step.w} == j.tasks.poppers.woken;
      move, j' := TakesTask(step.w, Nothing), j.(server := next);
    }
  }

  lemma SameSubmit(j: Joint, bound: nat) returns (move: Move, j': Joint)
    requires Agree(j) && NobodyWaits(j) && Enabled(j.server, Submit, bound)
    ensures Moves(j, move, j', bound) && j'.server == Apply(j.server, Submit, bound) && NobodyWaits(j')
  {
    hide Apply, TaskQueues.Inv, PendingAre, NextBy;
    var t, s := LoopThread(j.server), j.server;
    var m := Given(j.tasks, InHand(s, t));
    move, j' := GivesTask(t, Accepted), Joint(Apply(s, Submit, bound), m, j.pending);
    assert NextBy(j.tasks, PushArrives(t, InHand(s, t), Accepted), m);
  }

  lemma SamePost(j: Joint, t: Thread, bound: nat) returns (move: Move, j': Joint)
    requires Agree(j) && NobodyWaits(j) && AtPost(j.server, t) && Enabled(j.server, PostOf(j.server, t), bound)
    ensures Moves(j, move, j', bound) && j'.server == Apply(j.server, PostOf(j.server, t), bound) && NobodyWaits(j')
  {
    hide Apply, TaskQueues.Inv, TasksAre, NextBy;
    var s := j.server;
    var m := Given(j.pending, InHand(s, t));
    move, j' := GivesResponse(t, Accepted), Joint(Apply(s, PostOf(s, t), bound), j.tasks, m);
    assert NextBy(j.pending, PushArrives(t, InHand(s, t), Accepted), m);
  }

  lemma SameDrain(j: Joint, bound: nat) returns (move: Move, j': Joint)
    requires Agree(j) && NobodyWaits(j) && Enabled(j.server, DrainOne, bound)
    ensures Moves(j, move, j', bound) && j'.server == Apply(j.server, DrainOne, bound) && NobodyWaits(j')
  {
    hide Apply, TaskQueues.Inv, TasksAre, NextBy;
    var m := Taken(j.pending);
    move, j' := Drains, Joint(Apply(j.server, DrainOne, bound), j.tasks, m);
  }

  /** The front taken from a monitor on which nobody waits. */
  lemma Taken(m: Monitor<Job>) returns (m': Monitor<Job>)
    requires m.queue != [] && m.poppers == Waiters({}, {}) == m.pushers
    ensures m'.poppers == Waiters({}, {}) == m'.pushers
    ensures NextBy(m, TryPop(Some(m.queue[0])), m') && forall t :: NextBy(m, PopArrives(t, Popped(m.queue[0])), m')
  {
    m' := m.(queue := m.queue[1..], removed := m.removed + [m.queue[0]]);
    forall t: Thread ensures m.(poppers := m.poppers.Leave(t)) == m { assert {} - {t} == m.poppers.woken; }
  }

  lemma Given(m: Monitor<Job>, job: Job) returns (m': Monitor<Job>)
    requires !m.closed && |m.queue| < m.capacity && m.poppers == Waiters({}, {}) == m.pushers
    requires TaskQueues.Inv(m)
    ensures m'.poppers == Waiters({}, {}) == m'.pushers
    ensures forall t :: NextBy(m, PushArrives(t, job, Accepted), m')
  {
    assert m.items == map[];
    m' := m.(queue := m.queue + [job], accepted := m.accepted + [job]);
    forall t: Thread ensures Without(m, t) == m { assert {} - {t} == m.pushers.woken && m.items - {t} == m.items; }
  }

  /** Every run of the ring is a run over the real queues. */
  lemma {:induction false} RunIsPath(j: Joint, steps: seq<Ring.Step>, bound: nat)
      returns (run: seq<Joint>, moves: seq<Move>)
    requires Agree(j) && NobodyWaits(j) && Possible(j.server, steps, bound)
    ensures Path(run, moves, bound) && run[0] == j && run[|moves|].server == After(j.server, steps, bound)
    decreases |steps|
  {
    hide Moves, Agree, NobodyWaits, Enabled, Apply;
    if steps == [] {
      run, moves := [j], [];
    } else {
      var move, j' := SameMove(j, steps[0], bound);
      MoveKeepsAgree(j, move, j', bound);
      var rest, tail := RunIsPath(j', steps[1..], bound);
      run, moves := [j] + rest, [move] + tail;
      forall i | 0 <= i < |moves| ensures Moves(run[i], moves[i], run[i + 1], bound) {
        if i > 0 { assert Moves(rest[i - 1], tail[i - 1], rest[i], bound); }
      }
    }
  }

  // ---- Wedges -------------------------------------------------------------

  /** Requests are outstanding, the loop has not stopped, and no thread can do more than sleep or stir. */
  ghost predicate JointStuck(j: Joint, bound: nat) {
    Outstanding(j.server) > 0 && !j.server.loop.Stopped? && !Advances(j, bound)
  }

  ghost predicate JointNeverStuck(workers: nat, capacity: nat, bound: nat) {
    forall j :: Reachable(j, workers, capacity, bound) ==> !JointStuck(j, bound)
  }

  /** The server over its real queues can wedge exactly when more requests may be outstanding than one queue holds. */
  lemma JointNeverStuckIff(workers: nat, capacity: nat, bound: nat)
    requires workers > 0
    ensures JointNeverStuck(workers, capacity, bound) <==> bound <= capacity
  {
    hide Reachable, Reaches, Agree, Advances, Quiet, Start, Outstanding;
    NeverStuckIff(workers, capacity, bound);
    if bound <= capacity {
      forall j | Reachable(j, workers, capacity, bound) ensures !JointStuck(j, bound) {
        ReachableAgrees(j, workers, capacity, bound);
        AdvancesIff(j, bound);
        assert !Stuck(j.server, bound);
      }
    } else {
      var s :| Reaches(Start(workers, capacity), s, bound) && Stuck(s, bound);
      var j := JointReached(workers, capacity, bound, s);
      AdvancesIff(j, bound);
      assert JointStuck(j, bound);
    }
  }

  lemma JointReached(workers: nat, capacity: nat, bound: nat, s: Server) returns (j: Joint)
    requires Reaches(Start(workers, capacity), s, bound)
    ensures Reachable(j, workers, capacity, bound) && j.server == s && Agree(j)
  {
    hide Agree, Moves, Start, Possible, After;
    var steps :| Possible(Start(workers, capacity), steps, bound) && After(Start(workers, capacity), steps, bound) == s;
    StartAgrees(workers, capacity);
    var run, moves := RunIsPath(StartJoint(workers, capacity), steps, bound);
    j := run[|moves|];
    PathIsRun(run, moves, workers, capacity, bound, |moves|);
  }

  // ---- The join -----------------------------------------------------------

  /** j' comes after j by moves that are progress, and by falling asleep and waking up. */
  ghost predicate JointProceeds(j: Joint, j': Joint, bound: nat) {
    exists run, moves :: && Path(run, moves, bound) && run[0] == j && run[|moves|] == j' && AllOnward(run, moves)
  }

  predicate AllOnward(run: seq<Joint>, moves: seq<Move>)
    requires |run| == |moves| + 1
  {
    forall i :: 0 <= i < |moves| ==> StepOf(run[i].server, moves[i]).None? || IsProgress(run[i].server, moves[i])
  }

  /** However the threads are scheduled and woken from here, the join comes to an end. */
  ghost predicate JointAlwaysJoins(j: Joint, bound: nat) {
    forall j' :: JointProceeds(j, j', bound) && !Advances(j', bound) ==> j'.server.loop.Stopped?
  }

  lemma {:induction false} LeavingPath(run: seq<Joint>, moves: seq<Move>, bound: nat, k: nat)
    requires Path(run, moves, bound) && Agree(run[0]) && Leaving(run[0].server) && k <= |moves|
    ensures Agree(run[k]) && Leaving(run[k].server) && run[k].server.capacity == run[0].server.capacity
    ensures Outstanding(run[k].server) <= Outstanding(run[0].server)
    decreases k
  {
    hide Moves, Agree, Leaving, Outstanding;
    if k > 0 {
      LeavingPath(run, moves, bound, k - 1);
      MoveKeepsAgree(run[k - 1], moves[k - 1], run[k], bound);
      var step := StepOf(run[k - 1].server, moves[k - 1]);
      hide StepOf;
      if step.Some? { LeavingStep(run[k - 1].server, step.value, bound); }
    }
  }

  /** With more outstanding than the response queue holds, and no task failing, the threads end up asleep. */
  lemma {:induction false} JointJoinWedges(j: Joint, bound: nat) returns (run: seq<Joint>, moves: seq<Move>)
    requires Agree(j) && Leaving(j.server) && j.server.loop.Joining? && |j.server.workers| > 0
    requires Outstanding(j.server) > j.server.capacity
    ensures Path(run, moves, bound) && run[0] == j && AllOnward(run, moves)
    ensures !Advances(run[|moves|], bound) && run[|moves|].server.loop.Joining?
    decreases Rank(j.server)
  {
    hide Moves, Agree, Outstanding, Leaving, Enabled, Apply, Rank;
    var s := j.server;
    if step :| Enabled(s, step, bound) && Progress(s, step) && !step.Throw? {
      var move, j' := SomeMove(j, step, bound);
      MoveKeepsAgree(j, move, j', bound);
      var taken := StepOf(s, move).value;
      hide StepOf;
      JoinGoesOn(s, taken, bound);
      var rest, tail := JointJoinWedges(j', bound);
      run, moves := [j] + rest, [move] + tail;
      forall i | 0 <= i < |moves|
        ensures Moves(run[i], moves[i], run[i + 1], bound)
        ensures StepOf(run[i].server, moves[i]).None? || IsProgress(run[i].server, moves[i])
      {
        if i > 0 { assert run[i] == rest[i - 1] && moves[i] == tail[i - 1] && run[i + 1] == rest[i]; }
      }
    } else {
      run, moves := [j], [];
      NoProgressButThrows(s, bound);
      AdvancesIff(j, bound);
    }
  }

  lemma JoinGoesOn(s: Server, step: Ring.Step, bound: nat)
    requires Leaving(s) && s.loop.Joining? && |s.workers| > 0 && Outstanding(s) > s.capacity
    requires Enabled(s, step, bound) && Progress(s, step) && !step.Throw?
    ensures var t := Apply(s, step, bound);
            && Leaving(t) && t.loop.Joining? && |t.workers| > 0 && Outstanding(t) > t.capacity && Rank(t) < Rank(s)
  {
    LeavingStep(s, step, bound);
    ProgressLowersRank(s, step, bound);
    NotAllExited(s);
    StepKeepsShape(s, step, bound);
    hide Outstanding, Rank;
  }

  lemma NoProgressButThrows(s: Server, bound: nat)
    requires forall step :: Enabled(s, step, bound) && Progress(s, step) ==> step.Throw?
    ensures Quiet(s, bound)
  {
    forall step | Enabled(s, step, bound) ensures !Progress(s, step) {
      if step.Throw? { FinishInstead(s, step, bound); }
    }
  }

  lemma FinishInstead(s: Server, step: Ring.Step, bound: nat)
    requires Enabled(s, step, bound) && step.Throw?
    ensures Enabled(s, Finish(step.w), bound) && Progress(s, Finish(step.w))
  {
  }

  /**
   * Over the real queues too the join ends on every schedule exactly when what is outstanding fits the
   * response queue.
   */
  lemma JointJoinEndsIff(j: Joint, bound: nat)
    requires Agree(j) && Leaving(j.server) && j.server.loop.Joining? && |j.server.workers| > 0
    ensures JointAlwaysJoins(j, bound) <==> Outstanding(j.server) <= j.server.capacity
  {
    hide Agree, Outstanding, Leaving, Advances, Quiet, Moves, AllOnward;
    if Outstanding(j.server) <= j.server.capacity {
      forall j' | JointProceeds(j, j', bound) && !Advances(j', bound) ensures j'.server.loop.Stopped? {
        var run, moves :| Path(run, moves, bound) && run[0] == j && run[|moves|] == j' && AllOnward(run, moves);
        LeavingPath(run, moves, bound, |moves|);
        AdvancesIff(j', bound);
        JoinMoves(j'.server, bound);
      }
    } else {
      var run, moves := JointJoinWedges(j, bound);
      assert JointProceeds(j, run[|moves|], bound);
    }
  }
}
