/**
 * The server as a ring: event loop -> task queue -> workers -> pending writes -> event loop, with an
 * edge-triggered eventfd as the wakeup. Any number of workers, any capacity, every interleaving.
 *
 * A blocking push or pop is a step that is possible when its wait condition holds; that such a step is
 * never lost between sleeping threads is shown for the queue itself in module TaskQueues.
 */
module Ring {
  import opened Bags

  type Job = nat

  datatype Worker =
    | Idle                 // in pop
    | Running(job: Job)    // in its job
    | Posting(job: Job)    // in post_response, at push
    | Signalling           // in post_response, at the eventfd write
    | Exited

  datatype Loop =
    | Polling              // in epoll_wait
    | Batch                // between two handlers of one batch of events
    | Submitting(job: Job) // in the read callback, at submit
    | Rejecting(job: Job)  // in the read callback, at the push of an error page
    | SignallingReject     // the eventfd write of that error page
    | DrainRead            // in drain_pending_writes, before reading the counter
    | DrainPop             // in its pop loop
    | Joining              // in shutdown, after close
    | Stopped

  datatype Server = Server(
    capacity: nat,
    loop: Loop,
    running: bool,
    tasks: seq<Job>,
    workers: seq<Worker>,
    pending: seq<Job>,
    counter: nat,          // of the eventfd
    ready: bool,           // the eventfd is on epoll's ready list
    wakeInBatch: bool,     // its event was returned and is yet to be handled
    accepted: multiset<Job>,   // taken in by submit
    executed: multiset<Job>,   // run to an end, or to an exception
    thrown: multiset<Job>,     // those that ended in an exception, and are never answered
    refused: multiset<Job>,    // requests that did not parse, answered with an error page
    delivered: seq<Job>)       // answers handed to their connections
  {
    predicate Closed() { loop.Joining? || loop.Stopped? }
  }

  datatype Step =
    | Poll | Arrive(job: Job) | ArriveBad(job: Job) | Stop
    | Submit | Reject | SignalReject | StartDrain | ReadCounter | DrainOne | EndDrain | EndBatch | Joined
    | Pop(w: nat) | Exit(w: nat) | Finish(w: nat) | Throw(w: nat) | Post(w: nat) | Signal(w: nat)

  // ---- Counting -----------------------------------------------------------

  function Sum(ws: seq<Worker>, f: Worker -> nat): nat {
    if ws == [] then 0 else f(ws[0]) + Sum(ws[1..], f)
  }

  lemma {:induction false} SumUpdate(ws: seq<Worker>, f: Worker -> nat, i: nat, w: Worker)
    requires i < |ws|
    ensures Sum(ws[i := w], f) + f(ws[i]) == Sum(ws, f) + f(w)
    decreases |ws|
  {
    if i > 0 {
      assert ws[i := w][1..] == ws[1..][i - 1 := w];
      SumUpdate(ws[1..], f, i - 1, w);
    } else {
      assert ws[i := w][1..] == ws[1..];
    }
  }

  lemma {:induction false} SumZero(ws: seq<Worker>, f: Worker -> nat)
    ensures Sum(ws, f) == 0 <==> forall i :: 0 <= i < |ws| ==> f(ws[i]) == 0
    decreases |ws|
  {
    if ws != [] { SumZero(ws[1..], f); assert ws == [ws[0]] + ws[1..]; }
  }

  function Carries(w: Worker): nat { if w.Running? || w.Posting? then 1 else 0 }

  function Hand(l: Loop): nat { if l.Submitting? || l.Rejecting? then 1 else 0 }

  /** Requests taken in and not yet answered: in the loop's hand, queued, being worked on, or waiting to be written. */
  function Outstanding(s: Server): nat {
    Hand(s.loop) + |s.tasks| + Sum(s.workers, Carries) + |s.pending|
  }

  function RunningJob(w: Worker): multiset<Job> { if w.Running? then multiset{w.job} else multiset{} }

  function PostingJob(w: Worker): multiset<Job> { if w.Posting? then multiset{w.job} else multiset{} }

  function RunningJobs(ws: seq<Worker>): multiset<Job> { Gather(ws, RunningJob) }

  function PostingJobs(ws: seq<Worker>): multiset<Job> { Gather(ws, PostingJob) }

  lemma RunningUpdate(ws: seq<Worker>, i: nat, w: Worker)
    requires i < |ws|
    ensures RunningJobs(ws[i := w]) + RunningJob(ws[i]) == RunningJobs(ws) + RunningJob(w)
  {
    GatherUpdate(ws, RunningJob, i, w);
  }

  lemma PostingUpdate(ws: seq<Worker>, i: nat, w: Worker)
    requires i < |ws|
    ensures PostingJobs(ws[i := w]) + PostingJob(ws[i]) == PostingJobs(ws) + PostingJob(w)
  {
    GatherUpdate(ws, PostingJob, i, w);
  }

  // ---- Steps --------------------------------------------------------------

  /** In a read callback or between handlers: the wakeup event of the batch may still be unhandled. */
  predicate InBatch(l: Loop) { l.Batch? || l.Submitting? || l.Rejecting? || l.SignallingReject? }

  predicate Enabled(s: Server, step: Step, bound: nat) {
    match step
    case Poll => s.loop.Polling?
    case Arrive(_) => s.loop.Batch? && Outstanding(s) < bound
    case ArriveBad(_) => s.loop.Batch? && Outstanding(s) < bound
    case Stop => s.running
    case Submit => s.loop.Submitting? && |s.tasks| < s.capacity
    case Reject => s.loop.Rejecting? && |s.pending| < s.capacity
    case SignalReject => s.loop.SignallingReject?
    case StartDrain => s.loop.Batch? && s.wakeInBatch
    case ReadCounter => s.loop.DrainRead?
    case DrainOne => s.loop.DrainPop? && s.pending != []
    case EndDrain => s.loop.DrainPop? && s.pending == []
    case EndBatch => s.loop.Batch? && !s.wakeInBatch
    case Joined => s.loop.Joining? && forall i :: 0 <= i < |s.workers| ==> s.workers[i].Exited?
    case Pop(w) => w < |s.workers| && s.workers[w].Idle? && s.tasks != []
    case Exit(w) => w < |s.workers| && s.workers[w].Idle? && s.tasks == [] && s.Closed()
    case Finish(w) => w < |s.workers| && s.workers[w].Running?
    case Throw(w) => w < |s.workers| && s.workers[w].Running?
    case Post(w) => w < |s.workers| && s.workers[w].Posting? && |s.pending| < s.capacity
    case Signal(w) => w < |s.workers| && s.workers[w].Signalling?
  }

  function Apply(s: Server, step: Step, bound: nat): Server
    requires Enabled(s, step, bound)
  {
    match step
    case Poll => s.(loop := Batch, wakeInBatch := s.ready && s.counter > 0, ready := false)
    case Arrive(job) => s.(loop := Submitting(job))
    case ArriveBad(job) => s.(loop := Rejecting(job))
    case Stop => s.(running := false)
    case Submit => s.(loop := Batch, tasks := s.tasks + [s.loop.job], accepted := s.accepted + multiset{s.loop.job})
    case Reject =>
        s.(loop := SignallingReject, pending := s.pending + [s.loop.job], refused := s.refused + multiset{s.loop.job})
    case SignalReject => s.(loop := Batch, counter := s.counter + 1, ready := true)
    case StartDrain => s.(loop := DrainRead, wakeInBatch := false)
    case ReadCounter => s.(loop := DrainPop, counter := 0)
    case DrainOne => s.(pending := s.pending[1..], delivered := s.delivered + [s.pending[0]])
    case EndDrain => s.(loop := Batch)
    case EndBatch => s.(loop := if s.running then Polling else Joining)
    case Joined => s.(loop := Stopped)
    case Pop(w) => s.(workers := s.workers[w := Running(s.tasks[0])], tasks := s.tasks[1..])
    case Exit(w) => s.(workers := s.workers[w := Exited])
    case Finish(w) =>
        s.(workers := s.workers[w := Posting(s.workers[w].job)], executed := s.executed + multiset{s.workers[w].job})
    case Throw(w) =>
      s.(workers := s.workers[w := Idle], executed := s.executed + multiset{s.workers[w].job},
         thrown := s.thrown + multiset{s.workers[w].job})
    case Post(w) => s.(workers := s.workers[w := Signalling], pending := s.pending + [s.workers[w].job])
    case Signal(w) => s.(workers := s.workers[w := Idle], counter := s.counter + 1, ready := true)
  }

  function Start(workers: nat, capacity: nat): Server {
    Server(capacity, Polling, true, [], seq(workers, i => Idle), [], 0, false, false,
           multiset{}, multiset{}, multiset{}, multiset{}, [])
  }

  // ---- Invariants ---------------------------------------------------------

  predicate SomeoneSignals(s: Server) {
    s.loop.SignallingReject? || exists i :: 0 <= i < |s.workers| && s.workers[i].Signalling?
  }

  /** A response waits only while its wakeup is on the way, delivered, being served, or about to be sent. */
  predicate NoLostResponse(s: Server) {
    s.pending != [] ==>
      || (s.ready && s.counter > 0)
      || s.wakeInBatch
      || s.loop.DrainRead? || s.loop.DrainPop?
      || SomeoneSignals(s)
      || s.Closed()
  }

  predicate Shape(s: Server) {
    && |s.tasks| <= s.capacity && |s.pending| <= s.capacity
    && (s.wakeInBatch ==> InBatch(s.loop))
    && (s.Closed() ==> !s.running)
    && (forall i :: 0 <= i < |s.workers| && s.workers[i].Exited? ==> s.Closed() && s.tasks == [])
    && (s.loop.Stopped? ==> forall i :: 0 <= i < |s.workers| ==> s.workers[i].Exited?)
  }

  /** Every accepted task is queued, running, or was executed, once. */
  predicate Conserved(s: Server) {
    s.accepted == multiset(s.tasks) + (RunningJobs(s.workers) + s.executed)
  }

  /** Answers on their way: delivered, waiting to be written, or in a worker's hand. */
  function Answers(s: Server): multiset<Job> { multiset(s.delivered) + multiset(s.pending) + PostingJobs(s.workers) }

  /** Every executed task and every refused request has its answer on the way, once, or threw. */
  predicate Answered(s: Server) { Answers(s) + s.thrown == s.executed + s.refused }

  /** The eventfd counts only signals that the loop has yet to read, and the loop reads it only when there are some. */
  predicate NoStaleCount(s: Server) {
    && (s.counter > 0 ==> s.ready || s.wakeInBatch || s.loop.DrainRead? || s.Closed())
    && (s.wakeInBatch || s.loop.DrainRead? ==> s.counter > 0)
  }

  predicate Inv(s: Server, bound: nat) {
    && Shape(s) && NoLostResponse(s) && NoStaleCount(s) && Conserved(s) && Answered(s)
    && Outstanding(s) <= bound
  }

  lemma StartCounts(workers: nat)
    ensures Sum(seq(workers, i => Idle), Carries) == 0
    ensures RunningJobs(seq(workers, i => Idle)) == multiset{} == PostingJobs(seq(workers, i => Idle))
  {
    var ws := seq(workers, i => Idle);
    SumZero(ws, Carries);
    GatherNothing(ws, RunningJob);
    GatherNothing(ws, PostingJob);
  }

  lemma StartInv(workers: nat, capacity: nat, bound: nat)
    ensures Inv(Start(workers, capacity), bound)
  {
    StartCounts(workers);
  }

  predicate OfLoop(step: Step) {
    !(step.Pop? || step.Exit? || step.Finish? || step.Throw? || step.Post? || step.Signal?)
  }

  /** What worker w is after its step. */
  function NextWorker(s: Server, step: Step, bound: nat): Worker
    requires Enabled(s, step, bound) && !OfLoop(step)
  {
    match step
    case Pop(w) => Running(s.tasks[0])
    case Exit(w) => Exited
    case Finish(w) => Posting(s.workers[w].job)
    case Throw(w) => Idle
    case Post(w) => Signalling
    case Signal(w) => Idle
  }

  lemma LoopStepChanges(s: Server, step: Step, bound: nat)
    requires Enabled(s, step, bound) && OfLoop(step)
    ensures Apply(s, step, bound).workers == s.workers && Apply(s, step, bound).capacity == s.capacity
  {
    hide Outstanding;
  }

  /** A worker's step changes that worker only, and the queues and the eventfd as listed. */
  lemma WorkerStepChanges(s: Server, step: Step, bound: nat)
    requires Enabled(s, step, bound) && !OfLoop(step)
    ensures step.w < |s.workers|
    ensures var t := Apply(s, step, bound);
            && t.capacity == s.capacity && t.loop == s.loop && t.running == s.running && t.wakeInBatch == s.wakeInBatch
            && t.workers == s.workers[step.w := NextWorker(s, step, bound)]
            && t.ready == (s.ready || step.Signal?)
            && |t.tasks| == |s.tasks| - (if step.Pop? then 1 else 0)
            && |t.pending| == |s.pending| + (if step.Post? then 1 else 0)
  {
    hide Outstanding;
  }

  lemma LoopKeepsShape(s: Server, step: Step, bound: nat)
    requires Shape(s) && Enabled(s, step, bound) && OfLoop(step)
    ensures Shape(Apply(s, step, bound))
  {
    hide Outstanding;
  }

  lemma WorkerKeepsShape(s: Server, step: Step, bound: nat)
    requires Shape(s) && Enabled(s, step, bound) && !OfLoop(step)
    ensures Shape(Apply(s, step, bound))
  {
    hide Outstanding;
  }

  lemma StepKeepsShape(s: Server, step: Step, bound: nat)
    requires Shape(s) && Enabled(s, step, bound)
    ensures Shape(Apply(s, step, bound)) && Apply(s, step, bound).capacity == s.capacity
    ensures |Apply(s, step, bound).workers| == |s.workers|
  {
    hide Shape, Apply, Enabled, NextWorker;
    if OfLoop(step) {
      LoopStepChanges(s, step, bound);
      LoopKeepsShape(s, step, bound);
    } else {
      WorkerStepChanges(s, step, bound);
      WorkerKeepsShape(s, step, bound);
    }
  }

  lemma StepKeepsResponses(s: Server, step: Step, bound: nat)
    requires Shape(s) && NoLostResponse(s) && Enabled(s, step, bound)
    ensures NoLostResponse(Apply(s, step, bound))
  {
    hide Outstanding;
    var t := Apply(s, step, bound);
    match step
    case Post(w) => assert t.workers[w].Signalling?;
    case Pop(w) => SignalsKept(s, t, w);
    case Exit(w) => SignalsKept(s, t, w);
    case Finish(w) => SignalsKept(s, t, w);
    case Throw(w) => SignalsKept(s, t, w);
    case _ =>
  }

  lemma SignalsKept(s: Server, t: Server, w: nat)
    requires w < |s.workers| == |t.workers| && t.workers == s.workers[w := t.workers[w]] && t.loop == s.loop
    requires !s.workers[w].Signalling?
    ensures SomeoneSignals(s) ==> SomeoneSignals(t)
  {
    if i :| 0 <= i < |s.workers| && s.workers[i].Signalling? {
      assert t.workers[i].Signalling?;
    }
  }

  lemma StepConserves(s: Server, step: Step, bound: nat)
    requires Conserved(s) && Enabled(s, step, bound)
    ensures Conserved(Apply(s, step, bound))
  {
    hide RunningJobs, Outstanding;
    match step
    case Submit => SubmitConserves(s);
    case Pop(w) =>
      PopConserves(s, w);
      var r, r' := RunningJobs(s.workers), RunningJobs(Apply(s, step, bound).workers);
      assert multiset(s.tasks) + (r + s.executed) == (multiset(s.tasks) + r) + s.executed;
      assert multiset(s.tasks[1..]) + (r' + s.executed) == (multiset(s.tasks[1..]) + r') + s.executed;
    case Exit(w) => QuietConserves(s, w, Exited);
    case Finish(w) => ExecutionConserves(s, w, Posting(s.workers[w].job));
    case Throw(w) => ExecutionConserves(s, w, Idle);
    case Post(w) => QuietConserves(s, w, Signalling);
    case Signal(w) => QuietConserves(s, w, Idle);
    case _ =>
  }

  lemma QuietConserves(s: Server, w: nat, next: Worker)
    requires w < |s.workers| && !s.workers[w].Running? && !next.Running?
    ensures RunningJobs(s.workers[w := next]) == RunningJobs(s.workers)
  {
    RunningUpdate(s.workers, w, next);
    var r, r' := RunningJobs(s.workers), RunningJobs(s.workers[w := next]);
    assert r' + multiset{} == r' && r + multiset{} == r;
  }

  lemma SubmitConserves(s: Server)
    requires Conserved(s) && s.loop.Submitting?
    ensures s.accepted + multiset{s.loop.job} ==
        multiset(s.tasks + [s.loop.job]) + (RunningJobs(s.workers) + s.executed)
  {
    var job, rest := multiset{s.loop.job}, RunningJobs(s.workers) + s.executed;
    assert multiset(s.tasks) + rest + job == multiset(s.tasks) + job + rest;
  }

  lemma PopConserves(s: Server, w: nat)
    requires w < |s.workers| && s.workers[w].Idle? && s.tasks != []
    ensures multiset(s.tasks[1..]) + RunningJobs(s.workers[w := Running(s.tasks[0])]) ==
        multiset(s.tasks) + RunningJobs(s.workers)
  {
    RunningUpdate(s.workers, w, Running(s.tasks[0]));
    var job, rest := multiset{s.tasks[0]}, multiset(s.tasks[1..]);
    assert s.tasks == [s.tasks[0]] + s.tasks[1..];
    assert multiset(s.tasks) == job + rest;
    var r, r' := RunningJobs(s.workers), RunningJobs(s.workers[w := Running(s.tasks[0])]);
    assert r' == r + job;
    assert rest + (r + job) == job + rest + r;
  }

  lemma ExecutionConserves(s: Server, w: nat, next: Worker)
    requires w < |s.workers| && s.workers[w].Running? && !next.Running?
    ensures RunningJobs(s.workers[w := next]) + (s.executed + multiset{s.workers[w].job}) ==
        RunningJobs(s.workers) + s.executed
  {
    RunningUpdate(s.workers, w, next);
    var job, r, r' := multiset{s.workers[w].job}, RunningJobs(s.workers), RunningJobs(s.workers[w := next]);
    assert r' + job == r;
    assert r' + (s.executed + job) == (r' + job) + s.executed;
  }

  // ---- Answers ------------------------------------------------------------

  lemma StepAnswers(s: Server, step: Step, bound: nat)
    requires Answered(s) && Enabled(s, step, bound)
    ensures Answered(Apply(s, step, bound))
  {
    hide PostingJobs, Outstanding;
    match step
    case DrainOne => DrainAnswers(s);
    case Reject => RejectAnswers(s);
    case Pop(w) => QuietAnswers(s.workers, w, Running(s.tasks[0]));
    case Exit(w) => QuietAnswers(s.workers, w, Exited);
    case Finish(w) => FinishAnswers(s, w);
    case Throw(w) => ThrowAnswers(s, w);
    case Post(w) => PostAnswers(s, w);
    case Signal(w) => QuietAnswers(s.workers, w, Idle);
    case _ =>
  }

  lemma QuietAnswers(ws: seq<Worker>, w: nat, next: Worker)
    requires w < |ws| && !ws[w].Posting? && !next.Posting?
    ensures PostingJobs(ws[w := next]) == PostingJobs(ws)
  {
    PostingUpdate(ws, w, next);
    hide PostingJobs;
    var p, p' := PostingJobs(ws), PostingJobs(ws[w := next]);
    assert p' + multiset{} == p' && p + multiset{} == p;
  }

  lemma DrainAnswers(s: Server)
    requires Answered(s) && s.pending != []
    ensures Answered(s.(pending := s.pending[1..], delivered := s.delivered + [s.pending[0]]))
  {
    hide PostingJobs;
    assert s.pending == [s.pending[0]] + s.pending[1..];
    assert multiset(s.delivered) + multiset(s.pending) ==
        multiset(s.delivered + [s.pending[0]]) + multiset(s.pending[1..]);
  }

  lemma RejectAnswers(s: Server)
    requires Answered(s) && s.loop.Rejecting?
    ensures var job := s.loop.job;
            Answered(s.(loop := SignallingReject, pending := s.pending + [job], refused := s.refused + multiset{job}))
  {
    hide PostingJobs;
    var d, p, q, t, j :=
        multiset(s.delivered), multiset(s.pending), PostingJobs(s.workers), s.thrown, multiset{s.loop.job};
    assert d + (p + j) + q + t == (d + p + q + t) + j;
  }

  lemma FinishAnswers(s: Server, w: nat)
    requires Answered(s) && w < |s.workers| && s.workers[w].Running?
    ensures var job := s.workers[w].job;
            Answered(s.(workers := s.workers[w := Posting(job)], executed := s.executed + multiset{job}))
  {
    var j := multiset{s.workers[w].job};
    PostingUpdate(s.workers, w, Posting(s.workers[w].job));
    hide PostingJobs;
    var a, q, q' :=
        multiset(s.delivered) + multiset(s.pending), PostingJobs(s.workers),
        PostingJobs(s.workers[w := Posting(s.workers[w].job)]);
    assert q' + multiset{} == q';
    assert a + (q + j) + s.thrown == (a + q + s.thrown) + j;
  }

  lemma ThrowAnswers(s: Server, w: nat)
    requires Answered(s) && w < |s.workers| && s.workers[w].Running?
    ensures var job := multiset{s.workers[w].job};
            Answered(s.(workers := s.workers[w := Idle], executed := s.executed + job, thrown := s.thrown + job))
  {
    QuietAnswers(s.workers, w, Idle);
    hide PostingJobs;
    var a, j := Answers(s), multiset{s.workers[w].job};
    assert a + (s.thrown + j) == (a + s.thrown) + j;
  }

  lemma PostAnswers(s: Server, w: nat)
    requires Answered(s) && w < |s.workers| && s.workers[w].Posting?
    ensures Answered(s.(workers := s.workers[w := Signalling], pending := s.pending + [s.workers[w].job]))
  {
    var j := multiset{s.workers[w].job};
    PostingUpdate(s.workers, w, Signalling);
    hide PostingJobs;
    var d, p, q' := multiset(s.delivered), multiset(s.pending), PostingJobs(s.workers[w := Signalling]);
    assert q' + j == PostingJobs(s.workers) + multiset{} == PostingJobs(s.workers);
    assert d + (p + j) + q' == d + p + (q' + j);
  }

  // ---- Numbers ------------------------------------------------------------

  /** Arrivals add one, deliveries and throwing tasks take one away, everything else only moves requests around. */
  lemma StepCounts(s: Server, step: Step, bound: nat)
    requires Enabled(s, step, bound)
    ensures var t := Apply(s, step, bound);
            Outstanding(t) == Outstanding(s) + (if step.Arrive? || step.ArriveBad? then 1 else 0)
                                             - (if step.DrainOne? || step.Throw? then 1 else 0)
  {
    if OfLoop(step) {
      LoopCounts(s, step, bound);
    } else {
      WorkerCounts(s, step, bound);
    }
  }

  lemma LoopCounts(s: Server, step: Step, bound: nat)
    requires Enabled(s, step, bound) && OfLoop(step)
    ensures var t := Apply(s, step, bound);
            Outstanding(t) ==
                Outstanding(s) + (if step.Arrive? || step.ArriveBad? then 1 else 0) - (if step.DrainOne? then 1 else 0)
  {
    hide Sum;
  }

  lemma WorkerCounts(s: Server, step: Step, bound: nat)
    requires Enabled(s, step, bound) && !OfLoop(step)
    ensures Outstanding(Apply(s, step, bound)) == Outstanding(s) - (if step.Throw? then 1 else 0)
  {
    WorkerStepChanges(s, step, bound);
    LoadMoves(s, step, bound);
    SumUpdate(s.workers, Carries, step.w, NextWorker(s, step, bound));
    hide Sum, Enabled, Apply, NextWorker, Carries;
  }

  /** A worker's load before and after its step. */
  lemma LoadMoves(s: Server, step: Step, bound: nat)
    requires Enabled(s, step, bound) && !OfLoop(step)
    ensures Carries(NextWorker(s, step, bound)) ==
              Carries(s.workers[step.w]) + (if step.Pop? then 1 else 0) - (if step.Post? || step.Throw? then 1 else 0)
  {
    hide Outstanding;
  }

  lemma StepKeepsCount(s: Server, step: Step, bound: nat)
    requires Shape(s) && NoStaleCount(s) && Enabled(s, step, bound)
    ensures NoStaleCount(Apply(s, step, bound))
  {
    hide Outstanding;
  }

  lemma StepKeepsInv(s: Server, step: Step, bound: nat)
    requires Inv(s, bound) && Enabled(s, step, bound)
    ensures Inv(Apply(s, step, bound), bound)
  {
    StepKeepsShape(s, step, bound);
    StepKeepsCount(s, step, bound);
    StepKeepsResponses(s, step, bound);
    StepConserves(s, step, bound);
    StepAnswers(s, step, bound);
    StepCounts(s, step, bound);
  }

  // ---- Runs ---------------------------------------------------------------

  predicate Possible(s: Server, steps: seq<Step>, bound: nat)
    decreases |steps|
  {
    steps == [] || (Enabled(s, steps[0], bound) && Possible(Apply(s, steps[0], bound), steps[1..], bound))
  }

  function After(s: Server, steps: seq<Step>, bound: nat): Server
    requires Possible(s, steps, bound)
    decreases |steps|
  {
    if steps == [] then s else After(Apply(s, steps[0], bound), steps[1..], bound)
  }

  ghost predicate Reaches(s: Server, t: Server, bound: nat) {
    exists steps :: Possible(s, steps, bound) && After(s, steps, bound) == t
  }

  lemma {:induction false} RunsKeepInv(s: Server, steps: seq<Step>, bound: nat)
    requires Inv(s, bound) && Possible(s, steps, bound)
    ensures var t := After(s, steps, bound);
            Inv(t, bound) && t.capacity == s.capacity && |t.workers| == |s.workers|
    decreases |steps|
  {
    if steps != [] {
      StepKeepsInv(s, steps[0], bound);
      StepKeepsShape(s, steps[0], bound);
      RunsKeepInv(Apply(s, steps[0], bound), steps[1..], bound);
    }
  }

  /** Whatever happens, in every reachable state no response is forgotten and every accepted task is accounted for. */
  lemma ReachableInv(workers: nat, capacity: nat, bound: nat, t: Server)
    requires Reaches(Start(workers, capacity), t, bound)
    ensures Inv(t, bound) && t.capacity == capacity && |t.workers| == workers
  {
    var steps :| Possible(Start(workers, capacity), steps, bound) && After(Start(workers, capacity), steps, bound) == t;
    StartInv(workers, capacity, bound);
    RunsKeepInv(Start(workers, capacity), steps, bound);
  }
}
