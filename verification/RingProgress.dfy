/** When the ring makes progress, when it wedges, and what shutdown achieves. */
module RingProgress {
  import opened Bags
  import opened Ring

  // ---- A measure ----------------------------------------------------------

  function Weight(w: Worker): nat {
    match w
    case Exited => 0
    case Idle => 1
    case Signalling => 8
    case Posting(_) => 10
    case Running(_) => 11
  }

  function LoopRank(s: Server): nat {
    var wake := if s.wakeInBatch then 4 else 0;
    match s.loop
    case Stopped => 0
    case Joining => 1
    case Polling => 1
    case Batch => 2 + wake
    case DrainPop => 4
    case DrainRead => 5
    case SignallingReject => 9 + wake
    case Rejecting(_) => 11 + wake
    case Submitting(_) => 15 + wake
  }

  function Rank(s: Server): nat {
    LoopRank(s) + (if s.ready then 6 else 0) + 12 * |s.tasks| + Sum(s.workers, Weight) + |s.pending|
  }

  /** Everything but new arrivals, the stop signal, and a poll that returns without the wakeup being due. */
  predicate Progress(s: Server, step: Step) {
    !step.Arrive? && !step.ArriveBad? && !step.Stop? && (step.Poll? ==> s.ready)
  }

  lemma LoopLowersRank(s: Server, step: Step, bound: nat)
    requires Shape(s) && Enabled(s, step, bound) && Progress(s, step) && OfLoop(step)
    ensures Rank(Apply(s, step, bound)) < Rank(s)
  {
    hide Sum, Outstanding;
  }

  lemma WeightDrops(s: Server, step: Step, bound: nat)
    requires Enabled(s, step, bound) && !OfLoop(step)
    ensures Weight(NextWorker(s, step, bound)) + (if step.Signal? then 6 else 0) + (if step.Post? then 1 else 0)
            < Weight(s.workers[step.w]) + (if step.Pop? then 12 else 0)
  {
    hide Outstanding;
  }

  lemma WorkerLowersRank(s: Server, step: Step, bound: nat)
    requires Enabled(s, step, bound) && !OfLoop(step)
    ensures Rank(Apply(s, step, bound)) < Rank(s)
  {
    WorkerStepChanges(s, step, bound);
    WeightDrops(s, step, bound);
    SumUpdate(s.workers, Weight, step.w, NextWorker(s, step, bound));
    hide Sum, Enabled, Apply, NextWorker, Weight;
  }

  /** Every step of progress lowers the measure. */
  lemma ProgressLowersRank(s: Server, step: Step, bound: nat)
    requires Shape(s) && Enabled(s, step, bound) && Progress(s, step)
    ensures Rank(Apply(s, step, bound)) < Rank(s)
  {
    hide Shape, Rank, Apply;
    if OfLoop(step) { LoopLowersRank(s, step, bound); } else { WorkerLowersRank(s, step, bound); }
  }

  predicate AllProgress(s: Server, steps: seq<Step>, bound: nat)
    requires Possible(s, steps, bound)
    decreases |steps|
  {
    steps == [] || (Progress(s, steps[0]) && AllProgress(Apply(s, steps[0], bound), steps[1..], bound))
  }

  /** No run can make progress more often than the measure of its first state says. */
  lemma {:induction false} ProgressIsBounded(s: Server, steps: seq<Step>, bound: nat)
    requires Shape(s) && Possible(s, steps, bound) && AllProgress(s, steps, bound)
    ensures |steps| + Rank(After(s, steps, bound)) <= Rank(s)
    decreases |steps|
  {
    if steps != [] {
      ProgressLowersRank(s, steps[0], bound);
      StepKeepsShape(s, steps[0], bound);
      ProgressIsBounded(Apply(s, steps[0], bound), steps[1..], bound);
    }
  }

  // ---- Within the capacity ------------------------------------------------

  ghost predicate Quiet(s: Server, bound: nat) {
    forall step :: Enabled(s, step, bound) ==> !Progress(s, step)
  }

  lemma RoomToPost(s: Server, w: nat, bound: nat)
    requires Outstanding(s) <= bound <= s.capacity && w < |s.workers| && s.workers[w].Posting?
    ensures |s.pending| < s.capacity
  {
    SumZero(s.workers, Carries);
    hide Sum;
    assert Carries(s.workers[w]) == 1;
  }

  /** While no more is outstanding than a queue can hold, neither the loop nor a worker is ever blocked in a push. */
  lemma PushNeverBlocks(s: Server, bound: nat)
    requires Inv(s, bound) && bound <= s.capacity
    ensures s.loop.Submitting? ==> Enabled(s, Submit, bound)
    ensures s.loop.Rejecting? ==> Enabled(s, Reject, bound)
    ensures forall w :: 0 <= w < |s.workers| && s.workers[w].Posting? ==> Enabled(s, Post(w), bound)
  {
    hide Sum;
    forall w | 0 <= w < |s.workers| && s.workers[w].Posting?
        ensures |s.pending| < s.capacity { RoomToPost(s, w, bound); }
  }

  lemma QuietWorker(s: Server, w: nat, bound: nat)
    requires Quiet(s, bound) && w < |s.workers| && (s.workers[w].Posting? ==> |s.pending| < s.capacity)
    ensures s.workers[w].Idle? || s.workers[w].Exited?
    ensures s.workers[w].Idle? ==> s.tasks == [] && !s.Closed()
  {
    hide Outstanding;
    assert !Enabled(s, Finish(w), bound) && !Enabled(s, Post(w), bound) && !Enabled(s, Signal(w), bound);
    assert !Enabled(s, Pop(w), bound) && !Enabled(s, Exit(w), bound);
  }

  /** In a quiet state all workers are waiting for tasks or gone. */
  lemma QuietWorkers(s: Server, bound: nat)
    requires Inv(s, bound) && bound <= s.capacity && Quiet(s, bound)
    ensures forall w :: 0 <= w < |s.workers| ==> s.workers[w].Idle? || s.workers[w].Exited?
    ensures |s.workers| > 0 ==> s.tasks == []
    ensures s.Closed() ==> forall w :: 0 <= w < |s.workers| ==> s.workers[w].Exited?
  {
    hide Quiet, Sum, Conserved, Answered, NoLostResponse;
    forall w | 0 <= w < |s.workers|
      ensures s.workers[w].Idle? || s.workers[w].Exited?
      ensures s.tasks == [] && (s.Closed() ==> s.workers[w].Exited?)
    {
      if s.workers[w].Posting? { RoomToPost(s, w, bound); }
      QuietWorker(s, w, bound);
    }
    if |s.workers| > 0 { assert s.workers[0].Idle? || s.workers[0].Exited?; }
  }

  lemma IdleWorkersHoldNothing(ws: seq<Worker>)
    requires forall w :: 0 <= w < |ws| ==> ws[w].Idle? || ws[w].Exited?
    ensures Sum(ws, Carries) == 0 && RunningJobs(ws) == multiset{} == PostingJobs(ws)
  {
    SumZero(ws, Carries);
    GatherNothing(ws, RunningJob);
    GatherNothing(ws, PostingJob);
  }

  /** In a quiet state with idle or finished workers the loop polls with nothing to come, or has stopped. */
  lemma QuietLoop(s: Server, bound: nat)
    requires Quiet(s, bound) && (s.loop.Submitting? ==> |s.tasks| < s.capacity)
    requires (s.loop.Rejecting? ==> |s.pending| < s.capacity)
    ensures s.loop.Polling? || s.loop.Joining? || s.loop.Stopped?
    ensures s.loop.Polling? ==> !s.ready
    ensures s.loop.Joining? ==> exists w :: 0 <= w < |s.workers| && !s.workers[w].Exited?
  {
    hide Outstanding;
    assert !Enabled(s, Submit, bound) && !Enabled(s, Reject, bound) && !Enabled(s, SignalReject, bound);
    assert !Enabled(s, StartDrain, bound) && !Enabled(s, EndBatch, bound) && !Enabled(s, ReadCounter, bound);
    assert !Enabled(s, DrainOne, bound) && !Enabled(s, EndDrain, bound) && !Enabled(s, Joined, bound);
    assert s.ready ==> !Enabled(s, Poll, bound);
  }

  /**
   * With at least one worker and no more outstanding than the capacity, progress is possible, unless the
   * loop has stopped, until nothing is outstanding. Then every accepted task and every refused request
   * has had its answer delivered, once, except for the tasks that threw.
   */
  lemma QuietMeansAnswered(s: Server, bound: nat)
    requires Inv(s, bound) && bound <= s.capacity && |s.workers| > 0 && Quiet(s, bound)
    ensures s.loop.Stopped? || (s.loop.Polling? && Outstanding(s) == 0)
    ensures s.loop.Polling? ==> multiset(s.delivered) + s.thrown == s.accepted + s.refused
  {
    QuietWorkers(s, bound);
    IdleWorkersHoldNothing(s.workers);
    hide Sum, RunningJobs, PostingJobs;
    QuietLoop(s, bound);
    hide Quiet;
    if s.loop.Polling? { NothingPending(s); }
    AllAccounted(s);
  }

  lemma NothingPending(s: Server)
    requires NoLostResponse(s) && Shape(s) && s.loop.Polling? && !s.ready
    requires forall w :: 0 <= w < |s.workers| ==> s.workers[w].Idle? || s.workers[w].Exited?
    ensures s.pending == []
  {
  }

  /** With no task queued and no worker busy, what was taken in is delivered, waits to be written, or threw. */
  lemma AllAccounted(s: Server)
    requires Conserved(s) && Answered(s) && s.tasks == []
    requires RunningJobs(s.workers) == multiset{} == PostingJobs(s.workers)
    ensures multiset(s.delivered) + multiset(s.pending) + s.thrown == s.accepted + s.refused
    ensures s.executed == s.accepted
    ensures s.pending == [] ==> multiset(s.delivered) + s.thrown == s.accepted + s.refused
  {
    hide RunningJobs, PostingJobs;
    var none: multiset<Job> := multiset{};
    assert multiset(s.tasks) == none;
    assert none + (none + s.executed) == s.executed;
    var d, p := multiset(s.delivered), multiset(s.pending);
    assert d + p + none == d + p;
    if s.pending == [] { assert p == none && d + none == d; }
  }

  ghost predicate Stuck(s: Server, bound: nat) {
    Outstanding(s) > 0 && !s.loop.Stopped? && Quiet(s, bound)
  }

  ghost predicate NeverStuck(workers: nat, capacity: nat, bound: nat) {
    forall s :: Reaches(Start(workers, capacity), s, bound) ==> !Stuck(s, bound)
  }

  // ---- Reaching states ----------------------------------------------------

  lemma {:induction false} PossibleSnoc(s: Server, steps: seq<Step>, step: Step, bound: nat)
    requires Possible(s, steps, bound) && Enabled(After(s, steps, bound), step, bound)
    ensures Possible(s, steps + [step], bound)
    ensures After(s, steps + [step], bound) == Apply(After(s, steps, bound), step, bound)
    decreases |steps|
  {
    if steps == [] {
      assert [] + [step] == [step];
      assert Possible(Apply(s, step, bound), [step][1..], bound);
    } else {
      assert (steps + [step])[1..] == steps[1..] + [step];
      PossibleSnoc(Apply(s, steps[0], bound), steps[1..], step, bound);
    }
  }

  lemma ReachesSelf(s: Server, bound: nat)
    ensures Reaches(s, s, bound)
  {
    assert Possible(s, [], bound) && After(s, [], bound) == s;
  }

  /** One more step of a run. */
  lemma Do(start: Server, s: Server, step: Step, bound: nat) returns (t: Server)
    requires Reaches(start, s, bound) && Enabled(s, step, bound)
    ensures t == Apply(s, step, bound) && Reaches(start, t, bound)
    ensures Outstanding(t) == Outstanding(s) + (if step.Arrive? || step.ArriveBad? then 1 else 0)
                                             - (if step.DrainOne? || step.Throw? then 1 else 0)
  {
    var steps :| Possible(start, steps, bound) && After(start, steps, bound) == s;
    PossibleSnoc(start, steps, step, bound);
    StepCounts(s, step, bound);
    t := Apply(s, step, bound);
  }

  // ---- Past the capacity --------------------------------------------------

  predicate AllIdle(s: Server) { forall i :: 0 <= i < |s.workers| ==> s.workers[i].Idle? }

  /** k error pages posted within one batch, none drained. */
  predicate Rejected(s: Server, k: nat, workers: nat, capacity: nat) {
    && s.loop.Batch? && !s.wakeInBatch && s.capacity == capacity && |s.workers| == workers
    && AllIdle(s) && s.tasks == [] && |s.pending| == k && Outstanding(s) == k
  }

  lemma {:induction false} RejectMany(k: nat, workers: nat, capacity: nat, bound: nat) returns (s: Server)
    requires k <= capacity && k <= bound
    ensures Reaches(Start(workers, capacity), s, bound) && Rejected(s, k, workers, capacity)
  {
    var start := Start(workers, capacity);
    if k == 0 {
      StartCounts(workers);
      ReachesSelf(start, bound);
      s := Do(start, start, Poll, bound);
    } else {
      s := RejectMany(k - 1, workers, capacity, bound);
      s := Do(start, s, ArriveBad(0), bound);
      s := Do(start, s, Reject, bound);
      s := Do(start, s, SignalReject, bound);
    }
  }

  /** One request too many: the loop, the only one to drain the responses, blocks posting one itself. */
  lemma OneTooManyWedges(workers: nat, capacity: nat, bound: nat) returns (s: Server)
    requires bound > capacity
    ensures Reaches(Start(workers, capacity), s, bound) && Stuck(s, bound)
    ensures s.loop.Rejecting? && |s.pending| == capacity
  {
    var start := Start(workers, capacity);
    s := RejectMany(capacity, workers, capacity, bound);
    s := Do(start, s, ArriveBad(0), bound);
    ReachableInv(workers, capacity, bound, s);
    assert AllIdle(s);
  }

  /** The ring can wedge exactly when more requests may be outstanding than one queue holds. */
  lemma NeverStuckIff(workers: nat, capacity: nat, bound: nat)
    requires workers > 0
    ensures NeverStuck(workers, capacity, bound) <==> bound <= capacity
  {
    if bound <= capacity {
      forall s | Reaches(Start(workers, capacity), s, bound) ensures !Stuck(s, bound) {
        ReachableInv(workers, capacity, bound, s);
        if Quiet(s, bound) { QuietMeansAnswered(s, bound); }
      }
    } else {
      var s := OneTooManyWedges(workers, capacity, bound);
    }
  }

  /** The other wedge: the loop blocked in submit, both queues full, every worker blocked posting. */
  predicate FullRing(s: Server) {
    && s.loop.Submitting? && |s.tasks| == s.capacity && |s.pending| == s.capacity
    && forall i :: 0 <= i < |s.workers| ==> s.workers[i].Posting?
  }

  /** The first k workers blocked posting on a full response queue, the rest idle. */
  predicate Blocked(s: Server, k: nat, workers: nat, capacity: nat) {
    && s.loop.Batch? && !s.wakeInBatch && s.capacity == capacity && |s.workers| == workers
    && |s.pending| == capacity
    && forall i :: 0 <= i < workers ==> if i < k then s.workers[i].Posting? else s.workers[i].Idle?
  }

  /** A request comes in and worker w works on it up to the push of its response. */
  lemma WorkToPost(start: Server, s: Server, w: nat, bound: nat) returns (t: Server)
    requires Reaches(start, s, bound) && Outstanding(s) < bound
    requires s.loop.Batch? && s.tasks == [] && s.capacity > 0 && w < |s.workers| && s.workers[w].Idle?
    ensures Reaches(start, t, bound) && Outstanding(t) == Outstanding(s) + 1
    ensures t == s.(workers := s.workers[w := Posting(0)], accepted := t.accepted, executed := t.executed)
  {
    hide Reaches;
    t := Do(start, s, Arrive(0), bound);
    hide Outstanding;
    t := Do(start, t, Submit, bound);
    t := Do(start, t, Pop(w), bound);
    t := Do(start, t, Finish(w), bound);
  }

  lemma {:induction false} BlockWorkers(k: nat, workers: nat, capacity: nat, bound: nat) returns (s: Server)
    requires 1 <= capacity && k <= workers && capacity + k <= bound
    ensures Reaches(Start(workers, capacity), s, bound) && Blocked(s, k, workers, capacity)
    ensures s.tasks == [] && Outstanding(s) == capacity + k
  {
    var start := Start(workers, capacity);
    if k == 0 {
      s := RejectMany(capacity, workers, capacity, bound);
    } else {
      hide Reaches, Start, Outstanding;
      s := BlockWorkers(k - 1, workers, capacity, bound);
      s := WorkToPost(start, s, k - 1, bound);
    }
  }

  lemma {:induction false} FillTasks(k: nat, workers: nat, capacity: nat, bound: nat) returns (s: Server)
    requires 1 <= capacity && k <= capacity && capacity + workers + k <= bound
    ensures Reaches(Start(workers, capacity), s, bound) && Blocked(s, workers, workers, capacity)
    ensures |s.tasks| == k && Outstanding(s) == capacity + workers + k
  {
    var start := Start(workers, capacity);
    if k == 0 {
      s := BlockWorkers(workers, workers, capacity, bound);
    } else {
      s := FillTasks(k - 1, workers, capacity, bound);
      s := Do(start, s, Arrive(0), bound);
      s := Do(start, s, Submit, bound);
    }
  }

  lemma {:induction false} AllCarry(ws: seq<Worker>)
    requires forall i :: 0 <= i < |ws| ==> ws[i].Posting?
    ensures Sum(ws, Carries) == |ws|
    decreases |ws|
  {
    if ws != [] { AllCarry(ws[1..]); }
  }

  lemma FullRingHolds(s: Server)
    requires FullRing(s)
    ensures Outstanding(s) == 1 + 2 * s.capacity + |s.workers|
  {
    AllCarry(s.workers);
    hide Sum;
  }

  lemma FullRingIsStuck(s: Server, bound: nat)
    requires FullRing(s)
    ensures Stuck(s, bound)
  {
    hide Sum;
  }

  lemma FullRingReached(workers: nat, capacity: nat, bound: nat) returns (s: Server)
    requires capacity >= 1 && bound >= 2 * capacity + workers + 1
    ensures Reaches(Start(workers, capacity), s, bound) && FullRing(s)
  {
    hide Reaches;
    s := FillTasks(capacity, workers, capacity, bound);
    s := Do(Start(workers, capacity), s, Arrive(0), bound);
  }

  /** A full ring is reachable exactly when that many requests may be outstanding, and it is stuck. */
  lemma FullRingIff(workers: nat, capacity: nat, bound: nat)
    requires capacity >= 1
    ensures (exists s :: Reaches(Start(workers, capacity), s, bound) && FullRing(s)) <==>
        bound >= 2 * capacity + workers + 1
    ensures forall s :: FullRing(s) ==> Stuck(s, bound)
  {
    hide Reaches, Stuck, Start;
    forall s | FullRing(s) ensures Stuck(s, bound) { FullRingIsStuck(s, bound); }
    if s :| Reaches(Start(workers, capacity), s, bound) && FullRing(s) {
      ReachableInv(workers, capacity, bound, s);
      FullRingHolds(s);
    }
    if bound >= 2 * capacity + workers + 1 {
      var s := FullRingReached(workers, capacity, bound);
    }
  }

  // ---- Stop ---------------------------------------------------------------

  function Polls(steps: seq<Step>): nat {
    if steps == [] then 0 else (if steps[0].Poll? then 1 else 0) + Polls(steps[1..])
  }

  /** Whether the loop can still get to epoll_wait, once it is told to stop. */
  function PollsLeft(s: Server): nat { if s.loop.Polling? then 1 else 0 }

  lemma StoppingStep(s: Server, step: Step, bound: nat)
    requires !s.running && Enabled(s, step, bound)
    ensures var t := Apply(s, step, bound);
            !t.running && PollsLeft(t) + (if step.Poll? then 1 else 0) <= PollsLeft(s)
    ensures step.EndBatch? ==> Apply(s, step, bound).loop.Joining?
  {
    hide Outstanding;
  }

  lemma {:induction false} StoppingRun(s: Server, steps: seq<Step>, bound: nat)
    requires Possible(s, steps, bound) && !s.running
    ensures !After(s, steps, bound).running && Polls(steps) + PollsLeft(After(s, steps, bound)) <= PollsLeft(s)
    decreases |steps|
  {
    hide Enabled, Apply;
    if steps != [] {
      StoppingStep(s, steps[0], bound);
      StoppingRun(Apply(s, steps[0], bound), steps[1..], bound);
    }
  }

  /** After the stop signal the loop waits for events at most once more, on every run, and does not get back to it. */
  lemma StopIsSeen(s: Server, steps: seq<Step>, bound: nat)
    requires Possible(s, [Stop] + steps, bound)
    ensures var t := After(s, [Stop] + steps, bound);
            !t.running && Polls(steps) + (if t.loop.Polling? then 1 else 0) <= 1
  {
    assert ([Stop] + steps)[1..] == steps;
    StoppingRun(Apply(s, Stop, bound), steps, bound);
  }

  // ---- Shutdown -----------------------------------------------------------

  /** t comes after s by steps that are progress. */
  ghost predicate Proceeds(s: Server, t: Server, bound: nat) {
    exists steps :: Possible(s, steps, bound) && AllProgress(s, steps, bound) && After(s, steps, bound) == t
  }

  /** However the threads are scheduled from here, the join of the workers comes to an end. */
  ghost predicate AlwaysJoins(s: Server, bound: nat) {
    forall t :: Proceeds(s, t, bound) && Quiet(t, bound) ==> t.loop.Stopped?
  }

  predicate Leaving(s: Server) { Shape(s) && s.Closed() }

  lemma LeavingStep(s: Server, step: Step, bound: nat)
    requires Leaving(s) && Enabled(s, step, bound)
    ensures var t := Apply(s, step, bound);
            Leaving(t) && t.capacity == s.capacity && Outstanding(t) <= Outstanding(s)
            && (!step.Throw? ==> Outstanding(t) == Outstanding(s))
  {
    StepKeepsShape(s, step, bound);
    StepCounts(s, step, bound);
  }

  lemma {:induction false} LeavingRun(s: Server, steps: seq<Step>, bound: nat)
    requires Leaving(s) && Possible(s, steps, bound)
    ensures var t := After(s, steps, bound); Leaving(t) && t.capacity == s.capacity && Outstanding(t) <= Outstanding(s)
    decreases |steps|
  {
    if steps != [] {
      LeavingStep(s, steps[0], bound);
      LeavingRun(Apply(s, steps[0], bound), steps[1..], bound);
    }
  }

  /** During the join, with no more outstanding than the response queue holds, somebody can always move. */
  lemma JoinMoves(s: Server, bound: nat)
    requires Leaving(s) && Outstanding(s) <= s.capacity && Quiet(s, bound)
    ensures s.loop.Stopped?
  {
    hide Quiet, Sum;
    forall w | 0 <= w < |s.workers| ensures s.workers[w].Exited? {
      if s.workers[w].Posting? { RoomToPost(s, w, s.capacity); }
      QuietWorker(s, w, bound);
    }
    QuietLoop(s, bound);
  }

  lemma NotAllExited(s: Server)
    requires Leaving(s) && s.loop.Joining? && |s.workers| > 0 && Outstanding(s) > s.capacity
    ensures exists i :: 0 <= i < |s.workers| && !s.workers[i].Exited?
  {
    SumZero(s.workers, Carries);
    assert s.workers[0].Exited? ==> s.tasks == [];
  }

  /** With more outstanding than the response queue holds, and no task failing, the join wedges. */
  lemma {:induction false} JoinWedges(s: Server, bound: nat) returns (steps: seq<Step>)
    requires Leaving(s) && s.loop.Joining? && |s.workers| > 0 && Outstanding(s) > s.capacity
    ensures Possible(s, steps, bound) && AllProgress(s, steps, bound)
    ensures var t := After(s, steps, bound); Quiet(t, bound) && t.loop.Joining?
    decreases Rank(s)
  {
    if step :| Enabled(s, step, bound) && Progress(s, step) && !step.Throw? {
      LeavingStep(s, step, bound);
      ProgressLowersRank(s, step, bound);
      NotAllExited(s);
      var rest := JoinWedges(Apply(s, step, bound), bound);
      steps := [step] + rest;
      assert steps[1..] == rest;
    } else {
      steps := [];
      forall step | Enabled(s, step, bound) ensures !Progress(s, step) {
        if step.Throw? { assert Enabled(s, Finish(step.w), bound); }
      }
    }
  }

  /** The join in run, where nobody drains the responses, ends on every schedule exactly when they all fit the queue. */
  lemma JoinEndsIff(s: Server, bound: nat)
    requires Leaving(s) && s.loop.Joining? && |s.workers| > 0
    ensures AlwaysJoins(s, bound) <==> Outstanding(s) <= s.capacity
  {
    if Outstanding(s) <= s.capacity {
      forall t | Proceeds(s, t, bound) && Quiet(t, bound) ensures t.loop.Stopped? {
        var steps :| Possible(s, steps, bound) && AllProgress(s, steps, bound) && After(s, steps, bound) == t;
        LeavingRun(s, steps, bound);
        JoinMoves(t, bound);
      }
    } else {
      var steps := JoinWedges(s, bound);
      assert Proceeds(s, After(s, steps, bound), bound);
    }
  }

  /**
   * Once shutdown has returned every worker is gone, no task is left, and each accepted task ran exactly
   * once. Nobody drains the responses any more: the answers not yet delivered are those still pending.
   */
  lemma ShutdownDrains(workers: nat, capacity: nat, bound: nat, t: Server)
    requires workers > 0 && Reaches(Start(workers, capacity), t, bound) && t.loop.Stopped?
    ensures forall i :: 0 <= i < |t.workers| ==> t.workers[i].Exited?
    ensures t.tasks == [] && t.executed == t.accepted
    ensures multiset(t.delivered) + multiset(t.pending) + t.thrown == t.accepted + t.refused
  {
    ReachableInv(workers, capacity, bound, t);
    hide Reaches;
    assert t.workers[0].Exited?;
    IdleWorkersHoldNothing(t.workers);
    hide Sum, RunningJobs, PostingJobs;
    AllAccounted(t);
  }

  // ---- Why the counter is read first --------------------------------------

  /**
   * Were the counter read after the queue was found empty instead of before, a response posted and
   * signalled in between would be forgotten: the edge is spent on a counter of 0.
   */
  lemma ReadingLastLosesAResponse(s: Server, w: nat, bound: nat)
    requires Shape(s) && s.loop.DrainPop? && s.pending == [] && s.capacity > 0 && s.running
    requires w < |s.workers| && s.workers[w].Posting?
    requires forall i :: 0 <= i < |s.workers| && i != w ==> !s.workers[i].Signalling?
    ensures var posted := Apply(Apply(s, Post(w), bound), Signal(w), bound);
            var readLast := posted.(counter := 0, loop := Batch);
            var polling := Apply(readLast, EndBatch, bound);
            var missed := Apply(polling, Poll, bound);
            NoLostResponse(posted) && !NoLostResponse(missed)
  {
  }
}
