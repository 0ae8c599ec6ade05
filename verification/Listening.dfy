/**
 * The listening socket: what accept4 answers, and what an accept round leaves behind. The socket is watched
 * edge-triggered, so an event comes when a client arrives and not because clients are waiting.
 */
module Listening {

  type Fd = nat

  /** One answer of accept4; when there are no more, it would block. */
  datatype Accepted =
    | Client(fd: Fd)
    | Unwatched(fd: Fd)   // a client, whose number epoll then fails to watch
    | Aborted             // ECONNABORTED: the round ends as if no client were waiting
    | Refused             // any other error, such as too many open files

  /** The clients taken in before the round ends or throws. */
  function Clients(answers: seq<Accepted>): seq<Fd> {
    if answers != [] && answers[0].Client? then [answers[0].fd] + Clients(answers[1..]) else []
  }

  /** The answer at which the round stops. */
  function StopAt(answers: seq<Accepted>): (k: nat)
    ensures k <= |answers|
  {
    if answers != [] && answers[0].Client? then 1 + StopAt(answers[1..]) else 0
  }

  /** The round throws: after its clients comes an error that is not ECONNABORTED. */
  predicate AcceptThrows(answers: seq<Accepted>) {
    var k := StopAt(answers);
    k < |answers| && (answers[k].Unwatched? || answers[k].Refused?)
  }

  // ---- The backlog --------------------------------------------------------

  /** A connection in the backlog: a client, or one that was aborted before it was accepted. */
  datatype Arrival = Waiting(fd: Fd) | Gone

  datatype Listener = Listener(backlog: seq<Arrival>, due: bool)

  datatype Step = Arrives(fd: Fd) | Aborts(i: nat) | Round

  function AnswersOf(backlog: seq<Arrival>): seq<Accepted> {
    seq(|backlog|, i requires 0 <= i < |backlog| =>
      match backlog[i] case Waiting(fd) => Client(fd) case Gone => Aborted)
  }

  predicate Enabled(l: Listener, step: Step) {
    match step
    case Arrives(_) => true
    case Aborts(i) => i < |l.backlog|
    case Round => l.due
  }

  /** A round takes the clients up to the first aborted one, and that one. */
  function Apply(l: Listener, step: Step): Listener
    requires Enabled(l, step)
  {
    match step
    case Arrives(fd) => Listener(l.backlog + [Waiting(fd)], true)
    case Aborts(i) => l.(backlog := l.backlog[i := Gone])
    case Round =>
      var k := StopAt(AnswersOf(l.backlog));
      Listener(if k < |l.backlog| then l.backlog[k + 1..] else [], false)
  }

  /** A client waits and no event will come for it. */
  predicate Stranded(l: Listener) {
    !l.due && exists i :: 0 <= i < |l.backlog| && l.backlog[i].Waiting?
  }

  lemma {:induction false} StopAtFirst(answers: seq<Accepted>)
    ensures forall i :: 0 <= i < StopAt(answers) ==> answers[i].Client?
    ensures StopAt(answers) < |answers| ==> !answers[StopAt(answers)].Client?
    ensures |Clients(answers)| == StopAt(answers)
    ensures forall i :: 0 <= i < StopAt(answers) ==> Clients(answers)[i] == answers[i].fd
    decreases |answers|
  {
    if answers != [] && answers[0].Client? { StopAtFirst(answers[1..]); }
  }

  /** A round leaves a client waiting without an event exactly when an aborted connection was ahead of it. */
  lemma RoundStrandsIff(l: Listener)
    requires l.due
    ensures Stranded(Apply(l, Round)) <==>
              exists i, j :: 0 <= i < j < |l.backlog| && l.backlog[i].Gone? && l.backlog[j].Waiting?
  {
    var k := StopAt(AnswersOf(l.backlog));
    StopAtFirst(AnswersOf(l.backlog));
    assert forall i :: 0 <= i < k ==> AnswersOf(l.backlog)[i].Client?;
    var left := Apply(l, Round).backlog;
    if i, j :| 0 <= i < j < |l.backlog| && l.backlog[i].Gone? && l.backlog[j].Waiting? {
      assert !AnswersOf(l.backlog)[i].Client?;
      assert left[j - k - 1] == l.backlog[j];
    }
    if j :| 0 <= j < |left| && left[j].Waiting? {
      assert !AnswersOf(l.backlog)[k].Client?;
      assert l.backlog[k].Gone? && l.backlog[k + 1 + j].Waiting?;
    }
  }

  /** Such a listener can come up: the first of two clients is aborted before the round. */
  lemma StrandedInPractice()
    ensures var start, steps := Listener([], false), [Arrives(5), Aborts(0), Arrives(6), Round];
            Possible(start, steps) && After(start, steps) == Listener([Waiting(6)], false) &&
                Stranded(After(start, steps))
  {
    var l3 := Listener([Gone, Waiting(6)], true);
    assert AnswersOf(l3.backlog)[0] == Aborted && StopAt(AnswersOf(l3.backlog)) == 0;
    var l4 := Listener([Waiting(6)], false);
    assert l3.backlog[1..] == l4.backlog;
    assert Apply(l3, Round) == l4;
    assert l4.backlog[0].Waiting?;
    var l1, l2 := Listener([Waiting(5)], true), Listener([Gone], true);
    assert [] + [Waiting(5)] == l1.backlog && l1.backlog[0 := Gone] == l2.backlog &&
        l2.backlog + [Waiting(6)] == l3.backlog;
    var steps := [Arrives(5), Aborts(0), Arrives(6), Round];
    assert steps[1..][1..][1..] == [Round] && steps[1..][1..][1..][1..] == [];
    assert Possible(l4, []) && After(l4, []) == l4;
    assert Possible(l3, [Round]) && After(l3, [Round]) == l4;
    assert steps[1..][1..] == [Arrives(6), Round] && steps[1..] == [Aborts(0), Arrives(6), Round];
    assert Possible(l2, [Arrives(6), Round]) && After(l2, [Arrives(6), Round]) == l4;
    assert Possible(l1, [Aborts(0), Arrives(6), Round]) && After(l1, [Aborts(0), Arrives(6), Round]) == l4;
  }

  predicate Possible(l: Listener, steps: seq<Step>)
    decreases |steps|
  {
    steps == [] || (Enabled(l, steps[0]) && Possible(Apply(l, steps[0]), steps[1..]))
  }

  function After(l: Listener, steps: seq<Step>): Listener
    requires Possible(l, steps)
    decreases |steps|
  {
    if steps == [] then l else After(Apply(l, steps[0]), steps[1..])
  }

  /** Nobody is aborted: then nobody is ever left waiting without an event. */
  lemma {:induction false} NoneStranded(l: Listener, steps: seq<Step>)
    requires Possible(l, steps) && !Stranded(l)
    requires forall i :: 0 <= i < |l.backlog| ==> l.backlog[i].Waiting?
    requires forall i :: 0 <= i < |steps| ==> !steps[i].Aborts?
    ensures !Stranded(After(l, steps))
    decreases |steps|
  {
    if steps != [] {
      var m := Apply(l, steps[0]);
      if steps[0].Round? {
        RoundStrandsIff(l);
        StopAtFirst(AnswersOf(l.backlog));
        assert forall i :: 0 <= i < |l.backlog| ==> AnswersOf(l.backlog)[i].Client?;
        assert m.backlog == [];
      }
      NoneStranded(m, steps[1..]);
    }
  }

  /** A stranded listener stays without an event until another client arrives, however long that takes. */
  lemma {:induction false} StrandedStays(l: Listener, steps: seq<Step>)
    requires Possible(l, steps) && !l.due && forall i :: 0 <= i < |steps| ==> !steps[i].Arrives?
    ensures !After(l, steps).due && |After(l, steps).backlog| == |l.backlog|
    decreases |steps|
  {
    if steps != [] { StrandedStays(Apply(l, steps[0]), steps[1..]); }
  }
}
